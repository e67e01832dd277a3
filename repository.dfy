/** The repository record the dashboard keeps for each fetched repository,
    and the normalisation applied to every fetched page. */
module Repository {

  /** A string-valued JSON field that may also be `null` or absent. */
  datatype JsString = Missing | Null | Str(value: string)

  datatype Owner = Owner(login: string, url: string)

  /** The fields of an upstream repository the dashboard copies. Timestamps
      are the already-parsed `created_at` / `updated_at` instants. */
  datatype Repo = Repo(
    id: int,
    name: string,
    language: JsString,
    visibility: JsString,
    createdAt: int,
    updatedAt: int,
    size: int,
    owner: Owner)

  const UNKNOWN_LANGUAGE: string := "Unknown"

  /** A null language becomes "Unknown"; an absent one stays absent. */
  function Normalize(item: Repo): Repo
  {
    if item.language == Null then item.(language := Str(UNKNOWN_LANGUAGE)) else item
  }

  /** The normalised copy of one fetched page: same length and order, no
      null language left, and nothing but a null language changed. */
  function NormalizePage(data: seq<Repo>): (page: seq<Repo>)
    ensures |page| == |data|
    ensures forall i :: 0 <= i < |page| ==> page[i].language != Null
    ensures forall i :: 0 <= i < |page| ==> page[i].(language := data[i].language) == data[i]
    ensures forall i :: 0 <= i < |page| && data[i].language == Null ==> page[i].language == Str(UNKNOWN_LANGUAGE)
    ensures forall i :: 0 <= i < |page| && data[i].language != Null ==> page[i] == data[i]
  {
    seq(|data|, i requires 0 <= i < |data| => Normalize(data[i]))
  }
}
