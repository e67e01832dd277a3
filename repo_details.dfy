/** The repository detail page: the conversion of a language-usage map
    (language to byte count) into percentages, and the flags that decide
    which of its three views is shown. */
module RepoDetails {
  import opened Options

  /** The sum of all values of a map, in no particular order. */
  ghost function Total(m: map<string, real>): real
    decreases |m|
  {
    if m == map[] then 0.0
    else
      var k :| k in m;
      m[k] + Total(m - {k})
  }

  /** The sum does not depend on which key is taken first. */
  lemma {:induction false} TotalRemove(m: map<string, real>, k: string)
    requires k in m
    ensures Total(m) == m[k] + Total(m - {k})
    decreases |m|
  {
    var j :| j in m && Total(m) == m[j] + Total(m - {j});
    if j != k {
      TotalRemove(m - {j}, k);
      TotalRemove(m - {k}, j);
      assert m - {j} - {k} == m - {k} - {j};
    }
  }

  /** The share `value` has in `total`, in percent. */
  function Share(value: real, total: real): real
    requires total != 0.0
  {
    value / total * 100.0
  }

  lemma ShareAdd(a: real, b: real, total: real)
    requires total != 0.0
    ensures Share(a + b, total) == Share(a, total) + Share(b, total)
  {
  }

  lemma ShareBounds(value: real, total: real)
    requires 0.0 <= value <= total && total > 0.0
    ensures 0.0 <= Share(value, total) <= 100.0
    ensures Share(total, total) == 100.0
  {
    assert value / total <= 1.0;
  }

  /** The exact percentage of each language: empty when the total is zero,
      otherwise every key kept with its share of the total times 100. */
  ghost function Percentages(usage: map<string, real>): map<string, real>
  {
    var total := Total(usage);
    if total == 0.0 then map[] else Shares(usage, total)
  }

  /** `convertToPercentages`, without the rounding to two decimals: the
      values are summed, and a fresh map receives each language's share. */
  method ConvertToPercentages(languageUsage: map<string, real>) returns (percentages: map<string, real>)
    ensures percentages == Percentages(languageUsage)
  {
    var total := 0.0;
    var pending := languageUsage.Keys;
    assert languageUsage - (languageUsage.Keys - pending) == languageUsage;
    while pending != {}
      invariant pending <= languageUsage.Keys
      invariant total + Total(languageUsage - (languageUsage.Keys - pending)) == Total(languageUsage)
      decreases pending
    {
      var language :| language in pending;
      var rest := languageUsage - (languageUsage.Keys - pending);
      TotalRemove(rest, language);
      assert rest - {language} == languageUsage - (languageUsage.Keys - (pending - {language}));
      total := total + languageUsage[language];
      pending := pending - {language};
    }
    assert languageUsage - (languageUsage.Keys - {}) == map[];
    if total == 0.0 {
      return map[];
    }
    percentages := map[];
    var entries := languageUsage.Keys;
    while entries != {}
      invariant entries <= languageUsage.Keys
      invariant percentages.Keys == languageUsage.Keys - entries
      invariant forall k :: k in percentages ==> percentages[k] == Share(languageUsage[k], total)
      decreases entries
    {
      var language :| language in entries;
      percentages := percentages[language := Share(languageUsage[language], total)];
      entries := entries - {language};
    }
  }

  /** A zero total, the empty map included, gives the empty map. */
  lemma PercentagesOfZeroTotal(usage: map<string, real>)
    requires Total(usage) == 0.0
    ensures Percentages(usage) == map[]
  {
  }

  /** A non-zero total keeps exactly the input's languages, each with its
      value divided by the total, times 100. */
  lemma PercentagesOfNonZeroTotal(usage: map<string, real>)
    requires Total(usage) != 0.0
    ensures Percentages(usage).Keys == usage.Keys
    ensures forall k :: k in usage ==> Percentages(usage)[k] == usage[k] / Total(usage) * 100.0
  {
  }

  lemma {:induction false} TotalNonNegative(m: map<string, real>)
    requires forall k :: k in m ==> m[k] >= 0.0
    ensures Total(m) >= 0.0
    decreases |m|
  {
    if m != map[] {
      var k :| k in m;
      TotalRemove(m, k);
      TotalNonNegative(m - {k});
    }
  }

  /** Every value of `m` replaced by its share of `total`. */
  function Shares(m: map<string, real>, total: real): (r: map<string, real>)
    requires total != 0.0
    ensures r.Keys == m.Keys
  {
    map k | k in m :: Share(m[k], total)
  }

  /** Taking shares commutes with removing a key. */
  lemma SharesRemove(m: map<string, real>, total: real, k: string)
    requires total != 0.0 && k in m
    ensures Shares(m, total) - {k} == Shares(m - {k}, total)
    ensures Shares(m, total)[k] == Share(m[k], total)
  {
  }

  /** Taking every value's share of `total` takes the share of the sum. */
  lemma {:induction false} TotalOfShares(m: map<string, real>, total: real)
    requires total != 0.0
    ensures Total(Shares(m, total)) == Share(Total(m), total)
    decreases |m|
  {
    if m != map[] {
      var k :| k in m;
      var rest := m - {k};
      calc {
        Total(Shares(m, total));
        { TotalRemove(Shares(m, total), k); }
        Shares(m, total)[k] + Total(Shares(m, total) - {k});
        { SharesRemove(m, total, k); }
        Share(m[k], total) + Total(Shares(rest, total));
        { TotalOfShares(rest, total); }
        Share(m[k], total) + Share(Total(rest), total);
        { ShareAdd(m[k], Total(rest), total); }
        Share(m[k] + Total(rest), total);
        { TotalRemove(m, k); }
        Share(Total(m), total);
      }
    } else {
      assert Shares(m, total) == map[];
    }
  }

  /** With non-negative byte counts and a positive total, every percentage
      lies between 0 and 100 and together they make 100. */
  lemma PercentagesBoundedAndComplete(usage: map<string, real>)
    requires forall k :: k in usage ==> usage[k] >= 0.0
    requires Total(usage) > 0.0
    ensures forall k :: k in Percentages(usage) ==> 0.0 <= Percentages(usage)[k] <= 100.0
    ensures Total(Percentages(usage)) == 100.0
  {
    var total := Total(usage);
    forall k | k in usage ensures 0.0 <= Share(usage[k], total) <= 100.0 {
      TotalRemove(usage, k);
      TotalNonNegative(usage - {k});
      ShareBounds(usage[k], total);
    }
    TotalOfShares(usage, total);
    ShareBounds(total, total);
  }

  /** The repository attributes the detail page shows. */
  datatype RepoInfo = RepoInfo(name: string, visibility: string, languagesUrl: string)

  /** Which of its three views the detail page renders. */
  datatype DetailsView = Loading | PrivateNotice | Details(info: RepoInfo, languages: Option<map<string, real>>)

  /** The detail page's state: the two fetched values and the error flag. */
  class RepoDetailsState {
    var repoDetails: Option<RepoInfo>
    var languages: Option<map<string, real>>
    var isRepoPrivate: bool

    constructor ()
      ensures repoDetails == None && languages == None && !isRepoPrivate
      ensures View() == Loading
    {
      repoDetails, languages, isRepoPrivate := None, None, false;
    }

    /** The loading view until details arrive or a request fails; the
        private notice once one failed; the details otherwise. */
    function View(): (v: DetailsView)
      reads this
      ensures v == Loading <==> repoDetails.None? && !isRepoPrivate
      ensures v == PrivateNotice <==> isRepoPrivate
      ensures v.Details? ==> v.info == repoDetails.value && v.languages == languages
    {
      if repoDetails == None && !isRepoPrivate then Loading
      else if isRepoPrivate then PrivateNotice
      else Details(repoDetails.value, languages)
    }

    /** `fetchRepoDetails`, once its requests have resolved. The details
        request resolves to `details`; only when it succeeded is the
        languages URL it names requested, resolving to `usage`. Returns that
        URL when it was requested. */
    method FetchRepoDetails(details: Option<RepoInfo>, usage: Option<map<string, real>>)
      returns (languagesRequest: Option<string>)
      modifies this
      ensures languagesRequest == if details.Some? then Some(details.value.languagesUrl) else None
      ensures details.None? || usage.None? ==>
                isRepoPrivate && repoDetails == old(repoDetails) && languages == old(languages)
      ensures details.Some? && usage.Some? ==>
                && isRepoPrivate == old(isRepoPrivate)
                && repoDetails == details
                && languages == Some(Percentages(usage.value))
      ensures details.None? || usage.None? ==> View() == PrivateNotice
      ensures details.Some? && usage.Some? && !old(isRepoPrivate) ==>
                View() == Details(details.value, Some(Percentages(usage.value)))
    {
      languagesRequest := None;
      if details.None? {
        isRepoPrivate := true;
        return;
      }
      languagesRequest := Some(details.value.languagesUrl);
      if usage.None? {
        isRepoPrivate := true;
        return;
      }
      repoDetails := details;
      var percentages := ConvertToPercentages(usage.value);
      languages := Some(percentages);
    }
  }
}
