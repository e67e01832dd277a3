# GitHub dashboard: verified model of its view logic

This project models, in Dafny, the logic of a GitHub repository dashboard.
The dashboard has a React client and an Express proxy server. The model covers five pieces:

- **Repository list** (`Dashboard.tsx`). Pages of repositories arrive from
  the proxy and are normalised: a `null` language becomes `"Unknown"`. They
  are appended to the accumulated `repos` unless the response has status 401.
  An empty page marks the end of data. The rendered list (`filterdData`,
  called `filteredData` here) is either a case-insensitive search over `repos`
  or a sorted copy of `repos`. There are three sort orders: by name, newest
  created first, and newest updated first.
- **Language percentages** (`RepoDetails.tsx`). A map from language to
  byte count becomes a map from language to percentage, with a guard for a
  zero total. The same file holds the detail page's choice between its
  loading view, its private-repository notice and its details view.
- **Proxy routes** (`server.js`). `/fetch-repos` pages by ten. `/create-repo`
  validates the body and fills in defaults. `/user` and `/repo/:id` forward
  the request. Each of these four routes forwards the client's credential as `token …`.
- **AI code-review panel** (`AICodeReview.tsx`). Four state fields, three
  handlers, and the choice of what the panel shows.
- **Show-tags reducer** (`toggleShowTagReducer.ts`).

The model takes the form of the code. Component state that handlers
overwrite becomes a class whose methods are those handlers:
`Dashboard.DashboardState`, `RepoDetails.RepoDetailsState` and
`AICodeReview.CodeReviewPanel`. List operations, route handlers and the
reducer become functions. The dashboard's transitions are also written as
pure functions on a `ViewState` value, and each class method is proved to
implement one of them. `Dashboard.Step` composes these functions the way
React schedules them. An event runs its handler or effect first. Then the
sort effect runs again if `repos` or the sort order changed, because those
are the effect's dependencies. Lemmas about runs of events (`Dashboard.Run`)
are stated on the pure functions.

The code behaves differently from an idealised design in several ways, and
the model follows the code:

- `repos` is never deduplicated by `id`. A refresh that succeeds appends
  the current page again (`RefreshDuplicatesPage`).
- Refresh does not clear `repos`.
- An empty first page leaves the loading flag set
  (`EmptyFirstPageKeepsLoading`). From then on no page change clears it.
  Only a refresh whose response is non-empty or fails clears it
  (`LoadingClearedOnlyByRefresh`).
- `isFetching` is cleared only by an empty page.
- The empty-page test comes before the 401 test. So an empty 401 response
  still marks the end of data.
- The search runs over `repos`, not over the sorted list. The next accepted
  page replaces the search result with the sorted copy of all of `repos`
  (`AcceptedPageDiscardsSearch`).

JavaScript's `Array.prototype.sort` is stable, as section 23.1.3.30 of
ECMA-262 (2023 edition) requires. The model sorts by insertion sort. It
proves the result sorted, a permutation of the input, and stable. It also
proves that only one list has all three properties
(`RepoView.SortedViewIsOnlyStableResult`). So the model's sorted copy is the
list any conforming engine produces.

## Model

| member | source | states |
|---|---|---|
| `Text.ContainsIffOccurs` | client/src/components/Home/Dashboard.tsx:97-101 | `includes` holds exactly when the term occurs at some offset of the field |
| `Text.ContainsEmpty` | client/src/components/Home/Dashboard.tsx:97 | every string contains the empty term |
| `Text.CodeUnitLeqTotal` | client/src/components/Home/Dashboard.tsx:70 | the name comparator compares every two names |
| `Text.CodeUnitLeqTransitive` | client/src/components/Home/Dashboard.tsx:70 | the name comparator is transitive |
| `Seqs.Filter` | client/src/components/Home/Dashboard.tsx:95-102 | `filter` keeps only elements satisfying the predicate, and keeps every copy of each such value |
| `Seqs.FilterIsSubsequence` | client/src/components/Home/Dashboard.tsx:95-102 | what `filter` keeps is in input order |
| `Seqs.FilterKeepsAll` | client/src/components/Home/Dashboard.tsx:95-102 | a predicate true of every element keeps the whole list |
| `Seqs.FilterCongruent` | client/src/components/Home/Dashboard.tsx:95-102 | predicates agreeing on the elements filter alike |
| `Seqs.FilterAppend` | client/src/components/Home/Dashboard.tsx:95-102 | filtering a concatenation is concatenating the filtered parts |
| `StableSort.SortBy` | client/src/components/Home/Dashboard.tsx:66-84 | the sorted copy is a permutation of the input |
| `StableSort.SortBySorted` | client/src/components/Home/Dashboard.tsx:66-84 | with a consistent comparator the copy is in comparator order |
| `StableSort.SortByStable` | client/src/components/Home/Dashboard.tsx:66-84 | elements the comparator ties keep their input order |
| `StableSort.SortByKeepsTies` | client/src/components/Home/Dashboard.tsx:66-84 | the elements tied with any element appear in input order |
| `StableSort.SortBySortedIsIdentity` | client/src/components/Home/Dashboard.tsx:66-84 | sorting an already sorted list changes nothing |
| `StableSort.SortByIdempotent` | client/src/components/Home/Dashboard.tsx:66-84 | sorting twice equals sorting once |
| `StableSort.SortedTiesDetermine` | client/src/components/Home/Dashboard.tsx:66-84 | two sorted lists with the same tie classes in the same order are equal |
| `StableSort.StableSortIsUnique` | client/src/components/Home/Dashboard.tsx:66-84 | any sorted, stable result equals the insertion sort's |
| `Repository.NormalizePage` | client/src/components/Home/Dashboard.tsx:124-146 | same length and order, no null language, null becomes "Unknown", every other field as received |
| `RepoView.FilterRepos` | client/src/components/Home/Dashboard.tsx:93-104 | a record is kept iff the lower-cased term occurs in its lower-cased name, visibility or language; null/absent fields never match; the result is an order-preserving selection from `repos` keeping all copies |
| `RepoView.FilterEmptyTermKeepsAll` | client/src/components/Home/Dashboard.tsx:95-101 | the empty term returns `repos` unchanged |
| `RepoView.SearchIgnoresCase` | client/src/components/Home/Dashboard.tsx:97-101 | terms that lower-case alike give the same result |
| `RepoView.FilterAfterAppend` | client/src/components/Home/Dashboard.tsx:95-102 | searching after an append is the old result followed by the page's matches |
| `RepoView.SearchExamplePython` | client/src/components/Home/Dashboard.tsx:101 | the term "PY" finds language "Python" |
| `RepoView.OrderLeqIsTotalPreorder` | client/src/components/Home/Dashboard.tsx:68-84 | each of the three comparators is a consistent total preorder |
| `RepoView.SortedView` | client/src/components/Home/Dashboard.tsx:65-91 | a permutation of `repos`; order 0 by name ascending, 1 by creation time descending, 2 by update time descending; any other order leaves `repos` as accumulated |
| `RepoView.SortedViewStable` | client/src/components/Home/Dashboard.tsx:68-84 | records tied under the chosen order keep accumulation order |
| `RepoView.SortedViewIsOnlyStableResult` | client/src/components/Home/Dashboard.tsx:68-84 | any stable sort by the same comparator yields exactly `SortedView` |
| `RepoView.SortedViewIdempotent` | client/src/components/Home/Dashboard.tsx:65-91 | re-sorting the sorted copy changes nothing |
| `Dashboard.AfterFetch` | client/src/components/Home/Dashboard.tsx:106-160 | empty page: last page set, fetching cleared, nothing else changed; non-401 page appended (normalised) to both lists; 401 or thrown: lists unchanged; loading cleared unless empty; consistency kept |
| `Dashboard.AfterPageEffect` | client/src/components/Home/Dashboard.tsx:162-167 | after the last page nothing changes; otherwise fetching is raised unless loading, and the fetch is applied |
| `Dashboard.AfterRefresh` | client/src/components/Home/Dashboard.tsx:169-172 | raises loading and re-fetches without clearing `repos`; a successful refresh appends the page again; an empty page leaves loading on |
| `Dashboard.AfterSort` | client/src/components/Home/Dashboard.tsx:65-91 | the rendered list becomes a permutation of `repos`, nothing else changes |
| `Dashboard.AfterSearch` | client/src/components/Home/Dashboard.tsx:93-104 | the rendered list becomes the matches of `repos` in order, nothing else changes |
| `Dashboard.Request` | client/src/components/Home/Dashboard.tsx:162-172 | a page change fetches the new page unless the last page was reached; a refresh always fetches the current page |
| `Dashboard.Settle` | client/src/components/Home/Dashboard.tsx:65-91 | the sort effect, which depends on `repos` and the sort order, re-runs after a transition that changed either, and the rendered list becomes the sorted copy of `repos`; otherwise nothing more happens |
| `Dashboard.Step` | client/src/components/Home/Dashboard.tsx:65-172 | an event's handler or effect followed by the sort effect: a page change to the current page does nothing; only a page change moves the page, and only a sort-order change changes the order; sort and search leave `repos` alone; a search shows exactly the matching records; whenever `repos` or the order changed, the sorted copy is shown |
| `Dashboard.Mount` | client/src/components/Home/Dashboard.tsx:162-167 | the state after the first render's effects, given the first page's response: `repos` holds the normalised page when it was accepted and is empty otherwise; the sorted copy is shown; fetching is off; loading and the end of data are both set exactly when the page was empty |
| `Dashboard.StepConsistent` | client/src/components/Home/Dashboard.tsx:65-172 | every event keeps the rendered list within `repos` and every stored language non-null |
| `Dashboard.RunConsistent` | client/src/components/Home/Dashboard.tsx:65-172 | the same holds after any sequence of events |
| `Dashboard.RunKeepsAccumulated` | client/src/components/Home/Dashboard.tsx:148-150 | `repos` is only ever extended at the end: never cleared, reordered or deduplicated |
| `Dashboard.LastPageIsFinal` | client/src/components/Home/Dashboard.tsx:119-167 | once the last page is reached it stays reached and no page change fetches again |
| `Dashboard.AcceptedPageDiscardsSearch` | client/src/components/Home/Dashboard.tsx:65-91 | after an accepted page the sort effect replaces any search result by the sorted copy of all of `repos` |
| `Dashboard.EmptyFirstPageKeepsLoading` | client/src/components/Home/Dashboard.tsx:119-123 | an empty first page leaves the loading flag set and records the end of data |
| `Dashboard.LoadingClearedOnlyByRefresh` | client/src/components/Home/Dashboard.tsx:119-172 | once the end of data is recorded while loading, page changes, sorts and searches leave loading and the end of data set; a refresh clears loading exactly when its response is not an empty page |
| `Dashboard.RefreshDuplicatesPage` | client/src/components/Home/Dashboard.tsx:169-172 | refreshing the page just appended appends it again, so `repos` holds two records with one `id` |
| `Dashboard.PageChangedOutcome` | client/src/components/Home/Dashboard.tsx:162-167 | a change to a new page before the end fetches it, and it is the last page iff the response was empty |
| `Dashboard.ThreePageSession` | client/src/components/Home/Dashboard.tsx:119-167 | pages of 2, 2 and 0 records give 4 records, the end of data, and no request for a fourth page |
| `Dashboard.DashboardState.constructor` | client/src/components/Home/Dashboard.tsx:38-44 | empty lists, loading on, fetching and last page off |
| `Dashboard.DashboardState.SortEffect` | client/src/components/Home/Dashboard.tsx:65-91 | implements `AfterSort` |
| `Dashboard.DashboardState.HandleFilter` | client/src/components/Home/Dashboard.tsx:93-104 | implements `AfterSearch` |
| `Dashboard.DashboardState.FetchRepositories` | client/src/components/Home/Dashboard.tsx:106-160 | implements `AfterFetch` |
| `Dashboard.DashboardState.PageEffect` | client/src/components/Home/Dashboard.tsx:162-167 | implements `AfterPageEffect` and returns the requested page, none after the last page |
| `Dashboard.DashboardState.RefreshAllHandler` | client/src/components/Home/Dashboard.tsx:169-172 | implements `AfterRefresh` and requests the current page |
| `RepoDetails.TotalRemove` | client/src/components/Home/RepoDetails.tsx:22-25 | the sum of the values does not depend on the order they are added in |
| `RepoDetails.ConvertToPercentages` | client/src/components/Home/RepoDetails.tsx:19-36 | the result is `Percentages(input)`: empty for a zero total, otherwise each language's share times 100, in a fresh map |
| `RepoDetails.PercentagesOfZeroTotal` | client/src/components/Home/RepoDetails.tsx:22-26 | a zero total, the empty map included, gives the empty map |
| `RepoDetails.PercentagesOfNonZeroTotal` | client/src/components/Home/RepoDetails.tsx:28-33 | a non-zero total keeps exactly the input's languages, each with value / total * 100 |
| `RepoDetails.TotalNonNegative` | client/src/components/Home/RepoDetails.tsx:22-25 | non-negative byte counts have a non-negative total |
| `RepoDetails.TotalOfShares` | client/src/components/Home/RepoDetails.tsx:29-33 | the shares of the values sum to the share of their total |
| `RepoDetails.PercentagesBoundedAndComplete` | client/src/components/Home/RepoDetails.tsx:22-33 | with non-negative counts and a positive total every percentage is in [0, 100] and they sum to 100 |
| `RepoDetails.RepoDetailsState.constructor` | client/src/components/Home/RepoDetails.tsx:11-13 | no details, no languages, no error; the loading view |
| `RepoDetails.RepoDetailsState.View` | client/src/components/Home/RepoDetails.tsx:61-77 | the loading view exactly when there are no details and no error; the private notice exactly when the error flag is set; otherwise the stored details and languages |
| `RepoDetails.RepoDetailsState.FetchRepoDetails` | client/src/components/Home/RepoDetails.tsx:38-77 | the languages URL is requested only after the details arrive; a failure of either request sets the private flag and the private notice shows; success stores the details and the percentages and shows them unless the flag was already set |
| `Server.AuthorizationHeader` | server/server.js:58-61 | the upstream header is "token " followed by the client's header |
| `Server.FetchReposStep` | server/server.js:54-66 | a GET with no body whose query string asks for 10 per page, and for the client's page when it is truthy, otherwise page 1 |
| `Server.CreateRepoStep` | server/server.js:91-115 | 400 with the fixed error iff name or visibility is falsy, with no upstream call; otherwise `private` iff visibility is "private", description defaults to "", auto_init to false, allow_forking to true only when absent |
| `Server.FetchReposReply` | server/server.js:67-71 | 200 with GitHub's page unchanged, or 500 with the fixed error |
| `Server.UserStep` | server/server.js:75-81 | a GET of the GitHub user endpoint with the token header, no query string and no body |
| `Server.UserReply` | server/server.js:83-88 | 200 with the user record unchanged, or 500 with the fixed error |
| `Server.CreateRepoReply` | server/server.js:116-131 | 201 with the created repository, or 500 with the fixed error and GitHub's own response data as details |
| `Server.RepoDetailStep` | server/server.js:134-145 | a GET of `/repositories/<id>` with the token header, no query string and no body |
| `Server.RepoDetailReply` | server/server.js:147-154 | 200 with the repository unchanged, or 500 with the fixed message and the error's own message |
| `Server.Handle` | server/server.js:54-155 | every upstream call goes to the GitHub API; only the create route posts, and only it sends a JSON body; only the listing route sends a query string |
| `Server.Reply` | server/server.js:54-155 | 500 exactly on a failed upstream call; on success the upstream data reaches the client unchanged |
| `Server.UpstreamCallsCarryToken` | server/server.js:54-155 | every upstream call of every route sends the token header |
| `Server.AnsweredWithoutUpstreamCall` | server/server.js:94-98 | only an incomplete create request is answered at once, and with 400 |
| `Server.ReplyStatus` | server/server.js:54-155 | an upstream failure gives 500 with the route's fixed error text; success gives 201 for a creation and 200 otherwise |
| `Server.AllowForkingDefault` | server/server.js:108 | an explicit `false` is preserved; `true` is sent iff the field was absent or `true` |
| `AICodeReview.CodeReviewPanel.constructor` | client/src/components/Home/AICodeReview/AICodeReview.tsx:7-10 | empty input and response, both flags off; the input area and the prompt show |
| `AICodeReview.CodeReviewPanel.HandleInputChange` | client/src/components/Home/AICodeReview/AICodeReview.tsx:13-17 | sets `input` and nothing else |
| `AICodeReview.CodeReviewPanel.BeginGetReview` | client/src/components/Home/AICodeReview/AICodeReview.tsx:20-26 | raises both flags and sends the current input as the snippet; the skeleton shows and the input area hides |
| `AICodeReview.CodeReviewPanel.ResolveGetReview` | client/src/components/Home/AICodeReview/AICodeReview.tsx:27-28 | stores the review and ends loading, still reviewing; the panel shows the review if non-empty, else the prompt |
| `AICodeReview.CodeReviewPanel.HandleReviewAnother` | client/src/components/Home/AICodeReview/AICodeReview.tsx:32-36 | clears input, response and reviewing, leaves loading as it was |
| `AICodeReview.CodeReviewPanel.Panel` | client/src/components/Home/AICodeReview/AICodeReview.tsx:43-56 | the skeleton exactly while loading; otherwise the review when it is non-empty, else the prompt |
| `AICodeReview.CodeReviewPanel.ShowsInputArea` | client/src/components/Home/AICodeReview/AICodeReview.tsx:61-94 | the text area and its button show exactly when not reviewing; otherwise the "review another" button shows |
| `AICodeReview.ReviewAnotherWhileLoading` | client/src/components/Home/AICodeReview/AICodeReview.tsx:20-56 | "review another" pressed while loading, followed by a non-empty review: the review shows together with the input area |
| `AICodeReview.ReviewSession` | client/src/components/Home/AICodeReview/AICodeReview.tsx:13-61 | typing, asking and receiving a review sends what was typed and shows the review without the input area |
| `AICodeReview.RejectedReviewStaysLoading` | client/src/components/Home/AICodeReview/AICodeReview.tsx:20-36 | after a rejected request the skeleton stays, also after "review another", until a later request resolves |
| `ShowTags.ToggleShowTagReducer` | client/src/redux/reducers/toggleShowTagReducer.ts:5-17 | a toggle yields the negated payload; any other action keeps the state, `true` when there is none |
| `ShowTags.ToggleIgnoresState` | client/src/redux/reducers/toggleShowTagReducer.ts:11-12 | a toggle yields the negated payload whatever the state |
| `ShowTags.ToggleTwiceIsToggleOnce` | client/src/redux/reducers/toggleShowTagReducer.ts:11-12 | the same toggle applied twice gives the state it gives once |
| `ShowTags.OtherActionsKeepState` | client/src/redux/reducers/toggleShowTagReducer.ts:3-15 | other actions return the state, `true` when none is given |

## Left out

- Rendering (JSX, CSS classes, icons, spinners, dark mode), the search-box hotkey and navigation (`addRepoHandler`) are presentation. Only the flag-based view choices are modelled.
- Network I/O is not modelled. This covers `fetch`/`axios` calls, reading the token from `localStorage`, and the OAuth redirect and code exchange (`/auth/github`, `/auth/github/callback`). It also covers the `/codeReview` route with its Gemini call, and the Express/CORS setup and `app.listen`. Responses are parameters of the transitions and functions that consume them.
- `console.log`, `console.error` and `alert` are side effects with no bearing on state.
- React scheduling is not modelled. Each handler or effect is one atomic transition. Races between stale responses and later events, and React's batching of updates, are not modelled.
- `handleGetReview` is split at its `await`: `BeginGetReview` and `ResolveGetReview`. A rejected request is modelled by never calling the second half.
- `toFixed(2)`/`parseFloat` rounding in `convertToPercentages` is IEEE-754 arithmetic. Percentages are exact reals before rounding. The byte counts are reals too.
- `created_at`/`updated_at` are already-parsed integers. Dates that fail to parse (a comparator returning NaN) are not modelled.
- `localeCompare` collation is replaced by lexicographic order on character codes. `toLowerCase` is modelled for ASCII letters only.
- A repository record carries `id`, `name`, `language`, `visibility`, the two timestamps, `size` and `owner`. The other fields the page mapping copies are not modelled. A record without `owner` makes the mapping throw; that case is part of the `Thrown` response.
- A response body that is not an array makes the code throw, so it is modelled as the `Thrown` response. This includes the proxy's `{error}` body.
- The client's own request headers are not modelled. The dashboard's request is reduced to the page it asks for.
- JavaScript `NaN` and `-0` are not modelled as values of `JsValue`.
- The value of `TOGGLE_SHOW_TAGS` is defined in `client/src/redux/actions`, which is not part of this model. It is taken to be the string "TOGGLE_SHOW_TAGS".
- The other store slices (sorting order, tag and size visibility, dark mode) and their reducers are not part of this model. The sorting order is an input of the dashboard state.
- `RepoDetails` does not model the `if (id)` guard on the effect or the `Number(id)` conversion. A second fetch for another id is modelled by calling `FetchRepoDetails` again.
