# Paginated search engine of github-recyclerviews, in Dafny

This project models the two repository-layer classes of the Android client
github-recyclerviews: `GithubRepository` (repository search) and `IssueRepository`
(the issues of one repository). Each keeps an append-only in-memory cache of what the
GitHub API returned, a 1-based page counter (`lastRequestedPage`), a request gate
(`isRequestInProgress`), a last-page latch (`lastpage`) and filter state (`searchFilter`,
plus `openFilter`/`closedFilter` for issues). Every change re-derives a filtered view of the
cache and offers it to a conflated results channel as `Success(list)`, or offers
`Error(cause)` when a request fails.

Files, one module each:

- `Wrappers.dfy`: `Option`, for Kotlin's nullable values.
- `Text.dfy`: `contains(other, ignoreCase = true)` over an ASCII case fold, proved equal to
  "the needle occurs at some offset, up to case".
- `Seqs.dfy`: Kotlin's `filter` on a list, with its properties (exact selection with
  multiplicities, order, distribution over appending a page, idempotence).
- `Pager.dfy`: what the service can answer (`FetchOutcome`, a null response reading as an
  empty page), the published envelope, the requests sent, and the cursor (cache, page,
  latch) step functions `Save`, `Start`, `More`, `Retry`; lemmas over whole sessions.
- `RepoSearch.dfy`: `Repo`, `ReposByName` and the class `GithubRepository`.
- `IssueSearch.dfy`: `Issue`, `Owner`, `ReposByState` with its open/closed truth table, and
  the class `IssueRepository`.

The classes keep the source's fields. The network call is a parameter of type
`FetchOutcome`; a ghost log `requests` records every request sent (with its page number) and
a ghost log `offers` every value offered, with `lastPublished` the value the conflated channel
holds. `requestAndSaveData` is split at its suspension point into `Request` (close the gate,
send the request) and `SaveData` (handle the answer, reopen the gate), so that a filter change
made while a request is in flight can be expressed. Each class's `Valid()` says that whenever
no request is in flight, a published success is exactly the filtered view of the current cache.

Behaviour of the code that a naive reading of it gets wrong, modelled as the code has it:

- The page counter advances after a successful but empty page, too (`IssueRepository.kt:122`
  with `:84-85`); the latch then stops further `requestMore` calls.
- Filter setters store their value even while a request is in flight and only skip publishing
  (`IssueRepository.kt:89-105`). The in-flight request's own publication therefore already uses
  the new filter, not the one in force when it began (`IssueSearch.SearchWhileRequesting`).
- `retry` ignores the latch and never advances the page (`IssueRepository.kt:107-110`).
- Starting a stream does not look at the gate (`IssueRepository.kt:67-74`).
- The query string never reaches the service: the repository engine sends `"all"` as the first
  argument of `searchRepos`, and the issue engine sends the repository URL and `"all"` as the
  state argument of `getIssues`.

## Model

| member | source | states |
|---|---|---|
| Text.ContainsIgnoreCase | app/src/main/java/com/dacode/android/kotlin/githubapi/data/GithubRepository.kt:123 | `contains(…, true)` holds exactly when the needle occurs at some offset of the text, characters compared up to case |
| Text.ContainsEmpty | app/src/main/java/com/dacode/android/kotlin/githubapi/data/GithubRepository.kt:122-126 | the empty filter is contained in every string, which is why the empty-filter shortcut agrees with filtering |
| Text.ContainsIgnoresCase | app/src/main/java/com/dacode/android/kotlin/githubapi/data/IssueRepository.kt:140 | folding text and filter to small letters first does not change the answer |
| Seqs.Filter | app/src/main/java/com/dacode/android/kotlin/githubapi/data/GithubRepository.kt:123 | `filter` returns no more elements than the list has, every one of them from the list and matching, and every matching element of the list |
| Seqs.FilterIsSubsequence | app/src/main/java/com/dacode/android/kotlin/githubapi/data/IssueRepository.kt:154 | the filtered list keeps cache order: it is a subsequence of the cache |
| Seqs.FilterCount | app/src/main/java/com/dacode/android/kotlin/githubapi/data/IssueRepository.kt:154 | a matching element occurs as often in the filtered list as in the cache, any other never |
| Seqs.FilterAppend | app/src/main/java/com/dacode/android/kotlin/githubapi/data/IssueRepository.kt:123-124 | filtering the cache after `addAll(page)` is the old filtered cache followed by the filtered page |
| Seqs.FilterKeepsAll | app/src/main/java/com/dacode/android/kotlin/githubapi/data/IssueRepository.kt:153-156 | when every element matches, the filtered list is the list itself |
| Seqs.FilterDropsAll | app/src/main/java/com/dacode/android/kotlin/githubapi/data/IssueRepository.kt:150-151 | when no element matches, the filtered list is empty |
| Seqs.FilterAgree | app/src/main/java/com/dacode/android/kotlin/githubapi/data/IssueRepository.kt:138-158 | two conditions that agree on every cached element give the same filtered list |
| Seqs.FilterIdempotent | app/src/main/java/com/dacode/android/kotlin/githubapi/data/GithubRepository.kt:122-126 | filtering a filtered list again with the same condition gives it back unchanged |
| Pager.Latest | app/src/main/java/com/dacode/android/kotlin/githubapi/data/IssueRepository.kt:41-43 | the conflated channel holds nothing before the first offer and an offered value after it |
| Pager.FetchOutcome.Items | app/src/main/java/com/dacode/android/kotlin/githubapi/data/IssueRepository.kt:121 | `response ?: emptyList()`: the answered list, or no items when the response is null |
| Pager.Save | app/src/main/java/com/dacode/android/kotlin/githubapi/data/IssueRepository.kt:121-123 | on an answer the old cache stays a prefix and exactly the answered items follow it; the latch is set iff it was set or the page was empty; a caught failure changes nothing; the page is never touched |
| Pager.Start | app/src/main/java/com/dacode/android/kotlin/githubapi/data/IssueRepository.kt:67-77 | a stream start leaves page 2, the first page as cache and the latch set iff that page was empty after a successful fetch, and page 1 with an empty cache and a clear latch after a failure |
| Pager.More | app/src/main/java/com/dacode/android/kotlin/githubapi/data/IssueRepository.kt:81-87 | `requestMore` changes nothing while a request is in flight or after the last page; otherwise cache and latch change as one save and the page rises by one iff the fetch succeeded |
| Pager.Retry | app/src/main/java/com/dacode/android/kotlin/githubapi/data/IssueRepository.kt:107-110 | `retry` keeps the page counter whatever the outcome, only appends to the cache, changes nothing while a request is in flight and otherwise is one save, latch ignored |
| Pager.RetryAdvancing | app/src/main/java/com/dacode/android/kotlin/githubapi/data/IssueRepository.kt:45-46 | the corrected retry: the same cache and latch as `retry`, and the page rises by one exactly when a fetch was made and succeeded |
| Pager.RunOnlyAppends | app/src/main/java/com/dacode/android/kotlin/githubapi/data/IssueRepository.kt:81-134 | over any run of `requestMore`/`retry` calls the old cache stays a prefix, the page never decreases and rises by at most one per call, and a set latch stays set |
| Pager.ExhaustedStaysPut | app/src/main/java/com/dacode/android/kotlin/githubapi/data/IssueRepository.kt:81-87 | once the latch is set no call moves the page counter again, and a run of `requestMore` calls changes nothing at all |
| Pager.StartIsCoherent | app/src/main/java/com/dacode/android/kotlin/githubapi/data/IssueRepository.kt:67-79 | a new stream, whether its first fetch succeeds or fails, holds exactly the pages before its page counter |
| Pager.RunCorrectedIsCoherent | app/src/main/java/com/dacode/android/kotlin/githubapi/data/IssueRepository.kt:45-46 | with a retry that advances the page on success, every session against a consistent server keeps the cache equal to pages 1 .. page-1, each once, in order |
| Pager.RetryRefetchesPage | app/src/main/java/com/dacode/android/kotlin/githubapi/data/IssueRepository.kt:107-110 | with retry as written, a failed `requestMore`, a successful retry and another `requestMore` fetch the same page twice, duplicating it in the cache |
| RepoSearch.ReposByName | app/src/main/java/com/dacode/android/kotlin/githubapi/data/GithubRepository.kt:119-127 | the view is never longer than the cache |
| RepoSearch.ReposByNameIsFilter | app/src/main/java/com/dacode/android/kotlin/githubapi/data/GithubRepository.kt:122-126 | for every filter, empty or not, the view is the cache filtered by "name or non-null description contains the filter, ignoring case" |
| RepoSearch.ReposByNameSelects | app/src/main/java/com/dacode/android/kotlin/githubapi/data/GithubRepository.kt:119-127 | exactly the matching repositories are shown, each as often as cached, in cache order; an empty filter imposes no condition |
| RepoSearch.ReposByNameAppend | app/src/main/java/com/dacode/android/kotlin/githubapi/data/GithubRepository.kt:106-108 | after a page is appended the view is the old view followed by the page's view |
| RepoSearch.ReposByNameIdempotent | app/src/main/java/com/dacode/android/kotlin/githubapi/data/GithubRepository.kt:122-126 | re-applying the filter to the view gives the same list |
| RepoSearch.MatchesByNameOrDescription | app/src/main/java/com/dacode/android/kotlin/githubapi/data/GithubRepository.kt:123 | "Foo" with no description and "bar" described as "a Foo thing" both match "foo" |
| RepoSearch.GithubRepository.constructor | app/src/main/java/com/dacode/android/kotlin/githubapi/data/GithubRepository.kt:42-58 | empty cache, page 1, gate open, empty filter, latch clear, nothing published |
| RepoSearch.GithubRepository.Request | app/src/main/java/com/dacode/android/kotlin/githubapi/data/GithubRepository.kt:97-102 | closes the gate and asks the service for the current page, 100 items, first argument "all" |
| RepoSearch.GithubRepository.SaveData | app/src/main/java/com/dacode/android/kotlin/githubapi/data/GithubRepository.kt:103-117 | on an answer appends exactly its items (null as none) and sets the latch on an empty page, publishes the view and returns true; on a caught failure publishes Error and returns false with cache, page and latch kept; the gate is open afterwards |
| RepoSearch.GithubRepository.Publish | app/src/main/java/com/dacode/android/kotlin/githubapi/data/GithubRepository.kt:108 | one offer to the conflated channel, which then holds it |
| RepoSearch.GithubRepository.RequestAndSaveData | app/src/main/java/com/dacode/android/kotlin/githubapi/data/GithubRepository.kt:96-117 | one request for the current page and the handling of its answer, filter unchanged |
| RepoSearch.GithubRepository.GetSearchResultStream | app/src/main/java/com/dacode/android/kotlin/githubapi/data/GithubRepository.kt:64-75 | resets filter, latch, page and cache and fetches page 1; page 2 and cache = first page after success, page 1 and empty cache after a failure |
| RepoSearch.GithubRepository.RequestMore | app/src/main/java/com/dacode/android/kotlin/githubapi/data/GithubRepository.kt:77-83 | nothing changes while the gate is held or after the last page; otherwise one request for the current page and the page advances by one iff it succeeded |
| RepoSearch.GithubRepository.SetSearchString | app/src/main/java/com/dacode/android/kotlin/githubapi/data/GithubRepository.kt:85-89 | always stores the filter; publishes the new view only when no request is in flight; cache, page, latch and gate untouched |
| RepoSearch.GithubRepository.Retry | app/src/main/java/com/dacode/android/kotlin/githubapi/data/GithubRepository.kt:91-94 | nothing changes while the gate is held; otherwise one request for the current page, latch ignored, page counter unchanged whatever the outcome |
| RepoSearch.LastPageScenario | app/src/main/java/com/dacode/android/kotlin/githubapi/data/GithubRepository.kt:77-83 | a non-empty first page then an empty one: latch set, page 3, cache and view the first page, and the next `requestMore` sends no request and changes nothing |
| IssueSearch.ReposByState | app/src/main/java/com/dacode/android/kotlin/githubapi/data/IssueRepository.kt:136-159 | defined only where every state the branch dereferences with `!!` is present; the view is never longer than the cache |
| IssueSearch.ReposByStateIsFilter | app/src/main/java/com/dacode/android/kotlin/githubapi/data/IssueRepository.kt:136-159 | all four branches are one filter: (closed, open) = (T,F) state contains "closed", (F,T) "open", (F,F) nothing, (T,T) any state; and the search, when not empty, matches title or body |
| IssueSearch.ReposByStateSelects | app/src/main/java/com/dacode/android/kotlin/githubapi/data/IssueRepository.kt:136-159 | exactly the admitted issues are shown, each as often as cached, in cache order |
| IssueSearch.ReposByStateAppend | app/src/main/java/com/dacode/android/kotlin/githubapi/data/IssueRepository.kt:123-125 | after a page is appended the view is the old view followed by the page's view |
| IssueSearch.StatesAreDistinct | app/src/main/java/com/dacode/android/kotlin/githubapi/data/IssueRepository.kt:140-148 | "open" and "closed" each contain themselves and not the other, ignoring case |
| IssueSearch.ClosedAndOpenPartition | app/src/main/java/com/dacode/android/kotlin/githubapi/data/IssueRepository.kt:138-149 | when every state is "open" or "closed", the closed-only and open-only views together hold each issue of the both-toggles view exactly once |
| IssueSearch.OpenOnlyScenario | app/src/main/java/com/dacode/android/kotlin/githubapi/data/IssueRepository.kt:144-149 | with only the open toggle on and no search, an open and a closed issue leave only the open one |
| IssueSearch.IssueRepository.constructor | app/src/main/java/com/dacode/android/kotlin/githubapi/data/IssueRepository.kt:39-61 | empty cache, page 1, gate open, empty search, both toggles on, latch clear, nothing published |
| IssueSearch.IssueRepository.Request | app/src/main/java/com/dacode/android/kotlin/githubapi/data/IssueRepository.kt:113-119 | closes the gate and asks the service for the current page of the given URL, state "all", 100 items |
| IssueSearch.IssueRepository.SaveData | app/src/main/java/com/dacode/android/kotlin/githubapi/data/IssueRepository.kt:119-133 | on an answer appends exactly its items and sets the latch on an empty page, publishes the view under the current filters and returns true; on a caught failure publishes Error and returns false with cache, page and latch kept; the gate is open afterwards |
| IssueSearch.IssueRepository.Publish | app/src/main/java/com/dacode/android/kotlin/githubapi/data/IssueRepository.kt:125 | one offer to the conflated channel, which then holds it |
| IssueSearch.IssueRepository.RequestAndSaveData | app/src/main/java/com/dacode/android/kotlin/githubapi/data/IssueRepository.kt:112-134 | one request for the current page and the handling of its answer, filters unchanged |
| IssueSearch.IssueRepository.GetIssuesStream | app/src/main/java/com/dacode/android/kotlin/githubapi/data/IssueRepository.kt:67-79 | resets search to "", both toggles to true, latch, page and cache, and fetches page 1; page 2 and cache = first page after success, page 1 and empty cache after a failure |
| IssueSearch.IssueRepository.RequestMore | app/src/main/java/com/dacode/android/kotlin/githubapi/data/IssueRepository.kt:81-87 | nothing changes while the gate is held or after the last page; otherwise one request for the current page and the page advances by one iff it succeeded, an empty page included |
| IssueSearch.IssueRepository.SetClosed | app/src/main/java/com/dacode/android/kotlin/githubapi/data/IssueRepository.kt:89-93 | always stores the toggle; publishes the new view only when no request is in flight; cache, page, latch and gate untouched |
| IssueSearch.IssueRepository.SetOpen | app/src/main/java/com/dacode/android/kotlin/githubapi/data/IssueRepository.kt:95-99 | always stores the toggle; publishes the new view only when no request is in flight; cache, page, latch and gate untouched |
| IssueSearch.IssueRepository.SetSearchString | app/src/main/java/com/dacode/android/kotlin/githubapi/data/IssueRepository.kt:101-105 | always stores the search; publishes the new view only when no request is in flight; cache, page, latch and gate untouched |
| IssueSearch.IssueRepository.Retry | app/src/main/java/com/dacode/android/kotlin/githubapi/data/IssueRepository.kt:107-110 | nothing changes while the gate is held; otherwise one request for the current page, latch ignored, page counter unchanged whatever the outcome |
| IssueSearch.SearchWhileRequesting | app/src/main/java/com/dacode/android/kotlin/githubapi/data/IssueRepository.kt:101-134 | a search set while a request is in flight is stored without publishing, and the request's publication then uses it |

## Left out

- The remote service (`searchRepos`, `getIssues`) and Retrofit: each call's answer is a `FetchOutcome` parameter; only `IOException` and `HttpException` are caught failures.
- Other exceptions propagate out of `requestAndSaveData` with the gate left closed; they are not modelled. The one the code can raise itself, the `NullPointerException` of `state!!`, is excluded by a precondition instead.
- IssueSearch.ReposByState: requires every cached state to be present when exactly one toggle is on, because the source throws there; the issue class's methods inherit that requirement for the cache they filter.
- Coroutines, `Flow` and `ConflatedBroadcastChannel`: the channel is the field `lastPublished` plus the ghost log `offers`; the stream-start methods return nothing instead of the `Flow`.
- Real concurrency on the gate: calls run one at a time; overlap is expressible only through the `Request`/`SaveData` split, and two requests racing past the gate are not modelled.
- Pager.RunOnlyAppends, Pager.ExhaustedStaysPut: sessions are runs of whole `requestMore`/`retry` calls, each starting with the gate open.
- Kotlin's full Unicode case-insensitive comparison: characters are compared after an ASCII case fold.
- Aliasing of the cache list returned when no filter applies: views are `seq` values.
- `Repo` has only the two fields the filter reads (`Repo.kt` is not part of this model); `Issue` and `Owner` keep their fields, with `Long`/`Int` widths not modelled since nothing computes with them.
- The UI (fragments, adapters, view holders, view models), including the scroll threshold that triggers `requestMore`.

## Findings

| source | as written | input that shows it | evidently intended | confidence | as-written member | corrected member |
|---|---|---|---|---|---|---|
| app/src/main/java/com/dacode/android/kotlin/githubapi/data/IssueRepository.kt:107-110 (likewise GithubRepository.kt:91-94) | `retry` drops the result of `requestAndSaveData`, so a successful retry leaves the page counter on the page it just fetched | page 1 holds [1] and page 2 holds [2]; stream start gets [1] (page 2); `requestMore` fails; `retry` gets [2] but the page stays 2; the next `requestMore` fetches page 2 again: cache [1, 2, 2] | advance the page after a successful retry, as the page counter's comment (IssueRepository.kt:45) says, so the cache holds each page once | medium, not executed (no source file shown calls `retry`: the view models IssueListViewModel.kt:44-106 and RepoListViewModel.kt:41-70 call only the stream start, `requestMore` and the setters, so the defect stays latent until something calls `retry`) | Pager.RetryRefetchesPage | Pager.RunCorrectedIsCoherent |

The corrected retry (`Pager.RetryAdvancing`) is what the session-level coherence theorem uses;
the two classes keep `retry` as written, since they model the source.
