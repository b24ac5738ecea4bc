/**
 * `IssueRepository`: the issue engine. The same pagination machinery as the repository
 * search, with a view that combines the text filter with an open/closed truth table over
 * each issue's `state`.
 */
module IssueSearch {
  import opened Wrappers
  import opened Text
  import opened Seqs
  import opened Pager

  datatype Owner = Owner(id: int, avatarUrl: string)

  /** An issue as decoded from the API: `fullName` is its title, `description` its body. */
  datatype Issue = Issue(
    id: int,
    fullName: string,
    description: Option<string>,
    state: Option<string>,
    owner: Owner,
    comments: int)

  /** The title, or the body when there is one, contains `search` ignoring case. */
  predicate TextMatches(i: Issue, search: string) {
    ContainsIgnoreCase(i.fullName, search) ||
    (i.description.Some? && ContainsIgnoreCase(i.description.value, search))
  }

  /** `state!!.contains(word, true)`, read only where the state is known to be present. */
  predicate StateContains(i: Issue, word: string) {
    i.state.Some? && ContainsIgnoreCase(i.state.value, word)
  }

  /**
   * The view dereferences every cached issue's state with `!!` exactly when one of the two
   * toggles is on and the other off; this is what it takes not to throw.
   */
  ghost predicate StatesKnown(cache: seq<Issue>, open: bool, closed: bool) {
    open != closed ==> forall k :: 0 <= k < |cache| ==> cache[k].state.Some?
  }

  /** `reposByState()`: the filtered view, branch by branch as the source writes it. */
  function ReposByState(cache: seq<Issue>, search: string, open: bool, closed: bool): (r: seq<Issue>)
    requires StatesKnown(cache, open, closed)
    ensures |r| <= |cache|
  {
    if closed && !open then
      if search != "" then Filter(cache, x => StateContains(x, "closed") && TextMatches(x, search))
      else Filter(cache, x => StateContains(x, "closed"))
    else if !closed && open then
      if search != "" then Filter(cache, x => StateContains(x, "open") && TextMatches(x, search))
      else Filter(cache, x => StateContains(x, "open"))
    else if !closed && !open then
      []
    else
      if search != "" then Filter(cache, x => TextMatches(x, search))
      else cache
  }

  /** The truth table over (closed, open): which states the toggles let through. */
  predicate StateAdmits(i: Issue, open: bool, closed: bool) {
    match (closed, open)
    case (true, true) => true
    case (true, false) => StateContains(i, "closed")
    case (false, true) => StateContains(i, "open")
    case (false, false) => false
  }

  /** An issue is shown when the toggles let its state through and the search, if any, matches. */
  predicate Admits(i: Issue, search: string, open: bool, closed: bool) {
    StateAdmits(i, open, closed) && (search == "" || TextMatches(i, search))
  }

  /**
   * Every branch of the view is the one filter `Admits`: the empty search imposes no text
   * condition, both toggles off show nothing, both on ignore the state.
   */
  lemma ReposByStateIsFilter(cache: seq<Issue>, search: string, open: bool, closed: bool)
    requires StatesKnown(cache, open, closed)
    ensures ReposByState(cache, search, open, closed) == Filter(cache, x => Admits(x, search, open, closed))
  {
    var admits := x => Admits(x, search, open, closed);
    if closed && !open {
      if search != "" {
        FilterAgree(cache, x => StateContains(x, "closed") && TextMatches(x, search), admits);
      } else {
        FilterAgree(cache, x => StateContains(x, "closed"), admits);
      }
    } else if !closed && open {
      if search != "" {
        FilterAgree(cache, x => StateContains(x, "open") && TextMatches(x, search), admits);
      } else {
        FilterAgree(cache, x => StateContains(x, "open"), admits);
      }
    } else if !closed && !open {
      FilterDropsAll(cache, admits);
    } else if search != "" {
      FilterAgree(cache, x => TextMatches(x, search), admits);
    } else {
      FilterKeepsAll(cache, admits);
    }
  }

  /**
   * Exactly the admitted issues are shown, each as often as it is cached, in cache order.
   */
  lemma ReposByStateSelects(cache: seq<Issue>, search: string, open: bool, closed: bool, x: Issue)
    requires StatesKnown(cache, open, closed)
    ensures multiset(ReposByState(cache, search, open, closed))[x] ==
            if Admits(x, search, open, closed) then multiset(cache)[x] else 0
    ensures x in ReposByState(cache, search, open, closed) <==> x in cache && Admits(x, search, open, closed)
    ensures IsSubsequence(ReposByState(cache, search, open, closed), cache)
  {
    ReposByStateIsFilter(cache, search, open, closed);
    FilterCount(cache, x => Admits(x, search, open, closed), x);
    FilterIsSubsequence(cache, x => Admits(x, search, open, closed));
  }

  /** After a page is appended, the view is the old view followed by the page's own view. */
  lemma ReposByStateAppend(cache: seq<Issue>, page: seq<Issue>, search: string, open: bool, closed: bool)
    requires StatesKnown(cache + page, open, closed)
    ensures StatesKnown(cache, open, closed) && StatesKnown(page, open, closed)
    ensures ReposByState(cache + page, search, open, closed) ==
            ReposByState(cache, search, open, closed) + ReposByState(page, search, open, closed)
  {
    assert forall k :: 0 <= k < |cache| ==> cache[k] == (cache + page)[k];
    assert forall k :: 0 <= k < |page| ==> page[k] == (cache + page)[|cache| + k];
    ReposByStateIsFilter(cache + page, search, open, closed);
    ReposByStateIsFilter(cache, search, open, closed);
    ReposByStateIsFilter(page, search, open, closed);
    FilterAppend(cache, page, x => Admits(x, search, open, closed));
  }

  /** Neither "open" nor "closed" occurs in the other, so GitHub's two states are told apart. */
  lemma StatesAreDistinct()
    ensures ContainsIgnoreCase("open", "open") && !ContainsIgnoreCase("open", "closed")
    ensures ContainsIgnoreCase("closed", "closed") && !ContainsIgnoreCase("closed", "open")
  {
    assert OccursAt("open", "open", 0);
    assert OccursAt("closed", "closed", 0);
    var hay, needle := "closed", "open";
    forall i ensures !OccursAt(hay, needle, i) {
      if 0 <= i <= 2 {
        assert !SameIgnoringCase(hay[i + 0], needle[0]) || !SameIgnoringCase(hay[i + 1], needle[1]);
      }
    }
  }

  /**
   * When every cached state is "open" or "closed", the closed-only view and the open-only view
   * split the both-toggles view between them: every shown issue is in exactly one of the two.
   */
  lemma ClosedAndOpenPartition(cache: seq<Issue>, search: string, x: Issue)
    requires forall k :: 0 <= k < |cache| ==> cache[k].state == Some("open") || cache[k].state == Some("closed")
    ensures multiset(ReposByState(cache, search, false, true))[x] + multiset(ReposByState(cache, search, true, false))[x] ==
            multiset(ReposByState(cache, search, true, true))[x]
  {
    ReposByStateSelects(cache, search, false, true, x);
    ReposByStateSelects(cache, search, true, false, x);
    ReposByStateSelects(cache, search, true, true, x);
    if x in cache {
      StatesAreDistinct();
    } else {
      assert multiset(cache)[x] == 0;
    }
  }

  /** With only "open" shown, an open and a closed issue leave the open one alone. */
  lemma OpenOnlyScenario(a: Issue, b: Issue)
    requires a.state == Some("open") && b.state == Some("closed")
    ensures ReposByState([a, b], "", true, false) == [a]
  {
    var open := x => StateContains(x, "open");
    assert open(a) && !open(b) by {
      StatesAreDistinct();
    }
    assert Filter([a, b], open) == [a] by {
      assert [a, b][1..] == [b] && [b][1..] == [];
    }
    assert ReposByState([a, b], "", true, false) == Filter([a, b], open);
  }

  /**
   * The issue object. As for the repository search, `requestAndSaveData` is split at its
   * suspension point into `Request` and `SaveData`.
   */
  class IssueRepository {
    var inMemoryCache: seq<Issue>
    var lastRequestedPage: int
    var isRequestInProgress: bool
    var searchFilter: string
    var closedFilter: bool
    var openFilter: bool
    var lastpage: bool
    /** The value the conflated results channel currently holds. */
    var lastPublished: Option<SearchResult<Issue>>
    /** Every request sent to the remote service, in order. */
    ghost var requests: seq<Request>
    /** Every value offered to the results channel, in order. */
    ghost var offers: seq<SearchResult<Issue>>

    /** The page counter is a GitHub page number and the channel holds the last offer. */
    ghost predicate Sound()
      reads this
    {
      GITHUB_STARTING_PAGE_INDEX <= lastRequestedPage && lastPublished == Latest(offers)
    }

    /**
     * The object invariant: besides `Sound()`, whenever no request is in flight a published
     * success shows the current filtered cache.
     */
    ghost predicate Valid()
      reads this
    {
      Sound() &&
      (!isRequestInProgress && lastPublished.Some? && lastPublished.value.Success? ==>
         StatesKnown(inMemoryCache, openFilter, closedFilter) &&
         lastPublished.value.items == ReposByState(inMemoryCache, searchFilter, openFilter, closedFilter))
    }

    /** The view under the current filters. */
    function View(): seq<Issue>
      reads this
      requires StatesKnown(inMemoryCache, openFilter, closedFilter)
    {
      ReposByState(inMemoryCache, searchFilter, openFilter, closedFilter)
    }

    /** The pagination state, as the shared model sees it. */
    function Cursor(): Pager.Cursor<Issue>
      reads this
    {
      Pager.Cursor(inMemoryCache, lastRequestedPage, lastpage)
    }

    constructor ()
      ensures Valid()
      ensures inMemoryCache == [] && lastRequestedPage == GITHUB_STARTING_PAGE_INDEX && !lastpage
      ensures !isRequestInProgress && searchFilter == "" && openFilter && closedFilter
      ensures lastPublished == None && requests == [] && offers == []
    {
      inMemoryCache := [];
      lastRequestedPage := GITHUB_STARTING_PAGE_INDEX;
      isRequestInProgress := false;
      searchFilter := "";
      closedFilter := true;
      openFilter := true;
      lastpage := false;
      lastPublished := None;
      requests := [];
      offers := [];
    }

    /** First half of `requestAndSaveData`: close the gate and ask for the current page. */
    method Request(url: Option<string>) returns (page: int)
      requires Sound()
      modifies this`isRequestInProgress, this`requests
      ensures Sound() && isRequestInProgress
      ensures page == lastRequestedPage
      ensures requests == old(requests) + [GetIssues(url, "all", page, NETWORK_PAGE_SIZE)]
    {
      isRequestInProgress := true;
      page := lastRequestedPage;
      requests := requests + [GetIssues(url, "all", page, NETWORK_PAGE_SIZE)];
    }

    /**
     * Second half of `requestAndSaveData`: append the answer and publish the filtered cache,
     * or publish the caught failure and keep cache, page and latch; reopen the gate. The
     * filters used are the current ones, including any set while the request was in flight.
     */
    method SaveData(outcome: FetchOutcome<Issue>) returns (successful: bool)
      requires Sound()
      requires outcome.Fetched? ==> StatesKnown(inMemoryCache + outcome.Items(), openFilter, closedFilter)
      modifies this`inMemoryCache, this`lastpage, this`isRequestInProgress, this`lastPublished, this`offers
      ensures Valid() && !isRequestInProgress
      ensures successful <==> outcome.Fetched?
      ensures Cursor() == Save(old(Cursor()), outcome)
      ensures successful ==> inMemoryCache == old(inMemoryCache) + outcome.Items()
      ensures successful ==> (lastpage <==> old(lastpage) || outcome.Items() == [])
      ensures lastPublished == Some(if successful then Success(View()) else Error(outcome.cause))
      ensures offers == old(offers) + [lastPublished.value]
    {
      successful := false;
      match outcome {
        case Fetched(response) =>
          var repos := response.GetOr([]);
          if repos == [] {
            lastpage := true;
          }
          inMemoryCache := inMemoryCache + repos;
          Publish(Success(ReposByState(inMemoryCache, searchFilter, openFilter, closedFilter)));
          successful := true;
        case Failed(exception) =>
          Publish(Error(exception));
      }
      isRequestInProgress := false;
    }

    /** `searchResults.offer(result)` on the conflated channel. */
    method Publish(result: SearchResult<Issue>)
      modifies this`lastPublished, this`offers
      ensures lastPublished == Some(result) && offers == old(offers) + [result]
    {
      lastPublished := Some(result);
      offers := offers + [result];
    }

    /** `requestAndSaveData`: one request for the current page and the handling of its answer. */
    method RequestAndSaveData(url: Option<string>, outcome: FetchOutcome<Issue>) returns (successful: bool)
      requires Sound()
      requires outcome.Fetched? ==> StatesKnown(inMemoryCache + outcome.Items(), openFilter, closedFilter)
      modifies this
      ensures Valid() && !isRequestInProgress
      ensures successful <==> outcome.Fetched?
      ensures Cursor() == Save(old(Cursor()), outcome)
      ensures searchFilter == old(searchFilter) && openFilter == old(openFilter) && closedFilter == old(closedFilter)
      ensures lastPublished == Some(if successful then Success(View()) else Error(outcome.cause))
      ensures offers == old(offers) + [lastPublished.value]
      ensures requests == old(requests) + [GetIssues(url, "all", old(lastRequestedPage), NETWORK_PAGE_SIZE)]
    {
      var _ := Request(url);
      successful := SaveData(outcome);
    }

    /**
     * `getIssuesStream`: reset the search to "", both toggles to true, the latch, the page and
     * the cache, then fetch page 1; the page becomes 2 only if that fetch succeeds. The gate is
     * not consulted.
     */
    method GetIssuesStream(query: string, url: Option<string>, outcome: FetchOutcome<Issue>)
      requires Valid()
      modifies this
      ensures Valid() && !isRequestInProgress
      ensures searchFilter == "" && openFilter && closedFilter
      ensures Cursor() == Start(outcome)
      ensures lastRequestedPage == if outcome.Fetched? then 2 else 1
      ensures inMemoryCache == if outcome.Fetched? then outcome.Items() else []
      ensures lastPublished == Some(if outcome.Fetched? then Success(inMemoryCache) else Error(outcome.cause))
      ensures offers == old(offers) + [lastPublished.value]
      ensures requests == old(requests) + [GetIssues(url, "all", GITHUB_STARTING_PAGE_INDEX, NETWORK_PAGE_SIZE)]
    {
      lastpage := false;
      searchFilter := "";
      lastRequestedPage := GITHUB_STARTING_PAGE_INDEX;
      closedFilter := true;
      openFilter := true;
      inMemoryCache := [];
      var successful := RequestAndSaveData(url, outcome);
      if successful {
        lastRequestedPage := lastRequestedPage + 1;
      }
    }

    /**
     * `requestMore`: nothing at all while a request is in flight or after the last page;
     * otherwise fetch the current page and advance the page by one exactly when that succeeds,
     * an empty page included.
     */
    method RequestMore(query: string, url: Option<string>, outcome: FetchOutcome<Issue>)
      requires Valid()
      requires !isRequestInProgress && !lastpage && outcome.Fetched? ==>
                 StatesKnown(inMemoryCache + outcome.Items(), openFilter, closedFilter)
      modifies this
      ensures Valid()
      ensures Cursor() == More(old(Cursor()), old(isRequestInProgress), outcome)
      ensures old(isRequestInProgress || lastpage) ==> unchanged(this)
      ensures !old(isRequestInProgress || lastpage) ==>
                !isRequestInProgress &&
                searchFilter == old(searchFilter) && openFilter == old(openFilter) && closedFilter == old(closedFilter) &&
                lastRequestedPage == old(lastRequestedPage) + (if outcome.Fetched? then 1 else 0) &&
                lastPublished == Some(if outcome.Fetched? then Success(View()) else Error(outcome.cause)) &&
                offers == old(offers) + [lastPublished.value] &&
                requests == old(requests) + [GetIssues(url, "all", old(lastRequestedPage), NETWORK_PAGE_SIZE)]
    {
      if isRequestInProgress || lastpage {
        return;
      }
      var successful := RequestAndSaveData(url, outcome);
      if successful {
        lastRequestedPage := lastRequestedPage + 1;
      }
    }

    /**
     * `setClosed`: always record the toggle; publish the filtered cache only when no request is
     * in flight. Cache, page, latch and gate are untouched.
     */
    method SetClosed(query: string, closed: bool)
      requires Valid()
      requires !isRequestInProgress ==> StatesKnown(inMemoryCache, openFilter, closed)
      modifies this`closedFilter, this`lastPublished, this`offers
      ensures Valid()
      ensures closedFilter == closed
      ensures isRequestInProgress ==> lastPublished == old(lastPublished) && offers == old(offers)
      ensures !isRequestInProgress ==>
                lastPublished == Some(Success(View())) && offers == old(offers) + [lastPublished.value]
    {
      closedFilter := closed;
      if isRequestInProgress {
        return;
      }
      Publish(Success(ReposByState(inMemoryCache, searchFilter, openFilter, closedFilter)));
    }

    /** `setOpen`: as `SetClosed`, for the open toggle. */
    method SetOpen(query: string, open: bool)
      requires Valid()
      requires !isRequestInProgress ==> StatesKnown(inMemoryCache, open, closedFilter)
      modifies this`openFilter, this`lastPublished, this`offers
      ensures Valid()
      ensures openFilter == open
      ensures isRequestInProgress ==> lastPublished == old(lastPublished) && offers == old(offers)
      ensures !isRequestInProgress ==>
                lastPublished == Some(Success(View())) && offers == old(offers) + [lastPublished.value]
    {
      openFilter := open;
      if isRequestInProgress {
        return;
      }
      Publish(Success(ReposByState(inMemoryCache, searchFilter, openFilter, closedFilter)));
    }

    /** `setSearchString`: as `SetClosed`, for the text filter. */
    method SetSearchString(query: string, search: string)
      requires Valid()
      requires !isRequestInProgress ==> StatesKnown(inMemoryCache, openFilter, closedFilter)
      modifies this`searchFilter, this`lastPublished, this`offers
      ensures Valid()
      ensures searchFilter == search
      ensures isRequestInProgress ==> lastPublished == old(lastPublished) && offers == old(offers)
      ensures !isRequestInProgress ==>
                lastPublished == Some(Success(View())) && offers == old(offers) + [lastPublished.value]
    {
      searchFilter := search;
      if isRequestInProgress {
        return;
      }
      Publish(Success(ReposByState(inMemoryCache, searchFilter, openFilter, closedFilter)));
    }

    /**
     * `retry`: nothing while a request is in flight; otherwise fetch the current page again,
     * whether or not the last page was seen, and leave the page counter where it is.
     */
    method Retry(query: string, url: Option<string>, outcome: FetchOutcome<Issue>)
      requires Valid()
      requires !isRequestInProgress && outcome.Fetched? ==>
                 StatesKnown(inMemoryCache + outcome.Items(), openFilter, closedFilter)
      modifies this
      ensures Valid()
      ensures Cursor() == Pager.Retry(old(Cursor()), old(isRequestInProgress), outcome)
      ensures lastRequestedPage == old(lastRequestedPage)
      ensures old(isRequestInProgress) ==> unchanged(this)
      ensures !old(isRequestInProgress) ==>
                !isRequestInProgress &&
                searchFilter == old(searchFilter) && openFilter == old(openFilter) && closedFilter == old(closedFilter) &&
                lastPublished == Some(if outcome.Fetched? then Success(View()) else Error(outcome.cause)) &&
                offers == old(offers) + [lastPublished.value] &&
                requests == old(requests) + [GetIssues(url, "all", lastRequestedPage, NETWORK_PAGE_SIZE)]
    {
      if isRequestInProgress {
        return;
      }
      var _ := RequestAndSaveData(url, outcome);
    }
  }

  /**
   * A search string set while a request is in flight is stored but not published; the
   * request's own publication then already uses it, not the filter in force when it began.
   */
  method SearchWhileRequesting(repo: IssueRepository, url: Option<string>, search: string, outcome: FetchOutcome<Issue>)
    requires repo.Valid() && !repo.isRequestInProgress && repo.openFilter && repo.closedFilter
    modifies repo
    ensures repo.searchFilter == search && repo.Valid()
    ensures |repo.offers| == |old(repo.offers)| + 1
    ensures outcome.Fetched? ==>
              repo.lastPublished == Some(Success(ReposByState(old(repo.inMemoryCache) + outcome.Items(), search, true, true)))
  {
    var _ := repo.Request(url);
    repo.SetSearchString("", search);
    assert repo.offers == old(repo.offers);
    var _ := repo.SaveData(outcome);
  }
}
