/**
 * `GithubRepository`: the repository-search engine. A text filter over name and description
 * selects the published view of an append-only cache that grows one page per request.
 */
module RepoSearch {
  import opened Wrappers
  import opened Text
  import opened Seqs
  import opened Pager

  /** The fields of a search result that the filter reads. */
  datatype Repo = Repo(name: string, description: Option<string>)

  /** The name, or the description when there is one, contains `filter` ignoring case. */
  predicate Matches(r: Repo, filter: string) {
    ContainsIgnoreCase(r.name, filter) ||
    (r.description.Some? && ContainsIgnoreCase(r.description.value, filter))
  }

  /** `reposByName()`: the cache itself for an empty filter, else the repositories that match it. */
  function ReposByName(cache: seq<Repo>, filter: string): (r: seq<Repo>)
    ensures |r| <= |cache|
  {
    if filter != "" then Filter(cache, x => Matches(x, filter)) else cache
  }

  /**
   * The empty-filter shortcut agrees with filtering: every repository matches the empty
   * string, so the view is always the repositories that match, whatever the filter.
   */
  lemma ReposByNameIsFilter(cache: seq<Repo>, filter: string)
    ensures ReposByName(cache, filter) == Filter(cache, x => Matches(x, filter))
  {
    if filter == "" {
      forall k | 0 <= k < |cache| ensures Matches(cache[k], filter) {
        ContainsEmpty(cache[k].name);
      }
      FilterKeepsAll(cache, x => Matches(x, filter));
    }
  }

  /**
   * Exactly the matching repositories are shown, each as often as it is cached, in cache
   * order; an empty filter imposes no condition.
   */
  lemma ReposByNameSelects(cache: seq<Repo>, filter: string, x: Repo)
    ensures multiset(ReposByName(cache, filter))[x] ==
            if filter == "" || Matches(x, filter) then multiset(cache)[x] else 0
    ensures x in ReposByName(cache, filter) <==> x in cache && (filter == "" || Matches(x, filter))
    ensures IsSubsequence(ReposByName(cache, filter), cache)
  {
    ReposByNameIsFilter(cache, filter);
    FilterCount(cache, x => Matches(x, filter), x);
    FilterIsSubsequence(cache, x => Matches(x, filter));
    if filter == "" {
      ContainsEmpty(x.name);
    }
  }

  /** After a page is appended, the view is the old view followed by the page's own view. */
  lemma ReposByNameAppend(cache: seq<Repo>, page: seq<Repo>, filter: string)
    ensures ReposByName(cache + page, filter) == ReposByName(cache, filter) + ReposByName(page, filter)
  {
    if filter != "" {
      FilterAppend(cache, page, x => Matches(x, filter));
    }
  }

  /** Applying the filter to its own view changes nothing. */
  lemma ReposByNameIdempotent(cache: seq<Repo>, filter: string)
    ensures ReposByName(ReposByName(cache, filter), filter) == ReposByName(cache, filter)
  {
    if filter != "" {
      FilterIdempotent(cache, x => Matches(x, filter));
    }
  }

  /** A case-insensitive match through the name and one through the description. */
  lemma MatchesByNameOrDescription()
    ensures ReposByName([Repo("Foo", None), Repo("bar", Some("a Foo thing"))], "foo") ==
            [Repo("Foo", None), Repo("bar", Some("a Foo thing"))]
  {
    assert OccursAt("Foo", "foo", 0);
    assert OccursAt("a Foo thing", "foo", 2);
    var cache := [Repo("Foo", None), Repo("bar", Some("a Foo thing"))];
    FilterKeepsAll(cache, x => Matches(x, "foo"));
  }

  /**
   * The repository object. `requestAndSaveData` is split at its suspension point into
   * `Request` (close the gate, send the request) and `SaveData` (handle the answer), so that
   * calls made while a request is in flight can be expressed.
   */
  class GithubRepository {
    var inMemoryCache: seq<Repo>
    var lastRequestedPage: int
    var isRequestInProgress: bool
    var searchFilter: string
    var lastpage: bool
    /** The value the conflated results channel currently holds. */
    var lastPublished: Option<SearchResult<Repo>>
    /** Every request sent to the remote service, in order. */
    ghost var requests: seq<Request>
    /** Every value offered to the results channel, in order. */
    ghost var offers: seq<SearchResult<Repo>>

    /** The page counter is a GitHub page number and the channel holds the last offer. */
    ghost predicate Sound()
      reads this
    {
      GITHUB_STARTING_PAGE_INDEX <= lastRequestedPage && lastPublished == Latest(offers)
    }

    /**
     * The object invariant: besides `Sound()`, whenever no request is in flight a published
     * success shows the current filtered cache, so subscribers are never left with a stale view.
     */
    ghost predicate Valid()
      reads this
    {
      Sound() &&
      (!isRequestInProgress && lastPublished.Some? && lastPublished.value.Success? ==>
         lastPublished.value.items == ReposByName(inMemoryCache, searchFilter))
    }

    /** The pagination state, as the shared model sees it. */
    function Cursor(): Pager.Cursor<Repo>
      reads this
    {
      Pager.Cursor(inMemoryCache, lastRequestedPage, lastpage)
    }

    constructor ()
      ensures Valid()
      ensures inMemoryCache == [] && lastRequestedPage == GITHUB_STARTING_PAGE_INDEX && !lastpage
      ensures !isRequestInProgress && searchFilter == ""
      ensures lastPublished == None && requests == [] && offers == []
    {
      inMemoryCache := [];
      lastRequestedPage := GITHUB_STARTING_PAGE_INDEX;
      isRequestInProgress := false;
      searchFilter := "";
      lastpage := false;
      lastPublished := None;
      requests := [];
      offers := [];
    }

    /** First half of `requestAndSaveData`: close the gate and ask for the current page. */
    method Request() returns (page: int)
      requires Sound()
      modifies this`isRequestInProgress, this`requests
      ensures Sound() && isRequestInProgress
      ensures page == lastRequestedPage
      ensures requests == old(requests) + [SearchRepos("all", page, NETWORK_PAGE_SIZE)]
    {
      isRequestInProgress := true;
      page := lastRequestedPage;
      requests := requests + [SearchRepos("all", page, NETWORK_PAGE_SIZE)];
    }

    /**
     * Second half of `requestAndSaveData`: append the answer and publish the filtered cache,
     * or publish the caught failure and keep cache, page and latch; reopen the gate.
     */
    method SaveData(outcome: FetchOutcome<Repo>) returns (successful: bool)
      requires Sound()
      modifies this`inMemoryCache, this`lastpage, this`isRequestInProgress, this`lastPublished, this`offers
      ensures Valid() && !isRequestInProgress
      ensures successful <==> outcome.Fetched?
      ensures Cursor() == Save(old(Cursor()), outcome)
      ensures successful ==> inMemoryCache == old(inMemoryCache) + outcome.Items()
      ensures successful ==> (lastpage <==> old(lastpage) || outcome.Items() == [])
      ensures lastPublished ==
              Some(if successful then Success(ReposByName(inMemoryCache, searchFilter)) else Error(outcome.cause))
      ensures offers == old(offers) + [lastPublished.value]
    {
      successful := false;
      match outcome {
        case Fetched(response) =>
          var repos := response.GetOr([]);
          if repos == [] {
            lastpage := true;
          }
          inMemoryCache := inMemoryCache + repos;
          Publish(Success(ReposByName(inMemoryCache, searchFilter)));
          successful := true;
        case Failed(exception) =>
          Publish(Error(exception));
      }
      isRequestInProgress := false;
    }

    /** `searchResults.offer(result)` on the conflated channel. */
    method Publish(result: SearchResult<Repo>)
      modifies this`lastPublished, this`offers
      ensures lastPublished == Some(result) && offers == old(offers) + [result]
    {
      lastPublished := Some(result);
      offers := offers + [result];
    }

    /** `requestAndSaveData`: one request for the current page and the handling of its answer. */
    method RequestAndSaveData(outcome: FetchOutcome<Repo>) returns (successful: bool)
      requires Sound()
      modifies this
      ensures Valid() && !isRequestInProgress
      ensures successful <==> outcome.Fetched?
      ensures Cursor() == Save(old(Cursor()), outcome)
      ensures searchFilter == old(searchFilter)
      ensures lastPublished ==
              Some(if successful then Success(ReposByName(inMemoryCache, searchFilter)) else Error(outcome.cause))
      ensures offers == old(offers) + [lastPublished.value]
      ensures requests == old(requests) + [SearchRepos("all", old(lastRequestedPage), NETWORK_PAGE_SIZE)]
    {
      var _ := Request();
      successful := SaveData(outcome);
    }

    /**
     * `getSearchResultStream`: reset filter, latch, page and cache, then fetch page 1; the page
     * becomes 2 only if that fetch succeeds. The gate is not consulted. The query does not
     * reach the service, which is always asked for "all".
     */
    method GetSearchResultStream(query: string, outcome: FetchOutcome<Repo>)
      requires Valid()
      modifies this
      ensures Valid() && !isRequestInProgress
      ensures searchFilter == ""
      ensures Cursor() == Start(outcome)
      ensures lastRequestedPage == if outcome.Fetched? then 2 else 1
      ensures inMemoryCache == if outcome.Fetched? then outcome.Items() else []
      ensures lastPublished == Some(if outcome.Fetched? then Success(inMemoryCache) else Error(outcome.cause))
      ensures offers == old(offers) + [lastPublished.value]
      ensures requests == old(requests) + [SearchRepos("all", GITHUB_STARTING_PAGE_INDEX, NETWORK_PAGE_SIZE)]
    {
      lastpage := false;
      searchFilter := "";
      lastRequestedPage := GITHUB_STARTING_PAGE_INDEX;
      inMemoryCache := [];
      var successful := RequestAndSaveData(outcome);
      if successful {
        lastRequestedPage := lastRequestedPage + 1;
      }
    }

    /**
     * `requestMore`: nothing at all while a request is in flight or after the last page;
     * otherwise fetch the current page and advance the page by one exactly when that succeeds.
     */
    method RequestMore(query: string, outcome: FetchOutcome<Repo>)
      requires Valid()
      modifies this
      ensures Valid()
      ensures Cursor() == More(old(Cursor()), old(isRequestInProgress), outcome)
      ensures old(isRequestInProgress || lastpage) ==> unchanged(this)
      ensures !old(isRequestInProgress || lastpage) ==>
                !isRequestInProgress && searchFilter == old(searchFilter) &&
                lastRequestedPage == old(lastRequestedPage) + (if outcome.Fetched? then 1 else 0) &&
                lastPublished == Some(if outcome.Fetched? then Success(ReposByName(inMemoryCache, searchFilter))
                                      else Error(outcome.cause)) &&
                offers == old(offers) + [lastPublished.value] &&
                requests == old(requests) + [SearchRepos("all", old(lastRequestedPage), NETWORK_PAGE_SIZE)]
    {
      if isRequestInProgress || lastpage {
        return;
      }
      var successful := RequestAndSaveData(outcome);
      if successful {
        lastRequestedPage := lastRequestedPage + 1;
      }
    }

    /**
     * `setSearchString`: always record the filter; publish the filtered cache only when no
     * request is in flight. Cache, page, latch and gate are untouched.
     */
    method SetSearchString(query: string, search: string)
      requires Valid()
      modifies this`searchFilter, this`lastPublished, this`offers
      ensures Valid()
      ensures searchFilter == search
      ensures isRequestInProgress ==> lastPublished == old(lastPublished) && offers == old(offers)
      ensures !isRequestInProgress ==>
                lastPublished == Some(Success(ReposByName(inMemoryCache, search))) &&
                offers == old(offers) + [lastPublished.value]
    {
      searchFilter := search;
      if isRequestInProgress {
        return;
      }
      Publish(Success(ReposByName(inMemoryCache, searchFilter)));
    }

    /**
     * `retry`: nothing while a request is in flight; otherwise fetch the current page again,
     * whether or not the last page was seen, and leave the page counter where it is.
     */
    method Retry(query: string, outcome: FetchOutcome<Repo>)
      requires Valid()
      modifies this
      ensures Valid()
      ensures Cursor() == Pager.Retry(old(Cursor()), old(isRequestInProgress), outcome)
      ensures lastRequestedPage == old(lastRequestedPage)
      ensures old(isRequestInProgress) ==> unchanged(this)
      ensures !old(isRequestInProgress) ==>
                !isRequestInProgress && searchFilter == old(searchFilter) &&
                lastPublished == Some(if outcome.Fetched? then Success(ReposByName(inMemoryCache, searchFilter))
                                      else Error(outcome.cause)) &&
                offers == old(offers) + [lastPublished.value] &&
                requests == old(requests) + [SearchRepos("all", lastRequestedPage, NETWORK_PAGE_SIZE)]
    {
      if isRequestInProgress {
        return;
      }
      var _ := RequestAndSaveData(outcome);
    }
  }

  /**
   * A non-empty first page, then an empty one: the latch is set, the page counter still advanced to
   * 3, and a further `requestMore` sends no request and changes nothing, whatever the service
   * would have answered.
   */
  method LastPageScenario(repo: GithubRepository, first: seq<Repo>, later: FetchOutcome<Repo>)
    requires repo.Valid() && first != []
    modifies repo
    ensures repo.lastpage && repo.lastRequestedPage == 3
    ensures repo.inMemoryCache == first && repo.lastPublished == Some(Success(first))
    ensures repo.requests == old(repo.requests) +
              [SearchRepos("all", 1, NETWORK_PAGE_SIZE), SearchRepos("all", 2, NETWORK_PAGE_SIZE)]
  {
    repo.GetSearchResultStream("rust", Fetched(Some(first)));
    repo.RequestMore("rust", Fetched(Some([])));
    assert repo.inMemoryCache == first + [];
    repo.RequestMore("rust", later);
  }
}
