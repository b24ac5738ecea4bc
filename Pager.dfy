/**
 * The pagination machinery that GithubRepository and IssueRepository share: what the remote
 * service can answer, what is published to subscribers, and how one call changes the cache,
 * the 1-based page counter and the last-page latch. The two classes tie their fields to the
 * functions here; the lemmas state what holds over whole sessions of calls.
 */
module Pager {
  import opened Wrappers

  /** GitHub's page numbers are 1-based. */
  const GITHUB_STARTING_PAGE_INDEX: int := 1
  /** Every request asks for this many items: the most the API serves per page. */
  const NETWORK_PAGE_SIZE: int := 100

  /** The two failures the repositories catch: an `IOException` and a Retrofit `HttpException`. */
  datatype FetchError = IOException(message: string) | HttpException(code: int)

  /** What one call of the remote service produced: a possibly null list of items, or a caught failure. */
  datatype FetchOutcome<E> = Fetched(response: Option<seq<E>>) | Failed(cause: FetchError)
  {
    /** `response ?: emptyList()`: a null response reads as an empty page. */
    function Items(): (items: seq<E>)
      requires Fetched?
      ensures response.Some? ==> items == response.value
      ensures response.None? ==> items == []
    {
      response.GetOr([])
    }
  }

  /** The envelope offered on the results channel (`RepoSearchResult` / `IssueResult`). */
  datatype SearchResult<E> = Success(items: seq<E>) | Error(cause: FetchError)

  /** The arguments each repository passes to the remote service. */
  datatype Request =
    | SearchRepos(query: string, page: int, perPage: int)
    | GetIssues(url: Option<string>, state: string, page: int, perPage: int)

  /**
   * The value a subscriber of a conflated broadcast channel sees: the last one offered,
   * or none before the first offer.
   */
  function Latest<E>(offers: seq<SearchResult<E>>): (r: Option<SearchResult<E>>)
    ensures r.None? <==> offers == []
    ensures r.Some? ==> r.value in offers
  {
    if offers == [] then None else Some(offers[|offers| - 1])
  }

  /** Cache, page counter (`lastRequestedPage`) and last-page latch (`lastpage`) of one repository. */
  datatype Cursor<E> = Cursor(cache: seq<E>, page: int, lastpage: bool)

  /**
   * What `requestAndSaveData` does to the cursor: on an answer, append its items and set the
   * latch if the page was empty; on a caught failure, nothing. The page is the caller's business.
   */
  function Save<E>(c: Cursor<E>, o: FetchOutcome<E>): (d: Cursor<E>)
    ensures d.page == c.page && c.cache <= d.cache
    ensures o.Failed? ==> d == c
    ensures o.Fetched? ==> d.cache[|c.cache|..] == o.Items()
    ensures d.lastpage <==> c.lastpage || (o.Fetched? && o.Items() == [])
  {
    match o
    case Fetched(_) => Cursor(c.cache + o.Items(), c.page, c.lastpage || o.Items() == [])
    case Failed(_) => c
  }

  /** The callers' `if (successful) lastRequestedPage++`. */
  function AdvanceIf<E>(c: Cursor<E>, successful: bool): Cursor<E> {
    if successful then c.(page := c.page + 1) else c
  }

  /** A new stream: latch cleared, page 1, empty cache, one fetch, then advance on success. */
  function Start<E>(o: FetchOutcome<E>): (d: Cursor<E>)
    ensures d.page == if o.Fetched? then GITHUB_STARTING_PAGE_INDEX + 1 else GITHUB_STARTING_PAGE_INDEX
    ensures d.cache == if o.Fetched? then o.Items() else []
    ensures d.lastpage <==> o.Fetched? && o.Items() == []
  {
    AdvanceIf(Save(Cursor([], GITHUB_STARTING_PAGE_INDEX, false), o), o.Fetched?)
  }

  /** `requestMore`: nothing while a request is in flight or after the last page. */
  function More<E>(c: Cursor<E>, busy: bool, o: FetchOutcome<E>): (d: Cursor<E>)
    ensures busy || c.lastpage ==> d == c
    ensures !(busy || c.lastpage) ==>
              d.cache == Save(c, o).cache && d.lastpage == Save(c, o).lastpage &&
              d.page == c.page + (if o.Fetched? then 1 else 0)
  {
    if busy || c.lastpage then c else AdvanceIf(Save(c, o), o.Fetched?)
  }

  /** `retry` as written: fetch the current page again, ignore the latch, never advance. */
  function Retry<E>(c: Cursor<E>, busy: bool, o: FetchOutcome<E>): (d: Cursor<E>)
    ensures d.page == c.page && c.cache <= d.cache
    ensures busy ==> d == c
    ensures !busy ==> d == Save(c, o)
  {
    if busy then c else Save(c, o)
  }

  /** `retry` as its page counter's comment intends it: advance after a successful request. */
  function RetryAdvancing<E>(c: Cursor<E>, busy: bool, o: FetchOutcome<E>): (d: Cursor<E>)
    ensures d.cache == Retry(c, busy, o).cache && d.lastpage == Retry(c, busy, o).lastpage
    ensures d.page == c.page + (if !busy && o.Fetched? then 1 else 0)
  {
    if busy then c else AdvanceIf(Save(c, o), o.Fetched?)
  }

  /** A call a subscriber makes within one stream, once the previous call has returned. */
  datatype Command<E> = RequestMore(outcome: FetchOutcome<E>) | RetryRequest(outcome: FetchOutcome<E>)

  /** The cursor after running `cmds` in order from `c`, each starting with the gate free. */
  function Run<E>(c: Cursor<E>, cmds: seq<Command<E>>): Cursor<E>
    decreases |cmds|
  {
    if cmds == [] then c
    else
      var next := match cmds[0]
        case RequestMore(o) => More(c, false, o)
        case RetryRequest(o) => Retry(c, false, o);
      Run(next, cmds[1..])
  }

  /** `Run` with the corrected retry. */
  function RunCorrected<E>(c: Cursor<E>, cmds: seq<Command<E>>): Cursor<E>
    decreases |cmds|
  {
    if cmds == [] then c
    else
      var next := match cmds[0]
        case RequestMore(o) => More(c, false, o)
        case RetryRequest(o) => RetryAdvancing(c, false, o);
      RunCorrected(next, cmds[1..])
  }

  /**
   * Within a stream the cache only grows at its end, the page counter never goes back, and
   * once set the latch stays set.
   */
  lemma {:induction false} RunOnlyAppends<E>(c: Cursor<E>, cmds: seq<Command<E>>)
    ensures c.cache <= Run(c, cmds).cache
    ensures c.page <= Run(c, cmds).page <= c.page + |cmds|
    ensures c.lastpage ==> Run(c, cmds).lastpage
    decreases |cmds|
  {
    if cmds != [] {
      var next := match cmds[0]
        case RequestMore(o) => More(c, false, o)
        case RetryRequest(o) => Retry(c, false, o);
      RunOnlyAppends(next, cmds[1..]);
    }
  }

  /**
   * After the last page, `requestMore` never fetches again and no call moves the page counter:
   * a run of `requestMore` calls changes nothing at all.
   */
  lemma {:induction false} ExhaustedStaysPut<E>(c: Cursor<E>, cmds: seq<Command<E>>)
    requires c.lastpage
    ensures Run(c, cmds).page == c.page && Run(c, cmds).lastpage
    ensures (forall k :: 0 <= k < |cmds| ==> cmds[k].RequestMore?) ==> Run(c, cmds) == c
    decreases |cmds|
  {
    if cmds != [] {
      var next := match cmds[0]
        case RequestMore(o) => More(c, false, o)
        case RetryRequest(o) => Retry(c, false, o);
      ExhaustedStaysPut(next, cmds[1..]);
    }
  }

  /** The concatenation of pages `lo` up to but excluding `hi` of the server's `content`. */
  function Pages<E>(content: int -> seq<E>, lo: int, hi: int): seq<E>
    decreases hi - lo
  {
    if hi <= lo then [] else Pages(content, lo, hi - 1) + content(hi - 1)
  }

  /** The cache holds each of the pages before the page counter once, in page order. */
  ghost predicate Coherent<E>(c: Cursor<E>, content: int -> seq<E>) {
    GITHUB_STARTING_PAGE_INDEX <= c.page &&
    c.cache == Pages(content, GITHUB_STARTING_PAGE_INDEX, c.page)
  }

  /** Outcome `o` of a request for page `p` either failed or carried that page's content. */
  ghost predicate Serves<E>(o: FetchOutcome<E>, content: int -> seq<E>, p: int) {
    o.Fetched? ==> o.Items() == content(p)
  }

  /** Every command of a run was answered consistently with `content`, for the page it asked for. */
  ghost predicate ServedCorrected<E>(c: Cursor<E>, cmds: seq<Command<E>>, content: int -> seq<E>)
    decreases |cmds|
  {
    cmds != [] ==>
      Serves(cmds[0].outcome, content, c.page) &&
      var next := match cmds[0]
        case RequestMore(o) => More(c, false, o)
        case RetryRequest(o) => RetryAdvancing(c, false, o);
      ServedCorrected(next, cmds[1..], content)
  }

  /** A stream starts coherent whether its first fetch succeeds or fails. */
  lemma StartIsCoherent<E>(o: FetchOutcome<E>, content: int -> seq<E>)
    requires Serves(o, content, GITHUB_STARTING_PAGE_INDEX)
    ensures Coherent(Start(o), content)
  {
    assert Pages(content, 1, 1) == [];
    if o.Fetched? {
      assert Pages(content, 1, 2) == Pages(content, 1, 1) + content(1);
    }
  }

  /** With the corrected retry, every call of a stream keeps the cache coherent. */
  lemma {:induction false} RunCorrectedIsCoherent<E>(c: Cursor<E>, cmds: seq<Command<E>>, content: int -> seq<E>)
    requires Coherent(c, content)
    requires ServedCorrected(c, cmds, content)
    ensures Coherent(RunCorrected(c, cmds), content)
    decreases |cmds|
  {
    if cmds != [] {
      var next := match cmds[0]
        case RequestMore(o) => More(c, false, o)
        case RetryRequest(o) => RetryAdvancing(c, false, o);
      assert Pages(content, 1, c.page + 1) == Pages(content, 1, c.page) + content(c.page);
      assert Coherent(next, content);
      RunCorrectedIsCoherent(next, cmds[1..], content);
    }
  }

  /**
   * As written, `retry` breaks coherence with a perfectly consistent server (page `p` holds
   * `[p]`): page 1 arrives, `requestMore` fails on page 2, `retry` fetches page 2 but keeps the
   * counter at 2, and the next `requestMore` fetches page 2 a second time.
   */
  lemma RetryRefetchesPage()
    ensures var content := (p: int) => [p];
      var c := Start(Fetched(Some([1])));
      var failed, retried := RequestMore(Failed(IOException("timeout"))), RetryRequest(Fetched(Some([2])));
      Coherent(c, content) &&
      Run(c, [failed, retried]) == Cursor([1, 2], 2, false) &&
      Run(c, [failed, retried, RequestMore(Fetched(Some([2])))]) == Cursor([1, 2, 2], 3, false) &&
      !Coherent(Cursor([1, 2, 2], 3, false), content)
  {
    var content := (p: int) => [p];
    var c := Start(Fetched(Some([1])));
    var failed, retried := RequestMore(Failed(IOException("timeout"))), RetryRequest(Fetched(Some([2])));
    assert Pages(content, 1, 2) == [1] by {
      assert Pages(content, 1, 1) == [];
    }
    assert c == Cursor([1], 2, false);
    assert Run(c, [failed, retried]) == Run(c, [retried]) by {
      assert [failed, retried][1..] == [retried];
    }
    assert Run(c, [retried]) == Cursor([1, 2], 2, false) by {
      assert [retried][1..] == [];
    }
    var more := RequestMore(Fetched(Some([2])));
    assert Run(c, [failed, retried, more]) == Run(Cursor([1, 2], 2, false), [more]) by {
      assert [failed, retried, more][1..] == [retried, more];
      assert Run(c, [failed, retried, more]) == Run(c, [retried, more]);
      assert [retried, more][1..] == [more];
      assert Retry(c, false, retried.outcome) == Cursor([1, 2], 2, false);
    }
    assert Run(Cursor([1, 2], 2, false), [more]) == Cursor([1, 2, 2], 3, false) by {
      assert [more][1..] == [];
      assert More(Cursor([1, 2], 2, false), false, more.outcome) == Cursor([1, 2, 2], 3, false);
    }
    assert Pages(content, 1, 3) == [1, 2];
  }
}
