/**
 The pagination loop of `get_subreddit_posts`.

 The HTTP session is replaced by `feed`, the responses the server gives in order: the i-th
 request the loop issues receives `feed[i]`. A request issued after the last of them finds the
 server unreachable, which makes `session.get` raise. The loop records the URL of every
 request it issues.

 `Scrape` states declaratively what a run does: which pages are requested and with which
 cursor, where pagination stops, and which posts come back. `GetSubredditPosts` is the loop
 itself, proved to agree with `Scrape`; the lemmas below state the properties of `Scrape`.
 */
module Pagination {
  import opened Feed
  import opened Extraction

  /** The exceptions that escape `get_subreddit_posts`: `session.get` failing, or a success
      response whose body is not a JSON object. */
  datatype ScrapeError = ConnectionFailed | MalformedBody

  datatype ScrapeRun = ScrapeRun(requested: seq<string>, result: Result<seq<Post>, ScrapeError>)

  /** The listing URL of a subreddit and sort order, without a cursor. */
  function BaseUrl(subreddit: string, sort: string): string {
    "https://www.reddit.com/r/" + subreddit + "/" + sort + ".json?limit=100"
  }

  /** The listing URL requested with the given cursor; the cursor is appended only when it
      is truthy. */
  function ListingUrl(subreddit: string, sort: string, after: Option<string>): string {
    BaseUrl(subreddit, sort) + (if Truthy(after) then "&after=" + after.value else "")
  }

  lemma ListingUrlCursor(subreddit: string, sort: string, after: Option<string>)
    ensures !Truthy(after) ==> ListingUrl(subreddit, sort, after) == BaseUrl(subreddit, sort)
    ensures Truthy(after) ==> ListingUrl(subreddit, sort, after) == BaseUrl(subreddit, sort) + "&after=" + after.value
  {
    if Truthy(after) {
      assert BaseUrl(subreddit, sort) + ("&after=" + after.value) == BaseUrl(subreddit, sort) + "&after=" + after.value;
    } else {
      assert BaseUrl(subreddit, sort) + "" == BaseUrl(subreddit, sort);
    }
  }

  lemma AppendAssociative<T>(a: seq<T>, b: seq<T>, c: seq<T>)
    ensures a + (b + c) == (a + b) + c
  {
  }

  /** Cutting `a + b` at `n` gives `a` when `a` is exactly `n` long, or when `b` is empty
      and `a` is not longer than `n`. */
  lemma PrefixAppend<T>(a: seq<T>, b: seq<T>, n: int)
    requires |a| == n || (b == [] && |a| <= n)
    ensures Prefix(a + b, n) == a
  {
    assert (a + b)[..|a|] == a;
  }

  /** Where the scan of a page stops: having kept `collected + kept` and left `rest`
      unscanned, either the limit is reached or nothing is left. */
  lemma CutAtLimit<T>(collected: seq<T>, kept: seq<T>, rest: seq<T>, posts: seq<T>, limit: int)
    requires posts == collected + kept
    requires |posts| == limit || (rest == [] && |posts| <= limit)
    ensures posts == Prefix(collected + (kept + rest), limit)
  {
    AppendAssociative(collected, kept, rest);
    PrefixAppend(posts, rest, limit);
  }

  lemma SplitAt<T>(s: seq<T>, j: nat)
    requires j <= |s|
    ensures s[..j] + s[j..] == s
    ensures j == |s| ==> s[j..] == []
  {
  }

  /** Python's `s[:n]`, where a negative `n` counts from the end. */
  function Prefix<T>(s: seq<T>, n: int): (r: seq<T>)
    ensures |r| <= |s| && r == s[..|r|]
    ensures n >= 0 ==> |r| == if n < |s| then n else |s|
    ensures n < 0 ==> |r| == if |s| + n > 0 then |s| + n else 0
  {
    if n >= 0 then (if n < |s| then s[..n] else s)
    else if |s| + n > 0 then s[..|s| + n]
    else []
  }

  /** The posts a response contributes: those of its children when it was a readable
      success, none otherwise. */
  function PagePosts(r: Response): seq<Post> {
    if r.status == 200 && r.body.Some? then Extracted(r.body.value.children) else []
  }

  /** The posts of a run of responses, in feed order. */
  function Harvest(pages: seq<Response>): seq<Post>
    decreases |pages|
  {
    if pages == [] then [] else Harvest(pages[..|pages| - 1]) + PagePosts(pages[|pages| - 1])
  }

  lemma HarvestStep(feed: seq<Response>, k: nat)
    requires k < |feed|
    ensures Harvest(feed[..k + 1]) == Harvest(feed[..k]) + PagePosts(feed[k])
  {
    assert feed[..k + 1][..k] == feed[..k];
  }

  /** A response after which the loop asks for another page, unless the limit is reached. */
  predicate PageContinues(r: Response) {
    && r.status == 200
    && r.body.Some?
    && r.body.value.children != []
    && Truthy(r.body.value.after)
  }

  /** After the response to request `k`, the loop issues request `k + 1`. */
  predicate Continues(feed: seq<Response>, k: nat, limit: int)
    requires k < |feed|
  {
    PageContinues(feed[k]) && |Harvest(feed[..k + 1])| < limit
  }

  /** The index of the last request a run issues, counting from request `k`; it is `|feed|`
      when the run asks for more pages than the server answers. */
  function StopIndex(feed: seq<Response>, limit: int, k: nat): (n: nat)
    requires k <= |feed|
    ensures k <= n <= |feed|
    decreases |feed| - k
  {
    if k == |feed| || !Continues(feed, k, limit) then k else StopIndex(feed, limit, k + 1)
  }

  /** The URL of request `k`: the first carries no cursor, every later one the cursor of
      the response before it. */
  function RequestUrl(feed: seq<Response>, subreddit: string, sort: string, k: nat): string
    requires k <= |feed|
  {
    ListingUrl(subreddit, sort, if k == 0 then None else CursorOf(feed[k - 1]))
  }

  /** The URLs of the first `n` requests. */
  function Requests(feed: seq<Response>, subreddit: string, sort: string, n: nat): seq<string>
    requires n <= |feed| + 1
  {
    if n == 0 then [] else Requests(feed, subreddit, sort, n - 1) + [RequestUrl(feed, subreddit, sort, n - 1)]
  }

  /** What `get_subreddit_posts(subreddit, limit, sort)` does against `feed`. */
  function Scrape(feed: seq<Response>, subreddit: string, limit: int, sort: string): ScrapeRun {
    if limit <= 0 then ScrapeRun([], Success([]))
    else
      var n := StopIndex(feed, limit, 0);
      ScrapeRun(
        Requests(feed, subreddit, sort, n + 1),
        if n == |feed| then Failure(ConnectionFailed)
        else if feed[n].status == 200 && feed[n].body.None? then Failure(MalformedBody)
        else Success(Prefix(Harvest(feed[..n + 1]), limit)))
  }

  /** The stop index is the first request after which the loop does not continue. */
  lemma {:induction false} StopIndexAt(feed: seq<Response>, limit: int, k: nat, p: nat)
    requires k <= p <= |feed|
    requires forall j :: k <= j < p ==> Continues(feed, j, limit)
    requires p == |feed| || !Continues(feed, p, limit)
    ensures StopIndex(feed, limit, k) == p
    decreases p - k
  {
    if k < p {
      assert Continues(feed, k, limit);
      StopIndexAt(feed, limit, k + 1, p);
    }
  }

  /** Every request before the stop index lets the loop continue. */
  lemma {:induction false} StopIndexSpec(feed: seq<Response>, limit: int, k: nat)
    requires k <= |feed|
    ensures forall j :: k <= j < StopIndex(feed, limit, k) ==> Continues(feed, j, limit)
    ensures StopIndex(feed, limit, k) < |feed| ==> !Continues(feed, StopIndex(feed, limit, k), limit)
    decreases |feed| - k
  {
    if k < |feed| && Continues(feed, k, limit) {
      StopIndexSpec(feed, limit, k + 1);
    }
  }

  lemma {:induction false} RequestsLength(feed: seq<Response>, subreddit: string, sort: string, n: nat)
    requires n <= |feed| + 1
    ensures |Requests(feed, subreddit, sort, n)| == n
  {
    if n > 0 {
      RequestsLength(feed, subreddit, sort, n - 1);
    }
  }

  lemma {:induction false} RequestsAt(feed: seq<Response>, subreddit: string, sort: string, n: nat)
    requires n <= |feed| + 1
    ensures |Requests(feed, subreddit, sort, n)| == n
    ensures forall k :: 0 <= k < n ==> Requests(feed, subreddit, sort, n)[k] == RequestUrl(feed, subreddit, sort, k)
  {
    if n > 0 {
      RequestsAt(feed, subreddit, sort, n - 1);
    }
  }

  /** No request at all for a limit that is not positive, otherwise at least one; at most
      one request goes beyond the responses the server gives. */
  lemma ScrapeRequestCount(feed: seq<Response>, subreddit: string, limit: int, sort: string, r: ScrapeRun)
    requires r == Scrape(feed, subreddit, limit, sort)
    ensures |r.requested| <= |feed| + 1
    ensures r.requested == [] <==> limit <= 0
  {
    if limit > 0 {
      RequestsLength(feed, subreddit, sort, StopIndex(feed, limit, 0) + 1);
    }
  }

  /** Cursor threading: the first request carries no cursor, and each later one is the
      first URL with `&after=<cursor>` appended, the cursor being the (truthy) `after` of the
      response just before it. */
  lemma ScrapeRequests(feed: seq<Response>, subreddit: string, limit: int, sort: string, r: ScrapeRun)
    requires r == Scrape(feed, subreddit, limit, sort)
    ensures |r.requested| <= |feed| + 1
    ensures r.requested != [] ==> r.requested[0] == BaseUrl(subreddit, sort)
    ensures forall k :: 0 <= k < |r.requested| - 1 ==>
      && Truthy(CursorOf(feed[k]))
      && r.requested[k + 1] == BaseUrl(subreddit, sort) + "&after=" + CursorOf(feed[k]).value
  {
    if limit > 0 {
      var n := StopIndex(feed, limit, 0);
      StopIndexSpec(feed, limit, 0);
      RequestsAt(feed, subreddit, sort, n + 1);
      ListingUrlCursor(subreddit, sort, None);
      forall k | 0 <= k < |r.requested| - 1
        ensures Truthy(CursorOf(feed[k]))
        ensures r.requested[k + 1] == BaseUrl(subreddit, sort) + "&after=" + CursorOf(feed[k]).value
      {
        assert Continues(feed, k, limit);
        ListingUrlCursor(subreddit, sort, CursorOf(feed[k]));
      }
    }
  }

  /** Where pagination stops: every response but the last one requested lets the loop go
      on (a readable success with children and a cursor, and the limit not yet reached),
      and the last one answered does not. */
  lemma ScrapeStops(feed: seq<Response>, subreddit: string, limit: int, sort: string, r: ScrapeRun)
    requires r == Scrape(feed, subreddit, limit, sort)
    ensures
      && (forall k :: 0 <= k < |r.requested| - 1 ==> k < |feed| && Continues(feed, k, limit))
      && (0 < |r.requested| <= |feed| ==> !Continues(feed, |r.requested| - 1, limit))
  {
    if limit > 0 {
      var n := StopIndex(feed, limit, 0);
      StopIndexSpec(feed, limit, 0);
      RequestsLength(feed, subreddit, sort, n + 1);
    }
  }

  /** What comes back: an exception only when the server stops answering or a success
      body is not a JSON object; otherwise at most `limit` posts, all well formed, the
      first ones (in feed order) that the requested pages yield, cut only at the limit. */
  lemma ScrapeResult(feed: seq<Response>, subreddit: string, limit: int, sort: string, r: ScrapeRun)
    requires r == Scrape(feed, subreddit, limit, sort)
    ensures r.result == Failure(ConnectionFailed) <==> |r.requested| == |feed| + 1
    ensures r.result == Failure(MalformedBody) <==>
      0 < |r.requested| <= |feed| && feed[|r.requested| - 1].status == 200 && feed[|r.requested| - 1].body.None?
    ensures r.result.Success? ==>
      && (limit >= 0 ==> |r.result.value| <= limit)
      && (forall p :: p in r.result.value ==> WellFormed(p))
      && |r.requested| <= |feed|
      && r.result.value <= Harvest(feed[..|r.requested|])
      && (|r.result.value| < limit ==> r.result.value == Harvest(feed[..|r.requested|]))
  {
    RequestsLength(feed, subreddit, sort, 0);
    if limit > 0 {
      var n := StopIndex(feed, limit, 0);
      RequestsLength(feed, subreddit, sort, n + 1);
      if n < |feed| {
        HarvestWellFormed(feed[..n + 1]);
      }
    }
  }

  lemma {:induction false} HarvestWellFormed(pages: seq<Response>)
    ensures forall p :: p in Harvest(pages) ==> WellFormed(p)
    decreases |pages|
  {
    if pages != [] {
      HarvestWellFormed(pages[..|pages| - 1]);
      var last := pages[|pages| - 1];
      if last.status == 200 && last.body.Some? {
        ExtractedWellFormed(last.body.value.children);
      }
    }
  }

  /** A non-200 status, a page with no children or a missing cursor ends pagination at that
      response and returns what was accumulated, without raising: after an error status or
      an empty page, every post of the earlier pages; after a page without cursor, the
      posts up to and including that page, cut at the limit. */
  lemma ScrapeStopsEarly(feed: seq<Response>, subreddit: string, limit: int, sort: string, k: nat, r: ScrapeRun)
    requires r == Scrape(feed, subreddit, limit, sort)
    requires k < |feed| && limit > 0
    requires forall j :: 0 <= j < k ==> Continues(feed, j, limit)
    requires || feed[k].status != 200
             || (feed[k].body.Some? && (feed[k].body.value.children == [] || !Truthy(feed[k].body.value.after)))
    ensures
      && |r.requested| == k + 1
      && r.result.Success?
      && (feed[k].status != 200 || feed[k].body.value.children == [] ==> r.result.value == Harvest(feed[..k]))
      && r.result.value == Prefix(Harvest(feed[..k + 1]), limit)
  {
    StopIndexAt(feed, limit, 0, k);
    RequestsLength(feed, subreddit, sort, k + 1);
    HarvestStep(feed, k);
    if k > 0 {
      assert Continues(feed, k - 1, limit);
      assert feed[..k] == feed[..k - 1 + 1];
    }
  }

  /** A result shorter than the limit means the feed ended or a request failed: the last
      response requested did not let the loop continue. */
  lemma ScrapeShortResult(feed: seq<Response>, subreddit: string, limit: int, sort: string, r: ScrapeRun)
    requires r == Scrape(feed, subreddit, limit, sort)
    requires r.result.Success? && |r.result.value| < limit
    ensures 0 < |r.requested| <= |feed| && !PageContinues(feed[|r.requested| - 1])
  {
    ScrapeRequestCount(feed, subreddit, limit, sort, r);
    ScrapeResult(feed, subreddit, limit, sort, r);
    ScrapeStops(feed, subreddit, limit, sort, r);
  }

  /** A first page with children of which fewer than `limit` qualify, and a cursor, followed
      by an empty page: exactly two requests, and every qualifying post of the first page. */
  lemma ScrapeTwoPages(first: seq<Child>, cursor: string, second: Response, subreddit: string, limit: int, sort: string)
    requires first != [] && cursor != "" && |Extracted(first)| < limit
    requires second.status == 200 && second.body.Some? && second.body.value.children == []
    ensures var r := Scrape([Response(200, Some(Listing(first, Some(cursor)))), second], subreddit, limit, sort);
      |r.requested| == 2 && r.result == Success(Extracted(first))
  {
    var feed := [Response(200, Some(Listing(first, Some(cursor)))), second];
    assert feed[..1] == [feed[0]];
    assert Harvest(feed[..1]) == Extracted(first);
    assert Continues(feed, 0, limit);
    ScrapeStopsEarly(feed, subreddit, limit, sort, 1, Scrape(feed, subreddit, limit, sort));
  }

  /** The scan of a page stops after child `j` with the limit reached, or at the end of the
      page: what it kept is the page's posts appended to the earlier ones, cut at the limit. */
  lemma ScanComplete(collected: seq<Post>, children: seq<Child>, j: nat, posts: seq<Post>, limit: int)
    requires j <= |children|
    requires posts == collected + Extracted(children[..j])
    requires |posts| == limit || (j == |children| && |posts| < limit)
    ensures posts == Prefix(collected + Extracted(children), limit)
  {
    ExtractedConcat(children[..j], children[j..]);
    SplitAt(children, j);
    CutAtLimit(collected, Extracted(children[..j]), Extracted(children[j..]), posts, limit);
  }

  /** The loop over the children of one page: keep each qualifying child, and stop as soon
      as the limit is reached. */
  method ScanChildren(collected: seq<Post>, children: seq<Child>, limit: int) returns (posts: seq<Post>)
    requires |collected| < limit
    ensures posts == Prefix(collected + Extracted(children), limit)
  {
    posts := collected;
    var j := 0;
    while j < |children|
      invariant 0 <= j <= |children|
      invariant posts == collected + Extracted(children[..j])
      invariant |posts| < limit
    {
      ExtractedStep(children, j);
      var post := ExtractEntry(children[j]);
      if post.Some? {
        posts := posts + [post.value];
      }
      j := j + 1;
      if |posts| >= limit {
        break;
      }
    }
    ScanComplete(collected, children, j, posts, limit);
  }

  /** Cutting twice at the same non-negative limit is cutting once. */
  lemma PrefixTwice<T>(s: seq<T>, n: int)
    requires n >= 0
    ensures Prefix(Prefix(s, n), n) == Prefix(s, n)
  {
  }

  /** A run that stops at the answered, readable response `n` returns the posts of the
      responses up to `n`, cut at the limit. */
  lemma ScrapeSucceedsAt(feed: seq<Response>, subreddit: string, limit: int, sort: string, n: nat)
    requires limit > 0 && n < |feed|
    requires forall j :: 0 <= j < n ==> Continues(feed, j, limit)
    requires !Continues(feed, n, limit)
    requires feed[n].status != 200 || feed[n].body.Some?
    ensures Scrape(feed, subreddit, limit, sort)
      == ScrapeRun(Requests(feed, subreddit, sort, n + 1), Success(Prefix(Harvest(feed[..n + 1]), limit)))
  {
    StopIndexAt(feed, limit, 0, n);
  }

  /** The state of the loop of `get_subreddit_posts` at its head: the requests issued so far,
      the cursor of the last response and the posts kept, as `Scrape` describes them. */
  ghost predicate Progress(feed: seq<Response>, subreddit: string, limit: int, sort: string,
                           requested: seq<string>, after: Option<string>, posts: seq<Post>)
  {
    && (requested != [] ==> limit > 0)
    && |requested| <= |feed|
    && requested == Requests(feed, subreddit, sort, |requested|)
    && after == (if requested == [] then None else CursorOf(feed[|requested| - 1]))
    && (forall k :: 0 <= k < |requested| - 1 ==> Continues(feed, k, limit))
    && (requested != [] ==> PageContinues(feed[|requested| - 1]))
    && posts == Prefix(Harvest(feed[..|requested|]), limit)
  }

  /** At the head of a loop that goes on, every response so far let it continue and no
      post was cut; the next request carries the cursor of the last response. */
  lemma ProgressNext(feed: seq<Response>, subreddit: string, limit: int, sort: string,
                     requested: seq<string>, after: Option<string>, posts: seq<Post>)
    requires Progress(feed, subreddit, limit, sort, requested, after, posts) && |posts| < limit
    ensures limit > 0
    ensures forall k :: 0 <= k < |requested| ==> Continues(feed, k, limit)
    ensures posts == Harvest(feed[..|requested|])
    ensures requested + [ListingUrl(subreddit, sort, after)] == Requests(feed, subreddit, sort, |requested| + 1)
  {
    if requested != [] {
      assert Continues(feed, |requested| - 1, limit);
    }
  }

  /** The next request goes unanswered: the run ends in a connection failure. */
  lemma ProgressUnanswered(feed: seq<Response>, subreddit: string, limit: int, sort: string,
                           requested: seq<string>, after: Option<string>, posts: seq<Post>)
    requires Progress(feed, subreddit, limit, sort, requested, after, posts) && |posts| < limit
    requires |requested| == |feed|
    ensures Scrape(feed, subreddit, limit, sort)
      == ScrapeRun(requested + [ListingUrl(subreddit, sort, after)], Failure(ConnectionFailed))
  {
    ProgressNext(feed, subreddit, limit, sort, requested, after, posts);
    StopIndexAt(feed, limit, 0, |requested|);
  }

  /** The next response is a success whose body cannot be read: the run ends in an
      exception. */
  lemma ProgressMalformed(feed: seq<Response>, subreddit: string, limit: int, sort: string,
                          requested: seq<string>, after: Option<string>, posts: seq<Post>)
    requires Progress(feed, subreddit, limit, sort, requested, after, posts) && |posts| < limit
    requires |requested| < |feed| && feed[|requested|].status == 200 && feed[|requested|].body.None?
    ensures Scrape(feed, subreddit, limit, sort)
      == ScrapeRun(requested + [ListingUrl(subreddit, sort, after)], Failure(MalformedBody))
  {
    ProgressNext(feed, subreddit, limit, sort, requested, after, posts);
    StopIndexAt(feed, limit, 0, |requested|);
  }

  /** The next response has an error status or no children: the run ends with the posts
      kept so far. */
  lemma ProgressEnds(feed: seq<Response>, subreddit: string, limit: int, sort: string,
                     requested: seq<string>, after: Option<string>, posts: seq<Post>)
    requires Progress(feed, subreddit, limit, sort, requested, after, posts) && |posts| < limit
    requires var page := |requested|;
      page < |feed| && (feed[page].status != 200 || (feed[page].body.Some? && feed[page].body.value.children == []))
    ensures Scrape(feed, subreddit, limit, sort)
      == ScrapeRun(requested + [ListingUrl(subreddit, sort, after)], Success(Prefix(posts, limit)))
  {
    var page := |requested|;
    ProgressNext(feed, subreddit, limit, sort, requested, after, posts);
    HarvestStep(feed, page);
    assert Harvest(feed[..page + 1]) == posts;
    ScrapeSucceedsAt(feed, subreddit, limit, sort, page);
  }

  /** The next response is a readable page with children: after its children are scanned,
      the loop goes on with its cursor, or the run ends there without one. */
  lemma ProgressScanned(feed: seq<Response>, subreddit: string, limit: int, sort: string,
                        requested: seq<string>, after: Option<string>, posts: seq<Post>, scanned: seq<Post>)
    requires Progress(feed, subreddit, limit, sort, requested, after, posts) && |posts| < limit
    requires var page := |requested|;
      page < |feed| && feed[page].status == 200 && feed[page].body.Some? && feed[page].body.value.children != []
    requires scanned == Prefix(posts + Extracted(feed[|requested|].body.value.children), limit)
    ensures var page := |requested|;
      var next := requested + [ListingUrl(subreddit, sort, after)];
      var cursor := feed[page].body.value.after;
      && (Truthy(cursor) ==> Progress(feed, subreddit, limit, sort, next, cursor, scanned))
      && (!Truthy(cursor) ==> Scrape(feed, subreddit, limit, sort) == ScrapeRun(next, Success(Prefix(scanned, limit))))
  {
    var page := |requested|;
    ProgressNext(feed, subreddit, limit, sort, requested, after, posts);
    HarvestStep(feed, page);
    var next := requested + [ListingUrl(subreddit, sort, after)];
    assert feed[..|next|] == feed[..page + 1];
    if !Truthy(feed[page].body.value.after) {
      ScrapeSucceedsAt(feed, subreddit, limit, sort, page);
      PrefixTwice(Harvest(feed[..page + 1]), limit);
    }
  }

  /** The loop ends at its head when the limit is reached (or is not positive). */
  lemma ProgressFull(feed: seq<Response>, subreddit: string, limit: int, sort: string,
                     requested: seq<string>, after: Option<string>, posts: seq<Post>)
    requires Progress(feed, subreddit, limit, sort, requested, after, posts) && |posts| >= limit
    ensures Scrape(feed, subreddit, limit, sort) == ScrapeRun(requested, Success(Prefix(posts, limit)))
  {
    if limit > 0 {
      var n := |requested| - 1;
      assert !Continues(feed, n, limit);
      ScrapeSucceedsAt(feed, subreddit, limit, sort, n);
      PrefixTwice(Harvest(feed[..n + 1]), limit);
    }
  }

  /** The loop of `get_subreddit_posts`: request a page, stop on an error status or an empty
      page, keep the qualifying children until the limit is reached, stop without a cursor,
      and return the collected posts cut at the limit. */
  method GetSubredditPosts(feed: seq<Response>, subreddit: string, limit: int, sort: string)
    returns (requested: seq<string>, result: Result<seq<Post>, ScrapeError>)
    ensures ScrapeRun(requested, result) == Scrape(feed, subreddit, limit, sort)
  {
    var posts: seq<Post> := [];
    var after: Option<string> := None;
    requested := [];
    ghost var stopped := false;
    while |posts| < limit
      invariant Progress(feed, subreddit, limit, sort, requested, after, posts)
      invariant !stopped
      decreases |feed| - |requested|
    {
      var page := |requested|;
      ghost var before := requested;
      requested := requested + [ListingUrl(subreddit, sort, after)];
      if page == |feed| {
        ProgressUnanswered(feed, subreddit, limit, sort, before, after, posts);
        result := Failure(ConnectionFailed);
        return;
      }
      var response := feed[page];
      if response.status != 200 {
        ProgressEnds(feed, subreddit, limit, sort, before, after, posts);
        stopped := true;
        break;
      }
      if response.body.None? {
        ProgressMalformed(feed, subreddit, limit, sort, before, after, posts);
        result := Failure(MalformedBody);
        return;
      }
      var children := response.body.value.children;
      if children == [] {
        ProgressEnds(feed, subreddit, limit, sort, before, after, posts);
        stopped := true;
        break;
      }
      ghost var kept := posts;
      posts := ScanChildren(posts, children, limit);
      ProgressScanned(feed, subreddit, limit, sort, before, after, kept, posts);
      after := response.body.value.after;
      if !Truthy(after) {
        stopped := true;
        break;
      }
    }
    if !stopped {
      ProgressFull(feed, subreddit, limit, sort, requested, after, posts);
    }
    result := Success(Prefix(posts, limit));
  }
}
