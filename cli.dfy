/**
 The two command-line entry points around `get_subreddit_posts`.

 `main.py` scrapes, tags every post with the subreddit name, and writes either the posts as a
 JSON document or, in `image_url` mode, every image link of the posts as a text file with one
 link per line (optionally handing that file to the downloader). The older `scraper.py` entry
 point writes the untagged posts as JSON. Both write nothing when the scrape yields no post,
 and neither does anything without a cookie file.

 The file system, the clock (which only names the output file) and the downloader are outside
 the model: a run ends in an `Outcome` that says what would be written.
 */
module Cli {
  import opened Feed
  import opened Text
  import opened Extraction
  import opened Pagination

  /** The `--output-mode` choices. `PostWithComments` is accepted but behaves as `PostMode`. */
  datatype OutputMode = PostMode | PostWithComments | ImageUrl

  /** What a run writes: the posts as JSON, or the text of the link file. */
  datatype Artifact = JsonFile(entries: seq<Post>) | UrlFile(contents: string)

  /** How a run ends: no cookie file, an exception out of the scraper, or a normal end that
      writes at most one file and may start the downloader on the link file. */
  datatype Outcome =
    | MissingCookies
    | Crashed(error: ScrapeError)
    | Finished(written: Option<Artifact>, downloads: bool)

  datatype MainRun = MainRun(requested: seq<string>, outcome: Outcome)

  /** The posts after `post["subreddit"] = subreddit` has been applied to each. */
  function Tagged(posts: seq<Post>, subreddit: string): seq<Post> {
    seq(|posts|, i requires 0 <= i < |posts| => posts[i].(subreddit := Some(subreddit)))
  }

  /** Python truthiness of an optional list: present and non-empty. */
  predicate NonEmpty(s: Option<seq<string>>) {
    s.Some? && s.value != []
  }

  /** The links one post contributes to the link file: its image link when truthy, then its
      gallery when truthy. */
  function PostUrls(p: Post): seq<string> {
    (if Truthy(p.imageUrl) then [p.imageUrl.value] else [])
    + (if NonEmpty(p.galleryImages) then p.galleryImages.value else [])
  }

  /** The links of a run of posts, in post order. */
  function FlattenUrls(posts: seq<Post>): seq<string>
    decreases |posts|
  {
    if posts == [] then [] else FlattenUrls(posts[..|posts| - 1]) + PostUrls(posts[|posts| - 1])
  }

  /** `u` is one of the links of `p`. */
  predicate PostHasUrl(p: Post, u: string) {
    (Truthy(p.imageUrl) && p.imageUrl.value == u) || (p.galleryImages.Some? && u in p.galleryImages.value)
  }

  lemma PostUrlsMembers(p: Post, u: string)
    ensures u in PostUrls(p) <==> PostHasUrl(p, u)
  {
  }

  /** The link file lists every truthy image link and every gallery link of every post. */
  lemma {:induction false} FlattenUrlsComplete(posts: seq<Post>, i: nat, u: string)
    requires i < |posts| && PostHasUrl(posts[i], u)
    ensures u in FlattenUrls(posts)
    decreases |posts|
  {
    var last := |posts| - 1;
    var front := posts[..last];
    assert FlattenUrls(posts) == FlattenUrls(front) + PostUrls(posts[last]);
    if i < last {
      assert front[i] == posts[i];
      FlattenUrlsComplete(front, i, u);
    } else {
      PostUrlsMembers(posts[last], u);
    }
  }

  /** Every line of the link file is a link of one of the posts. */
  lemma {:induction false} FlattenUrlsSound(posts: seq<Post>, u: string)
    requires u in FlattenUrls(posts)
    ensures exists i :: 0 <= i < |posts| && PostHasUrl(posts[i], u)
    decreases |posts|
  {
    var last := |posts| - 1;
    var front := posts[..last];
    PostUrlsMembers(posts[last], u);
    if u in FlattenUrls(front) {
      FlattenUrlsSound(front, u);
      var i :| 0 <= i < |front| && PostHasUrl(front[i], u);
      assert posts[i] == front[i];
    } else {
      assert PostHasUrl(posts[last], u);
    }
  }

  /** The links of a concatenation are the concatenation of the links. */
  lemma {:induction false} FlattenUrlsConcat(a: seq<Post>, b: seq<Post>)
    ensures FlattenUrls(a + b) == FlattenUrls(a) + FlattenUrls(b)
    decreases |b|
  {
    if b == [] {
      assert a + b == a;
    } else {
      var n := |b| - 1;
      assert (a + b)[..|a + b| - 1] == a + b[..n];
      assert (a + b)[|a + b| - 1] == b[n];
      FlattenUrlsConcat(a, b[..n]);
    }
  }

  /** The number of posts whose image link is truthy. */
  function ImageCount(posts: seq<Post>): nat
    decreases |posts|
  {
    if posts == [] then 0
    else ImageCount(posts[..|posts| - 1]) + (if Truthy(posts[|posts| - 1].imageUrl) then 1 else 0)
  }

  /** The total length of the galleries of the posts. */
  function GalleryTotal(posts: seq<Post>): nat
    decreases |posts|
  {
    if posts == [] then 0
    else GalleryTotal(posts[..|posts| - 1]) + |posts[|posts| - 1].galleryImages.GetOr([])|
  }

  /** The link list has one line per truthy image link plus one per gallery entry. */
  lemma {:induction false} FlattenUrlsLength(posts: seq<Post>)
    ensures |FlattenUrls(posts)| == ImageCount(posts) + GalleryTotal(posts)
    decreases |posts|
  {
    if posts != [] {
      FlattenUrlsLength(posts[..|posts| - 1]);
    }
  }

  /** Tagging posts with their subreddit changes none of their links. */
  lemma {:induction false} FlattenUrlsTagged(posts: seq<Post>, subreddit: string)
    ensures FlattenUrls(Tagged(posts, subreddit)) == FlattenUrls(posts)
    decreases |posts|
  {
    if posts != [] {
      var n := |posts| - 1;
      assert Tagged(posts, subreddit)[..n] == Tagged(posts[..n], subreddit);
      FlattenUrlsTagged(posts[..n], subreddit);
    }
  }

  /** Every extracted post contributes at least one link: the link file of well-formed posts
      has at least as many lines as there are posts. */
  lemma {:induction false} FlattenUrlsCount(posts: seq<Post>)
    requires forall i :: 0 <= i < |posts| ==> WellFormed(posts[i])
    ensures |FlattenUrls(posts)| >= |posts|
    decreases |posts|
  {
    if posts != [] {
      var last := posts[|posts| - 1];
      FlattenUrlsCount(posts[..|posts| - 1]);
      if last.imageUrl.Some? {
        IsImageLength(last.imageUrl.value);
      }
    }
  }

  /** The text of the link file: every link followed by a newline. */
  function UrlLines(urls: seq<string>): string
    decreases |urls|
  {
    if urls == [] then "" else urls[0] + "\n" + UrlLines(urls[1..])
  }

  lemma {:induction false} UrlLinesAppend(urls: seq<string>, u: string)
    ensures UrlLines(urls + [u]) == UrlLines(urls) + u + "\n"
    decreases |urls|
  {
    if urls == [] {
      assert UrlLines([u]) == u + "\n" + UrlLines([]);
    } else {
      assert (urls + [u])[1..] == urls[1..] + [u];
      UrlLinesAppend(urls[1..], u);
    }
  }

  /** Reading the link file line by line gives back the links, as long as no link contains a
      newline. */
  lemma {:induction false} SplitUrlLines(urls: seq<string>)
    requires forall i :: 0 <= i < |urls| ==> '\n' !in urls[i]
    ensures SplitLines(UrlLines(urls)) == urls
    decreases |urls|
  {
    if urls != [] {
      var u := urls[0];
      var rest := UrlLines(urls[1..]);
      var text := UrlLines(urls);
      assert text == u + "\n" + rest;
      var i := NewlineIndex(text);
      assert text[|u|] == '\n';
      assert forall j :: 0 <= j < |u| ==> text[j] == u[j];
      assert i == |u|;
      assert text[..i] == u;
      assert text[i + 1..] == rest;
      SplitUrlLines(urls[1..]);
    }
  }

  /** `main.py`, from the cookie check to the written file. */
  function Main(cookies: bool, feed: seq<Response>, subreddit: string, limit: int, sort: string,
                mode: OutputMode, downloadImages: bool): MainRun
  {
    if !cookies then MainRun([], MissingCookies)
    else
      var run := Scrape(feed, subreddit, limit, sort);
      if run.result.Failure? then MainRun(run.requested, Crashed(run.result.error))
      else
        var images := Tagged(run.result.value, subreddit);
        if images == [] then MainRun(run.requested, Finished(None, false))
        else if mode == ImageUrl then
          MainRun(run.requested, Finished(Some(UrlFile(UrlLines(FlattenUrls(images)))), downloadImages))
        else MainRun(run.requested, Finished(Some(JsonFile(images)), false))
  }

  /** What `main.py` does, for every input: without a cookie file nothing is requested; an
      exception of the scraper ends the run; otherwise a file is written exactly when the
      scrape returned posts. The JSON document holds the scraped posts, in order, each tagged
      with the subreddit; `post_with_comments` writes the same as `post`; the downloader runs
      only in `image_url` mode, when asked and when a link file was written. */
  lemma MainOutcome(cookies: bool, feed: seq<Response>, subreddit: string, limit: int, sort: string,
                    mode: OutputMode, downloadImages: bool, m: MainRun)
    requires m == Main(cookies, feed, subreddit, limit, sort, mode, downloadImages)
    ensures !cookies <==> m.outcome == MissingCookies
    ensures !cookies ==> m.requested == []
    ensures cookies ==> m.requested == Scrape(feed, subreddit, limit, sort).requested
    ensures m.outcome.Crashed? <==> cookies && Scrape(feed, subreddit, limit, sort).result.Failure?
    ensures m.outcome.Finished? ==>
      var posts := Scrape(feed, subreddit, limit, sort).result.value;
      && (m.outcome.written.Some? <==> posts != [])
      && (m.outcome.downloads <==> mode == ImageUrl && downloadImages && posts != [])
      && (m.outcome.written.Some? && mode != ImageUrl ==>
            && m.outcome.written.value.JsonFile?
            && |m.outcome.written.value.entries| == |posts|
            && (limit >= 0 ==> |posts| <= limit)
            && forall i :: 0 <= i < |posts| ==>
                 m.outcome.written.value.entries[i] == posts[i].(subreddit := Some(subreddit)))
    ensures Main(cookies, feed, subreddit, limit, sort, PostWithComments, downloadImages)
         == Main(cookies, feed, subreddit, limit, sort, PostMode, downloadImages)
  {
    if cookies {
      ScrapeResult(feed, subreddit, limit, sort, Scrape(feed, subreddit, limit, sort));
    }
  }

  /** In `image_url` mode the link file, read back line by line, lists every image link and
      every gallery link of the scraped posts in order (tagging changes none of them), at
      least one per post. */
  lemma MainUrlFile(cookies: bool, feed: seq<Response>, subreddit: string, limit: int, sort: string,
                    downloadImages: bool, m: MainRun)
    requires m == Main(cookies, feed, subreddit, limit, sort, ImageUrl, downloadImages)
    requires m.outcome.Finished? && m.outcome.written.Some?
    requires var posts := Scrape(feed, subreddit, limit, sort).result.value;
      forall u :: u in FlattenUrls(posts) ==> '\n' !in u
    ensures var posts := Scrape(feed, subreddit, limit, sort).result.value;
      && m.outcome.written.value.UrlFile?
      && SplitLines(m.outcome.written.value.contents) == FlattenUrls(posts)
      && |SplitLines(m.outcome.written.value.contents)| >= |posts| > 0
  {
    var run := Scrape(feed, subreddit, limit, sort);
    var posts := run.result.value;
    ScrapeResult(feed, subreddit, limit, sort, run);
    FlattenUrlsTagged(posts, subreddit);
    FlattenUrlsCount(posts);
    SplitUrlLines(FlattenUrls(posts));
  }

  /** `scraper.py`'s own entry point: the same scrape, the untagged posts as JSON, and
      nothing written when there are none. */
  function ScriptMain(cookies: bool, feed: seq<Response>, subreddit: string, limit: int, sort: string): MainRun {
    if !cookies then MainRun([], MissingCookies)
    else
      var run := Scrape(feed, subreddit, limit, sort);
      if run.result.Failure? then MainRun(run.requested, Crashed(run.result.error))
      else if run.result.value == [] then MainRun(run.requested, Finished(None, false))
      else MainRun(run.requested, Finished(Some(JsonFile(run.result.value)), false))
  }

  /** The two entry points issue the same requests and end the same way; where both write
      JSON, `main.py`'s entries are `scraper.py`'s with the subreddit added, and these carry
      no subreddit. */
  lemma ScriptMainAgrees(cookies: bool, feed: seq<Response>, subreddit: string, limit: int, sort: string,
                         s: MainRun, m: MainRun)
    requires s == ScriptMain(cookies, feed, subreddit, limit, sort)
    requires m == Main(cookies, feed, subreddit, limit, sort, PostMode, false)
    ensures s.requested == m.requested
    ensures s.outcome.Finished? <==> m.outcome.Finished?
    ensures s.outcome.Finished? ==> (s.outcome.written.Some? <==> m.outcome.written.Some?)
    ensures s.outcome.Finished? && s.outcome.written.Some? ==>
      && s.outcome.written.value.JsonFile?
      && m.outcome.written.value == JsonFile(Tagged(s.outcome.written.value.entries, subreddit))
      && forall i :: 0 <= i < |s.outcome.written.value.entries| ==>
           s.outcome.written.value.entries[i].subreddit.None?
  {
    if cookies {
      var run := Scrape(feed, subreddit, limit, sort);
      ScrapeResult(feed, subreddit, limit, sort, run);
      if run.result.Success? {
        assert forall i :: 0 <= i < |run.result.value| ==> run.result.value[i] in run.result.value;
      }
    }
  }

  /** The tagging loop of `main.py`: every post of the list gets the subreddit name. */
  method AddSubreddit(images: array<Post>, subreddit: string)
    modifies images
    ensures images[..] == Tagged(old(images[..]), subreddit)
  {
    for i := 0 to images.Length
      invariant forall j :: 0 <= j < i ==> images[j] == old(images[j]).(subreddit := Some(subreddit))
      invariant forall j :: i <= j < images.Length ==> images[j] == old(images[j])
    {
      images[i] := images[i].(subreddit := Some(subreddit));
    }
  }

  /** The link-collecting loop of `main.py`'s `image_url` mode. */
  method CollectUrls(images: seq<Post>) returns (urls: seq<string>)
    ensures urls == FlattenUrls(images)
  {
    urls := [];
    for i := 0 to |images|
      invariant urls == FlattenUrls(images[..i])
    {
      assert images[..i + 1][..i] == images[..i];
      var post := images[i];
      if Truthy(post.imageUrl) {
        urls := urls + [post.imageUrl.value];
      }
      if NonEmpty(post.galleryImages) {
        urls := urls + post.galleryImages.value;
      }
    }
    assert images[..|images|] == images;
  }

  /** The loop writing the link file: each link, then a newline. */
  method WriteUrlLines(urls: seq<string>) returns (contents: string)
    ensures contents == UrlLines(urls)
  {
    contents := "";
    for i := 0 to |urls|
      invariant contents == UrlLines(urls[..i])
    {
      UrlLinesAppend(urls[..i], urls[i]);
      assert urls[..i + 1] == urls[..i] + [urls[i]];
      contents := contents + urls[i] + "\n";
    }
    assert urls[..|urls|] == urls;
  }

  /** `main.py` run against the canned responses: check the cookie file, scrape, tag, and
      write the JSON document or the link file when there are posts. */
  method RunMain(cookies: bool, feed: seq<Response>, subreddit: string, limit: int, sort: string,
                 mode: OutputMode, downloadImages: bool)
    returns (requested: seq<string>, outcome: Outcome)
    ensures MainRun(requested, outcome) == Main(cookies, feed, subreddit, limit, sort, mode, downloadImages)
  {
    if !cookies {
      return [], MissingCookies;
    }
    var result;
    requested, result := GetSubredditPosts(feed, subreddit, limit, sort);
    if result.Failure? {
      return requested, Crashed(result.error);
    }
    var scraped := result.value;
    var images := new Post[|scraped|](i requires 0 <= i < |scraped| => scraped[i]);
    assert images[..] == scraped;
    AddSubreddit(images, subreddit);
    assert images[..] == Tagged(scraped, subreddit);
    if images.Length == 0 {
      return requested, Finished(None, false);
    }
    if mode == ImageUrl {
      var urls := CollectUrls(images[..]);
      var contents := WriteUrlLines(urls);
      outcome := Finished(Some(UrlFile(contents)), downloadImages);
    } else {
      outcome := Finished(Some(JsonFile(images[..])), false);
    }
  }
}
