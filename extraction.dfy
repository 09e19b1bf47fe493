/**
 The per-entry rules of `get_subreddit_posts`: which listing children become posts, and what
 a post holds. A child is kept when its link is a direct image (a case-insensitive suffix
 test against five extensions) or when it is a gallery with at least one source URL.
 */
module Extraction {
  import opened Feed
  import opened Text

  const ImageExtensions: seq<string> := [".jpg", ".jpeg", ".png", ".gif", ".webp"]

  /** The origin prefixed to every relative permalink. */
  const PermalinkBase := "https://www.reddit.com"

  /** One extracted post. `createdUtc` is the submission timestamp the source formats as an
      ISO-8601 string; `subreddit` is absent until the entry point attaches it. */
  datatype Post = Post(
    title: Option<string>,
    author: Option<string>,
    createdUtc: int,
    permalink: string,
    imageUrl: Option<string>,
    galleryImages: Option<seq<string>>,
    subreddit: Option<string>)

  /** `any(url.lower().endswith(ext) for ext in [...])` */
  predicate IsImage(url: string) {
    exists i :: 0 <= i < |ImageExtensions| && EndsWith(Lower(url), ImageExtensions[i])
  }

  /** The test ignores case: any link ending in a recognised extension, written in any mix of
      upper and lower case, is an image. */
  lemma IsImageAnyCase(stem: string, tail: string)
    requires Lower(tail) in ImageExtensions
    ensures IsImage(stem + tail)
  {
    LowerAppend(stem, tail);
    var l := Lower(stem + tail);
    assert l[|l| - |tail|..] == Lower(tail);
  }

  /** A link that passes the test is at least as long as the shortest extension. */
  lemma IsImageLength(url: string)
    requires IsImage(url)
    ensures |url| >= 4
  {
    var ext :| ext in ImageExtensions && EndsWith(Lower(url), ext);
  }

  /** `media_metadata[item_id].get("s", {})` followed by the `"u" in s` test. */
  function SourceUrl(item: MediaItem): Option<string> {
    item.s.GetOr(Source(None)).u
  }

  /** The gallery URLs of a metadata object: one per item whose source has a `u`, in the
      object's iteration order, each with `&amp;` replaced by `&`. */
  function MetadataUrls(items: seq<MediaItem>): seq<string>
    decreases |items|
  {
    if items == [] then []
    else
      var last := items[|items| - 1];
      MetadataUrls(items[..|items| - 1])
      + (if SourceUrl(last).Some? then [UnescapeAmpersands(SourceUrl(last).value)] else [])
  }

  /** Collection keeps metadata order: the URLs of a concatenation are the concatenation of
      the URLs. With `b` a single item lacking `u`, this says that such items are skipped. */
  lemma {:induction false} MetadataUrlsConcat(a: seq<MediaItem>, b: seq<MediaItem>)
    ensures MetadataUrls(a + b) == MetadataUrls(a) + MetadataUrls(b)
    decreases |b|
  {
    if b == [] {
      assert a + b == a;
    } else {
      var n := |b| - 1;
      assert (a + b)[..|a + b| - 1] == a + b[..n];
      MetadataUrlsConcat(a, b[..n]);
    }
  }

  /** When every item carries a source URL there is exactly one gallery URL per item, and the
      i-th one is the i-th item's `u`, unescaped. */
  lemma {:induction false} MetadataUrlsAt(items: seq<MediaItem>)
    requires forall i :: 0 <= i < |items| ==> SourceUrl(items[i]).Some?
    ensures |MetadataUrls(items)| == |items|
    ensures forall i :: 0 <= i < |items| ==>
      MetadataUrls(items)[i] == UnescapeAmpersands(SourceUrl(items[i]).value)
    decreases |items|
  {
    if items != [] {
      var front := items[..|items| - 1];
      MetadataUrlsAt(front);
    }
  }

  /** The metadata items the server sends for a gallery of the given image URLs. */
  function GalleryItems(urls: seq<string>): (items: seq<MediaItem>)
    ensures |items| == |urls|
    ensures forall i :: 0 <= i < |urls| ==> SourceUrl(items[i]) == Some(EscapeAmpersands(urls[i]))
  {
    seq(|urls|, i requires 0 <= i < |urls| => MediaItem(Some(Source(Some(EscapeAmpersands(urls[i]))))))
  }

  /** Gallery collection recovers the image URLs from the escaped metadata. */
  lemma MetadataUrlsOfGallery(urls: seq<string>)
    ensures MetadataUrls(GalleryItems(urls)) == urls
  {
    var items := GalleryItems(urls);
    MetadataUrlsAt(items);
    forall i | 0 <= i < |urls| ensures MetadataUrls(items)[i] == urls[i] {
      UnescapeEscape(urls[i]);
    }
  }

  /** Gallery URLs are collected only when `is_gallery` is present and true. */
  function GalleryUrls(d: EntryData): seq<string> {
    if d.isGallery == Some(true) then MetadataUrls(d.mediaMetadata.GetOr([])) else []
  }

  /** The f-string rendering of `p_data.get('permalink')`: a missing value prints as `None`. */
  function PermalinkText(p: Option<string>): string {
    match p
    case Some(s) => s
    case None => "None"
  }

  predicate StartsWith(s: string, prefix: string) {
    |prefix| <= |s| && s[..|prefix|] == prefix
  }

  /** What every retained post satisfies: an image URL or a gallery, a non-empty gallery when
      there is one, a direct image link when there is one, an absolute permalink, and no
      subreddit yet. */
  predicate WellFormed(p: Post) {
    && (p.imageUrl.Some? || p.galleryImages.Some?)
    && (p.galleryImages.Some? ==> p.galleryImages.value != [])
    && (p.imageUrl.Some? ==> IsImage(p.imageUrl.value))
    && StartsWith(p.permalink, PermalinkBase)
    && p.subreddit.None?
  }

  /** The post a listing child yields, or `None` when the child is filtered out. */
  function ExtractPost(c: Child): Option<Post> {
    var d := DataOf(c);
    var imageUrl := d.url.GetOr("");
    var isImage := IsImage(imageUrl);
    var gallery := GalleryUrls(d);
    if isImage || gallery != [] then
      Some(Post(
        d.title,
        d.author,
        d.createdUtc.GetOr(0),
        PermalinkBase + PermalinkText(d.permalink),
        if isImage then Some(imageUrl) else None,
        if gallery != [] then Some(gallery) else None,
        None))
    else
      None
  }

  /** The filter and the fields: a child is kept exactly when its link is an image or its
      gallery yields URLs; `image_url` is then the raw link exactly when it is an image,
      `gallery_images` holds the gallery URLs exactly when there are some (and only for a
      child flagged as a gallery), and the post is well formed. */
  lemma ExtractPostSpec(c: Child)
    ensures var r := ExtractPost(c);
      var url := DataOf(c).url.GetOr("");
      && (r.Some? <==> IsImage(url) || GalleryUrls(DataOf(c)) != [])
      && (r.Some? ==>
            && WellFormed(r.value)
            && r.value.imageUrl == (if IsImage(url) then Some(url) else None)
            && r.value.title == DataOf(c).title && r.value.author == DataOf(c).author
            && r.value.permalink == PermalinkBase + PermalinkText(DataOf(c).permalink)
            && r.value.galleryImages.GetOr([]) == GalleryUrls(DataOf(c))
            && (r.value.galleryImages.Some? ==> DataOf(c).isGallery == Some(true)))
  {
  }

  /** The listing child the server sends for a post: the image link as `url`, the gallery as
      escaped metadata, the permalink relative to the origin. */
  function EntryFor(p: Post): Child
    requires WellFormed(p)
  {
    Child(Some(EntryData(
      p.imageUrl,
      if p.galleryImages.Some? then Some(true) else None,
      if p.galleryImages.Some? then Some(GalleryItems(p.galleryImages.value)) else None,
      p.title,
      p.author,
      Some(p.createdUtc),
      Some(p.permalink[|PermalinkBase|..]))))
  }

  /** Extraction loses nothing: every well-formed post is extracted back from the entry the
      server sends for it. With the ensures of ExtractPost, the posts extraction can produce
      are exactly the well-formed ones. */
  lemma ExtractPostEntryFor(p: Post)
    requires WellFormed(p)
    ensures ExtractPost(EntryFor(p)) == Some(p)
  {
    var d := DataOf(EntryFor(p));
    if p.galleryImages.Some? {
      MetadataUrlsOfGallery(p.galleryImages.value);
    }
    assert Lower("") == "";
    assert PermalinkBase + PermalinkText(d.permalink) == p.permalink;
  }

  /** `ExtractPost` as a sequence of zero or one posts. */
  function Kept(c: Child): seq<Post> {
    match ExtractPost(c)
    case Some(p) => [p]
    case None => []
  }

  /** The posts a run of children yields, in feed order. */
  function Extracted(cs: seq<Child>): seq<Post>
    decreases |cs|
  {
    if cs == [] then [] else Extracted(cs[..|cs| - 1]) + Kept(cs[|cs| - 1])
  }

  lemma ExtractedStep(cs: seq<Child>, j: nat)
    requires j < |cs|
    ensures Extracted(cs[..j + 1]) == Extracted(cs[..j]) + Kept(cs[j])
  {
    assert cs[..j + 1][..j] == cs[..j];
  }

  /** Filtering preserves feed order: the posts of a concatenation are the concatenation of
      the posts. */
  lemma {:induction false} ExtractedConcat(a: seq<Child>, b: seq<Child>)
    ensures Extracted(a + b) == Extracted(a) + Extracted(b)
    decreases |b|
  {
    if b == [] {
      assert a + b == a;
    } else {
      var n := |b| - 1;
      assert (a + b)[..|a + b| - 1] == a + b[..n];
      ExtractedConcat(a, b[..n]);
    }
  }

  /** The posts of a run of children are exactly the posts its children yield. */
  lemma {:induction false} ExtractedMembers(cs: seq<Child>, p: Post)
    ensures p in Extracted(cs) <==> exists i :: 0 <= i < |cs| && ExtractPost(cs[i]) == Some(p)
    decreases |cs|
  {
    if cs != [] {
      var front := cs[..|cs| - 1];
      ExtractedMembers(front, p);
      assert forall i :: 0 <= i < |front| ==> cs[i] == front[i];
    }
  }

  /** Filtering never adds posts, and every post it keeps is well formed. */
  lemma {:induction false} ExtractedWellFormed(cs: seq<Child>)
    ensures |Extracted(cs)| <= |cs|
    ensures forall p :: p in Extracted(cs) ==> WellFormed(p)
    decreases |cs|
  {
    if cs != [] {
      ExtractedWellFormed(cs[..|cs| - 1]);
      ExtractPostSpec(cs[|cs| - 1]);
    }
  }

  /** The per-entry gallery loop: iterate over the metadata, append the unescaped `u` of
      every item that has one. */
  method CollectGalleryUrls(metadata: seq<MediaItem>) returns (urls: seq<string>)
    ensures urls == MetadataUrls(metadata)
  {
    urls := [];
    for i := 0 to |metadata|
      invariant urls == MetadataUrls(metadata[..i])
    {
      assert metadata[..i + 1][..i] == metadata[..i];
      var s := metadata[i].s.GetOr(Source(None));
      if s.u.Some? {
        urls := urls + [UnescapeAmpersands(s.u.value)];
      }
    }
    assert metadata[..|metadata|] == metadata;
  }

  /** The body of the loop over `children`: test the link, collect the gallery, keep the
      child as a post when either found something. */
  method ExtractEntry(c: Child) returns (post: Option<Post>)
    ensures post == ExtractPost(c)
  {
    var d := DataOf(c);
    var imageUrl := d.url.GetOr("");
    var isImage := IsImage(imageUrl);
    var galleryUrls: seq<string> := [];
    if d.isGallery == Some(true) {
      galleryUrls := CollectGalleryUrls(d.mediaMetadata.GetOr([]));
    }
    if isImage || galleryUrls != [] {
      post := Some(Post(
        d.title,
        d.author,
        d.createdUtc.GetOr(0),
        PermalinkBase + PermalinkText(d.permalink),
        if isImage then Some(imageUrl) else None,
        if galleryUrls != [] then Some(galleryUrls) else None,
        None));
    } else {
      post := None;
    }
  }
}
