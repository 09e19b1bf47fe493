# RedditMiner, modelled in Dafny

RedditMiner scrapes the image posts of a subreddit. Its core is `get_subreddit_posts`. This
method pages through the subreddit's JSON listing endpoint, 100 entries per request. It threads
the `after` cursor from one page into the next request. It keeps every child whose link is a
direct image, or which is a gallery with at least one source URL. It stops on an error status,
on an empty page, on a missing cursor, or once `limit` posts are kept. It returns the kept
posts cut at `limit`.

Two command-line entry points call it:

- `main.py` tags every post with the subreddit name. It then writes either the posts as JSON
  or, in `image_url` mode, a text file with one image link per line. It can also hand that
  file to the downloader.
- `scraper.py`'s own `main` writes the untagged posts as JSON.

Both do nothing without a cookie file, and both write nothing when the scrape yields no post.
`scraper.py` holds a second copy of `get_subreddit_posts` (lines 24-83). It is the same code as
`redditminer/scraper.py:21-67`, so it is modelled once; the table cites the `redditminer/scraper.py` lines, and each member covers the matching lines of `scraper.py` as well.

The project has five modules:

- `Feed` holds the JSON shapes the scraper reads. Every `.get(key, default)` field is an
  `Option`.
- `Text` holds ASCII `str.lower`, `str.endswith`, Python's `str.replace` and the server's
  `&amp;` escaping.
- `Extraction` holds the per-entry rules. `ExtractPost` states them as a function, and
  `ExtractEntry` and `CollectGalleryUrls` are the loops proved equal to it.
- `Pagination` holds the pagination loop. `Scrape` states declaratively what a run requests
  and returns. `GetSubredditPosts` is the `while` loop, proved to produce exactly `Scrape`'s run.
- `Cli` holds both entry points. `Main` and `ScriptMain` state them as functions. `RunMain`,
  `AddSubreddit`, `CollectUrls` and `WriteUrlLines` are `main.py`'s loops, proved against
  those functions.

The HTTP session is replaced by `feed`, the sequence of responses the server gives. The i-th
request receives `feed[i]`. A request past the end of `feed` stands for `session.get` raising,
which gives `ConnectionFailed`. A 200 response whose body is not a JSON object makes
`.get` raise, which gives `MalformedBody`. Every run also records the URLs it requested.

## Model

| member | source | states |
|---|---|---|
| Text.LowerAppend | redditminer/scraper.py:41 | lower-casing commutes with concatenation, so the extension test looks at the lower-cased tail of the link |
| Text.ReplaceWithoutOccurrence | redditminer/scraper.py:48 | `replace` leaves a string in which `&amp;` does not occur unchanged |
| Text.UnescapeEscape | redditminer/scraper.py:48 | `replace("&amp;", "&")` inverts the server's escaping of `&`, for every string |
| Extraction.IsImageAnyCase | redditminer/scraper.py:41 | any link ending in one of the five extensions, in any mix of case, passes the image test |
| Extraction.IsImageLength | redditminer/scraper.py:41 | a link that passes the image test is at least four characters long |
| Extraction.MetadataUrlsConcat | redditminer/scraper.py:43-48 | gallery URLs are collected in metadata order, and items without `u` are skipped |
| Extraction.MetadataUrlsAt | redditminer/scraper.py:45-48 | when every item has a `u`, there is one gallery URL per item, and the i-th is the i-th item's `u` unescaped |
| Extraction.MetadataUrlsOfGallery | redditminer/scraper.py:43-48 | gallery collection recovers exactly the image URLs from the escaped metadata |
| Extraction.ExtractPostSpec | redditminer/scraper.py:39-58 | a child is kept iff its link is an image or its gallery yields URLs; `image_url` is the raw link iff it is an image; `gallery_images` holds the gallery URLs iff there are some, and only when `is_gallery` is true; title, author and permalink come from the child; the post is well formed |
| Extraction.ExtractPostEntryFor | redditminer/scraper.py:39-58 | every well-formed post is extracted back from the child the server sends for it, so extraction loses nothing |
| Extraction.ExtractedMembers | redditminer/scraper.py:38-59 | the posts of a page are exactly the posts its children yield |
| Extraction.ExtractedConcat | redditminer/scraper.py:38-59 | filtering keeps feed order: the posts of a concatenation are the concatenation of the posts |
| Extraction.ExtractedWellFormed | redditminer/scraper.py:38-59 | a page yields at most one post per child, and every kept post is well formed |
| Extraction.CollectGalleryUrls | redditminer/scraper.py:42-48 | the gallery loop returns exactly the unescaped `u` of every item that has one, in order |
| Extraction.ExtractEntry | redditminer/scraper.py:39-59 | the body of the loop over children yields exactly `ExtractPost` of the child |
| Pagination.Prefix | redditminer/scraper.py:67 | `posts[:limit]` is a prefix of the posts, of length `limit` clamped to the list, counting from the end for a negative limit |
| Pagination.StopIndexSpec | redditminer/scraper.py:26-64 | every response before the last one requested lets the loop continue, and the last one answered ends it |
| Pagination.ScrapeRequestCount | redditminer/scraper.py:26-30 | nothing is requested iff `limit <= 0`, and at most one request goes past the answered responses |
| Pagination.ScrapeRequests | redditminer/scraper.py:25-29 | the first request carries no cursor; each later one carries the truthy `after` of the response just before it |
| Pagination.ScrapeStops | redditminer/scraper.py:26-64 | every response but the last requested is a readable 200 page with children and a cursor, with the limit not yet reached, and the last answered one is not |
| Pagination.ScrapeResult | redditminer/scraper.py:26-67 | the scrape raises only when the server stops answering or a 200 body is not an object; otherwise it returns at most `limit` well-formed posts, a prefix in feed order of the requested pages' posts, and all of them when fewer than `limit` |
| Pagination.HarvestWellFormed | redditminer/scraper.py:50-59 | every post any run of pages yields is well formed |
| Pagination.ScrapeStopsEarly | redditminer/scraper.py:31-64 | a non-200 status or an empty page ends pagination there, without raising, and returns every post of the earlier pages; a page without a truthy cursor ends it after its children, with the posts so far cut at the limit |
| Pagination.ScrapeShortResult | redditminer/scraper.py:26-67 | a result shorter than the limit means the last response requested did not let the loop continue |
| Pagination.ScrapeTwoPages | redditminer/scraper.py:26-67 | a page with a cursor and fewer qualifying children than the limit, then an empty page: exactly two requests, and every qualifying post of the first page |
| Pagination.ScanChildren | redditminer/scraper.py:38-61 | the loop over one page's children appends the page's posts to the collected ones and stops at the limit |
| Pagination.GetSubredditPosts | redditminer/scraper.py:21-67 | the pagination loop issues exactly the requests of `Scrape`, and returns or raises exactly as `Scrape` says |
| Cli.FlattenUrlsComplete | main.py:47-51 | every truthy image link and every gallery link of every post is in the link list |
| Cli.FlattenUrlsSound | main.py:47-51 | every entry of the link list is a link of some post |
| Cli.FlattenUrlsConcat | main.py:47-51 | the link list keeps post order: the links of a concatenation are the concatenation of the links |
| Cli.FlattenUrlsLength | main.py:47-51 | the link list has one entry per truthy image link plus one per gallery entry |
| Cli.FlattenUrlsTagged | main.py:34-35 | tagging the posts with the subreddit changes none of their links |
| Cli.FlattenUrlsCount | main.py:46-51 | well-formed posts give at least one link each |
| Cli.SplitUrlLines | main.py:53-55 | the link file, read back line by line, gives the links back when none contains a newline |
| Cli.MainOutcome | main.py:26-65 | without a cookie file nothing is requested; a scraper exception ends the run; a file is written iff the scrape returned posts; the JSON holds the scraped posts in order, each tagged; `post_with_comments` behaves as `post`; the downloader runs only in `image_url` mode, when asked, with a link file written |
| Cli.MainUrlFile | main.py:44-56 | in `image_url` mode the link file lists the image and gallery links of the scraped posts in order, at least one per post |
| Cli.ScriptMainAgrees | scraper.py:96-107 | `scraper.py`'s entry point makes the same requests as `main.py`, writes JSON in the same cases, and its entries are `main.py`'s without the subreddit tag |
| Cli.AddSubreddit | main.py:34-35 | the tagging loop sets the subreddit of every post in the list, and changes nothing else |
| Cli.CollectUrls | main.py:46-51 | the link-collecting loop returns exactly `FlattenUrls` of the posts |
| Cli.WriteUrlLines | main.py:53-55 | the writing loop produces each link followed by a newline, in order |
| Cli.RunMain | main.py:26-65 | the whole of `main.py` against canned responses produces exactly the run `Main` describes |

## Left out

- The HTTP session, its headers and the loading of the cookie jar are left out. The cookie check is a boolean `cookies` parameter, and the responses are the `feed` parameter.
- `print` diagnostics and the one-second `time.sleep` between pages are left out. Neither affects what is requested or returned.
- `created_utc` is kept as the raw integer timestamp, defaulting to 0. Its `datetime.fromtimestamp(...).isoformat()` rendering is not modelled.
- `str.lower()` is modelled for ASCII letters only. Unicode case mapping is not modelled.
- JSON `null` makes the source raise for `url`, `media_metadata`, `created_utc`, a child's `data`, the page's `data`, a gallery metadata item, an item's `s`, and the `u` inside `s`. The model has no value for these nulls, so it cannot express that raise: a null `s` or `u` would be read as an absent key, skipping the item where the source aborts the whole scrape.
- `is_gallery` is an optional boolean. Other truthy JSON values (numbers, strings) are not modelled.
- A `media_metadata` object is the sequence of its values in iteration order. Its keys are not modelled.
- argparse, `os.makedirs`, the timestamped file names and the encoding of `json.dump` are left out. A run ends in an `Outcome` that says which file content would be written.
- The image downloader is not part of this model. The outcome only records whether `main.py` would call it.
- The `RedditImageScraper` constructor is left out, because it only loads cookies and sets headers.
- The server is modelled as a finite list of responses. A request past its end stands for a network failure.
- Cli.AddSubreddit: the source mutates the very dicts the scraper returned. The model copies the posts into an array and tags them there, so aliasing is not captured.
