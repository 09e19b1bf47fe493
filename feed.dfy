/**
 The JSON shapes of the forum's listing endpoint, as far as the scraper reads them.

 A listing response is `{ data: { children: [ { data: {...} } ], after: <cursor or null> } }`.
 Every field the scraper reads with `.get(key, default)` is an `Option` here: `None` is a key
 that is absent, and the scraper's default is applied where the field is read, not here. A
 `None` also stands for JSON null where the scraper reads null as it reads an absent key
 (`title`, `author`, `permalink`, the cursor, `is_gallery`). A null in the other fields makes the
 scraper raise; such values are not represented.
 */
module Feed {

  datatype Option<T> = None | Some(value: T) {
    function GetOr(default: T): T {
      match this
      case Some(v) => v
      case None => default
    }
  }

  datatype Result<T, E> = Success(value: T) | Failure(error: E)

  /** The `s` ("source") object of one gallery item; `u` is its URL, HTML-escaped by the server. */
  datatype Source = Source(u: Option<string>)

  /** The value of one entry of a gallery's `media_metadata` object. The object becomes the
      sequence of its values in iteration order; the keys are only used to reach the values. */
  datatype MediaItem = MediaItem(s: Option<Source>)

  /** The `data` object of one listing child (one submission). */
  datatype EntryData = EntryData(
    url: Option<string>,
    isGallery: Option<bool>,
    mediaMetadata: Option<seq<MediaItem>>,
    title: Option<string>,
    author: Option<string>,
    createdUtc: Option<int>,
    permalink: Option<string>)

  /** A child of the listing; a child without a `data` object reads as an empty one. */
  datatype Child = Child(data: Option<EntryData>)

  /** The `data` object of a listing page. A body without `data` or without `children`
      reads as a page with no children and no cursor. */
  datatype Listing = Listing(children: seq<Child>, after: Option<string>)

  /** One HTTP response of the listing endpoint. `body` is `None` when the body is not a
      JSON object, which makes the scraper raise when it reads it. */
  datatype Response = Response(status: int, body: Option<Listing>)

  const EmptyEntry := EntryData(None, None, None, None, None, None, None)

  /** `p.get("data", {})` */
  function DataOf(c: Child): EntryData {
    c.data.GetOr(EmptyEntry)
  }

  /** Python truthiness of an optional string: present and non-empty. */
  predicate Truthy(s: Option<string>) {
    s.Some? && s.value != ""
  }

  /** The `after` cursor of a response whose body was read (none otherwise). */
  function CursorOf(r: Response): Option<string> {
    if r.body.Some? then r.body.value.after else None
  }
}
