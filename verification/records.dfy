/** The records the downloader reads and writes.

    Raw records are the dictionaries the Instagram extractor yields; every
    key the handlers test with `in` or read with `.get` is an `Option`
    field (`None`: the key is absent), and a present key is taken to hold a
    value of its usual type. Identifiers (`pk`, `id`, `code`) are held as
    their text, which is what the f-strings of the filenames print.

    The normalised record is the `processed_metadata` dictionary. */
module Records {
  import opened Wrappers
  import opened Patterns

  /** A user dictionary (`owner`, `user`, a `coauthor_producers` entry). */
  datatype RawUser = RawUser(username: Option<string>, id: Option<string>)

  /** One rendition of a media item (`video_versions[0]`,
      `candidates[0]`): a dictionary, or a list whose first dictionary is
      read; each dictionary is given by its `url` value. */
  datatype Rendition = Entry(url: Option<string>) | Listed(urls: seq<Option<string>>)

  /** `image_versions2`: its `candidates` list, if the key is present. */
  datatype ImageVersions = ImageVersions(candidates: Option<seq<Rendition>>)

  /** The value of a `caption` key: `None`, an empty dictionary, or a
      non-empty dictionary with or without a `text` key. Only the last is
      truthy. */
  datatype RawCaption = NullCaption | EmptyCaption | CaptionDict(text: Option<string>)

  /** An entry of `usertags.in`: its `user` dictionary, if present. */
  datatype RawTag = RawTag(user: Option<RawUser>)

  /** `usertags`: its `in` list, if the key is present. */
  datatype RawUserTags = RawUserTags(tagsIn: Option<seq<RawTag>>)

  /** A media dictionary: a `carousel_media` entry, or an `items` entry of
      a story or highlight. */
  datatype RawMedia = RawMedia(
    id: Option<string>,
    pk: Option<string>,
    takenAt: Option<int>,
    accessibilityCaption: Option<string>,
    imageVersions2: Option<ImageVersions>,
    videoVersions: Option<seq<Rendition>>)

  /** One item of the extractor's `posts()`: a post, a reel, a story reel
      or a highlight. The handler chosen by the URL category reads the keys
      it knows about. */
  datatype RawRecord = RawRecord(
    productType: Option<string>,
    owner: Option<RawUser>,
    coauthorProducers: Option<seq<RawUser>>,
    pk: Option<string>,
    code: Option<string>,
    takenAt: Option<int>,
    caption: Option<RawCaption>,
    usertags: Option<RawUserTags>,
    carouselMedia: Option<seq<RawMedia>>,
    id: Option<string>,
    imageVersions2: Option<ImageVersions>,
    videoVersions: Option<seq<Rendition>>,
    user: Option<RawUser>,
    title: Option<string>,
    items: Option<seq<RawMedia>>)

  /** An entry of `owners` or `tagged_users`. */
  datatype Person = Person(username: Option<string>, userId: Option<string>)

  /** The person a user dictionary describes (`username`, `id`). */
  function PersonOf(u: RawUser): (p: Person)
    ensures p.username == u.username && p.userId == u.id
  {
    Person(u.username, u.id)
  }

  /** The `type` value of a media file: `'image'` or `'video'`. */
  datatype MediaKind = Image | Video

  /** A key of the additional metadata of a media file: absent, or present
      with a value that may be `None`. */
  datatype Key<T> = Absent | Present(value: Option<T>)

  /** The additional metadata merged into a media file. */
  datatype Extra = Extra(alt: Key<string>, id: Key<string>, takenAt: Key<int>)

  const NoExtra: Extra := Extra(Absent, Absent, Absent)

  /** An entry of `media_files`. */
  datatype MediaFile = MediaFile(url: Option<string>, kind: MediaKind, filename: string, extra: Extra)

  /** The `processed_metadata` dictionary. `id`, `shortcode` and
      `takenAt` are `None` when the key was never set; `isPrivate` and
      `error` are set last, by the download itself. */
  datatype Record = Record(
    contentType: Category,
    owners: seq<Person>,
    originalUrl: string,
    cleanedUrl: string,
    caption: Option<string>,
    taggedUsers: seq<Person>,
    mediaFiles: seq<MediaFile>,
    id: Option<string>,
    shortcode: Option<string>,
    takenAt: Option<int>,
    isPrivate: bool,
    error: Option<string>)

  /** How Python prints a value that may be `None` inside an f-string. */
  function Show(v: Option<string>): (s: string)
    ensures v.Some? ==> s == v.value
    ensures v.None? ==> s == "None"
  {
    match v
    case Some(t) => t
    case None => "None"
  }

  /** `str()` of the exceptions the handlers can raise on records that
      lack what they expect. */
  const MissingPk: string := "'pk'"
  const NoneNotIterable: string := "'NoneType' object is not iterable"
  const NoneHasNoGet: string := "'NoneType' object has no attribute 'get'"
  const NoneHasNoSplit: string := "'NoneType' object has no attribute 'split'"
  const IndexOutOfRange: string := "list index out of range"

  /** Every message a handler can raise on a malformed record. */
  const CrashMessages: set<string> := {MissingPk, NoneNotIterable, NoneHasNoGet, NoneHasNoSplit, IndexOutOfRange}
}
