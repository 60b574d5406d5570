/** Media-file resolution: `_extract_media_file` and the per-item rules of
    the post, story and highlight handlers that choose a rendition and
    derive a filename. */
module Media {
  import opened Wrappers
  import opened Text
  import opened Records
  import Lists

  /** A rendition `_extract_media_file` can read: a dictionary, or a list
      with a first dictionary. */
  predicate Readable(item: Rendition) {
    item.Entry? || |item.urls| > 0
  }

  /** The `url` of a readable rendition: of the dictionary itself, or of
      the first dictionary of the list. */
  function UrlOf(item: Rendition): Option<string>
    requires Readable(item)
  {
    match item
    case Entry(u) => u
    case Listed(us) => us[0]
  }

  /** `_extract_media_file`: the url of the rendition (of its first
      dictionary when it is a list), the type, the filename and the
      additional metadata. An empty list raises `IndexError`. */
  function ExtractMediaFile(item: Rendition, kind: MediaKind, filename: string, extra: Extra): (r: Result<MediaFile, string>)
    ensures r.Failure? <==> item.Listed? && |item.urls| == 0
    ensures r.Failure? ==> r.error == IndexOutOfRange
    ensures r.Success? ==> r.value.kind == kind && r.value.filename == filename && r.value.extra == extra
    ensures r.Success? && item.Entry? ==> r.value.url == item.url
    ensures r.Success? && item.Listed? ==> r.value.url == item.urls[0]
  {
    match item
    case Entry(u) => Success(MediaFile(u, kind, filename, extra))
    case Listed(us) =>
      if |us| == 0 then Failure(IndexOutOfRange)
      else Success(MediaFile(us[0], kind, filename, extra))
  }

  /** `image_versions2.get('candidates', [])`. */
  function Candidates(iv: ImageVersions): seq<Rendition> {
    iv.candidates.GetOr([])
  }

  /** The filename extension of a media kind. */
  function Extension(kind: MediaKind): string {
    match kind
    case Image => ".jpg"
    case Video => ".mp4"
  }

  /** `{pk}_{id.split('_')[0]}.ext` of a carousel entry: `KeyError` when
      the post has no `pk`, `AttributeError` when the entry has no `id`. */
  function CarouselFilename(pk: Option<string>, id: Option<string>, kind: MediaKind): (r: Result<string, string>)
    ensures r.Failure? <==> pk.None? || id.None?
    ensures pk.None? ==> r == Failure(MissingPk)
    ensures pk.Some? && id.None? ==> r == Failure(NoneHasNoSplit)
    ensures r.Success? ==> r.value == pk.value + "_" + FirstSegment(id.value, '_') + Extension(kind)
  {
    if pk.None? then Failure(MissingPk)
    else if id.None? then Failure(NoneHasNoSplit)
    else Success(pk.value + "_" + FirstSegment(id.value, '_') + Extension(kind))
  }

  /** The file a carousel entry contributes: with a `video_versions` key
      only the first video rendition is considered (an empty list gives no
      file and no fallback to the image); otherwise the first image
      candidate, which also carries `alt`. */
  function CarouselFile(pk: Option<string>, m: RawMedia): (r: Result<Option<MediaFile>, string>)
    ensures m.videoVersions.Some? && r.Success? && r.value.Some? ==>
              r.value.value.kind == Video && r.value.value.extra == NoExtra
    ensures m.videoVersions.None? && r.Success? && r.value.Some? ==>
              r.value.value.kind == Image && r.value.value.extra == Extra(Present(m.accessibilityCaption), Absent, Absent)
    ensures m.videoVersions == Some([]) ==> r == Success(None)
    ensures m.videoVersions.None? && m.imageVersions2.None? ==> r == Success(None)
    ensures m.videoVersions.Some? && |m.videoVersions.value| > 0 ==>
              (r.Success? <==> pk.Some? && m.id.Some? && Readable(m.videoVersions.value[0]))
              && (r.Success? ==> r.value.Some? && r.value.value.url == UrlOf(m.videoVersions.value[0]))
    ensures m.videoVersions.None? && m.imageVersions2.Some? ==>
              var candidates := Candidates(m.imageVersions2.value);
              (|candidates| == 0 ==> r == Success(None))
              && (|candidates| > 0 ==> (r.Success? <==> pk.Some? && m.id.Some? && Readable(candidates[0])))
              && (|candidates| > 0 && r.Success? ==> r.value.Some? && r.value.value.url == UrlOf(candidates[0]))
    ensures r.Failure? ==> r.error == (if pk.None? then MissingPk else if m.id.None? then NoneHasNoSplit else IndexOutOfRange)
    ensures r.Failure? ==> r.error in CrashMessages
    ensures r.Success? && r.value.Some? ==>
              pk.Some? && m.id.Some? &&
              r.value.value.filename == pk.value + "_" + FirstSegment(m.id.value, '_') + Extension(r.value.value.kind)
  {
    if m.videoVersions.Some? then
      var videos := m.videoVersions.value;
      if |videos| == 0 then Success(None)
      else
        var name :- CarouselFilename(pk, m.id, Video);
        var f :- ExtractMediaFile(videos[0], Video, name, NoExtra);
        Success(Some(f))
    else if m.imageVersions2.Some? then
      var candidates := Candidates(m.imageVersions2.value);
      if |candidates| == 0 then Success(None)
      else
        var name :- CarouselFilename(pk, m.id, Image);
        var f :- ExtractMediaFile(candidates[0], Image, name, Extra(Present(m.accessibilityCaption), Absent, Absent));
        Success(Some(f))
    else Success(None)
  }

  /** The file of a story or highlight item: `{pk}.mp4` from the first
      video rendition when the item has `video_versions`, otherwise
      `{pk}.jpg` from the first image candidate; both carry `id` and
      `taken_at`, images also `alt`. A missing `pk` prints as `None`. */
  function ItemFile(item: RawMedia): (r: Result<Option<MediaFile>, string>)
    ensures item.videoVersions.Some? && r.Success? && r.value.Some? ==>
              r.value.value.kind == Video && r.value.value.filename == Show(item.pk) + ".mp4"
              && r.value.value.extra == Extra(Absent, Present(item.pk), Present(item.takenAt))
    ensures item.videoVersions.None? && r.Success? && r.value.Some? ==>
              r.value.value.kind == Image && r.value.value.filename == Show(item.pk) + ".jpg"
              && r.value.value.extra == Extra(Present(item.accessibilityCaption), Present(item.pk), Present(item.takenAt))
    ensures item.videoVersions == Some([]) ==> r == Success(None)
    ensures item.videoVersions.None? && item.imageVersions2.None? ==> r == Success(None)
    ensures item.videoVersions.Some? && |item.videoVersions.value| > 0 ==>
              (r.Success? <==> Readable(item.videoVersions.value[0]))
              && (r.Success? ==> r.value.Some? && r.value.value.url == UrlOf(item.videoVersions.value[0]))
    ensures item.videoVersions.None? && item.imageVersions2.Some? ==>
              var candidates := Candidates(item.imageVersions2.value);
              (|candidates| == 0 ==> r == Success(None))
              && (|candidates| > 0 ==> (r.Success? <==> Readable(candidates[0])))
              && (|candidates| > 0 && r.Success? ==> r.value.Some? && r.value.value.url == UrlOf(candidates[0]))
    ensures r.Failure? ==> r.error == IndexOutOfRange
  {
    if item.videoVersions.Some? then
      var videos := item.videoVersions.value;
      if |videos| == 0 then Success(None)
      else
        var f :- ExtractMediaFile(videos[0], Video, Show(item.pk) + ".mp4",
                                  Extra(Absent, Present(item.pk), Present(item.takenAt)));
        Success(Some(f))
    else if item.imageVersions2.Some? then
      var candidates := Candidates(item.imageVersions2.value);
      if |candidates| == 0 then Success(None)
      else
        var f :- ExtractMediaFile(candidates[0], Image, Show(item.pk) + ".jpg",
                                  Extra(Present(item.accessibilityCaption), Present(item.pk), Present(item.takenAt)));
        Success(Some(f))
    else Success(None)
  }

  /** A post has an image candidate / a video rendition. */
  predicate HasImage(post: RawRecord) {
    post.imageVersions2.Some? && |Candidates(post.imageVersions2.value)| > 0
  }

  predicate HasVideo(post: RawRecord) {
    post.videoVersions.Some? && |post.videoVersions.value| > 0
  }

  /** The first image candidate and the first video rendition of a post. */
  function FirstImage(post: RawRecord): Rendition
    requires HasImage(post)
  {
    Candidates(post.imageVersions2.value)[0]
  }

  function FirstVideo(post: RawRecord): Rendition
    requires HasVideo(post)
  {
    post.videoVersions.value[0]
  }

  /** The image part of a flat post: `{id.split('_')[0]}.jpg` from the
      first candidate, when there is one. */
  function FlatImage(post: RawRecord): (r: Result<seq<MediaFile>, string>)
    ensures r.Success? <==> !HasImage(post) || (post.id.Some? && Readable(FirstImage(post)))
    ensures r.Success? ==> |r.value| == if HasImage(post) then 1 else 0
    ensures r.Success? && HasImage(post) ==>
              r.value[0] == MediaFile(UrlOf(FirstImage(post)), Image, FirstSegment(post.id.value, '_') + ".jpg", NoExtra)
    ensures r.Failure? ==> r.error == if post.id.None? then NoneHasNoSplit else IndexOutOfRange
  {
    if HasImage(post) then
      if post.id.None? then Failure(NoneHasNoSplit)
      else
        var f :- ExtractMediaFile(FirstImage(post), Image, FirstSegment(post.id.value, '_') + ".jpg", NoExtra);
        Success([f])
    else Success([])
  }

  /** The video part of a flat post: `{id.split('_')[0]}.mp4` from the
      first video rendition, when there is one. */
  function FlatVideo(post: RawRecord): (r: Result<seq<MediaFile>, string>)
    ensures r.Success? <==> !HasVideo(post) || (post.id.Some? && Readable(FirstVideo(post)))
    ensures r.Success? ==> |r.value| == if HasVideo(post) then 1 else 0
    ensures r.Success? && HasVideo(post) ==>
              r.value[0] == MediaFile(UrlOf(FirstVideo(post)), Video, FirstSegment(post.id.value, '_') + ".mp4", NoExtra)
    ensures r.Failure? ==> r.error == if post.id.None? then NoneHasNoSplit else IndexOutOfRange
  {
    if HasVideo(post) then
      if post.id.None? then Failure(NoneHasNoSplit)
      else
        var f :- ExtractMediaFile(FirstVideo(post), Video, FirstSegment(post.id.value, '_') + ".mp4", NoExtra);
        Success([f])
    else Success([])
  }

  /** The files of a post without `carousel_media`: the image entry, if
      any, then the video entry, if any; both may be present. It fails when
      there is a rendition but no `id`, or a first rendition that is an
      empty list. */
  function FlatFiles(post: RawRecord): (r: Result<seq<MediaFile>, string>)
    ensures r.Success? <==>
              ((HasImage(post) || HasVideo(post)) ==> post.id.Some?)
              && (HasImage(post) ==> Readable(FirstImage(post)))
              && (HasVideo(post) ==> Readable(FirstVideo(post)))
    ensures r.Success? ==> |r.value| == (if HasImage(post) then 1 else 0) + (if HasVideo(post) then 1 else 0)
    ensures r.Success? && HasImage(post) ==>
              post.id.Some? && r.value[0].kind == Image && r.value[0].filename == FirstSegment(post.id.value, '_') + ".jpg"
              && r.value[0].url == UrlOf(FirstImage(post))
    ensures r.Success? && HasVideo(post) ==>
              post.id.Some? && r.value[|r.value| - 1].kind == Video
              && r.value[|r.value| - 1].filename == FirstSegment(post.id.value, '_') + ".mp4"
              && r.value[|r.value| - 1].url == UrlOf(FirstVideo(post))
    ensures r.Success? ==> forall k | 0 <= k < |r.value| :: r.value[k].extra == NoExtra
    ensures (HasImage(post) || HasVideo(post)) && post.id.None? ==> r == Failure(NoneHasNoSplit)
    ensures r.Failure? ==> r.error == if post.id.None? then NoneHasNoSplit else IndexOutOfRange
    ensures r.Failure? ==> r.error in CrashMessages
  {
    var image :- FlatImage(post);
    var video :- FlatVideo(post);
    Success(image + video)
  }

  /** The files of a post: one per carousel entry at most, in carousel
      order, when it has `carousel_media`; the flat files otherwise. */
  function PostFiles(post: RawRecord): (r: Result<seq<MediaFile>, string>)
    ensures post.carouselMedia.Some? ==>
              r == Lists.Collect(post.carouselMedia.value, m => CarouselFile(post.pk, m))
    ensures post.carouselMedia.Some? && r.Success? ==> |r.value| <= |post.carouselMedia.value|
    ensures post.carouselMedia.None? ==> r == FlatFiles(post)
    ensures r.Failure? ==> r.error in CrashMessages
  {
    if post.carouselMedia.Some? then Lists.Collect(post.carouselMedia.value, m => CarouselFile(post.pk, m))
    else FlatFiles(post)
  }

  /** The files of the `items` of a story reel or highlight: one per item
      at most, in order. */
  function ItemFiles(items: seq<RawMedia>): (r: Result<seq<MediaFile>, string>)
    ensures r == Lists.Collect(items, ItemFile)
    ensures r.Success? <==> forall i | 0 <= i < |items| :: ItemFile(items[i]).Success?
    ensures r.Success? ==> |r.value| <= |items|
    ensures r.Failure? ==> r.error == IndexOutOfRange
  {
    Lists.Collect(items, ItemFile)
  }

  /** The image `_download_reel_thumbnail` fetches: the first media file
      of type image, if any. */
  function ReelThumbnail(files: seq<MediaFile>): (r: Option<MediaFile>)
    ensures r.None? <==> forall i | 0 <= i < |files| :: files[i].kind != Image
    ensures r.Some? ==> exists i | 0 <= i < |files| ::
              files[i] == r.value && r.value.kind == Image && forall j | 0 <= j < i :: files[j].kind != Image
  {
    if |files| == 0 then None
    else if files[0].kind == Image then Some(files[0])
    else
      var r := ReelThumbnail(files[1..]);
      assert forall i | 1 <= i < |files| :: files[1..][i - 1] == files[i];
      r
  }
}
