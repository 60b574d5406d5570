/** `_process_metadata` and its three handlers. Each raw record yields a
    contribution (the owners, tagged users and media files it appends and
    the keys it overwrites); the records are handled in order and the
    contributions applied in order to the initial record. A record the
    handler cannot read raises, and the whole processing fails with that
    exception's message. */
module Normalize {
  import opened Wrappers
  import opened Text
  import opened Patterns
  import opened Urls
  import opened Records
  import opened Media
  import opened Lists

  /** What one raw record changes in `processed_metadata`: `None` leaves a
      key as it is. */
  datatype Contribution = Contribution(
    contentType: Option<Category>,
    owners: seq<Person>,
    id: Option<string>,
    shortcode: Option<string>,
    takenAt: Option<int>,
    caption: Option<string>,
    taggedUsers: seq<Person>,
    mediaFiles: seq<MediaFile>)

  /** The record `_process_metadata` starts from. */
  function Initial(url: string, category: Category): (r: Record)
    ensures r.contentType == category && r.originalUrl == url && r.cleanedUrl == CleanUrl(url)
    ensures r.owners == [] && r.taggedUsers == [] && r.mediaFiles == [] && r.caption.None?
    ensures r.id.None? && r.shortcode.None? && r.takenAt.None?
    ensures !r.isPrivate && r.error.None?
  {
    Record(category, [], url, CleanUrl(url), None, [], [], None, None, None, false, None)
  }

  /** Applies one contribution: lists are appended to, set keys overwritten. */
  function Apply(r: Record, c: Contribution): (a: Record)
    ensures a.originalUrl == r.originalUrl && a.cleanedUrl == r.cleanedUrl
    ensures a.isPrivate == r.isPrivate && a.error == r.error
    ensures a.owners == r.owners + c.owners && a.taggedUsers == r.taggedUsers + c.taggedUsers
    ensures a.mediaFiles == r.mediaFiles + c.mediaFiles
    ensures c.contentType.Some? ==> a.contentType == c.contentType.value
    ensures c.contentType.None? ==> a.contentType == r.contentType
    ensures a.id == (if c.id.Some? then c.id else r.id)
    ensures a.shortcode == (if c.shortcode.Some? then c.shortcode else r.shortcode)
    ensures a.takenAt == (if c.takenAt.Some? then c.takenAt else r.takenAt)
    ensures a.caption == (if c.caption.Some? then c.caption else r.caption)
  {
    r.(contentType := c.contentType.GetOr(r.contentType),
       owners := r.owners + c.owners,
       id := if c.id.Some? then c.id else r.id,
       shortcode := if c.shortcode.Some? then c.shortcode else r.shortcode,
       takenAt := if c.takenAt.Some? then c.takenAt else r.takenAt,
       caption := if c.caption.Some? then c.caption else r.caption,
       taggedUsers := r.taggedUsers + c.taggedUsers,
       mediaFiles := r.mediaFiles + c.mediaFiles)
  }

  /** Applies the contributions in order. */
  function Fold(r: Record, cs: seq<Contribution>): Record
  {
    if |cs| == 0 then r else Apply(Fold(r, cs[..|cs| - 1]), cs[|cs| - 1])
  }

  // ----- Post and reel records -----

  /** `owner`, then each `coauthor_producers` entry in order. */
  function OwnersOf(post: RawRecord): (r: seq<Person>)
    ensures post.owner.Some? ==> |r| > 0 && r[0] == PersonOf(post.owner.value)
    ensures var k := if post.owner.Some? then 1 else 0;
            var co := post.coauthorProducers.GetOr([]);
            |r| == k + |co| && forall i | 0 <= i < |co| :: r[k + i] == PersonOf(co[i])
  {
    var co := post.coauthorProducers.GetOr([]);
    (if post.owner.Some? then [PersonOf(post.owner.value)] else [])
    + seq(|co|, i requires 0 <= i < |co| => PersonOf(co[i]))
  }

  /** The caption a record sets: the `text` of a truthy `caption`
      dictionary, `''` when it has no `text`. */
  function CaptionOf(post: RawRecord): (r: Option<string>)
    ensures r.Some? <==> post.caption.Some? && post.caption.value.CaptionDict?
    ensures r.Some? && post.caption.value.text.None? ==> r.value == ""
    ensures r.Some? && post.caption.value.text.Some? ==> r.value == post.caption.value.text.value
  {
    match post.caption
    case Some(CaptionDict(t)) => Some(t.GetOr(""))
    case _ => None
  }

  /** `user.get('user')` of a tag: `AttributeError` when it has none. */
  function TagOf(t: RawTag): (r: Result<Person, string>)
    ensures r.Failure? <==> t.user.None?
    ensures r.Failure? ==> r.error == NoneHasNoGet
    ensures r.Success? ==> r.value == PersonOf(t.user.value)
  {
    match t.user
    case None => Failure(NoneHasNoGet)
    case Some(u) => Success(PersonOf(u))
  }

  /** `usertags.in[].user`, in order; a `usertags` without `in` cannot be
      iterated. */
  function TaggedOf(post: RawRecord): (r: Result<seq<Person>, string>)
    ensures post.usertags.None? ==> r == Success([])
    ensures post.usertags.Some? && post.usertags.value.tagsIn.None? ==> r == Failure(NoneNotIterable)
    ensures post.usertags.Some? && post.usertags.value.tagsIn.Some? ==>
              var ts := post.usertags.value.tagsIn.value;
              (r.Success? <==> forall i | 0 <= i < |ts| :: ts[i].user.Some?)
              && (r.Success? ==> |r.value| == |ts| && forall i | 0 <= i < |ts| :: r.value[i] == PersonOf(ts[i].user.value))
    ensures r.Failure? ==> r.error in CrashMessages
  {
    match post.usertags
    case None => Success([])
    case Some(RawUserTags(None)) => Failure(NoneNotIterable)
    case Some(RawUserTags(Some(ts))) => MapResult(ts, TagOf)
  }

  /** `'reel'` when the record's `product_type` is `'clips'`, the URL's
      category otherwise. */
  function PostType(post: RawRecord, category: Category): (t: Category)
    ensures post.productType == Some("clips") ==> t == Reel
    ensures post.productType != Some("clips") ==> t == category
  {
    if post.productType == Some("clips") then Reel else category
  }

  /** `_process_post_or_reel_metadata` for one record. */
  function PostContribution(post: RawRecord, category: Category): (r: Result<Contribution, string>)
    ensures r.Success? ==> r.value.contentType == Some(PostType(post, category))
    ensures r.Success? ==> r.value.owners == OwnersOf(post) && r.value.caption == CaptionOf(post)
    ensures r.Success? ==> r.value.id == post.pk && r.value.shortcode == post.code && r.value.takenAt == post.takenAt
    ensures r.Success? <==> TaggedOf(post).Success? && PostFiles(post).Success?
    ensures r.Success? ==> r.value.taggedUsers == TaggedOf(post).value && r.value.mediaFiles == PostFiles(post).value
    ensures TaggedOf(post).Failure? ==> r == Failure(TaggedOf(post).error)
    ensures TaggedOf(post).Success? && PostFiles(post).Failure? ==> r == Failure(PostFiles(post).error)
    ensures r.Failure? ==> r.error in CrashMessages
  {
    var tags :- TaggedOf(post);
    var files :- PostFiles(post);
    Success(Contribution(Some(PostType(post, category)), OwnersOf(post), post.pk, post.code, post.takenAt,
                         CaptionOf(post), tags, files))
  }

  // ----- Story and highlight records -----

  /** The owner a story reel or highlight names in `user`. */
  function UserOwner(rec: RawRecord): (r: seq<Person>)
    ensures rec.user.None? ==> r == []
    ensures rec.user.Some? ==> r == [PersonOf(rec.user.value)]
  {
    if rec.user.Some? then [PersonOf(rec.user.value)] else []
  }

  /** The files of the record's `items`, none without the key. */
  function ItemsFiles(rec: RawRecord): (r: Result<seq<MediaFile>, string>)
    ensures rec.items.None? ==> r == Success([])
    ensures rec.items.Some? ==> r == ItemFiles(rec.items.value)
    ensures r.Failure? ==> r.error == IndexOutOfRange
  {
    if rec.items.Some? then ItemFiles(rec.items.value) else Success([])
  }

  /** `_process_story_metadata` for one record: the owner and the files;
      no type, caption or id. */
  function StoryContribution(rec: RawRecord): (r: Result<Contribution, string>)
    ensures r.Success? <==> ItemsFiles(rec).Success?
    ensures r.Failure? ==> r.error == IndexOutOfRange
    ensures r.Success? ==> r.value == Contribution(None, UserOwner(rec), None, None, None, None, [], ItemsFiles(rec).value)
  {
    var files :- ItemsFiles(rec);
    Success(Contribution(None, UserOwner(rec), None, None, None, None, [], files))
  }

  /** `id.split(':')[1]` of a highlight: `IndexError` when there is no `:`. */
  function HighlightId(rec: RawRecord): (r: Result<Option<string>, string>)
    ensures rec.id.None? ==> r == Success(None)
    ensures rec.id.Some? ==> (r.Failure? <==> ':' !in rec.id.value)
    ensures r.Failure? ==> r.error == IndexOutOfRange
    ensures rec.id.Some? && r.Success? ==> r.value == SecondSegment(rec.id.value, ':')
  {
    if rec.id.None? then Success(None)
    else match SecondSegment(rec.id.value, ':')
      case None => Failure(IndexOutOfRange)
      case Some(x) => Success(Some(x))
  }

  /** `_process_highlight_metadata` for one record: the id, the owner,
      the title as caption, and the files. */
  function HighlightContribution(rec: RawRecord): (r: Result<Contribution, string>)
    ensures r.Success? <==> HighlightId(rec).Success? && ItemsFiles(rec).Success?
    ensures HighlightId(rec).Failure? ==> r == Failure(IndexOutOfRange)
    ensures r.Failure? ==> r.error == IndexOutOfRange
    ensures r.Success? ==>
              r.value == Contribution(None, UserOwner(rec), HighlightId(rec).value, None, None, rec.title, [], ItemsFiles(rec).value)
  {
    var id :- HighlightId(rec);
    var files :- ItemsFiles(rec);
    Success(Contribution(None, UserOwner(rec), id, None, None, rec.title, [], files))
  }

  // ----- Dispatch -----

  /** The handler the URL category selects: posts and reels, highlights,
      stories. */
  function ContributionOf(category: Category, rec: RawRecord): (r: Result<Contribution, string>)
    ensures category in {Post, Reel} ==> r == PostContribution(rec, category)
    ensures category in {Highlight, Highlights} ==> r == HighlightContribution(rec)
    ensures category == Stories ==> r == StoryContribution(rec)
    ensures r.Failure? ==> r.error in CrashMessages
  {
    match category
    case Post => PostContribution(rec, category)
    case Reel => PostContribution(rec, category)
    case Highlight => HighlightContribution(rec)
    case Highlights => HighlightContribution(rec)
    case Stories => StoryContribution(rec)
  }

  /** `_process_metadata`: nothing happens for no records (the previous
      record stays); otherwise the initial record with every record's
      contribution applied in order, or the first exception raised. */
  function ProcessMetadata(url: string, category: Category, records: seq<RawRecord>, previous: Record): (r: Result<Record, string>)
    ensures |records| == 0 ==> r == Success(previous)
    ensures r.Success? <==> forall i | 0 <= i < |records| :: ContributionOf(category, records[i]).Success?
    ensures r.Failure? ==> exists i | 0 <= i < |records| ::
              ContributionOf(category, records[i]) == Failure(r.error)
              && forall j | 0 <= j < i :: ContributionOf(category, records[j]).Success?
    ensures r.Failure? ==> r.error in CrashMessages
  {
    if |records| == 0 then Success(previous)
    else
      var cs :- Contributions(category, records);
      Success(Fold(Initial(url, category), cs))
  }

  /** The contribution of every record, in order. */
  function Contributions(category: Category, records: seq<RawRecord>): (r: Result<seq<Contribution>, string>)
    ensures r.Success? ==> |r.value| == |records|
    ensures r.Success? ==> forall i | 0 <= i < |records| :: ContributionOf(category, records[i]) == Success(r.value[i])
  {
    MapResult(records, rec => ContributionOf(category, rec))
  }

  // ----- The fold, field by field -----

  function OwnerParts(cs: seq<Contribution>): (r: seq<seq<Person>>)
    ensures |r| == |cs| && forall i | 0 <= i < |cs| :: r[i] == cs[i].owners
  {
    seq(|cs|, i requires 0 <= i < |cs| => cs[i].owners)
  }

  function TagParts(cs: seq<Contribution>): (r: seq<seq<Person>>)
    ensures |r| == |cs| && forall i | 0 <= i < |cs| :: r[i] == cs[i].taggedUsers
  {
    seq(|cs|, i requires 0 <= i < |cs| => cs[i].taggedUsers)
  }

  function FileParts(cs: seq<Contribution>): (r: seq<seq<MediaFile>>)
    ensures |r| == |cs| && forall i | 0 <= i < |cs| :: r[i] == cs[i].mediaFiles
  {
    seq(|cs|, i requires 0 <= i < |cs| => cs[i].mediaFiles)
  }

  function Types(cs: seq<Contribution>): (r: seq<Option<Category>>)
    ensures |r| == |cs| && forall i | 0 <= i < |cs| :: r[i] == cs[i].contentType
  {
    seq(|cs|, i requires 0 <= i < |cs| => cs[i].contentType)
  }

  function Ids(cs: seq<Contribution>): (r: seq<Option<string>>)
    ensures |r| == |cs| && forall i | 0 <= i < |cs| :: r[i] == cs[i].id
  {
    seq(|cs|, i requires 0 <= i < |cs| => cs[i].id)
  }

  function Shortcodes(cs: seq<Contribution>): (r: seq<Option<string>>)
    ensures |r| == |cs| && forall i | 0 <= i < |cs| :: r[i] == cs[i].shortcode
  {
    seq(|cs|, i requires 0 <= i < |cs| => cs[i].shortcode)
  }

  function TakenAts(cs: seq<Contribution>): (r: seq<Option<int>>)
    ensures |r| == |cs| && forall i | 0 <= i < |cs| :: r[i] == cs[i].takenAt
  {
    seq(|cs|, i requires 0 <= i < |cs| => cs[i].takenAt)
  }

  function Captions(cs: seq<Contribution>): (r: seq<Option<string>>)
    ensures |r| == |cs| && forall i | 0 <= i < |cs| :: r[i] == cs[i].caption
  {
    seq(|cs|, i requires 0 <= i < |cs| => cs[i].caption)
  }

  /** Owners, tagged users and media files are the initial lists followed
      by every contribution's, in order. */
  lemma {:induction false} FoldAppends(r: Record, cs: seq<Contribution>)
    ensures Fold(r, cs).owners == r.owners + Flatten(OwnerParts(cs))
    ensures Fold(r, cs).taggedUsers == r.taggedUsers + Flatten(TagParts(cs))
    ensures Fold(r, cs).mediaFiles == r.mediaFiles + Flatten(FileParts(cs))
  {
    if |cs| > 0 {
      var n := |cs| - 1;
      FoldAppends(r, cs[..n]);
      assert OwnerParts(cs[..n]) == OwnerParts(cs)[..n];
      assert TagParts(cs[..n]) == TagParts(cs)[..n];
      assert FileParts(cs[..n]) == FileParts(cs)[..n];
    }
  }

  /** The content type is the last one a contribution set, or the initial
      one. */
  lemma {:induction false} FoldType(r: Record, cs: seq<Contribution>)
    ensures Some(Fold(r, cs).contentType) == Latest(Some(r.contentType), Types(cs))
  {
    if |cs| > 0 {
      var n := |cs| - 1;
      FoldType(r, cs[..n]);
      assert Types(cs[..n]) == Types(cs)[..n];
    }
  }

  /** `id`, `shortcode` and `taken_at` hold the last value a contribution
      set, or their initial value. */
  lemma {:induction false} FoldKeys(r: Record, cs: seq<Contribution>)
    ensures Fold(r, cs).id == Latest(r.id, Ids(cs))
    ensures Fold(r, cs).shortcode == Latest(r.shortcode, Shortcodes(cs))
    ensures Fold(r, cs).takenAt == Latest(r.takenAt, TakenAts(cs))
  {
    if |cs| > 0 {
      var n := |cs| - 1;
      FoldKeys(r, cs[..n]);
      assert Ids(cs[..n]) == Ids(cs)[..n];
      assert Shortcodes(cs[..n]) == Shortcodes(cs)[..n];
      assert TakenAts(cs[..n]) == TakenAts(cs)[..n];
    }
  }

  /** The caption is the last one a contribution set, or the initial one. */
  lemma {:induction false} FoldCaption(r: Record, cs: seq<Contribution>)
    ensures Fold(r, cs).caption == Latest(r.caption, Captions(cs))
  {
    if |cs| > 0 {
      var n := |cs| - 1;
      FoldCaption(r, cs[..n]);
      assert Captions(cs[..n]) == Captions(cs)[..n];
    }
  }

  /** A key no contribution sets keeps its initial value. */
  lemma {:induction false} FoldLeavesUnset(r: Record, cs: seq<Contribution>)
    ensures (forall i | 0 <= i < |cs| :: cs[i].contentType.None?) ==> Fold(r, cs).contentType == r.contentType
    ensures (forall i | 0 <= i < |cs| :: cs[i].caption.None?) ==> Fold(r, cs).caption == r.caption
    ensures (forall i | 0 <= i < |cs| :: cs[i].id.None?) ==> Fold(r, cs).id == r.id
    ensures (forall i | 0 <= i < |cs| :: cs[i].shortcode.None?) ==> Fold(r, cs).shortcode == r.shortcode
    ensures (forall i | 0 <= i < |cs| :: cs[i].takenAt.None?) ==> Fold(r, cs).takenAt == r.takenAt
  {
    if |cs| > 0 {
      var n := |cs| - 1;
      FoldLeavesUnset(r, cs[..n]);
      assert forall i | 0 <= i < n :: cs[..n][i] == cs[i];
    }
  }

  /** The URLs and the private flag and error never change. */
  lemma {:induction false} FoldKeeps(r: Record, cs: seq<Contribution>)
    ensures Fold(r, cs).originalUrl == r.originalUrl && Fold(r, cs).cleanedUrl == r.cleanedUrl
    ensures Fold(r, cs).isPrivate == r.isPrivate && Fold(r, cs).error == r.error
  {
    if |cs| > 0 {
      FoldKeeps(r, cs[..|cs| - 1]);
    }
  }

  // ----- Per-record views of the raw records -----

  function PostOwners(posts: seq<RawRecord>): (r: seq<seq<Person>>)
    ensures |r| == |posts| && forall i | 0 <= i < |posts| :: r[i] == OwnersOf(posts[i])
  {
    seq(|posts|, i requires 0 <= i < |posts| => OwnersOf(posts[i]))
  }

  function PostTags(posts: seq<RawRecord>): (r: seq<seq<Person>>)
    ensures |r| == |posts| && forall i | 0 <= i < |posts| :: r[i] == TaggedOf(posts[i]).ValueOr([])
  {
    seq(|posts|, i requires 0 <= i < |posts| => TaggedOf(posts[i]).ValueOr([]))
  }

  function PostFileParts(posts: seq<RawRecord>): (r: seq<seq<MediaFile>>)
    ensures |r| == |posts| && forall i | 0 <= i < |posts| :: r[i] == PostFiles(posts[i]).ValueOr([])
  {
    seq(|posts|, i requires 0 <= i < |posts| => PostFiles(posts[i]).ValueOr([]))
  }

  function PostCaptions(posts: seq<RawRecord>): (r: seq<Option<string>>)
    ensures |r| == |posts| && forall i | 0 <= i < |posts| :: r[i] == CaptionOf(posts[i])
  {
    seq(|posts|, i requires 0 <= i < |posts| => CaptionOf(posts[i]))
  }

  function Pks(posts: seq<RawRecord>): (r: seq<Option<string>>)
    ensures |r| == |posts| && forall i | 0 <= i < |posts| :: r[i] == posts[i].pk
  {
    seq(|posts|, i requires 0 <= i < |posts| => posts[i].pk)
  }

  function Codes(posts: seq<RawRecord>): (r: seq<Option<string>>)
    ensures |r| == |posts| && forall i | 0 <= i < |posts| :: r[i] == posts[i].code
  {
    seq(|posts|, i requires 0 <= i < |posts| => posts[i].code)
  }

  function PostTakenAts(posts: seq<RawRecord>): (r: seq<Option<int>>)
    ensures |r| == |posts| && forall i | 0 <= i < |posts| :: r[i] == posts[i].takenAt
  {
    seq(|posts|, i requires 0 <= i < |posts| => posts[i].takenAt)
  }

  function UserOwners(records: seq<RawRecord>): (r: seq<seq<Person>>)
    ensures |r| == |records| && forall i | 0 <= i < |records| :: r[i] == UserOwner(records[i])
  {
    seq(|records|, i requires 0 <= i < |records| => UserOwner(records[i]))
  }

  function ItemFileParts(records: seq<RawRecord>): (r: seq<seq<MediaFile>>)
    ensures |r| == |records| && forall i | 0 <= i < |records| :: r[i] == ItemsFiles(records[i]).ValueOr([])
  {
    seq(|records|, i requires 0 <= i < |records| => ItemsFiles(records[i]).ValueOr([]))
  }

  function Titles(records: seq<RawRecord>): (r: seq<Option<string>>)
    ensures |r| == |records| && forall i | 0 <= i < |records| :: r[i] == records[i].title
  {
    seq(|records|, i requires 0 <= i < |records| => records[i].title)
  }

  function HighlightIds(records: seq<RawRecord>): (r: seq<Option<string>>)
    ensures |r| == |records| && forall i | 0 <= i < |records| :: r[i] == HighlightId(records[i]).ValueOr(None)
  {
    seq(|records|, i requires 0 <= i < |records| => HighlightId(records[i]).ValueOr(None))
  }

  // ----- What processing yields, per category -----

  /** Whatever the category, processing keeps the URL and its cleaned
      form and leaves the record not private and without error. */
  lemma ProcessKeepsUrls(url: string, category: Category, records: seq<RawRecord>, previous: Record)
    requires |records| > 0
    requires ProcessMetadata(url, category, records, previous).Success?
    ensures var r := ProcessMetadata(url, category, records, previous).value;
            r.originalUrl == url && r.cleanedUrl == CleanUrl(url) && !r.isPrivate && r.error.None?
  {
    FoldKeeps(Initial(url, category), Contributions(category, records).value);
  }

  /** Processing non-empty records is folding their contributions into
      the initial record. */
  lemma ProcessIsFold(url: string, category: Category, records: seq<RawRecord>, previous: Record)
    requires |records| > 0
    requires ProcessMetadata(url, category, records, previous).Success?
    ensures Contributions(category, records).Success?
    ensures ProcessMetadata(url, category, records, previous).value
            == Fold(Initial(url, category), Contributions(category, records).value)
  {
  }

  /** What each post or reel record contributes to the lists. */
  lemma PostParts(category: Category, posts: seq<RawRecord>)
    requires category in {Post, Reel}
    requires Contributions(category, posts).Success?
    ensures var cs := Contributions(category, posts).value;
            forall i | 0 <= i < |posts| ::
              && cs[i].owners == OwnersOf(posts[i])
              && cs[i].taggedUsers == TaggedOf(posts[i]).ValueOr([])
              && cs[i].mediaFiles == PostFiles(posts[i]).ValueOr([])
  {
    var cs := Contributions(category, posts).value;
    forall i | 0 <= i < |posts|
      ensures PostContribution(posts[i], category) == Success(cs[i])
    {
      assert ContributionOf(category, posts[i]) == Success(cs[i]);
    }
  }

  /** What each post or reel record sets. */
  lemma PostKeyParts(category: Category, posts: seq<RawRecord>)
    requires category in {Post, Reel}
    requires Contributions(category, posts).Success?
    ensures var cs := Contributions(category, posts).value;
            forall i | 0 <= i < |posts| ::
              && cs[i].contentType == Some(PostType(posts[i], category))
              && cs[i].caption == CaptionOf(posts[i])
              && cs[i].id == posts[i].pk && cs[i].shortcode == posts[i].code && cs[i].takenAt == posts[i].takenAt
  {
    var cs := Contributions(category, posts).value;
    forall i | 0 <= i < |posts|
      ensures PostContribution(posts[i], category) == Success(cs[i])
    {
      assert ContributionOf(category, posts[i]) == Success(cs[i]);
    }
  }

  /** What each story record contributes. */
  lemma StoryParts(records: seq<RawRecord>)
    requires Contributions(Stories, records).Success?
    ensures var cs := Contributions(Stories, records).value;
            forall i | 0 <= i < |records| ::
              && cs[i].owners == UserOwner(records[i])
              && cs[i].mediaFiles == ItemsFiles(records[i]).ValueOr([])
              && cs[i].taggedUsers == []
              && cs[i].contentType.None? && cs[i].caption.None?
              && cs[i].id.None? && cs[i].shortcode.None? && cs[i].takenAt.None?
  {
    var cs := Contributions(Stories, records).value;
    forall i | 0 <= i < |records|
      ensures StoryContribution(records[i]) == Success(cs[i])
    {
      assert ContributionOf(Stories, records[i]) == Success(cs[i]);
    }
  }

  /** What each highlight record contributes. */
  lemma HighlightParts(category: Category, records: seq<RawRecord>)
    requires category in {Highlight, Highlights}
    requires Contributions(category, records).Success?
    ensures var cs := Contributions(category, records).value;
            forall i | 0 <= i < |records| ::
              && cs[i].owners == UserOwner(records[i])
              && cs[i].mediaFiles == ItemsFiles(records[i]).ValueOr([])
              && cs[i].taggedUsers == []
              && cs[i].contentType.None? && cs[i].caption == records[i].title
              && cs[i].id == HighlightId(records[i]).ValueOr(None)
              && cs[i].shortcode.None? && cs[i].takenAt.None?
  {
    var cs := Contributions(category, records).value;
    forall i | 0 <= i < |records|
      ensures HighlightContribution(records[i]) == Success(cs[i])
    {
      assert ContributionOf(category, records[i]) == Success(cs[i]);
    }
  }

  /** Posts and reels: the owners are each record's `owner` and
      `coauthor_producers` in record order, the tagged users each record's
      tags, the media files each record's files. */
  lemma PostsLists(url: string, category: Category, posts: seq<RawRecord>, previous: Record)
    requires category in {Post, Reel} && |posts| > 0
    requires ProcessMetadata(url, category, posts, previous).Success?
    ensures var r := ProcessMetadata(url, category, posts, previous).value;
            && r.owners == Flatten(PostOwners(posts))
            && r.taggedUsers == Flatten(PostTags(posts))
            && r.mediaFiles == Flatten(PostFileParts(posts))
  {
    ProcessIsFold(url, category, posts, previous);
    var cs := Contributions(category, posts).value;
    FoldAppends(Initial(url, category), cs);
    PostLists(category, posts, cs);
  }

  /** The owners, tags and files the posts contribute, in record order. */
  lemma PostLists(category: Category, posts: seq<RawRecord>, cs: seq<Contribution>)
    requires category in {Post, Reel}
    requires Contributions(category, posts) == Success(cs)
    ensures OwnerParts(cs) == PostOwners(posts)
    ensures TagParts(cs) == PostTags(posts)
    ensures FileParts(cs) == PostFileParts(posts)
  {
    PostParts(category, posts);
  }

  /** Posts and reels: the content type is `reel` when the last record's
      `product_type` is `clips`, the URL's category otherwise. */
  lemma PostsType(url: string, category: Category, posts: seq<RawRecord>, previous: Record)
    requires category in {Post, Reel} && |posts| > 0
    requires ProcessMetadata(url, category, posts, previous).Success?
    ensures var r := ProcessMetadata(url, category, posts, previous).value;
            r.contentType == PostType(posts[|posts| - 1], category)
  {
    ProcessIsFold(url, category, posts, previous);
    var cs := Contributions(category, posts).value;
    FoldType(Initial(url, category), cs);
    PostKeyParts(category, posts);
    assert Types(cs)[|posts| - 1] == Some(PostType(posts[|posts| - 1], category));
    LatestIsLast(Some(category), Types(cs));
  }

  /** Posts and reels: the caption is that of the last record with a
      truthy caption, `None` if there is none. */
  lemma PostsCaption(url: string, category: Category, posts: seq<RawRecord>, previous: Record)
    requires category in {Post, Reel} && |posts| > 0
    requires ProcessMetadata(url, category, posts, previous).Success?
    ensures ProcessMetadata(url, category, posts, previous).value.caption == Latest(None, PostCaptions(posts))
  {
    ProcessIsFold(url, category, posts, previous);
    var cs := Contributions(category, posts).value;
    FoldCaption(Initial(url, category), cs);
    PostCaptionList(category, posts, cs);
  }

  /** The captions the posts set, in record order. */
  lemma PostCaptionList(category: Category, posts: seq<RawRecord>, cs: seq<Contribution>)
    requires category in {Post, Reel}
    requires Contributions(category, posts) == Success(cs)
    ensures Captions(cs) == PostCaptions(posts)
  {
    PostKeyParts(category, posts);
  }

  /** Posts and reels: `id`, `shortcode` and `taken_at` are the `pk`,
      `code` and `taken_at` of the last record that has the key. */
  lemma PostsKeys(url: string, category: Category, posts: seq<RawRecord>, previous: Record)
    requires category in {Post, Reel} && |posts| > 0
    requires ProcessMetadata(url, category, posts, previous).Success?
    ensures var r := ProcessMetadata(url, category, posts, previous).value;
            r.id == Latest(None, Pks(posts)) && r.shortcode == Latest(None, Codes(posts))
            && r.takenAt == Latest(None, PostTakenAts(posts))
  {
    ProcessIsFold(url, category, posts, previous);
    var cs := Contributions(category, posts).value;
    FoldKeys(Initial(url, category), cs);
    PostKeyLists(category, posts, cs);
  }

  /** The `pk`, `code` and `taken_at` values the posts set, in record order. */
  lemma PostKeyLists(category: Category, posts: seq<RawRecord>, cs: seq<Contribution>)
    requires category in {Post, Reel}
    requires Contributions(category, posts) == Success(cs)
    ensures Ids(cs) == Pks(posts) && Shortcodes(cs) == Codes(posts) && TakenAts(cs) == PostTakenAts(posts)
  {
    PostKeyParts(category, posts);
  }

  /** Stories and highlights: the owners are each record's `user` and the
      media files each record's item files, in record order; nobody is
      tagged. */
  lemma ReelsLists(url: string, category: Category, records: seq<RawRecord>, previous: Record)
    requires category in {Highlight, Highlights, Stories} && |records| > 0
    requires ProcessMetadata(url, category, records, previous).Success?
    ensures var r := ProcessMetadata(url, category, records, previous).value;
            && r.owners == Flatten(UserOwners(records))
            && r.mediaFiles == Flatten(ItemFileParts(records))
            && r.taggedUsers == []
  {
    ProcessIsFold(url, category, records, previous);
    var cs := Contributions(category, records).value;
    FoldAppends(Initial(url, category), cs);
    ReelLists(category, records, cs);
    FlattenEmpty(TagParts(cs));
  }

  /** The owners and files the stories or highlights contribute, in record
      order, and no tags. */
  lemma ReelLists(category: Category, records: seq<RawRecord>, cs: seq<Contribution>)
    requires category in {Highlight, Highlights, Stories}
    requires Contributions(category, records) == Success(cs)
    ensures OwnerParts(cs) == UserOwners(records)
    ensures FileParts(cs) == ItemFileParts(records)
    ensures forall i | 0 <= i < |cs| :: TagParts(cs)[i] == []
  {
    if category == Stories {
      StoryParts(records);
    } else {
      HighlightParts(category, records);
    }
  }

  /** Stories: the type stays `stories`; no caption, id, shortcode or
      time is ever set. */
  lemma StoriesKeys(url: string, records: seq<RawRecord>, previous: Record)
    requires |records| > 0
    requires ProcessMetadata(url, Stories, records, previous).Success?
    ensures var r := ProcessMetadata(url, Stories, records, previous).value;
            r.contentType == Stories && r.caption.None? && r.id.None? && r.shortcode.None? && r.takenAt.None?
  {
    ProcessIsFold(url, Stories, records, previous);
    StoryParts(records);
    FoldLeavesUnset(Initial(url, Stories), Contributions(Stories, records).value);
  }

  /** Highlights: the type stays the URL's category and no shortcode or
      time is set. */
  lemma HighlightsUnset(url: string, category: Category, records: seq<RawRecord>, previous: Record)
    requires category in {Highlight, Highlights} && |records| > 0
    requires ProcessMetadata(url, category, records, previous).Success?
    ensures var r := ProcessMetadata(url, category, records, previous).value;
            r.contentType == category && r.shortcode.None? && r.takenAt.None?
  {
    ProcessIsFold(url, category, records, previous);
    HighlightParts(category, records);
    FoldLeavesUnset(Initial(url, category), Contributions(category, records).value);
  }

  /** Highlights: the caption is the last `title` among the records that
      have one. */
  lemma HighlightsCaption(url: string, category: Category, records: seq<RawRecord>, previous: Record)
    requires category in {Highlight, Highlights} && |records| > 0
    requires ProcessMetadata(url, category, records, previous).Success?
    ensures ProcessMetadata(url, category, records, previous).value.caption == Latest(None, Titles(records))
  {
    ProcessIsFold(url, category, records, previous);
    var cs := Contributions(category, records).value;
    HighlightParts(category, records);
    FoldCaption(Initial(url, category), cs);
    assert Captions(cs) == Titles(records);
  }

  /** Highlights: the id is the last `id.split(':')[1]` among the records
      that have an `id`. */
  lemma HighlightsId(url: string, category: Category, records: seq<RawRecord>, previous: Record)
    requires category in {Highlight, Highlights} && |records| > 0
    requires ProcessMetadata(url, category, records, previous).Success?
    ensures ProcessMetadata(url, category, records, previous).value.id == Latest(None, HighlightIds(records))
  {
    ProcessIsFold(url, category, records, previous);
    var cs := Contributions(category, records).value;
    HighlightParts(category, records);
    FoldKeys(Initial(url, category), cs);
    assert Ids(cs) == HighlightIds(records);
  }
}
