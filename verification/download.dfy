/** `download_content`: the URL check, then the decision between the
    "private or empty" record, the normalised record and re-raising. The
    extractor run (gallery-dl's download job) is a parameter: either it
    raised, or it yielded its records and may have recorded an exception. */
module Download {
  import opened Wrappers
  import opened Text
  import opened Patterns
  import opened Urls
  import opened Records
  import opened Media
  import opened Normalize

  /** What running the extractor gave. */
  datatype Extraction =
    | Raised(message: string)
    | Extracted(records: seq<RawRecord>, exception: Option<string>)

  /** How `download_content` ends: `ValueError` for a URL no pattern
      matches, a returned record (with the image the reel-thumbnail step
      fetches, if any), or the caught exception raised again. */
  datatype Outcome =
    | InvalidUrl(message: string)
    | Returned(record: Record, thumbnail: Option<MediaFile>)
    | Reraised(message: string)

  const InvalidPrefix: string := "Invalid Instagram URL: "
  const PrivateMessage: string := "Content is private or not accessible"

  /** The private-content test on an exception message: one of three HTTP
      status lines (case-sensitive), or "not accessible" or "private" in
      any case. */
  predicate IsPrivateError(message: string) {
    || Contains(message, "400 Bad Request")
    || Contains(message, "401 Unauthorized")
    || Contains(message, "403 Forbidden")
    || Contains(Lower(message), "not accessible")
    || Contains(Lower(message), "private")
  }

  /** The record of the private, empty and error cases: no owners, tags,
      files or caption. */
  function BlankRecord(url: string, category: Category, isPrivate: bool, error: string): (r: Record)
    ensures r.contentType == category && r.originalUrl == url && r.cleanedUrl == CleanUrl(url)
    ensures r.owners == [] && r.taggedUsers == [] && r.mediaFiles == [] && r.caption.None?
    ensures r.id.None? && r.shortcode.None? && r.takenAt.None?
    ensures r.isPrivate == isPrivate && r.error == Some(error)
  {
    Record(category, [], url, CleanUrl(url), None, [], [], None, None, None, isPrivate, Some(error))
  }

  /** The `except` branch: a private-looking message is reported in a
      blank record, any other is raised again. */
  function Caught(url: string, category: Category, message: string): (o: Outcome)
    ensures IsPrivateError(message) ==> o == Returned(BlankRecord(url, category, true, message), None)
    ensures !IsPrivateError(message) ==> o == Reraised(message)
  {
    if IsPrivateError(message) then Returned(BlankRecord(url, category, true, message), None)
    else Reraised(message)
  }

  /** The reel thumbnail step runs when the normalised type is `reel`. */
  function Thumbnail(r: Record): (t: Option<MediaFile>)
    ensures r.contentType != Reel ==> t.None?
    ensures r.contentType == Reel ==> t == ReelThumbnail(r.mediaFiles)
  {
    if r.contentType == Reel then ReelThumbnail(r.mediaFiles) else None
  }

  /** The flag set after normalising: private, with the exception's text,
      when the extractor recorded an exception. */
  function MarkPrivacy(r: Record, exception: Option<string>): (m: Record)
    ensures m.isPrivate == exception.Some?
    ensures exception.Some? ==> m.error == exception
    ensures exception.None? ==> m.error == r.error
    ensures m.(isPrivate := r.isPrivate, error := r.error) == r
  {
    if exception.Some? then r.(isPrivate := true, error := exception) else r.(isPrivate := false)
  }

  /** `download_content` once the URL matched `category`. */
  function Decide(url: string, category: Category, extraction: Extraction): (o: Outcome)
    ensures !o.InvalidUrl?
    ensures o.Returned? ==> o.record.originalUrl == url && o.record.cleanedUrl == CleanUrl(url)
    ensures o.Reraised? ==> !IsPrivateError(o.message)
    ensures o.Returned? && o.record.isPrivate ==> o.record.error.Some?
    ensures extraction.Raised? && IsPrivateError(extraction.message) ==>
              o == Returned(BlankRecord(url, category, true, extraction.message), None)
    ensures extraction.Raised? && !IsPrivateError(extraction.message) ==> o == Reraised(extraction.message)
    ensures extraction.Extracted? && |extraction.records| == 0 ==>
              o == Returned(BlankRecord(url, category, true, PrivateMessage), None)
    ensures extraction.Extracted? && |extraction.records| > 0 ==>
              (o.Reraised? <==> ProcessMetadata(url, category, extraction.records, Initial(url, category)).Failure?)
              && (o.Returned? ==> o.record.isPrivate == extraction.exception.Some?)
  {
    match extraction
    case Raised(message) => Caught(url, category, message)
    case Extracted(records, exception) =>
      if |records| == 0 then Returned(BlankRecord(url, category, true, PrivateMessage), None)
      else Normalized(url, category, records, exception)
  }

  /** The records are processed. A handler's exception never looks
      private, so it is raised again; otherwise the processed record is
      flagged by the recorded exception and returned with its thumbnail. */
  function Normalized(url: string, category: Category, records: seq<RawRecord>, exception: Option<string>): (o: Outcome)
    requires |records| > 0
    ensures !o.InvalidUrl?
    ensures o.Reraised? <==> ProcessMetadata(url, category, records, Initial(url, category)).Failure?
    ensures o.Reraised? ==> o.message == ProcessMetadata(url, category, records, Initial(url, category)).error
    ensures o.Reraised? ==> !IsPrivateError(o.message)
    ensures o.Returned? ==> o.record.originalUrl == url && o.record.cleanedUrl == CleanUrl(url)
    ensures o.Returned? ==> o.record.isPrivate == exception.Some?
    ensures o.Returned? && exception.Some? ==> o.record.error == exception
    ensures o.Returned? && exception.None? ==> o.record.error.None?
  {
    // The previous record only matters for no records, excluded here.
    match ProcessMetadata(url, category, records, Initial(url, category))
    case Failure(message) =>
      CrashNotPrivate(message);
      Reraised(message)
    case Success(r) =>
      ProcessKeepsUrls(url, category, records, Initial(url, category));
      Returned(MarkPrivacy(r, exception), Thumbnail(r))
  }

  /** `download_content`: `ValueError` unless a pattern matches the URL. */
  function DownloadContent(url: string, extraction: Extraction): (o: Outcome)
    ensures Classify(url).None? <==> o.InvalidUrl?
    ensures o.InvalidUrl? ==> o.message == InvalidPrefix + url
    ensures Classify(url).Some? ==> o == Decide(url, Classify(url).value, extraction)
  {
    match Classify(url)
    case None => InvalidUrl(InvalidPrefix + url)
    case Some(category) => Decide(url, category, extraction)
  }

  /** An HTTP status line in a message is enough, in this exact case. */
  lemma StatusLineIsPrivate(pre: string, status: string, post: string)
    requires status in {"400 Bad Request", "401 Unauthorized", "403 Forbidden"}
    ensures IsPrivateError(pre + status + post)
  {
    ContainsAt(pre + status + post, status, |pre|);
  }

  /** "private" in any mix of cases is enough. */
  lemma PrivateWordIsPrivate(pre: string, word: string, post: string)
    requires Lower(word) == "private"
    ensures IsPrivateError(pre + word + post)
  {
    LowerAppend(pre, word);
    LowerAppend(pre + word, post);
    ContainsAt(Lower(pre + word + post), "private", |pre|);
  }

  /** The status lines are matched case-sensitively: a lower-case status
      line alone is not private. */
  lemma LowerStatusNotPrivate()
    ensures !IsPrivateError("403 forbidden")
  {
    var m := "403 forbidden";
    MissingChar(m, "400 Bad Request", 14);
    MissingChar(m, "401 Unauthorized", 4);
    assert m[4] != "403 Forbidden"[4];
    assert !OccursAt(m, "403 Forbidden", 0);
    LowerLacks(m, 'p');
    MissingChar(Lower(m), "private", 0);
    LowerLacks(m, 'a');
    MissingChar(Lower(m), "not accessible", 4);
  }

  /** A message with no digit `4` names none of the status lines. */
  lemma NoStatusLine(m: string)
    requires forall i | 0 <= i < |m| :: m[i] != '4'
    ensures !Contains(m, "400 Bad Request") && !Contains(m, "401 Unauthorized") && !Contains(m, "403 Forbidden")
  {
    MissingChar(m, "400 Bad Request", 0);
    MissingChar(m, "401 Unauthorized", 0);
    MissingChar(m, "403 Forbidden", 0);
  }

  /** A message with no `v` in either case does not say "private". */
  lemma NoPrivateWord(m: string)
    requires forall i | 0 <= i < |m| :: m[i] != 'v' && m[i] != 'V'
    ensures !Contains(Lower(m), "private")
  {
    LowerLacks(m, 'v');
    MissingChar(Lower(m), "private", 3);
  }

  /** A message with no `4` and no `v` in either case is private only if
      it says "not accessible". */
  lemma NotPrivateUnless(m: string)
    requires PlainChars(m)
    requires !Contains(Lower(m), "not accessible")
    ensures !IsPrivateError(m)
  {
    NoStatusLine(m);
    NoPrivateWord(m);
  }

  /** "not accessible" needs a doubled `c`, which no lower-cased
      `AttributeError` or `TypeError` message has. */
  lemma NoDoubleC(m: string)
    requires forall j | 0 <= j < |m| - 1 :: !(IsC(m[j]) && IsC(m[j + 1]))
    ensures !Contains(Lower(m), "not accessible")
  {
    MissingPair(Lower(m), "not accessible", 5);
  }

  predicate IsC(ch: char) {
    ch == 'c' || ch == 'C'
  }

  /** A message with no `4` and no `v` in either case. */
  predicate PlainChars(m: string) {
    forall i | 0 <= i < |m| :: m[i] != '4' && m[i] != 'v' && m[i] != 'V'
  }

  lemma NotIterableChars() ensures PlainChars(NoneNotIterable) {}
  lemma NoSplitChars() ensures PlainChars(NoneHasNoSplit) {}
  lemma NoGetChars() ensures PlainChars(NoneHasNoGet) {}
  lemma MissingPkChars() ensures PlainChars(MissingPk) {}
  lemma IndexErrorChars() ensures PlainChars(IndexOutOfRange) {}

  lemma NotIterableNotAccessible()
    ensures !Contains(Lower(NoneNotIterable), "not accessible")
  {
    NoDoubleC(NoneNotIterable);
  }

  lemma NoSplitNotAccessible()
    ensures !Contains(Lower(NoneHasNoSplit), "not accessible")
  {
    NoDoubleC(NoneHasNoSplit);
  }

  lemma NoGetNotAccessible()
    ensures !Contains(Lower(NoneHasNoGet), "not accessible")
  {
    LowerLacks(NoneHasNoGet, 'l');
    MissingChar(Lower(NoneHasNoGet), "not accessible", 12);
  }

  lemma MissingPkNotAccessible()
    ensures !Contains(Lower(MissingPk), "not accessible")
  {
    LowerLacks(MissingPk, 'n');
    MissingChar(Lower(MissingPk), "not accessible", 0);
  }

  lemma IndexErrorNotAccessible()
    ensures !Contains(Lower(IndexOutOfRange), "not accessible")
  {
    LowerLacks(IndexOutOfRange, 'c');
    MissingChar(Lower(IndexOutOfRange), "not accessible", 5);
  }

  /** None of the exceptions a malformed record raises looks private, so
      each is raised again. */
  lemma CrashNotPrivate(m: string)
    requires m in CrashMessages
    ensures !IsPrivateError(m)
  {
    if m == NoneNotIterable {
      NotIterableChars();
      NotIterableNotAccessible();
    } else if m == NoneHasNoSplit {
      NoSplitChars();
      NoSplitNotAccessible();
    } else if m == NoneHasNoGet {
      NoGetChars();
      NoGetNotAccessible();
    } else if m == MissingPk {
      MissingPkChars();
      MissingPkNotAccessible();
    } else {
      IndexErrorChars();
      IndexErrorNotAccessible();
    }
    NotPrivateUnless(m);
  }

  /** A record the handlers cannot shape is never reported as private:
      `download_content` raises its exception again. */
  lemma CrashesReraised(url: string, category: Category, records: seq<RawRecord>, exception: Option<string>)
    requires |records| > 0
    requires ProcessMetadata(url, category, records, Initial(url, category)).Failure?
    ensures Decide(url, category, Extracted(records, exception))
            == Reraised(ProcessMetadata(url, category, records, Initial(url, category)).error)
  {
    CrashNotPrivate(ProcessMetadata(url, category, records, Initial(url, category)).error);
  }

  /** Whatever the extractor gave, the outcome is re-raised exactly when
      the extractor itself raised a message that does not look private, or
      the handlers failed on one of its records. */
  lemma ReraisedExactly(url: string, category: Category, extraction: Extraction)
    ensures Decide(url, category, extraction).Reraised? <==>
            || (extraction.Raised? && !IsPrivateError(extraction.message))
            || (extraction.Extracted? && |extraction.records| > 0
                && exists i | 0 <= i < |extraction.records| ::
                     ContributionOf(category, extraction.records[i]).Failure?)
  {
    if extraction.Extracted? && |extraction.records| > 0 {
      var r := ProcessMetadata(url, category, extraction.records, Initial(url, category));
      if r.Failure? {
        CrashesReraised(url, category, extraction.records, extraction.exception);
      }
    }
  }

  /** Records and a recorded exception: the normalised record is returned,
      flagged private with the exception's text, media files included. */
  lemma ExceptionMarksPrivate(url: string, category: Category, records: seq<RawRecord>, message: string)
    requires |records| > 0
    requires ProcessMetadata(url, category, records, Initial(url, category)).Success?
    ensures var o := Decide(url, category, Extracted(records, Some(message)));
            var r := ProcessMetadata(url, category, records, Initial(url, category)).value;
            && o.Returned? && o.record.isPrivate && o.record.error == Some(message)
            && o.record.mediaFiles == r.mediaFiles && o.record.owners == r.owners
            && o.record.contentType == r.contentType
  {
  }

  /** Records and no exception: the normalised record, not private, with no
      error. */
  lemma NormalOutcome(url: string, category: Category, records: seq<RawRecord>)
    requires |records| > 0
    requires ProcessMetadata(url, category, records, Initial(url, category)).Success?
    ensures var o := Decide(url, category, Extracted(records, None));
            var r := ProcessMetadata(url, category, records, Initial(url, category)).value;
            && o.Returned? && !o.record.isPrivate && o.record.error.None?
            && o.record == r && o.thumbnail == Thumbnail(r)
  {
    ProcessKeepsUrls(url, category, records, Initial(url, category));
  }

  /** No records: the blank private record with the fixed message, whether
      or not the extractor recorded an exception. */
  lemma NothingIsPrivate(url: string, exception: Option<string>)
    requires Classify(url).Some?
    ensures var o := DownloadContent(url, Extracted([], exception));
            && o.Returned? && o.record.isPrivate && o.record.error == Some(PrivateMessage)
            && o.record.mediaFiles == [] && o.record.contentType == Classify(url).value
            && o.thumbnail.None?
  {
  }
}
