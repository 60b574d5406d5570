# instagram-downloader: a Dafny model of `InstagramDownloader`

This project models the decision logic of the `InstagramDownloader` class in
`instagram_downloader/downloader.py`. It covers four parts:

- **URL classification** (`INSTAGRAM_PATTERNS` and `validate_instagram_url`).
  Five anchored patterns are tried in dictionary order, and the first that
  matches decides the content type: post, reel, highlight, highlights or
  stories. Module `Patterns`.
- **URL cleaning** (`clean_url`). A `urlparse`-shaped splitter cuts the URL
  into scheme, netloc, path, `;params`, query and fragment. The query,
  fragment and params are dropped, one trailing `/` is removed from the path,
  and `scheme://netloc+path` is rebuilt. Module `Urls`.
- **Metadata normalisation** (`_process_metadata` and the post/reel, story and
  highlight handlers, `_extract_media_file`, and the reel-thumbnail choice).
  Each extractor record contributes owners, tagged users and media files,
  which are appended. It may also set the type, id, shortcode, taken-at and
  caption, and the last record to set one wins. The exceptions a handler
  raises on a record that lacks a key are modelled as `Failure` values that
  carry `str(e)`. Modules `Records`, `Media`, `Lists` and `Normalize`.
- **The outcome of `download_content`**:
  - `ValueError` for an unknown URL.
  - The blank private record when the extractor yields nothing.
  - The normalised record, flagged private when the extractor recorded an
    exception.
  - For an exception, either the blank record (when the message looks
    private) or the exception raised again.

  Module `Download`.

The extractor run (gallery-dl's `DownloadJob`) is a parameter of the model,
of type `Download.Extraction`: either it raised with a message, or it yielded
its records and may have recorded an exception. Raw records are the
extractor's dictionaries. An absent key is `None`, and a present key is taken
to hold a value of its usual type.

Behaviour of the code worth noting:

- Cleaning removes one trailing `/` per call, although the docstring of
  `clean_url` (downloader.py:78-86) speaks of removing trailing slashes. So
  cleaning is not idempotent: a path ending in `//` loses one slash per pass
  (`Urls.CleanTwice`). A `;` in the last path segment is a second way: once
  the trailing `/` is gone, `urlparse` reads the `;` as the start of params,
  so `https://x.com/a;b/` cleans to `https://x.com/a;b` and then to
  `https://x.com/a` (`Urls.CleanExposesParams`).
- The docstring of `download_content` (downloader.py:105-117) names a
  `PrivateContentError`, but the code never raises one. Private-looking
  failures give a blank record flagged private, and other exceptions are
  raised again (`Download.Caught`, `Download.ReraisedExactly`).
- A record can be flagged private and still carry the normalised content.
  This happens when the extractor recorded an exception but still yielded
  records (`Download.ExceptionMarksPrivate`).
- For several posts, the caption is the last truthy caption
  (`Normalize.PostsCaption`).
- A post without a carousel gives its image file first, then its video file.
  A video does not replace the image (`Media.FlatFiles`).
- A highlight id is the text between the first and the second `:`, and a
  missing `:` raises `IndexError` (`Normalize.HighlightId`).

## Model

| member | source | states |
|---|---|---|
| Patterns.FirstMatch | instagram_downloader/downloader.py:71-75 | no pattern in the list matches exactly when none is found; otherwise the found one matches and no earlier one does |
| Patterns.Matches | instagram_downloader/downloader.py:71-72 | `re.match` of one pattern: after an optional `http://` or `https://` and an optional `www.`, the text starts with the pattern's literal path and one character outside `/?#&` (equal to the regular expression by `Patterns.MatcherIsRegex`) |
| Patterns.Classify | instagram_downloader/downloader.py:25-31 | no category exactly when no pattern matches; otherwise a matching category, and no category earlier in the dictionary's order matches |
| Patterns.ValidateUrl | instagram_downloader/downloader.py:61-75 | the result is true iff some pattern matches; on true, `content_type` becomes the first matching category; on false it keeps its old value |
| Patterns.MatcherIsRegex | instagram_downloader/downloader.py:26-30 | the matcher accepts a URL iff the pattern `(https?://)?(www\.)?instagram\.com/<path>[^/?#&]+` matches at its start |
| Patterns.OnlyStoriesOverlap | instagram_downloader/downloader.py:25-31 | two different patterns match the same URL only when they are highlights and stories |
| Patterns.HighlightsBeforeStories | instagram_downloader/downloader.py:29-30 | every highlights URL also matches the stories pattern, and it is classified as highlights because that pattern is tried first |
| Patterns.ClassifyUnambiguous | instagram_downloader/downloader.py:71-74 | a URL matching any pattern other than stories is classified by that pattern |
| Patterns.ClassifyFirst | instagram_downloader/downloader.py:71-74 | a pattern that matches, with no earlier pattern matching, decides the category |
| Patterns.ClassifyBuilt | instagram_downloader/downloader.py:26-29 | any optional scheme and `www.`, the host, a pattern's path and one allowed character are classified as that pattern |
| Patterns.ProfileUrlRejected | instagram_downloader/downloader.py:25-31 | a profile URL `instagram.com/<name>` whose name starts with none of `p`, `r`, `s` is rejected |
| Patterns.ForeignUrlRejected | instagram_downloader/downloader.py:25-31 | a URL whose host part is not `instagram.com/` is rejected |
| Urls.SplitScheme | instagram_downloader/downloader.py:87 | a split-off scheme is a valid scheme, and scheme, `:` and rest rebuild the input |
| Urls.SplitNetloc | instagram_downloader/downloader.py:87 | a netloc has no `/`, `?` or `#`; what follows it is empty or starts with one of them; `//` + netloc + rest rebuild the input |
| Urls.SplitParams | instagram_downloader/downloader.py:87 | only a scheme that uses params splits them off, at the first `;` after the last `/` of the path (or the first `;` when there is no `/`); path, `;` and params rebuild the input, and a path without `;` has no params |
| Urls.Split | instagram_downloader/downloader.py:87 | the parts are well formed: the path has no `?` or `#`, the query has no `#`, and the netloc has no delimiter |
| Urls.SplitJoin | instagram_downloader/downloader.py:87 | joining the model's pieces of a URL (scheme, netloc, path, params, query, fragment with their delimiters) rebuilds the URL exactly |
| Urls.JoinSplit | instagram_downloader/downloader.py:87 | splitting the join of canonical parts gives the same parts |
| Urls.Clean | instagram_downloader/downloader.py:88-92 | the cleaned URL has no `?` or `#`; adding back the removed trailing slash gives scheme, `://`, netloc and path |
| Urls.CleanUrl | instagram_downloader/downloader.py:77-92 | a cleaned URL has no query and no fragment |
| Urls.CleanJoin | instagram_downloader/downloader.py:87-92 | cleaning the join of canonical pieces gives the lower-cased scheme, `://`, the netloc and the path without one trailing slash |
| Urls.CleanIgnoresQueryAndFragment | instagram_downloader/downloader.py:87-92 | for canonical pieces, changing or removing the query and the fragment does not change the cleaned URL |
| Urls.DropTrailingSlash | instagram_downloader/downloader.py:90-91 | exactly one trailing `/` is removed when there is one; otherwise the path is unchanged |
| Urls.DropTwice | instagram_downloader/downloader.py:90-91 | removing the trailing slash twice equals removing it once iff the path does not end in `//` |
| Urls.CleanTwice | instagram_downloader/downloader.py:77-92 | for canonical pieces (no `;` in the path) with a lower-case scheme, cleaning a cleaned URL changes nothing iff its path does not end in `//` |
| Urls.CleanExposesParams | instagram_downloader/downloader.py:87-92 | outside that domain re-cleaning can change the URL: for segments `a` (non-empty) and `b` without `/`, `;`, `?` or `#`, `https://x.com/a;b/` cleans to `https://x.com/a;b`, which cleans to `https://x.com/a` |
| Lists.MapResult | instagram_downloader/downloader.py:323-328 | a loop whose body may raise succeeds iff every step succeeds, keeps length and order, and otherwise fails with the first step's exception |
| Lists.Collect | instagram_downloader/downloader.py:332-356 | a loop that appends at most one value per element succeeds iff every step succeeds, gives at most one value per element, and otherwise fails with the first step's exception |
| Lists.CollectAppend | instagram_downloader/downloader.py:332-356 | collecting over `xs + ys` is collecting over `xs`, then over `ys`, with the results concatenated |
| Lists.CollectOne | instagram_downloader/downloader.py:332-356 | one element contributes exactly what its step yields: one value or nothing |
| Lists.LatestIsLast | instagram_downloader/downloader.py:311-316 | of a series of conditional overwrites, the last one that happens wins; with none, the initial value stays |
| Lists.FlattenHolds | instagram_downloader/downloader.py:297-356 | every appended entry appears in the concatenation at its own position, after everything the earlier parts appended |
| Records.Show | instagram_downloader/downloader.py:465 | an f-string prints a value, or `None` when it is missing |
| Media.ExtractMediaFile | instagram_downloader/downloader.py:414-438 | the url of a rendition dictionary, or of the first dictionary of a list, with the given type, filename and metadata; an empty list raises `IndexError` |
| Media.CarouselFilename | instagram_downloader/downloader.py:336 | `{pk}_{id before the first _}.ext`; `KeyError 'pk'` comes first, then `AttributeError` for a missing id |
| Media.CarouselFile | instagram_downloader/downloader.py:333-356 | a carousel entry with `video_versions` gives only a video, with no fallback to the image when the list is empty; otherwise the first image, with `alt`; a non-empty rendition list yields a file iff `pk` and `id` are present and the first rendition is readable, and the file takes that rendition's url; the filename is `{pk}_{id prefix}` plus the extension; failures are `KeyError 'pk'`, then `AttributeError`, then `IndexError` |
| Media.ItemFile | instagram_downloader/downloader.py:455-483 | a story or highlight item gives `{pk}.mp4` from the first video, or else `{pk}.jpg` from the first image; a non-empty rendition list yields a file iff its first rendition is readable, with that rendition's url; both carry `id` and `taken_at`, the image also `alt`; a missing pk prints `None` |
| Media.FlatFiles | instagram_downloader/downloader.py:357-377 | a post without a carousel succeeds iff it has an `id` whenever it has a rendition and each first rendition is readable; it then gives one image file if it has candidates, then one video file if it has videos, with the first rendition's url, named after the id's prefix; a missing id raises `AttributeError`, an empty first list `IndexError` |
| Media.PostFiles | instagram_downloader/downloader.py:331-377 | a carousel gives at most one file per entry, in order; otherwise the flat files; every failure is one of the handlers' exceptions |
| Media.ItemFiles | instagram_downloader/downloader.py:452-483 | the items' files are what collecting `Media.ItemFile` over the items in order gives (each item its own file or none, by `Lists.CollectAppend` and `Lists.CollectOne`); they succeed iff every item does, at most one file per item; the only failure is `IndexError` |
| Media.ReelThumbnail | instagram_downloader/downloader.py:385-401 | nothing is chosen iff there is no image file; otherwise the first image file in order |
| Normalize.Initial | instagram_downloader/downloader.py:262-270 | the starting record has the URL's category, the original and cleaned URL, empty lists, no caption, no keys, and is not flagged |
| Normalize.Apply | instagram_downloader/downloader.py:287-377 | one record's handler appends to the owners, tags and files, overwrites the type, id, shortcode, taken-at and caption only when it sets them, and leaves the URLs and the privacy fields alone |
| Normalize.Fold | instagram_downloader/downloader.py:287-288 | the records are handled one after another, each updating the record the previous one left; its field-by-field results are `Normalize.FoldAppends`, `Normalize.FoldType`, `Normalize.FoldKeys` and `Normalize.FoldCaption` |
| Normalize.OwnersOf | instagram_downloader/downloader.py:295-307 | the owner comes first if present, then one person per co-author in order |
| Normalize.CaptionOf | instagram_downloader/downloader.py:318-319 | a caption is set iff the `caption` value is a truthy dictionary; its `text`, or `''` without one |
| Normalize.TagOf | instagram_downloader/downloader.py:326-327 | a tag without `user` raises `AttributeError`; otherwise the user's name and id |
| Normalize.TaggedOf | instagram_downloader/downloader.py:322-328 | no `usertags` gives no tags; `usertags` without `in` raises `TypeError`; otherwise one person per tag, in order, failing iff some tag has no user |
| Normalize.PostType | instagram_downloader/downloader.py:290 | `reel` iff the product type is `clips`; otherwise the URL's category |
| Normalize.PostContribution | instagram_downloader/downloader.py:287-377 | a post contributes its type, owners, pk, code, taken-at, caption, tags and files; it fails iff its tags or files fail, and tags fail first |
| Normalize.UserOwner | instagram_downloader/downloader.py:446-451 | a story reel or highlight contributes its `user`, if any, as its only owner |
| Normalize.ItemsFiles | instagram_downloader/downloader.py:452-453 | no `items` key gives no files; otherwise the files of the items |
| Normalize.StoryContribution | instagram_downloader/downloader.py:445-483 | a story reel contributes only its owner and its files; it fails iff its files fail |
| Normalize.HighlightId | instagram_downloader/downloader.py:492-493 | the id is the second `:`-separated field; a missing `:` raises `IndexError`; without `id` nothing is set |
| Normalize.HighlightContribution | instagram_downloader/downloader.py:490-536 | a highlight contributes its id, its owner, its title as caption, and its files; it fails iff its id or its files fail |
| Normalize.ContributionOf | instagram_downloader/downloader.py:272-278 | posts and reels use the post handler, highlight and highlights the highlight handler, and stories the story handler; failures are the handlers' exceptions |
| Normalize.ProcessMetadata | instagram_downloader/downloader.py:251-278 | no records leave the previous record; otherwise it succeeds iff every record's handler succeeds, and fails with the first record's exception |
| Normalize.Contributions | instagram_downloader/downloader.py:287 | on success there is one contribution per record, each that record's handler result |
| Normalize.FoldAppends | instagram_downloader/downloader.py:297-356 | owners, tagged users and media files are the starting lists followed by every contribution's lists, in order |
| Normalize.FoldType | instagram_downloader/downloader.py:290 | the content type is the last one a record set, else the starting one |
| Normalize.FoldKeys | instagram_downloader/downloader.py:311-316 | id, shortcode and taken-at are each the last value a record set, else the starting value |
| Normalize.FoldCaption | instagram_downloader/downloader.py:318-319 | the caption is the last one a record set, else the starting one |
| Normalize.FoldLeavesUnset | instagram_downloader/downloader.py:440-536 | a field no record sets keeps its starting value |
| Normalize.FoldKeeps | instagram_downloader/downloader.py:262-270 | the URLs and the privacy fields are never changed by the handlers |
| Normalize.ProcessKeepsUrls | instagram_downloader/downloader.py:262-270 | a processed record keeps the original URL, has the cleaned URL, and is not flagged |
| Normalize.PostsLists | instagram_downloader/downloader.py:287-377 | for posts, owners, tags and files are the concatenation of each post's, in record order |
| Normalize.PostsType | instagram_downloader/downloader.py:290 | for posts, the content type is decided by the last record alone |
| Normalize.PostsCaption | instagram_downloader/downloader.py:318-319 | for posts, the caption is the last truthy caption, or `None` |
| Normalize.PostsKeys | instagram_downloader/downloader.py:311-316 | for posts, id, shortcode and taken-at are the last `pk`, `code` and `taken_at` present |
| Normalize.ReelsLists | instagram_downloader/downloader.py:445-536 | for stories and highlights, owners and files are concatenated per record, and nobody is tagged |
| Normalize.StoriesKeys | instagram_downloader/downloader.py:440-483 | for stories, the type stays `stories`, and no caption, id, shortcode or taken-at is set |
| Normalize.HighlightsUnset | instagram_downloader/downloader.py:485-536 | for highlights, the type stays the URL's category, and no shortcode or taken-at is set |
| Normalize.HighlightsCaption | instagram_downloader/downloader.py:501-502 | for highlights, the caption is the last title present |
| Normalize.HighlightsId | instagram_downloader/downloader.py:492-493 | for highlights, the id is the last id part set |
| Download.BlankRecord | instagram_downloader/downloader.py:148-158 | the private, empty or error record: the category and URLs, empty lists, no caption, with the given flag and message |
| Download.IsPrivateError | instagram_downloader/downloader.py:190-196 | the private-content test: one of three status lines, case-sensitively, or "not accessible" or "private" in the lower-cased message (characterised by the `*IsPrivate`, `LowerStatusNotPrivate` and `CrashNotPrivate` lemmas) |
| Download.Caught | instagram_downloader/downloader.py:185-218 | a message that looks private gives the blank record flagged private with that message; any other is raised again |
| Download.Thumbnail | instagram_downloader/downloader.py:169-170 | a thumbnail is chosen only for a record whose type is `reel`, and then it is the first image |
| Download.MarkPrivacy | instagram_downloader/downloader.py:174-178 | the flag is true iff an exception was recorded, with its text as the error; nothing else changes |
| Download.Decide | instagram_downloader/downloader.py:130-218 | never `ValueError`; a raised private-looking message gives the blank private record with that message, any other raised message is raised again; no records give the blank private record with the fixed message; with records, it is raised again iff processing fails, and the record is flagged iff an exception was recorded |
| Download.Normalized | instagram_downloader/downloader.py:163-216 | with records, a handler's exception is raised again iff processing fails, with its own message, which never looks private; a returned record keeps the URLs and is flagged iff an exception was recorded, with that exception as its error |
| Download.DownloadContent | instagram_downloader/downloader.py:118-119 | `ValueError` with `Invalid Instagram URL: <url>` iff no pattern matches |
| Download.StatusLineIsPrivate | instagram_downloader/downloader.py:191-193 | any message that contains one of the three status lines looks private |
| Download.PrivateWordIsPrivate | instagram_downloader/downloader.py:195 | any message that contains "private", in any mix of cases, looks private |
| Download.LowerStatusNotPrivate | instagram_downloader/downloader.py:191-195 | the status lines are matched case-sensitively: `403 forbidden` alone does not look private |
| Download.CrashNotPrivate | instagram_downloader/downloader.py:190-196 | none of the handlers' exception messages looks private |
| Download.CrashesReraised | instagram_downloader/downloader.py:185-216 | when a handler fails on a record, `download_content` raises that exception again |
| Download.ReraisedExactly | instagram_downloader/downloader.py:130-216 | the outcome is raised again iff the extractor raised a message that does not look private, or some record makes its handler fail |
| Download.ExceptionMarksPrivate | instagram_downloader/downloader.py:174-176 | with records and a recorded exception, the normalised record is returned flagged private, with the exception's text and its media files kept |
| Download.NormalOutcome | instagram_downloader/downloader.py:163-183 | with records and no exception, the processed record is returned unchanged, not flagged and without error |
| Download.NothingIsPrivate | instagram_downloader/downloader.py:139-161 | with no records, the blank record is returned, flagged private with the fixed message and without a thumbnail |

## Left out

- gallery-dl configuration: `_configure_gallery_dl`, the `INSTAGRAM_HEADERS`
  and the base directory. These are settings of a foreign library. The
  extractor run itself is the `Extraction` parameter.
- The reel thumbnail's HTTP fetch and file write. Only the choice of image is
  modelled (`Media.ReelThumbnail`). The fetch's errors are caught inside the
  method and cannot change the outcome.
- `_reformat_video` (ffmpeg), `_process_media_files`, `create_temp_directory`
  and `cleanup`. These are filesystem and subprocess work.
- Logging, the `self.metadata` copy kept for the empty case, and the
  command-line scripts and packaging.
- Non-dictionary records (the `isinstance` branches for test mocks). Every
  record is a dictionary here.
- Present keys holding values of another type (for example a `None` owner or
  a `None` `carousel_media`). The model reads an absent key as `None`, and the
  exceptions these inputs raise are modelled for absent keys only.
- `urlparse` details outside what `clean_url` keeps: stripping of leading C0
  characters and of tab and newline characters, the `ValueError` for an
  unbalanced IPv6 bracket, and the NFKC check of the netloc. Regular
  expressions are modelled only for these five patterns.
- Normalize.ProcessMetadata: with no records, the handler returns without
  touching the record. `download_content` never calls it that way, so the
  model passes the previous record through unchanged.
- Urls.Split: the model's pieces keep the scheme's case and tell a missing
  piece (`None`) from an empty one (`Some("")`). Python's `urlparse`
  lower-cases the scheme and gives `''` for both, so `Urls.SplitJoin` is a
  round trip of the model's pieces, not of `urlparse`'s. `clean_url` reads
  only the lower-cased scheme, the netloc and the path, so `Urls.CleanUrl` is
  unaffected.
- Download.Decide: before re-raising, `download_content` also stores the
  blank record in `self.processed_metadata`. That side effect on the object is
  not part of the outcome.
- Download.DownloadContent: the exception raised by a failing
  `_process_media_files` is not modelled, because that method is left out.
