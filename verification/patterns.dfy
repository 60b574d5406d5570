/** URL classification (`validate_instagram_url` and `INSTAGRAM_PATTERNS`):
    five patterns tried in a fixed order, the first one that matches at the
    start of the URL decides the content category. */
module Patterns {
  import opened Wrappers
  import opened Text

  /** The content categories, one per pattern. */
  datatype Category = Post | Reel | Highlight | Highlights | Stories

  /** The `content_type` string the downloader records for a category. */
  function Name(c: Category): string {
    match c
    case Post => "post"
    case Reel => "reel"
    case Highlight => "highlight"
    case Highlights => "highlights"
    case Stories => "stories"
  }

  /** The order in which the patterns are tried (the dictionary's insertion order). */
  const Order: seq<Category> := [Post, Reel, Highlight, Highlights, Stories]

  /** Position of a category in `Order`. */
  function Rank(c: Category): nat {
    match c
    case Post => 0
    case Reel => 1
    case Highlight => 2
    case Highlights => 3
    case Stories => 4
  }

  const Host: string := "instagram.com/"

  /** The literal path text that follows `instagram.com/` in each pattern;
      `aGlnaGxpZ2h0` is the base64 spelling of "highlight". */
  function PathPrefix(c: Category): string {
    match c
    case Post => "p/"
    case Reel => "reel/"
    case Highlight => "s/aGlnaGxpZ2h0"
    case Highlights => "stories/highlights/"
    case Stories => "stories/"
  }

  /** The characters excluded by the class `[^/?#&]`. */
  const Excluded: set<char> := {'/', '?', '#', '&'}

  /** `s` starts with `head` followed by at least one character of `[^/?#&]`:
      with `re.match` the `+` needs one such character and nothing after it
      matters, since the pattern has no end anchor. */
  predicate HeadMatches(s: string, head: string) {
    |s| > |head| && s[..|head|] == head && s[|head|] !in Excluded
  }

  /** The three ways the optional group `(https?://)?` can match. */
  datatype SchemeChoice = NoScheme | HttpScheme | HttpsScheme

  function SchemeText(sc: SchemeChoice): string {
    match sc
    case NoScheme => ""
    case HttpScheme => "http://"
    case HttpsScheme => "https://"
  }

  /** The literal text a regular-expression match consumes before the
      character class, for one choice of each optional group. */
  function Head(sc: SchemeChoice, www: bool, c: Category): string {
    SchemeText(sc) + (WwwText(www) + Tail(c))
  }

  function WwwText(www: bool): string {
    if www then "www." else ""
  }

  /** What must follow the optional prefixes: the host and the path prefix. */
  function Tail(c: Category): (r: string)
    ensures |r| > 0 && r[0] == 'i'
  {
    Host + PathPrefix(c)
  }

  /** The language of the pattern of `c` as `re.match` reads it: some choice
      of the optional scheme and the optional `www.` makes the head match. */
  ghost predicate RegexMatches(c: Category, s: string) {
    exists sc: SchemeChoice, www: bool :: HeadMatches(s, Head(sc, www, c))
  }

  /** Drops a leading `https://` or `http://`. */
  function DropScheme(s: string): string {
    if StartsWith(s, "https://") then s[8..]
    else if StartsWith(s, "http://") then s[7..]
    else s
  }

  /** Drops a leading `www.`. */
  function DropWww(s: string): string {
    if StartsWith(s, "www.") then s[4..] else s
  }

  /** Hand-written matcher for the pattern of `c`: strip the optional
      prefixes greedily, then check the host, the path prefix and one more
      character outside `/?#&`. */
  predicate Matches(c: Category, s: string) {
    HeadMatches(DropWww(DropScheme(s)), Tail(c))
  }

  lemma HeadMatchesPrefix(p: string, t: string, h: string)
    requires HeadMatches(t, h)
    ensures HeadMatches(p + t, p + h)
  {
    assert (p + t)[..|p + h|] == p + t[..|h|];
    assert (p + t)[|p + h|] == t[|h|];
  }

  lemma HeadMatchesSuffix(s: string, p: string, h: string)
    requires HeadMatches(s, p + h)
    ensures HeadMatches(s[|p|..], h)
  {
    assert s[|p|..][..|h|] == s[..|p + h|][|p|..];
  }

  /** A string that starts with `p + q` starts with `p`, and what follows
      `p` starts with `q`. */
  lemma StartsWithSplit(s: string, p: string, q: string)
    requires StartsWith(s, p + q)
    ensures StartsWith(s, p) && StartsWith(s[|p|..], q)
  {
    assert s[..|p|] == (p + q)[..|p|];
    assert s[|p|..][..|q|] == (p + q)[|p|..];
  }

  /** The greedy scheme stripping removes exactly the scheme text of the
      choice that matched. */
  lemma DropSchemeAgrees(s: string, sc: SchemeChoice, rest: string)
    requires StartsWith(s, SchemeText(sc) + rest)
    requires |rest| > 0 && (rest[0] == 'w' || rest[0] == 'i')
    ensures DropScheme(s) == s[|SchemeText(sc)|..]
  {
    StartsWithSplit(s, SchemeText(sc), rest);
    var n := |SchemeText(sc)|;
    assert s[n] == rest[0] by { assert s[n..][0] == rest[0]; }
    match sc
    case HttpsScheme =>
    case HttpScheme =>
      assert s[4] == "http://"[4];
    case NoScheme =>
      assert s[0] != 'h';
  }

  /** Likewise for the optional `www.`. */
  lemma DropWwwAgrees(t: string, www: bool, rest: string)
    requires StartsWith(t, WwwText(www) + rest)
    requires |rest| > 0 && rest[0] == 'i'
    ensures DropWww(t) == t[|WwwText(www)|..]
  {
    var w := WwwText(www);
    StartsWithSplit(t, w, rest);
    assert t[|w|] == rest[0] by { assert t[|w|..][0] == rest[0]; }
    if !www {
      assert t[0] != 'w';
    }
  }

  /** Which optional prefixes the greedy stripping removes, when the head
      of some choice matches. */
  lemma StripAgrees(c: Category, s: string, sc: SchemeChoice, www: bool)
    requires HeadMatches(s, Head(sc, www, c))
    ensures DropWww(DropScheme(s)) == s[|SchemeText(sc)| + |WwwText(www)|..]
  {
    var rest := WwwText(www) + Tail(c);
    assert StartsWith(s, SchemeText(sc) + rest);
    assert rest[0] == 'w' || rest[0] == 'i';
    DropSchemeAgrees(s, sc, rest);
    StartsWithSplit(s, SchemeText(sc), rest);
    DropWwwAgrees(DropScheme(s), www, Tail(c));
  }

  /** Every string the hand-written matcher accepts is matched by the
      regular expression. */
  lemma MatcherSound(c: Category, s: string)
    requires Matches(c, s)
    ensures RegexMatches(c, s)
  {
    var t := DropScheme(s);
    var sc: SchemeChoice;
    if StartsWith(s, "https://") {
      sc := HttpsScheme;
    } else if StartsWith(s, "http://") {
      sc := HttpScheme;
    } else {
      sc := NoScheme;
    }
    var www := StartsWith(t, "www.");
    assert s == SchemeText(sc) + t;
    assert t == WwwText(www) + DropWww(t);
    HeadMatchesPrefix(WwwText(www), DropWww(t), Tail(c));
    HeadMatchesPrefix(SchemeText(sc), t, WwwText(www) + Tail(c));
    assert HeadMatches(s, Head(sc, www, c));
  }

  /** Every string the regular expression matches is accepted by the
      hand-written matcher. */
  lemma MatcherComplete(c: Category, s: string)
    requires RegexMatches(c, s)
    ensures Matches(c, s)
  {
    var sc: SchemeChoice, www: bool :| HeadMatches(s, Head(sc, www, c));
    MatcherCompleteFor(c, s, sc, www);
  }

  lemma MatcherCompleteFor(c: Category, s: string, sc: SchemeChoice, www: bool)
    requires HeadMatches(s, Head(sc, www, c))
    ensures Matches(c, s)
  {
    StripAgrees(c, s, sc, www);
    HeadMatchesSuffix(s, SchemeText(sc), WwwText(www) + Tail(c));
    var t := s[|SchemeText(sc)|..];
    HeadMatchesSuffix(t, WwwText(www), Tail(c));
    assert t[|WwwText(www)|..] == s[|SchemeText(sc)| + |WwwText(www)|..];
  }

  /** The hand-written matcher accepts exactly the strings the regular
      expression matches at their start. */
  lemma MatcherIsRegex(c: Category, s: string)
    ensures Matches(c, s) <==> RegexMatches(c, s)
  {
    if Matches(c, s) {
      MatcherSound(c, s);
    }
    if RegexMatches(c, s) {
      MatcherComplete(c, s);
    }
  }

  /** The first category of `cs` that `matched` accepts: the loop over the
      pattern table that returns at the first match. */
  function FirstMatch(cs: seq<Category>, matched: Category -> bool): (r: Option<Category>)
    ensures r.None? <==> forall i :: 0 <= i < |cs| ==> !matched(cs[i])
    ensures r.Some? ==>
      exists i :: 0 <= i < |cs| && cs[i] == r.value && matched(cs[i])
                  && forall j :: 0 <= j < i ==> !matched(cs[j])
  {
    if |cs| == 0 then None
    else if matched(cs[0]) then Some(cs[0])
    else
      var r := FirstMatch(cs[1..], matched);
      assert forall i :: 0 < i < |cs| ==> cs[i] == cs[1..][i - 1];
      r
  }

  /** The pattern test for one URL, as a function of the category. */
  function MatcherOf(s: string): (m: Category -> bool)
    ensures forall c :: m(c) == Matches(c, s)
  {
    c => Matches(c, s)
  }

  /** The category of a URL: the first pattern in `Order` that matches, so a
      later pattern wins only when every earlier one fails. */
  function Classify(s: string): (r: Option<Category>)
    ensures r.None? <==> forall c :: !Matches(c, s)
    ensures r.Some? ==> Matches(r.value, s)
    ensures r.Some? ==> forall d :: Rank(d) < Rank(r.value) ==> !Matches(d, s)
  {
    FirstMatchInOrder(s);
    FirstMatch(Order, MatcherOf(s))
  }

  lemma FirstMatchInOrder(s: string)
    ensures FirstMatch(Order, MatcherOf(s)).None? <==> forall c :: !Matches(c, s)
    ensures FirstMatch(Order, MatcherOf(s)).Some? ==>
      forall d :: Rank(d) < Rank(FirstMatch(Order, MatcherOf(s)).value) ==> !Matches(d, s)
  {
    OrderRanks();
    if FirstMatch(Order, MatcherOf(s)).None? {
      forall c ensures !Matches(c, s) {
        assert Order[Rank(c)] == c;
      }
    }
  }

  /** Each category sits at its rank in the table order. */
  lemma OrderRanks()
    ensures forall c :: Order[Rank(c)] == c
    ensures forall i :: 0 <= i < |Order| ==> Rank(Order[i]) == i
  {
  }

  /** `validate_instagram_url`: true iff some pattern matches; on success the
      recorded category becomes the first matching one, on failure the
      previously recorded category is left as it was. */
  function ValidateUrl(url: string, current: Option<Category>): (r: (bool, Option<Category>))
    ensures r.0 <==> exists c :: Matches(c, url)
    ensures !r.0 ==> r.1 == current
    ensures r.0 ==> r.1.Some? && Matches(r.1.value, url)
                    && forall d :: Rank(d) < Rank(r.1.value) ==> !Matches(d, url)
  {
    match Classify(url)
    case Some(c) => (true, Some(c))
    case None => (false, current)
  }

  /** Two patterns that match the same URL agree on every position their
      path prefixes share. */
  lemma SharedChar(c: Category, d: Category, s: string, j: nat)
    requires Matches(c, s) && Matches(d, s)
    requires j < |PathPrefix(c)| && j < |PathPrefix(d)|
    ensures PathPrefix(c)[j] == PathPrefix(d)[j]
  {
    var t := DropWww(DropScheme(s));
    assert t[|Host| + j] == Tail(c)[|Host| + j] == PathPrefix(c)[j];
    assert t[|Host| + j] == Tail(d)[|Host| + j] == PathPrefix(d)[j];
  }

  /** Two different patterns match the same URL only for the pair
      `highlights`/`stories`: the other literal prefixes differ. */
  lemma OnlyStoriesOverlap(c: Category, d: Category, s: string)
    requires c != d && Matches(c, s) && Matches(d, s)
    ensures {c, d} == {Highlights, Stories}
  {
    SharedChar(c, d, s, 0);
    SharedChar(c, d, s, 1);
    if {c, d} == {Highlight, Stories} || {c, d} == {Highlight, Highlights} {
      SharedChar(c, d, s, 2);
    }
  }

  /** The `stories/` head is a prefix of the `stories/highlights/` head,
      followed by `h`, which the class `[^/?#&]` allows. */
  lemma StoriesWithinHighlights(s: string)
    requires Matches(Highlights, s)
    ensures Matches(Stories, s)
  {
    var t := DropWww(DropScheme(s));
    var h := Tail(Stories);
    var g := Tail(Highlights);
    assert g[..|h|] == h && g[|h|] == 'h';
    assert t[..|h|] == t[..|g|][..|h|];
    assert t[|h|] == t[..|g|][|h|];
  }

  /** Every `stories/highlights/` URL also matches the `stories/` pattern;
      the order of the table is what makes it a `highlights` URL. */
  lemma HighlightsBeforeStories(s: string)
    requires Matches(Highlights, s)
    ensures Matches(Stories, s)
    ensures Classify(s) == Some(Highlights)
  {
    StoriesWithinHighlights(s);
    forall d | Rank(d) < Rank(Highlights) ensures !Matches(d, s) {
      if Matches(d, s) {
        OnlyStoriesOverlap(d, Highlights, s);
      }
    }
    ClassifyFirst(s, Highlights);
  }

  /** Apart from `stories`, a URL that matches a pattern is classified by
      that pattern: the order of the table only matters for the
      `highlights`/`stories` overlap. */
  lemma ClassifyUnambiguous(c: Category, s: string)
    requires Matches(c, s) && c != Stories
    ensures Classify(s) == Some(c)
  {
    forall d | Rank(d) < Rank(c) ensures !Matches(d, s) {
      if Matches(d, s) {
        OnlyStoriesOverlap(d, c, s);
      }
    }
    ClassifyFirst(s, c);
  }

  /** A matching pattern that no earlier pattern beats is the category. */
  lemma ClassifyFirst(s: string, c: Category)
    requires Matches(c, s)
    requires forall d | Rank(d) < Rank(c) :: !Matches(d, s)
    ensures Classify(s) == Some(c)
  {
    var r := Classify(s);
    OrderRanks();
    assert Rank(r.value) == Rank(c);
    assert r.value == Order[Rank(c)];
  }

  /** Any choice of prefixes, the literal text of a pattern and one more
      allowed character make a matching URL. */
  lemma MatchesBuilt(sc: SchemeChoice, www: bool, c: Category, rest: string)
    requires |rest| > 0 && rest[0] !in Excluded
    ensures Matches(c, Head(sc, www, c) + rest)
  {
    var h := Head(sc, www, c);
    var s := h + rest;
    assert s[..|h|] == h;
    assert s[|h|] == rest[0];
    MatcherCompleteFor(c, s, sc, www);
  }

  /** A URL whose text after the optional prefixes differs from the host
      and path prefix of `c` at some position does not match `c`. */
  lemma MismatchAt(c: Category, s: string, k: nat)
    requires k < |Tail(c)| && k < |DropWww(DropScheme(s))|
    requires DropWww(DropScheme(s))[k] != Tail(c)[k]
    ensures !Matches(c, s)
  {
  }

  /** A URL built from any choice of the optional prefixes, the literal
      text of a non-`stories` pattern and one more allowed character is
      classified by that pattern (the test URLs `https://www.instagram.com/p/ABC123/`,
      `https://instagram.com/reel/ABC123/`, `https://www.instagram.com/s/aGlnaGxpZ2h0OjE3...`
      and `https://www.instagram.com/stories/highlights/123456789/` are all of this form). */
  lemma ClassifyBuilt(sc: SchemeChoice, www: bool, c: Category, rest: string)
    requires c != Stories
    requires |rest| > 0 && rest[0] !in Excluded
    ensures Classify(Head(sc, www, c) + rest) == Some(c)
  {
    MatchesBuilt(sc, www, c, rest);
    ClassifyUnambiguous(c, Head(sc, www, c) + rest);
  }

  /** Dropping the optional prefixes of a URL built from them gives back
      what follows them. */
  lemma DropPrefixes(sc: SchemeChoice, www: bool, rest: string)
    requires |rest| > 0 && rest[0] == 'i'
    ensures DropWww(DropScheme(SchemeText(sc) + (WwwText(www) + rest))) == rest
  {
    var s := SchemeText(sc) + (WwwText(www) + rest);
    var r := WwwText(www) + rest;
    assert StartsWith(s, SchemeText(sc) + r);
    assert r[0] == 'w' || r[0] == 'i';
    DropSchemeAgrees(s, sc, r);
    assert s[|SchemeText(sc)|..] == r;
    assert StartsWith(r, WwwText(www) + rest);
    DropWwwAgrees(r, www, rest);
    assert r[|WwwText(www)|..] == rest;
  }

  /** A profile URL such as `https://www.instagram.com/username`, whose path
      does not start with `p`, `r` or `s`, is not recognised. */
  lemma ProfileUrlRejected(sc: SchemeChoice, www: bool, name: string)
    requires |name| > 0 && name[0] != 'p' && name[0] != 'r' && name[0] != 's'
    ensures Classify(SchemeText(sc) + (WwwText(www) + (Host + name))).None?
  {
    var s := SchemeText(sc) + (WwwText(www) + (Host + name));
    DropPrefixes(sc, www, Host + name);
    forall c ensures !Matches(c, s) {
      ProfileMismatch(c, s, name);
    }
  }

  /** After the host, every pattern's path starts with `p`, `r` or `s`. */
  lemma ProfileMismatch(c: Category, s: string, name: string)
    requires DropWww(DropScheme(s)) == Host + name
    requires |name| > 0 && name[0] != 'p' && name[0] != 'r' && name[0] != 's'
    ensures !Matches(c, s)
  {
    assert (Host + name)[|Host|] == name[0];
    assert Tail(c)[|Host|] == PathPrefix(c)[0];
    MismatchAt(c, s, |Host|);
  }

  /** A string that, once the optional prefixes are dropped, does not start
      with the host `instagram.com/` (`https://www.example.com`, `not a url`)
      is not recognised. */
  lemma ForeignUrlRejected(s: string)
    requires !StartsWith(DropWww(DropScheme(s)), Host)
    ensures Classify(s).None?
  {
    forall c ensures !Matches(c, s) {
      HostNeeded(c, s);
    }
  }

  /** Every pattern needs the host right after the optional prefixes. */
  lemma HostNeeded(c: Category, s: string)
    requires !StartsWith(DropWww(DropScheme(s)), Host)
    ensures !Matches(c, s)
  {
    var t := DropWww(DropScheme(s));
    if Matches(c, s) {
      assert StartsWith(t, Host + PathPrefix(c));
      StartsWithSplit(t, Host, PathPrefix(c));
    }
  }
}
