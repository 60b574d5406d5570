/** URL cleaning (`clean_url`): `urlparse` splits the URL, the query, the
    fragment and the `;params` are dropped, one trailing `/` is removed
    from the path, and `scheme://netloc+path` is rebuilt. */
module Urls {
  import opened Wrappers
  import opened Text

  predicate IsAsciiAlpha(c: char) {
    'a' <= c <= 'z' || 'A' <= c <= 'Z'
  }

  /** The characters `urlparse` accepts in a scheme. */
  predicate IsSchemeChar(c: char) {
    IsAsciiAlpha(c) || '0' <= c <= '9' || c == '+' || c == '-' || c == '.'
  }

  /** Text `urlparse` takes as a scheme when a `:` follows it. */
  predicate ValidScheme(s: string) {
    |s| > 0 && IsAsciiAlpha(s[0]) && forall k :: 0 <= k < |s| ==> IsSchemeChar(s[k])
  }

  /** The schemes for which `urlparse` splits `;params` off the last path segment. */
  const UsesParams: seq<string> :=
    ["", "ftp", "hdl", "prospero", "http", "imap", "https", "shttp", "rtsp",
     "rtsps", "rtspu", "sip", "sips", "mms", "sftp", "tel"]

  /** The pieces of a URL. A missing piece (`None`) had no delimiter in the
      URL; `Some("")` had the delimiter and nothing after it. */
  datatype UrlParts = UrlParts(
    scheme: Option<string>,
    netloc: Option<string>,
    path: string,
    params: Option<string>,
    query: Option<string>,
    fragment: Option<string>)

  /** Puts the pieces back together with their delimiters, grouped the way
      `urlparse` takes them apart. */
  function Join(p: UrlParts): string {
    (if p.scheme.Some? then p.scheme.value + ":" else "")
    + ((if p.netloc.Some? then "//" + p.netloc.value else "")
       + (((p.path + (if p.params.Some? then ";" + p.params.value else ""))
           + (if p.query.Some? then "?" + p.query.value else ""))
          + (if p.fragment.Some? then "#" + p.fragment.value else "")))
  }

  /** `s.split(c, 1)`: the text before the first `c` and, if there is one,
      the text after it. */
  function Cut(s: string, c: char): (r: (string, Option<string>))
    ensures c !in r.0
    ensures r.1.None? ==> r.0 == s
    ensures r.1.Some? ==> s == r.0 + ([c] + r.1.value)
  {
    var n := Span(s, {c});
    if n == |s| then (s, None) else (s[..n], Some(s[n + 1..]))
  }

  /** Length of the scheme of `u`: the text before the first `:`, when it
      is a valid scheme. */
  function SchemeLength(u: string): (r: Option<nat>)
    ensures r.Some? ==> r.value < |u| && u[r.value] == ':' && ValidScheme(u[..r.value])
    ensures forall i :: 0 <= i < |u| && u[i] == ':' && ValidScheme(u[..i]) ==> r == Some(i)
  {
    var i := Span(u, {':'});
    assert forall j :: 0 <= j < |u| && u[j] == ':' && ValidScheme(u[..j]) ==> j == i;
    if i < |u| && ValidScheme(u[..i]) then Some(i) else None
  }

  /** Where `;params` start in a path (`_splitparams`): the first `;` after
      the last `/`, or the first `;` when there is no `/`. */
  function ParamsStart(path: string): (r: Option<nat>)
    ensures r.Some? ==> r.value < |path| && path[r.value] == ';'
    ensures r.Some? ==> forall i :: r.value < i < |path| ==> path[i] != '/'
    ensures r.Some? ==> forall i :: 0 <= i < r.value && path[i] == ';' ==>
                          exists j :: i < j < r.value && path[j] == '/'
    ensures r.None? ==> forall i :: 0 <= i < |path| && path[i] == ';' ==>
                          exists j :: i < j < |path| && path[j] == '/'
  {
    var j := match LastIndex(path, '/') case Some(i) => i case None => 0;
    var k := j + Span(path[j..], {';'});
    assert forall i :: j <= i < k ==> path[i] == path[j..][i - j];
    if k < |path| then Some(k) else None
  }

  /** The scheme and what follows its `:`; no scheme when the text before
      the first `:` is not a valid scheme. */
  function SplitScheme(u: string): (r: (Option<string>, string))
    ensures r.0.Some? ==> ValidScheme(r.0.value)
    ensures (if r.0.Some? then r.0.value + ":" else "") + r.1 == u
  {
    match SchemeLength(u)
    case Some(i) =>
      assert u[..i] + ":" + u[i + 1..] == u;
      (Some(u[..i]), u[i + 1..])
    case None => (None, u)
  }

  /** After the scheme: a `//` starts the network location, which runs to
      the next `/`, `?` or `#`. */
  function SplitNetloc(s: string): (r: (Option<string>, string))
    ensures r.0.Some? ==> '/' !in r.0.value && '?' !in r.0.value && '#' !in r.0.value
    ensures r.0.Some? ==> r.1 == "" || r.1[0] in {'/', '?', '#'}
    ensures (if r.0.Some? then "//" + r.0.value else "") + r.1 == s
  {
    if StartsWith(s, "//") then
      var n := Span(s[2..], {'/', '?', '#'});
      assert "//" + s[2..2 + n] + s[2 + n..] == s;
      (Some(s[2..2 + n]), s[2 + n..])
    else (None, s)
  }

  /** A text is what precedes index `k`, the character there, and what
      follows it. */
  lemma PieceAround(s: string, k: nat)
    requires k < |s|
    ensures s[..k] + [s[k]] + s[k + 1..] == s
  {
    assert s[k..] == [s[k]] + s[k + 1..];
    assert s == s[..k] + s[k..];
  }

  /** `_splitparams`, applied when the scheme is one of `UsesParams` and the
      path holds a `;`. */
  function SplitParams(scheme: string, s: string): (r: (string, Option<string>))
    ensures r.0 + (if r.1.Some? then ";" + r.1.value else "") == s
    ensures r.1.None? ==> r.0 == s
    ensures ';' !in s ==> r.1.None?
    ensures Lower(scheme) !in UsesParams ==> r == (s, None)
    ensures Lower(scheme) in UsesParams ==>
              (r.1.Some? <==> ParamsStart(s).Some?)
              && (r.1.Some? ==> |r.0| == ParamsStart(s).value)
  {
    if Lower(scheme) in UsesParams && ';' in s then CutParams(s) else (s, None)
  }

  /** The path and the params after the `;` that `ParamsStart` finds. */
  function CutParams(s: string): (r: (string, Option<string>))
    ensures r.0 + (if r.1.Some? then ";" + r.1.value else "") == s
    ensures r.1.None? ==> r.0 == s
    ensures r.1.Some? <==> ParamsStart(s).Some?
    ensures r.1.Some? ==> |r.0| == ParamsStart(s).value
  {
    match ParamsStart(s)
    case Some(k) =>
      PieceAround(s, k);
      (s[..k], Some(s[k + 1..]))
    case None => (s, None)
  }

  /** What `urlparse` guarantees of its pieces: no piece holds the
      delimiter that ends it, and a path after a network location is empty
      or starts with `/`. */
  predicate WellFormed(p: UrlParts) {
    && (p.scheme.Some? ==> ValidScheme(p.scheme.value))
    && (p.netloc.Some? ==> '/' !in p.netloc.value && '?' !in p.netloc.value && '#' !in p.netloc.value)
    && (p.netloc.Some? ==> p.path == "" || p.path[0] == '/')
    && '?' !in p.path && '#' !in p.path
    && (p.query.Some? ==> '#' !in p.query.value)
  }

  /** What follows the network location: `#fragment`, then `?query`,
      then `;params` for the schemes of `UsesParams`. */
  function SplitPath(scheme: string, s: string): (p: UrlParts)
    ensures p.scheme.None? && p.netloc.None?
    ensures '?' !in p.path && '#' !in p.path
    ensures p.query.Some? ==> '#' !in p.query.value
    ensures p.path != "" ==> s != "" && p.path[0] == s[0]
    ensures Join(p) == s
  {
    var f := Cut(s, '#');
    var q := Cut(f.0, '?');
    var pp := SplitParams(scheme, q.0);
    PathFacts(s, f.0, q.0, pp.0, pp.1, q.1, f.1);
    UrlParts(None, None, pp.0, pp.1, q.1, f.1)
  }

  lemma PathFacts(s: string, beforeFragment: string, beforeQuery: string, path: string,
                  params: Option<string>, query: Option<string>, fragment: Option<string>)
    requires s == beforeFragment + (if fragment.Some? then "#" + fragment.value else "")
    requires '#' !in beforeFragment
    requires beforeFragment == beforeQuery + (if query.Some? then "?" + query.value else "")
    requires '?' !in beforeQuery
    requires path + (if params.Some? then ";" + params.value else "") == beforeQuery
    ensures '?' !in path && '#' !in path
    ensures query.Some? ==> '#' !in query.value
    ensures path != "" ==> s != "" && path[0] == s[0]
  {
    assert forall i :: 0 <= i < |path| ==> path[i] == beforeQuery[i] == beforeFragment[i] == s[i];
    if query.Some? {
      assert forall i :: 0 <= i < |query.value| ==> query.value[i] == beforeFragment[|beforeQuery| + 1 + i];
    }
  }

  /** The split `urlparse` makes: scheme, `//netloc`, then `#fragment`,
      `?query` and, for the schemes of `UsesParams`, `;params`. Unlike
      `urlparse`, the scheme keeps its case and a missing piece (`None`) is
      kept apart from an empty one, so that joining gives the URL back. */
  function Split(u: string): (p: UrlParts)
    ensures WellFormed(p)
  {
    var s := SplitScheme(u);
    var n := SplitNetloc(s.1);
    var q := SplitPath(s.0.GetOr(""), n.1);
    UrlParts(s.0, n.0, q.path, q.params, q.query, q.fragment)
  }

  /** Splitting loses nothing: joining the model's pieces gives the URL
      back. */
  lemma SplitJoin(u: string)
    ensures Join(Split(u)) == u
  {
    var s := SplitScheme(u);
    var n := SplitNetloc(s.1);
    var q := SplitPath(s.0.GetOr(""), n.1);
    var p := Split(u);
    assert p == UrlParts(s.0, n.0, q.path, q.params, q.query, q.fragment);
    var a := if s.0.Some? then s.0.value + ":" else "";
    var b := if n.0.Some? then "//" + n.0.value else "";
    var x := ((q.path + (if q.params.Some? then ";" + q.params.value else ""))
              + (if q.query.Some? then "?" + q.query.value else ""))
             + (if q.fragment.Some? then "#" + q.fragment.value else "");
    assert Join(q) == "" + ("" + x);
    assert x == n.1;
    assert Join(p) == a + (b + x);
    assert b + x == s.1;
  }

  /** The path with one trailing `/` removed, if it has one. */
  function DropTrailingSlash(path: string): (r: string)
    ensures EndsWith(path, "/") ==> r + "/" == path
    ensures !EndsWith(path, "/") ==> r == path
  {
    if EndsWith(path, "/") then path[..|path| - 1] else path
  }

  /** The text `clean_url` keeps before the path: the lower-cased scheme
      (empty when there is none), `://` and the network location. */
  function CleanHead(p: UrlParts): (h: string)
    requires WellFormed(p)
    ensures '?' !in h && '#' !in h
  {
    var s := Lower(p.scheme.GetOr(""));
    LowerKeepsSchemeChars(p.scheme.GetOr(""));
    assert forall k :: 0 <= k < |s| ==> IsSchemeChar(s[k]);
    assert '?' !in s && '#' !in s;
    s + "://" + p.netloc.GetOr("")
  }

  /** `clean_url` on the pieces of a URL. */
  function Clean(p: UrlParts): (r: string)
    requires WellFormed(p)
    ensures '?' !in r && '#' !in r
    ensures r + (if EndsWith(p.path, "/") then "/" else "") == CleanHead(p) + p.path
  {
    var h := CleanHead(p);
    var d := DropTrailingSlash(p.path);
    assert forall i :: 0 <= i < |d| ==> d[i] == p.path[i];
    assert '?' !in d && '#' !in d;
    assert (h + d) + "/" == h + (d + "/");
    h + d
  }

  /** `clean_url`: the lower-cased scheme, `://`, the network location and
      the path less at most one trailing `/`; never a query, a fragment or
      `;params`. */
  function CleanUrl(u: string): (r: string)
    ensures '?' !in r && '#' !in r
  {
    Clean(Split(u))
  }

  /** Lower-casing keeps scheme characters scheme characters (so never
      introduces `?`, `#` or `:`) and is idempotent. */
  lemma LowerKeepsSchemeChars(s: string)
    ensures ValidScheme(s) ==> ValidScheme(Lower(s))
    ensures (forall k :: 0 <= k < |s| ==> IsSchemeChar(s[k])) ==>
              forall k :: 0 <= k < |s| ==> IsSchemeChar(Lower(s)[k])
    ensures Lower(Lower(s)) == Lower(s)
    ensures forall k :: 0 <= k < |s| && IsSchemeChar(s[k]) ==> IsSchemeChar(Lower(s)[k])
  {
  }

  /** The pieces of an absolute URL as `clean_url` expects them: a scheme
      and a network location, a path free of `;`, and no `;params`. */
  predicate Canonical(p: UrlParts) {
    && WellFormed(p)
    && p.scheme.Some? && p.netloc.Some?
    && p.params.None? && ';' !in p.path
  }

  lemma CutAbsent(s: string, c: char)
    requires c !in s
    ensures Cut(s, c) == (s, None)
  {
    SpanUnique(s, {c}, |s|);
  }

  lemma CutPresent(a: string, c: char, b: string)
    requires c !in a
    ensures Cut(a + ([c] + b), c) == (a, Some(b))
  {
    var s := a + ([c] + b);
    assert forall k :: 0 <= k < |a| ==> s[k] == a[k];
    SpanUnique(s, {c}, |a|);
    assert s[..|a|] == a;
    assert s[|a| + 1..] == b;
  }

  /** Cutting at `c` a text whose optional `c`-suffix is the only `c`. */
  lemma CutOptional(a: string, c: char, b: Option<string>)
    requires c !in a
    ensures Cut(a + (if b.Some? then [c] + b.value else ""), c) == (a, b)
  {
    if b.Some? {
      CutPresent(a, c, b.value);
    } else {
      assert a + "" == a;
      CutAbsent(a, c);
    }
  }

  /** The path, query and fragment of a canonical URL come back out of the
      text after its network location. */
  lemma SplitPathJoin(scheme: string, path: string, query: Option<string>, fragment: Option<string>)
    requires '?' !in path && '#' !in path && ';' !in path
    requires query.Some? ==> '#' !in query.value
    ensures var s := (path + (if query.Some? then "?" + query.value else ""))
                     + (if fragment.Some? then "#" + fragment.value else "");
            SplitPath(scheme, s) == UrlParts(None, None, path, None, query, fragment)
  {
    var a := path + (if query.Some? then "?" + query.value else "");
    assert '#' !in a by {
      if query.Some? {
        forall k | 0 <= k < |a|
          ensures a[k] != '#'
        {
          if k < |path| {
            assert a[k] == path[k];
          } else if k > |path| {
            assert a[k] == query.value[k - |path| - 1];
          }
        }
      } else {
        assert a == path;
      }
    }
    CutOptional(a, '#', fragment);
    CutOptional(path, '?', query);
  }

  /** The network location ends where the path, query or fragment starts. */
  lemma SplitNetlocJoin(netloc: string, rest: string)
    requires '/' !in netloc && '?' !in netloc && '#' !in netloc
    requires rest == "" || rest[0] in {'/', '?', '#'}
    ensures SplitNetloc("//" + netloc + rest) == (Some(netloc), rest)
  {
    var s := "//" + netloc + rest;
    assert s[2..] == netloc + rest;
    SpanUnique(s[2..], {'/', '?', '#'}, |netloc|);
    assert s[2..2 + |netloc|] == netloc;
    assert s[2 + |netloc|..] == rest;
  }

  /** A valid scheme followed by `:` is taken as the scheme. */
  lemma SplitSchemeJoin(scheme: string, rest: string)
    requires ValidScheme(scheme)
    ensures SplitScheme(scheme + ":" + rest) == (Some(scheme), rest)
  {
    var u := scheme + ":" + rest;
    assert u[..|scheme|] == scheme;
    assert u[|scheme| + 1..] == rest;
  }

  /** The reverse round trip: splitting the text of canonical pieces gives
      the pieces back. */
  lemma JoinSplit(p: UrlParts)
    requires Canonical(p)
    ensures Split(Join(p)) == p
  {
    var q := (p.path + (if p.query.Some? then "?" + p.query.value else ""))
             + (if p.fragment.Some? then "#" + p.fragment.value else "");
    var rest := "//" + p.netloc.value + q;
    assert Join(p) == p.scheme.value + ":" + rest by {
      assert p.path + "" == p.path;
    }
    SplitSchemeJoin(p.scheme.value, rest);
    assert q == "" || q[0] in {'/', '?', '#'} by {
      if p.path != "" {
        assert q[0] == p.path[0];
      }
    }
    SplitNetlocJoin(p.netloc.value, q);
    SplitPathJoin(p.scheme.value, p.path, p.query, p.fragment);
  }

  /** The cleaned URL of canonical pieces is the lower-cased scheme, `://`,
      the network location and the path less one trailing `/`, whatever
      the query and fragment. */
  lemma CleanJoin(p: UrlParts)
    requires Canonical(p)
    ensures CleanUrl(Join(p)) == Lower(p.scheme.value) + "://" + p.netloc.value + DropTrailingSlash(p.path)
  {
    JoinSplit(p);
  }

  /** Query and fragment make no difference to the cleaned URL. */
  lemma CleanIgnoresQueryAndFragment(p: UrlParts, query: Option<string>, fragment: Option<string>)
    requires Canonical(p)
    requires query.Some? ==> '#' !in query.value
    ensures CleanUrl(Join(p.(query := query, fragment := fragment))) == CleanUrl(Join(p))
  {
    CleanJoin(p);
    CleanJoin(p.(query := query, fragment := fragment));
  }

  /** Dropping one trailing `/` twice differs from dropping it once
      exactly when the path ends in `//`. */
  lemma DropTwice(path: string)
    ensures DropTrailingSlash(DropTrailingSlash(path)) == DropTrailingSlash(path)
            <==> !EndsWith(path, "//")
  {
    var d := DropTrailingSlash(path);
    if EndsWith(path, "//") {
      assert EndsWith(d, "/") by {
        assert d[|d| - 1] == path[|path| - 2];
      }
    } else if EndsWith(path, "/") {
      assert d + "/" == path;
      assert !EndsWith(d, "/") by {
        assert |d| > 0 ==> path[|path| - 2..] == [d[|d| - 1], '/'];
      }
    }
  }

  /** The pieces of a cleaned URL: the path less one trailing `/`, no query,
      no fragment. */
  function Cleaned(p: UrlParts): (c: UrlParts)
    requires Canonical(p)
    ensures Canonical(c)
    ensures c.scheme == p.scheme && c.netloc == p.netloc && c.query.None? && c.fragment.None?
    ensures c.path == DropTrailingSlash(p.path)
  {
    var d := DropTrailingSlash(p.path);
    assert forall k :: 0 <= k < |d| ==> d[k] == p.path[k];
    assert d != "" ==> d[0] == p.path[0];
    p.(path := d, query := None, fragment := None)
  }

  /** With a lower-case scheme, the cleaned URL is the text of the cleaned
      pieces. */
  lemma CleanIsJoinOfCleaned(p: UrlParts)
    requires Canonical(p)
    requires Lower(p.scheme.value) == p.scheme.value
    ensures CleanUrl(Join(p)) == Join(Cleaned(p))
  {
    var c := Cleaned(p);
    var s, n, d := p.scheme.value, p.netloc.value, c.path;
    CleanJoin(p);
    assert CleanUrl(Join(p)) == s + "://" + n + d;
    assert Join(c) == s + ":" + ("//" + n + (((d + "") + "") + ""));
    assert ((d + "") + "") + "" == d;
    Regroup(s, n, d);
  }

  lemma Regroup(s: string, n: string, d: string)
    ensures s + ":" + ("//" + n + d) == s + "://" + n + d
  {
    assert ":" + "//" == "://";
    assert s + ":" + ("//" + n + d) == s + (":" + "//") + n + d;
  }

  /** Cleaning a cleaned URL changes it again exactly when the path ended
      in `//`: only one trailing `/` goes per cleaning. */
  /** How `https://x.com` followed by a path without `?` or `#` splits. */
  lemma SplitSample(path: string)
    requires |path| > 0 && path[0] == '/' && '?' !in path && '#' !in path
    ensures Split("https://x.com" + path)
            == UrlParts(Some("https"), Some("x.com"), SplitParams("https", path).0, SplitParams("https", path).1, None, None)
  {
    var u := "https://x.com" + path;
    assert u[..5] == "https" && u[5] == ':';
    assert ValidScheme("https");
    assert SchemeLength(u) == Some(5);
    assert u[6..] == "//x.com" + path;
    var rest := u[6..];
    SpanUnique(rest[2..], {'/', '?', '#'}, 5);
    assert rest[2..7] == "x.com" && rest[7..] == path;
    assert SplitNetloc(rest) == (Some("x.com"), path);
    CutAbsent(path, '#');
    CutAbsent(path, '?');
  }

  /** Cleaning a URL whose pieces are known. */
  lemma CleanOfParts(u: string, scheme: string, netloc: string, path: string, params: Option<string>)
    requires Split(u) == UrlParts(Some(scheme), Some(netloc), path, params, None, None)
    requires Lower(scheme) == scheme
    ensures CleanUrl(u) == (scheme + "://" + netloc) + DropTrailingSlash(path)
  {
  }

  /** A path segment with no delimiter that `urlparse` looks for. */
  predicate PlainSegment(a: string) {
    forall i | 0 <= i < |a| :: a[i] != '/' && a[i] != ';' && a[i] != '?' && a[i] != '#'
  }

  /** In `/a;b/` the `;` is not in the last segment. */
  lemma ParamsBeforeSlash(a: string, b: string)
    requires PlainSegment(a) && PlainSegment(b)
    ensures SplitParams("https", "/" + a + ";" + b + "/") == ("/" + a + ";" + b + "/", None)
  {
    var p := "/" + a + ";" + b + "/";
    var n := |p| - 1;
    assert LastIndex(p, '/') == Some(n);
    assert p[n..] == "/";
    SpanUnique(p[n..], {';'}, 1);
    assert ParamsStart(p) == None;
  }

  /** In `/a;b` the only `/` is the first character. */
  lemma SlashOnlyFirst(a: string, b: string)
    requires PlainSegment(a) && PlainSegment(b)
    ensures LastIndex("/" + a + ";" + b, '/') == Some(0)
  {
    var p := "/" + a + ";" + b;
    var k := |a| + 1;
    forall i | 0 < i < |p| ensures p[i] != '/' {
      if i < k { assert p[i] == a[i - 1]; }
      else if i > k { assert p[i] == b[i - k - 1]; }
    }
  }

  /** In `/a;b` the first `;` follows `/a`. */
  lemma SemicolonAfterFirst(a: string, b: string)
    requires PlainSegment(a)
    ensures Span("/" + a + ";" + b, {';'}) == |a| + 1
  {
    var p := "/" + a + ";" + b;
    var k := |a| + 1;
    forall i | 0 < i < k ensures p[i] != ';' {
      assert p[i] == a[i - 1];
    }
    SpanUnique(p, {';'}, k);
  }

  /** In `/a;b` it is, and starts params. */
  lemma ParamsInLastSegment(a: string, b: string)
    requires PlainSegment(a) && PlainSegment(b)
    ensures SplitParams("https", "/" + a + ";" + b) == ("/" + a, Some(b))
  {
    var p := "/" + a + ";" + b;
    var k := |a| + 1;
    LowerHttps();
    assert "https" in UsesParams;
    assert p[k] == ';';
    SlashOnlyFirst(a, b);
    SemicolonAfterFirst(a, b);
    assert p[0..] == p;
    assert ParamsStart(p) == Some(k);
    assert p[..k] == "/" + a && p[k + 1..] == b;
  }

  lemma LowerHttps()
    ensures Lower("https") == "https"
    ensures "https" + "://" + "x.com" == "https://x.com"
  {
  }

  /** A path `/a` with no `/` in `a` has no trailing slash to drop. */
  lemma NoTrailingSlash(a: string)
    requires |a| > 0 && PlainSegment(a)
    ensures DropTrailingSlash("/" + a) == "/" + a
  {
    var p := "/" + a;
    assert p[|a|] == a[|a| - 1];
  }

  /** Cleaning `https://x.com` + path, for a path with a trailing `/`
      and no params. */
  lemma CleanKeepsSemicolon(a: string, b: string)
    requires PlainSegment(a) && PlainSegment(b)
    ensures CleanUrl("https://x.com" + ("/" + a + ";" + b + "/")) == "https://x.com" + ("/" + a + ";" + b)
  {
    var p1 := "/" + a + ";" + b + "/";
    assert p1[0] == '/';
    assert '?' !in p1 && '#' !in p1 by {
      forall i | 0 <= i < |p1| ensures p1[i] != '?' && p1[i] != '#' {
        if 0 < i <= |a| { assert p1[i] == a[i - 1]; }
        else if |a| + 1 < i < |p1| - 1 { assert p1[i] == b[i - |a| - 2]; }
      }
    }
    ParamsBeforeSlash(a, b);
    SplitSample(p1);
    LowerHttps();
    CleanOfParts("https://x.com" + p1, "https", "x.com", p1, None);
    assert EndsWith(p1, "/") && p1[..|p1| - 1] == "/" + a + ";" + b;
  }

  /** Cleaning `https://x.com/a;b` drops `;b` as params. */
  lemma CleanDropsParams(a: string, b: string)
    requires |a| > 0 && PlainSegment(a) && PlainSegment(b)
    ensures CleanUrl("https://x.com" + ("/" + a + ";" + b)) == "https://x.com" + ("/" + a)
  {
    var p2 := "/" + a + ";" + b;
    assert p2[0] == '/';
    assert '?' !in p2 && '#' !in p2 by {
      forall i | 0 <= i < |p2| ensures p2[i] != '?' && p2[i] != '#' {
        if 0 < i <= |a| { assert p2[i] == a[i - 1]; }
        else if |a| + 1 < i { assert p2[i] == b[i - |a| - 2]; }
      }
    }
    ParamsInLastSegment(a, b);
    SplitSample(p2);
    LowerHttps();
    CleanOfParts("https://x.com" + p2, "https", "x.com", "/" + a, Some(b));
    NoTrailingSlash(a);
  }

  /** A `;` in the last path segment is a second way re-cleaning changes
      the URL: once the trailing `/` is gone, the `;` starts params. So
      `https://x.com/a;b/` cleans to `https://x.com/a;b`, and that to
      `https://x.com/a`. */
  lemma CleanExposesParams(a: string, b: string)
    requires |a| > 0 && PlainSegment(a) && PlainSegment(b)
    ensures CleanUrl("https://x.com" + ("/" + a + ";" + b + "/")) == "https://x.com" + ("/" + a + ";" + b)
    ensures CleanUrl("https://x.com" + ("/" + a + ";" + b)) == "https://x.com" + ("/" + a)
  {
    CleanKeepsSemicolon(a, b);
    CleanDropsParams(a, b);
  }

  lemma CleanTwice(p: UrlParts)
    requires Canonical(p)
    requires Lower(p.scheme.value) == p.scheme.value
    ensures CleanUrl(CleanUrl(Join(p))) == CleanUrl(Join(p)) <==> !EndsWith(p.path, "//")
  {
    var c := Cleaned(p);
    CleanIsJoinOfCleaned(p);
    CleanJoin(c);
    CleanJoin(p);
    var h := Lower(p.scheme.value) + "://" + p.netloc.value;
    var d := DropTrailingSlash(p.path);
    var e := DropTrailingSlash(d);
    assert h + e == h + d <==> e == d by {
      if h + e == h + d {
        assert e == (h + e)[|h|..];
      }
    }
    DropTwice(p.path);
  }
}
