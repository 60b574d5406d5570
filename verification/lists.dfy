/** Sequence helpers for the loops of the metadata handlers: applying a
    step that may raise to every element in order (`MapResult`, `Collect`),
    concatenating in order (`Flatten`) and "the last one set wins"
    (`Latest`). Each is defined from the end of the sequence, the way a
    Python loop that appends and overwrites builds up its result. */
module Lists {
  import opened Wrappers

  /** Applies `f` to every element in order; the first failure aborts, as
      an exception raised inside a Python `for` loop does. */
  function MapResult<X, Y>(xs: seq<X>, f: X -> Result<Y, string>): (r: Result<seq<Y>, string>)
    ensures r.Success? <==> forall i | 0 <= i < |xs| :: f(xs[i]).Success?
    ensures r.Success? ==> |r.value| == |xs| && forall i | 0 <= i < |xs| :: f(xs[i]) == Success(r.value[i])
    ensures r.Failure? ==> exists i | 0 <= i < |xs| ::
              f(xs[i]) == Failure(r.error) && forall j | 0 <= j < i :: f(xs[j]).Success?
  {
    if |xs| == 0 then Success([])
    else
      var n := |xs| - 1;
      match MapResult(xs[..n], f)
      case Failure(e) =>
        assert forall i | 0 <= i < n :: xs[..n][i] == xs[i];
        Failure(e)
      case Success(a) =>
        assert forall i | 0 <= i < n :: xs[..n][i] == xs[i];
        match f(xs[n])
        case Failure(e) => Failure(e)
        case Success(b) => Success(a + [b])
  }

  /** The elements an optional step produced, in order. */
  function Somes<Y>(os: seq<Option<Y>>): (r: seq<Y>)
    ensures |r| <= |os|
  {
    if |os| == 0 then []
    else Somes(os[..|os| - 1]) + (if os[|os| - 1].Some? then [os[|os| - 1].value] else [])
  }

  /** Applies a step that yields at most one element to every element in
      order, keeping what it yields; the first failure aborts. */
  function Collect<X, Y>(xs: seq<X>, f: X -> Result<Option<Y>, string>): (r: Result<seq<Y>, string>)
    ensures r.Success? <==> forall i | 0 <= i < |xs| :: f(xs[i]).Success?
    ensures r.Failure? ==> exists i | 0 <= i < |xs| ::
              f(xs[i]) == Failure(r.error) && forall j | 0 <= j < i :: f(xs[j]).Success?
    ensures r.Success? ==> |r.value| <= |xs|
  {
    match MapResult(xs, f)
    case Failure(e) => Failure(e)
    case Success(os) => Success(Somes(os))
  }

  lemma {:induction false} SomesAppend<Y>(a: seq<Option<Y>>, b: seq<Option<Y>>)
    ensures Somes(a + b) == Somes(a) + Somes(b)
    decreases |b|
  {
    if |b| == 0 {
      assert a + b == a;
    } else {
      var n := |b| - 1;
      assert (a + b)[..|a + b| - 1] == a + b[..n];
      SomesAppend(a, b[..n]);
    }
  }

  lemma {:induction false} MapResultAppend<X, Y>(a: seq<X>, b: seq<X>, f: X -> Result<Y, string>)
    requires MapResult(a, f).Success? && MapResult(b, f).Success?
    ensures MapResult(a + b, f) == Success(MapResult(a, f).value + MapResult(b, f).value)
  {
    var ra := MapResult(a, f).value;
    var rb := MapResult(b, f).value;
    var r := MapResult(a + b, f);
    assert r.Success?;
    assert |r.value| == |ra + rb|;
    forall i | 0 <= i < |ra + rb|
      ensures r.value[i] == (ra + rb)[i]
    {
      assert f((a + b)[i]) == Success(r.value[i]);
      if i < |a| {
        assert (a + b)[i] == a[i];
        assert f(a[i]) == Success(ra[i]);
      } else {
        assert (a + b)[i] == b[i - |a|];
        assert f(b[i - |a|]) == Success(rb[i - |a|]);
      }
    }
    assert r.value == ra + rb;
  }

  /** Collecting over two parts yields what each part yields, in order:
      every element contributes in its own position. */
  lemma CollectAppend<X, Y>(a: seq<X>, b: seq<X>, f: X -> Result<Option<Y>, string>)
    requires Collect(a, f).Success? && Collect(b, f).Success?
    ensures Collect(a + b, f) == Success(Collect(a, f).value + Collect(b, f).value)
  {
    MapResultAppend(a, b, f);
    SomesAppend(MapResult(a, f).value, MapResult(b, f).value);
  }

  /** One element yields exactly what the step yields for it. */
  lemma CollectOne<X, Y>(x: X, f: X -> Result<Option<Y>, string>)
    requires f(x).Success?
    ensures Collect([x], f) == Success(if f(x).value.Some? then [f(x).value.value] else [])
  {
    var v := f(x).value;
    var m := MapResult([x], f);
    assert [x][0] == x;
    assert m.Success? && |m.value| == 1 && m.value[0] == v;
    assert m.value == [v];
    assert [v][..0] == [];
    assert Somes([v]) == Somes<Y>([]) + (if v.Some? then [v.value] else []);
    assert Collect([x], f) == Success(Somes(m.value));
    assert Somes([v]) == (if v.Some? then [v.value] else []);
    assert v == f(x).value;
  }

  /** Concatenation of the parts, in order. */
  function Flatten<T>(xss: seq<seq<T>>): (r: seq<T>)
  {
    if |xss| == 0 then [] else Flatten(xss[..|xss| - 1]) + xss[|xss| - 1]
  }

  lemma {:induction false} FlattenAppend<T>(a: seq<seq<T>>, b: seq<seq<T>>)
    ensures Flatten(a + b) == Flatten(a) + Flatten(b)
    decreases |b|
  {
    if |b| == 0 {
      assert a + b == a;
    } else {
      var n := |b| - 1;
      assert (a + b)[..|a + b| - 1] == a + b[..n];
      FlattenAppend(a, b[..n]);
    }
  }

  /** Empty parts concatenate to nothing. */
  lemma {:induction false} FlattenEmpty<T>(xss: seq<seq<T>>)
    requires forall i | 0 <= i < |xss| :: xss[i] == []
    ensures Flatten(xss) == []
  {
    if |xss| > 0 {
      FlattenEmpty(xss[..|xss| - 1]);
    }
  }

  /** Every element of a part is in the concatenation, after the parts
      before it. */
  lemma {:induction false} FlattenHolds<T>(xss: seq<seq<T>>, i: nat, k: nat)
    requires i < |xss| && k < |xss[i]|
    ensures |Flatten(xss[..i])| + k < |Flatten(xss)|
    ensures Flatten(xss)[|Flatten(xss[..i])| + k] == xss[i][k]
  {
    assert xss == xss[..i] + ([xss[i]] + xss[i + 1..]);
    FlattenAppend(xss[..i], [xss[i]] + xss[i + 1..]);
    FlattenAppend([xss[i]], xss[i + 1..]);
    assert [xss[i]][..0] == [];
  }

  /** The value left by a run of "overwrite when set" (see `LatestIsLast`). */
  function Latest<T>(init: Option<T>, vals: seq<Option<T>>): Option<T>
  {
    if |vals| == 0 then init
    else if vals[|vals| - 1].Some? then vals[|vals| - 1]
    else Latest(init, vals[..|vals| - 1])
  }

  /** `Latest` is the last value that is set, or `init` when none is. */
  lemma LatestIsLast<T>(init: Option<T>, vals: seq<Option<T>>)
    ensures (forall i | 0 <= i < |vals| :: vals[i].None?) ==> Latest(init, vals) == init
    ensures forall i | 0 <= i < |vals| ::
              vals[i].Some? && (forall j | i < j < |vals| :: vals[j].None?) ==> Latest(init, vals) == vals[i]
  {
    if forall i | 0 <= i < |vals| :: vals[i].None? {
      LatestUnset(init, vals);
    }
    forall i | 0 <= i < |vals| && vals[i].Some? && (forall j | i < j < |vals| :: vals[j].None?)
      ensures Latest(init, vals) == vals[i]
    {
      LatestAt(init, vals, i);
    }
  }

  /** A value set at `i` and never after is the latest. */
  lemma {:induction false} LatestAt<T>(init: Option<T>, vals: seq<Option<T>>, i: nat)
    requires i < |vals| && vals[i].Some?
    requires forall j | i < j < |vals| :: vals[j].None?
    ensures Latest(init, vals) == vals[i]
  {
    var n := |vals| - 1;
    if i < n {
      assert vals[..n][i] == vals[i];
      assert forall j | i < j < n :: vals[..n][j] == vals[j];
      LatestAt(init, vals[..n], i);
    }
  }

  /** Nothing set leaves the initial value. */
  lemma {:induction false} LatestUnset<T>(init: Option<T>, vals: seq<Option<T>>)
    requires forall i | 0 <= i < |vals| :: vals[i].None?
    ensures Latest(init, vals) == init
  {
    if |vals| > 0 {
      LatestUnset(init, vals[..|vals| - 1]);
    }
  }
}
