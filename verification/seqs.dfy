/** Sequence combinators: the `filter`, `flatMap` and "push unless already
    included" idioms the application uses on arrays. Every fold here walks its
    input front to back, as `forEach` does, by peeling off the last element. */
module Seqs {
  import opened Wrappers

  predicate NoDup<T(==)>(xs: seq<T>) {
    forall i, j :: 0 <= i < j < |xs| ==> xs[i] != xs[j]
  }

  /** `xs.filter(p)`. */
  function Filter<T>(xs: seq<T>, p: T -> bool): (r: seq<T>)
    ensures |r| <= |xs|
    ensures forall i :: 0 <= i < |r| ==> p(r[i]) && r[i] in xs
    decreases |xs|
  {
    if |xs| == 0 then []
    else Filter(xs[..|xs| - 1], p) + (if p(xs[|xs| - 1]) then [xs[|xs| - 1]] else [])
  }

  /** The filter keeps exactly the elements satisfying the predicate. */
  lemma {:induction false} FilterMembers<T>(xs: seq<T>, p: T -> bool)
    ensures forall x :: x in Filter(xs, p) <==> x in xs && p(x)
    decreases |xs|
  {
    if |xs| > 0 {
      FilterMembers(xs[..|xs| - 1], p);
      assert xs == xs[..|xs| - 1] + [xs[|xs| - 1]];
    }
  }

  /** A filter that every element passes changes nothing. */
  lemma {:induction false} FilterAll<T>(xs: seq<T>, p: T -> bool)
    requires forall k :: 0 <= k < |xs| ==> p(xs[k])
    ensures Filter(xs, p) == xs
    decreases |xs|
  {
    if |xs| > 0 {
      FilterAll(xs[..|xs| - 1], p);
      assert xs == xs[..|xs| - 1] + [xs[|xs| - 1]];
    }
  }

  /** A filter that no element passes leaves nothing. */
  lemma {:induction false} FilterNone<T>(xs: seq<T>, p: T -> bool)
    requires forall k :: 0 <= k < |xs| ==> !p(xs[k])
    ensures Filter(xs, p) == []
    decreases |xs|
  {
    if |xs| > 0 {
      FilterNone(xs[..|xs| - 1], p);
    }
  }

  /** Filtering an element and the rest: the element's verdict first. */
  lemma {:induction false} FilterCons<T>(x: T, xs: seq<T>, p: T -> bool)
    ensures Filter([x] + xs, p) == (if p(x) then [x] else []) + Filter(xs, p)
    decreases |xs|
  {
    if |xs| > 0 {
      var n := |xs| - 1;
      FilterCons(x, xs[..n], p);
      assert ([x] + xs)[..|[x] + xs| - 1] == [x] + xs[..n];
    }
  }

  lemma FilterSnoc<T>(xs: seq<T>, x: T, p: T -> bool)
    ensures Filter(xs + [x], p) == Filter(xs, p) + (if p(x) then [x] else [])
  {
    assert (xs + [x])[..|xs|] == xs;
  }

  /** `xs.map(f)`. */
  function Map<T, U>(xs: seq<T>, f: T -> U): (r: seq<U>)
    ensures |r| == |xs|
    ensures forall k :: 0 <= k < |xs| ==> r[k] == f(xs[k])
  {
    seq(|xs|, k requires 0 <= k < |xs| => f(xs[k]))
  }

  /** `xs.map(f)` with an `f` that may throw (None): the results in order,
      or None as soon as one call throws. */
  function MapAll<T, U>(xs: seq<T>, f: T -> Option<U>): (r: Option<seq<U>>)
    ensures r.Some? <==> forall k :: 0 <= k < |xs| ==> f(xs[k]).Some?
    ensures r.Some? ==> |r.value| == |xs| && forall k :: 0 <= k < |xs| ==> r.value[k] == f(xs[k]).value
    decreases |xs|
  {
    if |xs| == 0 then Some([])
    else
      var n := |xs| - 1;
      match MapAll(xs[..n], f)
      case None => None
      case Some(init) =>
        match f(xs[n])
        case None => None
        case Some(y) => Some(init + [y])
  }

  /** `xs.flatMap(f)`. */
  function FlatMap<T, U>(xs: seq<T>, f: T -> seq<U>): seq<U>
    decreases |xs|
  {
    if |xs| == 0 then [] else FlatMap(xs[..|xs| - 1], f) + f(xs[|xs| - 1])
  }

  lemma FlatMapSnoc<T, U>(xs: seq<T>, x: T, f: T -> seq<U>)
    ensures FlatMap(xs + [x], f) == FlatMap(xs, f) + f(x)
  {
    assert (xs + [x])[..|xs|] == xs;
  }

  /** A flat-mapped sequence is the image of any one element between the
      images of the elements before and after it. */
  lemma {:induction false} FlatMapSplit<T, U>(xs: seq<T>, f: T -> seq<U>, k: int)
    requires 0 <= k < |xs|
    ensures FlatMap(xs, f) == FlatMap(xs[..k], f) + f(xs[k]) + FlatMap(xs[k + 1..], f)
    decreases |xs|
  {
    var n := |xs|;
    if k == n - 1 {
      assert xs[..k] == xs[..n - 1];
      assert xs[k + 1..] == [];
    } else {
      FlatMapSplit(xs[..n - 1], f, k);
      assert xs[..n - 1][..k] == xs[..k];
      assert xs[..n - 1][k + 1..] == xs[k + 1..n - 1];
      assert xs[k + 1..] == xs[k + 1..n - 1] + [xs[n - 1]];
      FlatMapSnoc(xs[k + 1..n - 1], xs[n - 1], f);
    }
  }

  /** Every element of a flat-mapped sequence comes from the image of some input. */
  lemma {:induction false} FlatMapMember<T, U>(xs: seq<T>, f: T -> seq<U>, u: U)
    requires u in FlatMap(xs, f)
    ensures exists i :: 0 <= i < |xs| && u in f(xs[i])
    decreases |xs|
  {
    var n := |xs|;
    if u in f(xs[n - 1]) {
    } else {
      FlatMapMember(xs[..n - 1], f, u);
      var i :| 0 <= i < n - 1 && u in f(xs[..n - 1][i]);
      assert xs[..n - 1][i] == xs[i];
    }
  }

  /** `if (!xs.includes(x)) xs.push(x)`. */
  function AddIfAbsent<T(==)>(xs: seq<T>, x: T): seq<T> {
    if x in xs then xs else xs + [x]
  }

  /** Pushing every element of `ys`, in order, unless it is already present. */
  function AddAll<T(==)>(xs: seq<T>, ys: seq<T>): seq<T>
    decreases |ys|
  {
    if |ys| == 0 then xs else AddIfAbsent(AddAll(xs, ys[..|ys| - 1]), ys[|ys| - 1])
  }

  /** The first occurrences in `ys` of the values not in `seen`, in the order
      they first occur: position k of `ys` is kept exactly when `ys[k]` is not
      in `seen` and not in `ys[..k]`. */
  function Fresh<T(==)>(seen: seq<T>, ys: seq<T>): seq<T>
    decreases |ys|
  {
    if |ys| == 0 then []
    else
      var init := ys[..|ys| - 1];
      var y := ys[|ys| - 1];
      Fresh(seen, init) + (if y !in seen && y !in init then [y] else [])
  }

  lemma {:induction false} FreshMembers<T>(seen: seq<T>, ys: seq<T>)
    ensures forall y :: y in Fresh(seen, ys) <==> y in ys && y !in seen
    ensures NoDup(Fresh(seen, ys))
    decreases |ys|
  {
    if |ys| > 0 {
      var init := ys[..|ys| - 1];
      FreshMembers(seen, init);
      assert ys == init + [ys[|ys| - 1]];
    }
  }

  /** The fold keeps what was there and appends exactly the fresh first
      occurrences, in first-seen order. */
  lemma {:induction false} AddAllIsFresh<T>(xs: seq<T>, ys: seq<T>)
    ensures AddAll(xs, ys) == xs + Fresh(xs, ys)
    decreases |ys|
  {
    if |ys| > 0 {
      var init := ys[..|ys| - 1];
      AddAllIsFresh(xs, init);
      FreshMembers(xs, init);
    }
  }

  /** Pushing-unless-present never creates a duplicate and loses nothing. */
  lemma AddAllNoDup<T>(xs: seq<T>, ys: seq<T>)
    requires NoDup(xs)
    ensures NoDup(AddAll(xs, ys))
    ensures forall y :: y in AddAll(xs, ys) <==> y in xs || y in ys
  {
    AddAllIsFresh(xs, ys);
    FreshMembers(xs, ys);
    var r := AddAll(xs, ys);
    var f := Fresh(xs, ys);
    forall i, j | 0 <= i < j < |r|
      ensures r[i] != r[j]
    {
      if j < |xs| {
      } else if i < |xs| {
        assert r[j] in f;
      } else {
        assert r[i] == f[i - |xs|] && r[j] == f[j - |xs|];
      }
    }
  }

  lemma {:induction false} AddAllAppend<T>(xs: seq<T>, a: seq<T>, b: seq<T>)
    ensures AddAll(xs, a + b) == AddAll(AddAll(xs, a), b)
    decreases |b|
  {
    if |b| == 0 {
      assert a + b == a;
    } else {
      var init := b[..|b| - 1];
      AddAllAppend(xs, a, init);
      assert (a + b)[..|a + b| - 1] == a + init;
    }
  }

  /** How many elements satisfy `p`. */
  function Count<T>(xs: seq<T>, p: T -> bool): nat {
    |Filter(xs, p)|
  }

  /** `xs.reduce((sum, x) => sum + f(x), 0)`. */
  function Sum<T>(xs: seq<T>, f: T -> nat): nat
    decreases |xs|
  {
    if |xs| == 0 then 0 else Sum(xs[..|xs| - 1], f) + f(xs[|xs| - 1])
  }
}
