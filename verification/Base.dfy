/** Shared vocabulary: optional values, whole-second time stamps, and sequences
    filtered and mapped in one pass. */
module Base {

  datatype Option<+T> = None | Some(value: T)

  /** The whole second of a time given in nanoseconds. Rounds towards minus
      infinity, as `time.Time.Unix` does. */
  function Unix(t: int): (s: int)
    ensures 1_000_000_000 * s <= t < 1_000_000_000 * (s + 1)
  {
    t / 1_000_000_000
  }

  lemma UnixMonotone(t: int, u: int)
    requires t <= u
    ensures Unix(t) <= Unix(u)
  {}

  /** Go's conversion from a floating-point number to an integer. */
  function Truncate(x: real): int {
    if x >= 0.0 then x.Floor else -(-x).Floor
  }

  function Last<T>(xs: seq<T>): T
    requires |xs| > 0
  {
    xs[|xs| - 1]
  }

  function Front<T>(xs: seq<T>): seq<T>
    requires |xs| > 0
  {
    xs[..|xs| - 1]
  }

  ghost predicate Distinct<T>(xs: seq<T>) {
    forall i, j :: 0 <= i < j < |xs| ==> xs[i] != xs[j]
  }

  function ToSeq<T>(o: Option<T>): seq<T> {
    match o
    case None => []
    case Some(x) => [x]
  }

  /** The results of `f` on `xs`, in order, leaving out the elements `f` drops. */
  function FilterMap<T, U>(xs: seq<T>, f: T -> Option<U>): seq<U> {
    if |xs| == 0 then [] else FilterMap(Front(xs), f) + ToSeq(f(Last(xs)))
  }

  function Then<T, U, V>(f: T -> Option<U>, g: U -> Option<V>): T -> Option<V> {
    x => match f(x) case None => None case Some(y) => g(y)
  }

  lemma FilterMapSnoc<T, U>(xs: seq<T>, x: T, f: T -> Option<U>)
    ensures FilterMap(xs + [x], f) == FilterMap(xs, f) + ToSeq(f(x))
  {
    assert Front(xs + [x]) == xs;
  }

  lemma {:induction false} FilterMapConcat<T, U>(xs: seq<T>, ys: seq<T>, f: T -> Option<U>)
    ensures FilterMap(xs + ys, f) == FilterMap(xs, f) + FilterMap(ys, f)
  {
    if |ys| == 0 {
      assert xs + ys == xs;
    } else {
      assert Front(xs + ys) == xs + Front(ys);
      FilterMapConcat(xs, Front(ys), f);
    }
  }

  /** Two passes are one pass with the composed function. */
  lemma {:induction false} FilterMapThen<T, U, V>(xs: seq<T>, f: T -> Option<U>, g: U -> Option<V>)
    ensures FilterMap(FilterMap(xs, f), g) == FilterMap(xs, Then(f, g))
  {
    if |xs| > 0 {
      FilterMapThen(Front(xs), f, g);
      if f(Last(xs)).Some? {
        FilterMapSnoc(FilterMap(Front(xs), f), f(Last(xs)).value, g);
      } else {
        assert FilterMap(xs, f) == FilterMap(Front(xs), f);
      }
    }
  }

  lemma {:induction false} FilterMapSame<T, U>(xs: seq<T>, f: T -> Option<U>, g: T -> Option<U>)
    requires forall x :: x in xs ==> f(x) == g(x)
    ensures FilterMap(xs, f) == FilterMap(xs, g)
  {
    if |xs| > 0 {
      FilterMapSame(Front(xs), f, g);
    }
  }

  lemma {:induction false} FilterMapMember<T, U>(xs: seq<T>, f: T -> Option<U>, y: U)
    ensures y in FilterMap(xs, f) <==> exists x :: x in xs && f(x) == Some(y)
  {
    if |xs| > 0 {
      FilterMapMember(Front(xs), f, y);
      assert xs == Front(xs) + [Last(xs)];
    }
  }

  lemma {:induction false} FilterMapNothing<T, U>(xs: seq<T>, f: T -> Option<U>)
    requires forall x :: x in xs ==> f(x).None?
    ensures FilterMap(xs, f) == []
  {
    if |xs| > 0 {
      FilterMapNothing(Front(xs), f);
    }
  }

  /** The places whose element is kept. */
  ghost function Places<T, U>(xs: seq<T>, f: T -> Option<U>): (r: set<nat>)
    ensures forall i: nat :: i in r <==> i < |xs| && f(xs[i]).Some?
  {
    set i: nat | i < |xs| && f(xs[i]).Some?
  }

  /** As many results as there are such places. */
  lemma {:induction false} FilterMapLength<T, U>(xs: seq<T>, f: T -> Option<U>)
    ensures |FilterMap(xs, f)| == |Places(xs, f)|
  {
    var all := Places(xs, f);
    if |xs| == 0 {
      assert all == {};
    } else {
      var n := |xs| - 1;
      var before := Places(Front(xs), f);
      FilterMapLength(Front(xs), f);
      assert forall i: nat :: i < n ==> Front(xs)[i] == xs[i];
      assert all == if f(xs[n]).Some? then before + {n} else before;
    }
  }

  /** A pass that only drops keeps every count it keeps. */
  lemma {:induction false} FilterMapPermuted<T, U>(xs: seq<T>, ys: seq<T>, f: T -> Option<U>)
    requires multiset(xs) == multiset(ys)
    ensures multiset(FilterMap(xs, f)) == multiset(FilterMap(ys, f))
  {
    assert |xs| == |multiset(xs)| == |multiset(ys)| == |ys|;
    if |xs| > 0 {
      var x := Last(xs);
      assert xs == Front(xs) + [x];
      assert x in multiset(ys);
      var i :| 0 <= i < |ys| && ys[i] == x;
      var before, after := ys[..i], ys[i + 1..];
      assert ys == (before + [x]) + after;
      assert xs == Front(xs) + [x];
      assert multiset(before + after) == multiset(ys) - multiset{x};
      FilterMapPermuted(Front(xs), before + after, f);
      FilterMapConcat(before + [x], after, f);
      FilterMapSnoc(before, x, f);
      FilterMapConcat(before, after, f);
    }
  }

  // ---------------------------------------------------------------------
  // Sorting by a real key
  // ---------------------------------------------------------------------

  ghost predicate SortedBy<T>(xs: seq<T>, key: T -> real) {
    forall i, j :: 0 <= i < j < |xs| ==> key(xs[i]) <= key(xs[j])
  }

  /** Puts `x` after everything in `xs` whose key is no larger. */
  function InsertBy<T>(xs: seq<T>, x: T, key: T -> real): seq<T> {
    if |xs| == 0 || key(Last(xs)) <= key(x) then xs + [x]
    else InsertBy(Front(xs), x, key) + [Last(xs)]
  }

  /** A stable sort, smallest key first. */
  function SortBy<T>(xs: seq<T>, key: T -> real): seq<T> {
    if |xs| == 0 then [] else InsertBy(SortBy(Front(xs), key), Last(xs), key)
  }

  function WithKey<T>(key: T -> real, k: real): T -> Option<T> {
    x => if key(x) == k then Some(x) else None
  }

  lemma {:induction false} InsertByPermutes<T>(xs: seq<T>, x: T, key: T -> real)
    ensures multiset(InsertBy(xs, x, key)) == multiset(xs) + multiset{x}
  {
    if |xs| > 0 && key(Last(xs)) > key(x) {
      InsertByPermutes(Front(xs), x, key);
      assert xs == Front(xs) + [Last(xs)];
    }
  }

  lemma SortedBySnoc<T>(xs: seq<T>, x: T, key: T -> real)
    requires SortedBy(xs, key)
    requires forall y :: y in multiset(xs) ==> key(y) <= key(x)
    ensures SortedBy(xs + [x], key)
  {
    forall i | 0 <= i < |xs|
      ensures key(xs[i]) <= key(x)
    {
      assert xs[i] in multiset(xs);
    }
  }

  lemma {:induction false} InsertByOrders<T>(xs: seq<T>, x: T, key: T -> real)
    requires SortedBy(xs, key)
    ensures SortedBy(InsertBy(xs, x, key), key)
  {
    if |xs| == 0 || key(Last(xs)) <= key(x) {
      SortedBySnoc(xs, x, key);
    } else {
      InsertByOrders(Front(xs), x, key);
      InsertByPermutes(Front(xs), x, key);
      SortedBySnoc(InsertBy(Front(xs), x, key), Last(xs), key);
    }
  }

  lemma {:induction false} InsertByIsStable<T>(xs: seq<T>, x: T, key: T -> real, k: real)
    ensures FilterMap(InsertBy(xs, x, key), WithKey(key, k)) == FilterMap(xs, WithKey(key, k)) + ToSeq(WithKey(key, k)(x))
  {
    var f := WithKey(key, k);
    if |xs| == 0 || key(Last(xs)) <= key(x) {
      FilterMapSnoc(xs, x, f);
    } else {
      var zs := InsertBy(Front(xs), x, key);
      InsertByIsStable(Front(xs), x, key, k);
      FilterMapSnoc(zs, Last(xs), f);
      assert ToSeq(f(x)) == [] || ToSeq(f(Last(xs))) == [];
    }
  }

  lemma {:induction false} SortByPermutes<T>(xs: seq<T>, key: T -> real)
    ensures multiset(SortBy(xs, key)) == multiset(xs)
  {
    if |xs| > 0 {
      SortByPermutes(Front(xs), key);
      InsertByPermutes(SortBy(Front(xs), key), Last(xs), key);
      assert xs == Front(xs) + [Last(xs)];
    }
  }

  lemma {:induction false} SortByOrders<T>(xs: seq<T>, key: T -> real)
    ensures SortedBy(SortBy(xs, key), key)
  {
    if |xs| > 0 {
      SortByOrders(Front(xs), key);
      InsertByOrders(SortBy(Front(xs), key), Last(xs), key);
    }
  }

  /** Elements with equal keys stay in the order they came in. */
  lemma {:induction false} SortByIsStable<T>(xs: seq<T>, key: T -> real, k: real)
    ensures FilterMap(SortBy(xs, key), WithKey(key, k)) == FilterMap(xs, WithKey(key, k))
  {
    if |xs| > 0 {
      SortByIsStable(Front(xs), key, k);
      InsertByIsStable(SortBy(Front(xs), key), Last(xs), key, k);
    }
  }

  lemma OccursTwice<T>(xs: seq<T>, i: nat, j: nat)
    requires i < j < |xs| && xs[i] == xs[j]
    ensures multiset(xs)[xs[i]] >= 2
  {
    assert xs == (xs[..i] + [xs[i]]) + (xs[i + 1..j] + ([xs[j]] + xs[j + 1..]));
  }

  lemma {:induction false} OccursOnce<T>(xs: seq<T>, x: T)
    requires Distinct(xs)
    ensures multiset(xs)[x] <= 1
  {
    if |xs| > 0 {
      assert xs == Front(xs) + [Last(xs)];
      OccursOnce(Front(xs), x);
      if x == Last(xs) {
        assert x !in Front(xs);
      }
    }
  }

  lemma DistinctPermuted<T>(xs: seq<T>, ys: seq<T>)
    requires Distinct(xs) && multiset(xs) == multiset(ys)
    ensures Distinct(ys)
    ensures forall x :: x in xs ==> x in ys
    ensures forall x :: x in ys ==> x in xs
  {
    assert forall x :: x in xs ==> x in multiset(xs);
    assert forall y :: y in ys ==> y in multiset(ys);
    forall i, j | 0 <= i < j < |ys|
      ensures ys[i] != ys[j]
    {
      if ys[i] == ys[j] {
        OccursTwice(ys, i, j);
        OccursOnce(xs, ys[i]);
        assert false;
      }
    }
  }
}
