/** Byte-wise string order and sorting, as `sort.Strings` gives them. */
module Strings {
  import opened Base

  predicate Less(a: string, b: string) {
    if b == "" then false
    else if a == "" then true
    else a[0] < b[0] || (a[0] == b[0] && Less(a[1..], b[1..]))
  }

  lemma {:induction false} LessIsTotal(a: string, b: string)
    ensures Less(a, b) || Less(b, a) || a == b
    ensures !(Less(a, b) && Less(b, a))
    ensures !Less(a, a)
  {
    if a != "" && b != "" {
      LessIsTotal(a[1..], b[1..]);
      LessIsTotal(a[1..], a[1..]);
      assert a == [a[0]] + a[1..] && b == [b[0]] + b[1..];
    } else if a != "" {
      LessIsTotal(a[1..], a[1..]);
    }
  }

  lemma {:induction false} LessIsTransitive(a: string, b: string, c: string)
    requires Less(a, b) && Less(b, c)
    ensures Less(a, c)
  {
    if a != "" && a[0] == b[0] && b[0] == c[0] {
      LessIsTransitive(a[1..], b[1..], c[1..]);
    }
  }

  /** A string comes before another exactly when it is a proper beginning of it, or has
      the smaller character where they first differ. */
  lemma {:induction false} LessIsLexicographic(a: string, b: string)
    ensures Less(a, b) <==>
              || (a <= b && a != b)
              || exists n: nat :: n < |a| && n < |b| && a[..n] == b[..n] && a[n] < b[n]
  {
    if a != "" && b != "" {
      LessIsLexicographic(a[1..], b[1..]);
      assert a == [a[0]] + a[1..] && b == [b[0]] + b[1..];
      if a[0] < b[0] {
        assert a[..0] == b[..0];
      }
      if n: nat :| n < |a| && n < |b| && a[..n] == b[..n] && a[n] < b[n] {
        if n > 0 {
          assert a[..n][0] == b[..n][0];
          assert a[1..][..n - 1] == a[..n][1..] && b[1..][..n - 1] == b[..n][1..];
          assert a[1..][n - 1] < b[1..][n - 1];
        }
      }
      if a[0] == b[0] {
        if n: nat :| n < |a[1..]| && n < |b[1..]| && a[1..][..n] == b[1..][..n] && a[1..][n] < b[1..][n] {
          assert a[..n + 1] == [a[0]] + a[1..][..n] && b[..n + 1] == [b[0]] + b[1..][..n];
          assert a[n + 1] < b[n + 1];
        }
      }
    }
  }

  /** Strictly increasing, so free of repetition. */
  ghost predicate Increasing(xs: seq<string>) {
    forall i, j :: 0 <= i < j < |xs| ==> Less(xs[i], xs[j])
  }

  function Insert(x: string, xs: seq<string>): seq<string> {
    if xs == [] then [x]
    else if Less(x, xs[0]) then [x] + xs
    else [xs[0]] + Insert(x, xs[1..])
  }

  lemma {:induction false} InsertKeeps(x: string, xs: seq<string>)
    requires Increasing(xs) && x !in xs
    ensures Increasing(Insert(x, xs))
    ensures forall y :: y in Insert(x, xs) <==> y == x || y in xs
  {
    if xs != [] {
      LessIsTotal(x, xs[0]);
      assert xs == [xs[0]] + xs[1..];
      if Less(x, xs[0]) {
        forall j | 0 <= j < |xs|
          ensures Less(x, xs[j])
        {
          if j > 0 { LessIsTransitive(x, xs[0], xs[j]); }
        }
      } else {
        InsertKeeps(x, xs[1..]);
        var rest := Insert(x, xs[1..]);
        forall j | 0 <= j < |rest|
          ensures Less(xs[0], rest[j])
        {
          assert rest[j] in rest;
        }
      }
    }
  }

  /** A set has only one increasing enumeration. */
  lemma {:induction false} IncreasingIsUnique(xs: seq<string>, ys: seq<string>)
    requires Increasing(xs) && Increasing(ys)
    requires forall s :: s in xs <==> s in ys
    ensures xs == ys
  {
    assert |xs| > 0 ==> xs[0] in ys;
    assert |ys| > 0 ==> ys[0] in xs;
    if xs != [] {
      var x, y := xs[0], ys[0];
      assert x in ys && y in xs;
      LessIsTotal(x, y);
      assert xs == [x] + xs[1..] && ys == [y] + ys[1..];
      forall s | s in xs[1..]
        ensures s in ys[1..]
      {
        LessIsTotal(x, s);
        assert s in ys;
      }
      forall s | s in ys[1..]
        ensures s in xs[1..]
      {
        LessIsTotal(y, s);
        assert s in xs;
      }
      IncreasingIsUnique(xs[1..], ys[1..]);
    }
  }

  ghost function Sorted(s: set<string>): (xs: seq<string>)
    ensures Increasing(xs)
    ensures forall x :: x in xs <==> x in s
  {
    if s == {} then []
    else
      var x :| x in s;
      InsertKeeps(x, Sorted(s - {x}));
      Insert(x, Sorted(s - {x}))
  }

  method Sort(xs: seq<string>) returns (ys: seq<string>)
    requires Distinct(xs)
    ensures ys == Sorted(set x | x in xs)
  {
    ys := [];
    for i := 0 to |xs|
      invariant Increasing(ys)
      invariant forall y :: y in ys <==> y in xs[..i]
    {
      InsertKeeps(xs[i], ys);
      ys := Insert(xs[i], ys);
    }
    IncreasingIsUnique(ys, Sorted(set x | x in xs));
  }
}
