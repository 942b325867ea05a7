/** The presence table is the batch clustering of every vehicle's sightings
    (`internal/store/presence.go`). */
module Presence {
  import opened Base
  import opened Schema

  // ---------------------------------------------------------------------
  // Batch clustering
  // ---------------------------------------------------------------------

  /** Too long unseen between one sighting and the next. */
  predicate Gap(prev: int, next: int, stale: int) {
    Unix(prev) < Cutoff(next, stale)
  }

  ghost predicate Sorted(ts: seq<int>) {
    forall i, j :: 0 <= i < j < |ts| ==> ts[i] <= ts[j]
  }

  function Flatten(cs: seq<seq<int>>): seq<int> {
    if |cs| == 0 then [] else Flatten(Front(cs)) + Last(cs)
  }

  /** How many sightings belong to the stint that starts the sequence. */
  function Stretch(ts: seq<int>, stale: int): (n: nat)
    requires |ts| > 0
    ensures 1 <= n <= |ts|
  {
    if |ts| == 1 || Gap(ts[0], ts[1], stale) then 1 else 1 + Stretch(ts[1..], stale)
  }

  /** Splits a whole history wherever a gap is too long. */
  function Cluster(ts: seq<int>, stale: int): seq<seq<int>>
    decreases |ts|
  {
    if |ts| == 0 then []
    else var n := Stretch(ts, stale); [ts[..n]] + Cluster(ts[n..], stale)
  }

  /** No gap inside. */
  ghost predicate Unbroken(c: seq<int>, stale: int) {
    forall j :: 0 <= j < |c| - 1 ==> !Gap(c[j], c[j + 1], stale)
  }

  /** Runs with no gap inside and a gap between, covering the history in order. */
  ghost predicate IsClustering(cs: seq<seq<int>>, ts: seq<int>, stale: int) {
    && Flatten(cs) == ts
    && (forall i :: 0 <= i < |cs| ==> cs[i] != [])
    && (forall i :: 0 <= i < |cs| ==> Unbroken(cs[i], stale))
    && (forall i :: 0 <= i < |cs| - 1 && cs[i] != [] && cs[i + 1] != [] ==> Gap(Last(cs[i]), cs[i + 1][0], stale))
  }

  lemma {:induction false} FlattenCons(c: seq<int>, cs: seq<seq<int>>)
    ensures Flatten([c] + cs) == c + Flatten(cs)
  {
    if |cs| == 0 {
      assert [c] + cs == [c];
      assert Flatten([c]) == Flatten([]) + c;
    } else {
      assert Front([c] + cs) == [c] + Front(cs);
      FlattenCons(c, Front(cs));
    }
  }

  lemma {:induction false} StretchIsMaximal(ts: seq<int>, stale: int)
    requires |ts| > 0
    ensures var n := Stretch(ts, stale);
            && (forall j :: 0 <= j < n - 1 ==> !Gap(ts[j], ts[j + 1], stale))
            && (n < |ts| ==> Gap(ts[n - 1], ts[n], stale))
  {
    if !(|ts| == 1 || Gap(ts[0], ts[1], stale)) {
      var rest := ts[1..];
      StretchIsMaximal(rest, stale);
      var n := Stretch(rest, stale);
      forall j | 0 <= j < n
        ensures !Gap(ts[j], ts[j + 1], stale)
      {
        if j > 0 { assert !Gap(rest[j - 1], rest[j - 1 + 1], stale); }
      }
    }
  }

  /** A run without gaps that ends the history or ends at a gap is the first stint. */
  lemma {:induction false} StretchIsUnique(ts: seq<int>, n: nat, stale: int)
    requires 1 <= n <= |ts|
    requires forall j :: 0 <= j < n - 1 ==> !Gap(ts[j], ts[j + 1], stale)
    requires n < |ts| ==> Gap(ts[n - 1], ts[n], stale)
    ensures Stretch(ts, stale) == n
  {
    if n > 1 {
      assert !Gap(ts[0], ts[0 + 1], stale);
      forall j | 0 <= j < n - 2
        ensures !Gap(ts[1..][j], ts[1..][j + 1], stale)
      {
        assert !Gap(ts[j + 1], ts[j + 1 + 1], stale);
      }
      StretchIsUnique(ts[1..], n - 1, stale);
    }
  }

  lemma {:induction false} FlattenStarts(cs: seq<seq<int>>)
    requires |cs| > 0 && forall i :: 0 <= i < |cs| ==> cs[i] != []
    ensures |Flatten(cs)| > 0 && Flatten(cs)[0] == cs[0][0]
  {
    var rest := cs[1..];
    assert cs == [cs[0]] + rest;
    FlattenCons(cs[0], rest);
    hide Flatten;
  }

  /** A run before a clustering of what comes after it. */
  lemma ConsIsClustering(c: seq<int>, rest: seq<seq<int>>, ts: seq<int>, stale: int)
    requires IsClustering(rest, ts, stale) && c != []
    requires Unbroken(c, stale) && (|ts| > 0 ==> Gap(Last(c), ts[0], stale))
    ensures IsClustering([c] + rest, c + ts, stale)
  {
    var cs := [c] + rest;
    FlattenCons(c, rest);
    if |rest| > 0 {
      FlattenStarts(rest);
    }
    hide Flatten, Gap, Unbroken;
    assert forall i :: 1 <= i < |cs| ==> cs[i] == rest[i - 1];
  }

  lemma PrefixIsUnbroken(ts: seq<int>, n: nat, stale: int)
    requires n <= |ts| && forall j :: 0 <= j < n - 1 ==> !Gap(ts[j], ts[j + 1], stale)
    ensures Unbroken(ts[..n], stale)
  {
    hide Gap;
    forall j | 0 <= j < n - 1
      ensures !Gap(ts[..n][j], ts[..n][j + 1], stale)
    {
      assert !Gap(ts[j], ts[j + 1], stale);
    }
  }

  lemma LastOfPrefix(ts: seq<int>, n: nat)
    requires 0 < n <= |ts|
    ensures Last(ts[..n]) == ts[n - 1]
  {}

  lemma FirstCluster(ts: seq<int>, stale: int)
    requires |ts| > 0
    ensures var n := Stretch(ts, stale); Cluster(ts, stale) == [ts[..n]] + Cluster(ts[n..], stale)
  {}

  lemma {:induction false} ClusterIsClustering(ts: seq<int>, stale: int)
    ensures IsClustering(Cluster(ts, stale), ts, stale)
    decreases |ts|
  {
    if |ts| > 0 {
      hide *;
      var n := Stretch(ts, stale);
      var c, rest := ts[..n], ts[n..];
      FirstCluster(ts, stale);
      StretchIsMaximal(ts, stale);
      ClusterIsClustering(rest, stale);
      assert ts == c + rest;
      LastOfPrefix(ts, n);
      PrefixIsUnbroken(ts, n, stale);
      ConsIsClustering(c, Cluster(rest, stale), rest, stale);
    } else {
      hide Gap;
    }
  }

  /** The first cluster is a maximal run, and the rest cluster what is left. */
  lemma ClusteringTail(cs: seq<seq<int>>, ts: seq<int>, stale: int)
    requires IsClustering(cs, ts, stale) && |cs| > 0
    ensures 1 <= |cs[0]| <= |ts| && cs[0] == ts[..|cs[0]|]
    ensures forall j :: 0 <= j < |cs[0]| - 1 ==> !Gap(ts[j], ts[j + 1], stale)
    ensures |cs[0]| < |ts| ==> Gap(ts[|cs[0]| - 1], ts[|cs[0]|], stale)
    ensures Flatten(cs[1..]) == ts[|cs[0]|..]
  {
    var c, rest := cs[0], cs[1..];
    assert cs == [c] + rest;
    FlattenCons(c, rest);
    forall j | 0 <= j < |c| - 1
      ensures !Gap(ts[j], ts[j + 1], stale)
    {
      assert !Gap(cs[0][j], cs[0][j + 1], stale);
    }
    if |rest| > 0 {
      FlattenCons(rest[0], rest[1..]);
      assert rest == [rest[0]] + rest[1..];
      assert Gap(Last(cs[0]), cs[0 + 1][0], stale);
      assert ts[|c|] == rest[0][0];
    }
  }

  /** There is only one way to cluster a history. */
  lemma {:induction false} ClusteringIsUnique(cs: seq<seq<int>>, ts: seq<int>, stale: int)
    requires IsClustering(cs, ts, stale)
    ensures cs == Cluster(ts, stale)
    decreases |cs|
  {
    if |cs| > 0 {
      ClusteringTail(cs, ts, stale);
      StretchIsUnique(ts, |cs[0]|, stale);
      var rest := cs[1..];
      assert forall i :: 0 <= i < |rest| ==> rest[i] == cs[i + 1];
      assert IsClustering(rest, ts[|cs[0]|..], stale) by {
        forall i | 0 <= i < |rest| - 1 && rest[i] != [] && rest[i + 1] != []
          ensures Gap(Last(rest[i]), rest[i + 1][0], stale)
        {
          assert Gap(Last(cs[i + 1]), cs[i + 1 + 1][0], stale);
        }
      }
      ClusteringIsUnique(rest, ts[|cs[0]|..], stale);
      assert cs == [cs[0]] + rest;
    }
  }

  /** What one more sighting does to a clustering. */
  function Extend(cs: seq<seq<int>>, t: int, stale: int): seq<seq<int>>
    requires |cs| > 0 ==> Last(cs) != []
  {
    if |cs| == 0 || Gap(Last(Last(cs)), t, stale) then cs + [[t]]
    else Front(cs) + [Last(cs) + [t]]
  }

  lemma OneIsUnbroken(t: int, stale: int)
    ensures Unbroken([t], stale)
  {}

  lemma OpensOne(cs: seq<seq<int>>, ts: seq<int>, t: int, stale: int)
    requires IsClustering(cs, ts, stale) && (|cs| > 0 ==> Last(cs) != [] && Gap(Last(Last(cs)), t, stale))
    ensures IsClustering(cs + [[t]], ts + [t], stale)
  {
    var ds := cs + [[t]];
    assert Front(ds) == cs;
    assert Flatten(ds) == Flatten(cs) + [t];
    hide Flatten, Gap, Unbroken;
    OneIsUnbroken(t, stale);
    assert forall i :: 0 <= i < |cs| ==> ds[i] == cs[i];
  }

  lemma UnbrokenMore(c: seq<int>, t: int, stale: int)
    requires c != [] && Unbroken(c, stale) && !Gap(Last(c), t, stale)
    ensures Unbroken(c + [t], stale)
  {
    hide Gap;
    forall j | 0 <= j < |c|
      ensures !Gap((c + [t])[j], (c + [t])[j + 1], stale)
    {
      if j < |c| - 1 {
        assert !Gap(c[j], c[j + 1], stale);
      }
    }
  }

  lemma ExtendsLast(cs: seq<seq<int>>, ts: seq<int>, t: int, stale: int)
    requires IsClustering(cs, ts, stale) && |cs| > 0 && Last(cs) != [] && !Gap(Last(Last(cs)), t, stale)
    ensures IsClustering(Front(cs) + [Last(cs) + [t]], ts + [t], stale)
  {
    var c := Last(cs) + [t];
    var ds, n := Front(cs) + [c], |cs| - 1;
    assert Front(ds) == Front(cs) && Last(ds) == c;
    assert Flatten(ds) == Flatten(Front(cs)) + c;
    assert Flatten(cs) == Flatten(Front(cs)) + Last(cs);
    hide Flatten, Gap;
    assert ds[n] == c && cs[n] == Last(cs) && forall i :: 0 <= i < n ==> ds[i] == cs[i];
    UnbrokenMore(Last(cs), t, stale);
    hide Unbroken;
    forall i | 0 <= i < |ds| - 1
      ensures Gap(Last(ds[i]), ds[i + 1][0], stale)
    {
      assert ds[i + 1][0] == cs[i + 1][0];
      assert Gap(Last(cs[i]), cs[i + 1][0], stale);
    }
  }

  lemma ExtendIsClustering(cs: seq<seq<int>>, ts: seq<int>, t: int, stale: int)
    requires IsClustering(cs, ts, stale)
    ensures |cs| > 0 ==> Last(cs) != []
    ensures IsClustering(Extend(cs, t, stale), ts + [t], stale)
  {
    assert |cs| > 0 ==> Last(cs) != [];
    hide IsClustering, Gap;
    if |cs| == 0 || Gap(Last(Last(cs)), t, stale) {
      OpensOne(cs, ts, t, stale);
    } else {
      ExtendsLast(cs, ts, t, stale);
    }
  }

  lemma ClusterSnoc(ts: seq<int>, t: int, stale: int)
    ensures |Cluster(ts, stale)| > 0 ==> Last(Cluster(ts, stale)) != []
    ensures Cluster(ts + [t], stale) == Extend(Cluster(ts, stale), t, stale)
  {
    ClusterIsClustering(ts, stale);
    ExtendIsClustering(Cluster(ts, stale), ts, t, stale);
    ClusteringIsUnique(Extend(Cluster(ts, stale), t, stale), ts + [t], stale);
  }

  // ---------------------------------------------------------------------
  // Runs of the incremental table
  // ---------------------------------------------------------------------

  datatype Happening =
    | Seen(fence: string, at: int, sightings: seq<Sighting>)
    | Forgotten(fence: string)

  /** What `ObservePresence`, or the deletion of a fence, does to the rows. */
  ghost function Happen(rows: Stints, h: Happening, stale: int): Stints {
    match h
    case Seen(f, at, seen) => SightAll(rows, OpenStints(rows, f, Cutoff(at, stale)), f, Unix(at), seen)
    case Forgotten(f) => map k | k in rows && k.fence != f :: rows[k]
  }

  ghost function Replay(run: seq<Happening>, stale: int): Stints {
    if |run| == 0 then map[] else Happen(Replay(Front(run), stale), Last(run), stale)
  }

  ghost predicate Spots(seen: seq<Sighting>, vehicle: string) {
    exists s :: s in seen && s.vehicle == vehicle
  }

  /** When a vehicle was sighted in a fence since the fence was last forgotten. */
  ghost function History(run: seq<Happening>, fence: string, vehicle: string): seq<int> {
    if |run| == 0 then []
    else
      var before := History(Front(run), fence, vehicle);
      match Last(run)
      case Seen(f, at, seen) => if f == fence && Spots(seen, vehicle) then before + [at] else before
      case Forgotten(f) => if f == fence then [] else before
  }

  /** Every sighting so far of one fence happened no later than `now`, in order. */
  ghost predicate InOrder(run: seq<Happening>, fence: string) {
    forall i, j :: 0 <= i < j < |run| && run[i].Seen? && run[j].Seen? && run[i].fence == run[j].fence == fence
      ==> run[i].at <= run[j].at
  }

  /** The rows of one vehicle in one fence are exactly these clusters. */
  ghost predicate Represents(rows: Stints, fence: string, vehicle: string, cs: seq<seq<int>>)
    requires forall i :: 0 <= i < |cs| ==> cs[i] != []
  {
    && (forall i :: 0 <= i < |cs| ==>
          var k := StintKey(fence, vehicle, Unix(cs[i][0]));
          k in rows && rows[k].last == Unix(Last(cs[i])))
    && (forall k :: k in rows && k.fence == fence && k.vehicle == vehicle ==>
          exists i :: 0 <= i < |cs| && k.first == Unix(cs[i][0]))
  }

  lemma {:induction false} SightAllElsewhere(rows: Stints, open: map<string, int>, fence: string, at: int,
                                             seen: seq<Sighting>, k: StintKey)
    requires k.fence != fence || !Spots(seen, k.vehicle) || k.first != (if k.vehicle in open then open[k.vehicle] else at)
    ensures var after := SightAll(rows, open, fence, at, seen);
            (k in after <==> k in rows) && (k in rows ==> after[k] == rows[k])
  {
    if |seen| > 0 {
      assert Last(seen) in seen;
      forall s | s in Front(seen)
        ensures s in seen
      {}
      SightAllElsewhere(rows, open, fence, at, Front(seen), k);
    }
  }

  lemma {:induction false} SightAllTarget(rows: Stints, open: map<string, int>, fence: string, at: int,
                                          seen: seq<Sighting>, vehicle: string)
    requires Spots(seen, vehicle)
    requires vehicle in open ==> StintKey(fence, vehicle, open[vehicle]) in rows
    ensures var k := StintKey(fence, vehicle, if vehicle in open then open[vehicle] else at);
            var after := SightAll(rows, open, fence, at, seen);
            k in after && after[k].last == at
  {
    var k := StintKey(fence, vehicle, if vehicle in open then open[vehicle] else at);
    var before := SightAll(rows, open, fence, at, Front(seen));
    if Spots(Front(seen), vehicle) {
      SightAllTarget(rows, open, fence, at, Front(seen), vehicle);
    } else {
      assert seen == Front(seen) + [Last(seen)];
      assert Last(seen).vehicle == vehicle;
      SightAllElsewhere(rows, open, fence, at, Front(seen), k);
    }
  }

  lemma {:induction false} FlattenHas(cs: seq<seq<int>>, i: nat, j: nat)
    requires i < |cs| && j < |cs[i]|
    ensures cs[i][j] in Flatten(cs)
  {
    if i == |cs| - 1 {
      assert cs[i][j] == Flatten(cs)[|Flatten(Front(cs))| + j];
    } else {
      FlattenHas(Front(cs), i, j);
    }
  }

  lemma {:induction false} FlattenIsSorted(cs: seq<seq<int>>, i: nat, m: nat, j: nat, n: nat)
    requires i <= j < |cs| && m < |cs[i]| && n < |cs[j]| && (i < j || m <= n)
    requires Sorted(Flatten(cs))
    ensures cs[i][m] <= cs[j][n]
  {
    var front, last, all := Flatten(Front(cs)), Last(cs), Flatten(cs);
    assert all == front + last;
    if j == |cs| - 1 {
      assert all[|front| + n] == cs[j][n];
      if i < j {
        FlattenHas(Front(cs), i, m);
        var x :| 0 <= x < |front| && front[x] == cs[i][m];
        assert all[x] <= all[|front| + n];
      } else {
        assert all[|front| + m] == cs[i][m];
      }
    } else {
      forall a, b | 0 <= a < b < |front|
        ensures front[a] <= front[b]
      {
        assert all[a] <= all[b];
      }
      FlattenIsSorted(Front(cs), i, m, j, n);
    }
  }

  /** Two stints of a vehicle never share a second. */
  lemma StintsAreDisjoint(ts: seq<int>, stale: int, i: nat, j: nat)
    requires Sorted(ts) && i < j < |Cluster(ts, stale)|
    ensures var cs := Cluster(ts, stale);
            && cs[i] != [] && cs[j] != []
            && Unix(cs[i][0]) <= Unix(Last(cs[i])) < Unix(cs[j][0])
  {
    var cs := Cluster(ts, stale);
    ClusterIsClustering(ts, stale);
    FlattenIsSorted(cs, i, 0, i, |cs[i]| - 1);
    FlattenIsSorted(cs, i + 1, 0, j, 0);
    assert cs[i] != [] && cs[i + 1] != [];
    assert Gap(Last(cs[i]), cs[i + 1][0], stale);
  }

  lemma LastOfClusters(ts: seq<int>, stale: int)
    ensures var cs := Cluster(ts, stale);
            && (forall i :: 0 <= i < |cs| ==> cs[i] != [])
            && (|ts| == 0 <==> |cs| == 0)
            && (|ts| > 0 ==> Last(Last(cs)) == Last(ts))
  {
    ClusterIsClustering(ts, stale);
    var cs := Cluster(ts, stale);
    if |cs| > 0 {
      assert Flatten(cs) == Flatten(Front(cs)) + Last(cs);
    }
  }

  /** Before the cutoff every stint but the last is over. */
  lemma EarlierStintsAreOver(ts: seq<int>, at: int, stale: int, i: nat)
    requires Sorted(ts + [at]) && i < |Cluster(ts, stale)| - 1
    ensures Cluster(ts, stale)[i] != [] && Unix(Last(Cluster(ts, stale)[i])) < Cutoff(at, stale)
  {
    var cs := Cluster(ts, stale);
    ClusterIsClustering(ts, stale);
    assert cs[i] != [] && cs[i + 1] != [];
    assert Gap(Last(cs[i]), cs[i + 1][0], stale);
    FlattenHas(cs, i + 1, 0);
    var x :| 0 <= x < |ts| && ts[x] == cs[i + 1][0];
    assert (ts + [at])[x] <= (ts + [at])[|ts|];
    UnixMonotone(cs[i + 1][0] - StaleOf(stale), at - StaleOf(stale));
  }

  /** Only the stint that holds the last sighting can still be open. */
  lemma OnlyLastStintIsOpen(rows: Stints, fence: string, vehicle: string, ts: seq<int>, at: int, stale: int,
                            open: map<string, int>)
    requires Sorted(ts + [at])
    requires forall i :: 0 <= i < |Cluster(ts, stale)| ==> Cluster(ts, stale)[i] != []
    requires Represents(rows, fence, vehicle, Cluster(ts, stale))
    requires IsOpenMap(rows, fence, Cutoff(at, stale), open)
    ensures vehicle in open <==> |ts| > 0 && !Gap(Last(ts), at, stale)
    ensures vehicle in open ==> |Cluster(ts, stale)| > 0 && open[vehicle] == Unix(Last(Cluster(ts, stale))[0])
  {
    var cs := Cluster(ts, stale);
    LastOfClusters(ts, stale);
    if vehicle in open {
      var k := StintKey(fence, vehicle, open[vehicle]);
      var i :| 0 <= i < |cs| && k.first == Unix(cs[i][0]);
      assert k == StintKey(fence, vehicle, Unix(cs[i][0]));
      if i < |cs| - 1 {
        EarlierStintsAreOver(ts, at, stale, i);
      }
    }
    if |ts| > 0 && !Gap(Last(ts), at, stale) {
      var n := |cs| - 1;
      assert StintKey(fence, vehicle, Unix(cs[n][0])) in rows;
    }
  }

  lemma {:induction false} HistoryIsSorted(run: seq<Happening>, fence: string, vehicle: string)
    requires InOrder(run, fence)
    ensures Sorted(History(run, fence, vehicle))
    ensures forall t :: t in History(run, fence, vehicle) ==>
              exists i :: 0 <= i < |run| && run[i].Seen? && run[i].fence == fence && run[i].at == t
  {
    if |run| > 0 {
      HistoryIsSorted(Front(run), fence, vehicle);
      forall t | t in History(Front(run), fence, vehicle)
        ensures exists i :: 0 <= i < |run| && run[i].Seen? && run[i].fence == fence && run[i].at == t
        ensures Last(run).Seen? && Last(run).fence == fence ==> t <= Last(run).at
      {
        var i :| 0 <= i < |Front(run)| && Front(run)[i].Seen? && Front(run)[i].fence == fence && Front(run)[i].at == t;
        assert run[i] == Front(run)[i];
        assert run[i].fence == fence && run[|run| - 1] == Last(run);
      }
      var before := History(Front(run), fence, vehicle);
      assert forall m :: 0 <= m < |before| ==> before[m] in before;
    }
  }

  /** A sighting rewrites one row of its vehicle: the open stint, or a new one. */
  lemma SightedRow(rows: Stints, open: map<string, int>, fence: string, vehicle: string, at: int, seen: seq<Sighting>)
    requires Spots(seen, vehicle)
    requires vehicle in open ==> StintKey(fence, vehicle, open[vehicle]) in rows
    ensures var after := SightAll(rows, open, fence, at, seen);
            var own := StintKey(fence, vehicle, if vehicle in open then open[vehicle] else at);
            && own in after && after[own].last == at
            && (forall k: StintKey :: k.fence == fence && k.vehicle == vehicle && k != own ==>
                  (k in after <==> k in rows) && (k in rows ==> after[k] == rows[k]))
  {
    SightAllTarget(rows, open, fence, at, seen, vehicle);
    var after := SightAll(rows, open, fence, at, seen);
    forall k: StintKey | k.fence == fence && k.vehicle == vehicle && k.first != (if vehicle in open then open[vehicle] else at)
      ensures (k in after <==> k in rows) && (k in rows ==> after[k] == rows[k])
    {
      SightAllElsewhere(rows, open, fence, at, seen, k);
    }
  }

  /** Adding one sighting to the last cluster, or as a new one, while the
      table rewrites one row. */
  lemma RewriteRepresents(rows: Stints, after: Stints, fence: string, vehicle: string,
                          cs: seq<seq<int>>, ds: seq<seq<int>>, isNew: bool)
    requires forall i :: 0 <= i < |cs| ==> cs[i] != []
    requires forall i :: 0 <= i < |ds| ==> ds[i] != []
    requires Represents(rows, fence, vehicle, cs)
    requires |ds| > 0
    requires if isNew then Front(ds) == cs else |cs| > 0 && Front(ds) == Front(cs) && Last(ds)[0] == Last(cs)[0]
    requires forall i :: 0 <= i < |ds| - 1 ==> Unix(ds[i][0]) != Unix(Last(ds)[0])
    requires var own := StintKey(fence, vehicle, Unix(Last(ds)[0]));
             && own in after && after[own].last == Unix(Last(Last(ds)))
             && forall k: StintKey :: k.fence == fence && k.vehicle == vehicle && k != own ==>
                  (k in after <==> k in rows) && (k in rows ==> after[k] == rows[k])
    ensures Represents(after, fence, vehicle, ds)
  {
    hide Unix;
    var n := |ds| - 1;
    forall i | 0 <= i < n
      ensures i < |cs| && ds[i] == cs[i]
    {
      assert Front(ds)[i] == ds[i];
    }
    assert |cs| == if isNew then n else n + 1;
    forall k | k in after && k.fence == fence && k.vehicle == vehicle
      ensures exists i :: 0 <= i < |ds| && k.first == Unix(ds[i][0])
    {
      if k.first == Unix(ds[n][0]) {
      } else {
        var i :| 0 <= i < |cs| && k.first == Unix(cs[i][0]);
        assert i < n && k.first == Unix(ds[i][0]);
      }
    }
  }

  lemma ExtendRepresents(rows: Stints, open: map<string, int>, fence: string, vehicle: string, ts: seq<int>,
                         at: int, seen: seq<Sighting>, stale: int)
    requires Sorted(ts + [at]) && Spots(seen, vehicle)
    requires forall i :: 0 <= i < |Cluster(ts, stale)| ==> Cluster(ts, stale)[i] != []
    requires Represents(rows, fence, vehicle, Cluster(ts, stale))
    requires IsOpenMap(rows, fence, Cutoff(at, stale), open)
    ensures forall i :: 0 <= i < |Cluster(ts + [at], stale)| ==> Cluster(ts + [at], stale)[i] != []
    ensures Represents(SightAll(rows, open, fence, Unix(at), seen), fence, vehicle, Cluster(ts + [at], stale))
  {
    var cs, ds := Cluster(ts, stale), Cluster(ts + [at], stale);
    LastOfClusters(ts, stale);
    LastOfClusters(ts + [at], stale);
    OnlyLastStintIsOpen(rows, fence, vehicle, ts, at, stale, open);
    SightedRow(rows, open, fence, vehicle, Unix(at), seen);
    ClusterSnoc(ts, at, stale);
    forall i | 0 <= i < |ds| - 1
      ensures Unix(ds[i][0]) != Unix(Last(ds)[0])
    {
      StintsAreDisjoint(ts + [at], stale, i, |ds| - 1);
    }
    RewriteRepresents(rows, SightAll(rows, open, fence, Unix(at), seen), fence, vehicle, cs, ds,
                      |ts| == 0 || Gap(Last(ts), at, stale));
  }

  /** After any run with a clock that does not go back, the rows of a vehicle in
      a fence are the batch clustering of its sightings: one row a stint, from
      its first to its last second. */
  lemma {:induction false} PresenceIsBatchClustering(run: seq<Happening>, stale: int, fence: string, vehicle: string)
    requires InOrder(run, fence)
    ensures var cs := Cluster(History(run, fence, vehicle), stale);
            && (forall i :: 0 <= i < |cs| ==> cs[i] != [])
            && Represents(Replay(run, stale), fence, vehicle, cs)
  {
    LastOfClusters(History(run, fence, vehicle), stale);
    if |run| > 0 {
      var before, h := Front(run), Last(run);
      assert run == before + [h];
      PresenceIsBatchClustering(before, stale, fence, vehicle);
      var ts := History(before, fence, vehicle);
      var rows := Replay(before, stale);
      match h
      case Seen(f, at, seen) =>
        if f == fence && Spots(seen, vehicle) {
          HistoryIsSorted(run, fence, vehicle);
          OpenStintsIsOpenMap(rows, f, Cutoff(at, stale));
          ExtendRepresents(rows, OpenStints(rows, f, Cutoff(at, stale)), fence, vehicle, ts, at, seen, stale);
        } else {
          forall k: StintKey | k.fence == fence && k.vehicle == vehicle
            ensures k in Replay(run, stale) <==> k in rows
            ensures k in rows ==> Replay(run, stale)[k] == rows[k]
          {
            SightAllElsewhere(rows, OpenStints(rows, f, Cutoff(at, stale)), f, Unix(at), seen, k);
          }
        }
      case Forgotten(f) =>
    }
  }

  // ---------------------------------------------------------------------
  // What the clustering says about the queries
  // ---------------------------------------------------------------------

  /** The state of a vehicle's rows just before one more observation. */
  lemma PrefixHistory(run: seq<Happening>, fence: string, vehicle: string, h: Happening) returns (ts: seq<int>)
    requires h.Seen? && h.fence == fence && InOrder(run + [Seen(fence, h.at, [])], fence)
    ensures ts == History(run, fence, vehicle) && Sorted(ts + [h.at])
    ensures InOrder(run, fence)
    ensures forall stale ::
              && (forall i :: 0 <= i < |Cluster(ts, stale)| ==> Cluster(ts, stale)[i] != [])
              && Represents(Replay(run, stale), fence, vehicle, Cluster(ts, stale))
  {
    ts := History(run, fence, vehicle);
    var longer := run + [Seen(fence, h.at, [])];
    assert forall i :: 0 <= i < |run| ==> longer[i] == run[i];
    assert longer[|run|].fence == fence;
    HistoryIsSorted(run, fence, vehicle);
    forall m | 0 <= m < |ts|
      ensures ts[m] <= h.at
    {
      assert ts[m] in ts;
      var i :| 0 <= i < |run| && run[i].Seen? && run[i].fence == fence && run[i].at == ts[m];
      assert longer[i] == run[i];
    }
    forall stale
      ensures forall i :: 0 <= i < |Cluster(ts, stale)| ==> Cluster(ts, stale)[i] != []
      ensures Represents(Replay(run, stale), fence, vehicle, Cluster(ts, stale))
    {
      PresenceIsBatchClustering(run, stale, fence, vehicle);
    }
  }

  /** `PresentIds` is exactly the vehicles last sighted at or after the cutoff. */
  lemma PresentIdsAreLastSighted(run: seq<Happening>, t: Tables, stale: int, fence: string, vehicle: string, at: int)
    requires InOrder(run + [Seen(fence, at, [])], fence)
    requires t.stints == Replay(run, stale)
    ensures var ts := History(run, fence, vehicle);
            vehicle in PresentIds(t, fence, at, stale) <==> |ts| > 0 && Unix(Last(ts)) >= Cutoff(at, stale)
  {
    var last := Seen(fence, at, [Sighting(vehicle, "")]);
    var ts := PrefixHistory(run, fence, vehicle, last);
    var open := OpenStints(t.stints, fence, Cutoff(at, stale));
    OpenStintsIsOpenMap(t.stints, fence, Cutoff(at, stale));
    OnlyLastStintIsOpen(t.stints, fence, vehicle, ts, at, stale, open);
  }

  /** The arrivals an observation returns. */
  ghost function ReportedBy(rows: Stints, h: Happening, stale: int): seq<Sighting>
    requires h.Seen?
  {
    FilterMap(h.sightings, IfNew(OpenStints(rows, h.fence, Cutoff(h.at, stale))))
  }

  lemma NewSightings(seen: seq<Sighting>, open: map<string, int>, vehicle: string)
    ensures Spots(FilterMap(seen, IfNew(open)), vehicle) <==> Spots(seen, vehicle) && vehicle !in open
  {
    if s :| s in seen && s.vehicle == vehicle {
      FilterMapMember(seen, IfNew(open), s);
    }
    if r :| r in FilterMap(seen, IfNew(open)) && r.vehicle == vehicle {
      FilterMapMember(seen, IfNew(open), r);
    }
  }

  /** A vehicle is returned as an arrival exactly when its sighting starts a new cluster. */
  lemma ArrivalIsNewCluster(run: seq<Happening>, stale: int, fence: string, at: int, seen: seq<Sighting>,
                            vehicle: string)
    requires InOrder(run + [Seen(fence, at, [])], fence)
    ensures Spots(ReportedBy(Replay(run, stale), Seen(fence, at, seen), stale), vehicle) <==>
              |Cluster(History(run + [Seen(fence, at, seen)], fence, vehicle), stale)|
              == |Cluster(History(run, fence, vehicle), stale)| + 1
  {
    var h := Seen(fence, at, seen);
    var ts := PrefixHistory(run, fence, vehicle, h);
    var rows := Replay(run, stale);
    var open := OpenStints(rows, fence, Cutoff(at, stale));
    OpenStintsIsOpenMap(rows, fence, Cutoff(at, stale));
    OnlyLastStintIsOpen(rows, fence, vehicle, ts, at, stale, open);
    NewSightings(seen, open, vehicle);
    assert Front(run + [h]) == run && Last(run + [h]) == h;
    if Spots(seen, vehicle) {
      ClusterSnoc(ts, at, stale);
      LastOfClusters(ts, stale);
    }
  }

  /** Whole-second storage blurs the gap rule by less than one second. */
  lemma GapWithinASecond(prev: int, next: int, stale: int)
    ensures next - prev <= StaleOf(stale) ==> !Gap(prev, next, stale)
    ensures next - prev >= StaleOf(stale) + 1_000_000_000 ==> Gap(prev, next, stale)
    ensures prev == 1_000_000_000 * Unix(prev) && next == 1_000_000_000 * Unix(next)
            && StaleOf(stale) == 1_000_000_000 * Unix(StaleOf(stale))
            ==> (Gap(prev, next, stale) <==> next - prev > StaleOf(stale))
  {
    if next - prev <= StaleOf(stale) {
      UnixMonotone(next - StaleOf(stale), prev);
    }
  }

  // ---------------------------------------------------------------------
  // Arrivals are conserved
  // ---------------------------------------------------------------------

  ghost predicate DistinctVehicles(seen: seq<Sighting>) {
    forall i, j :: 0 <= i < j < |seen| ==> seen[i].vehicle != seen[j].vehicle
  }

  ghost function NewKeys(fence: string, at: int, arrivals: seq<Sighting>): set<StintKey> {
    set s | s in arrivals :: StintKey(fence, s.vehicle, at)
  }

  /** How many arrivals the observations of a fence returned in a window. */
  ghost function Reported(run: seq<Happening>, stale: int, fence: string, from: int, to: int): nat {
    if |run| == 0 then 0
    else
      var h := Last(run);
      Reported(Front(run), stale, fence, from, to) +
      if h.Seen? && h.fence == fence && from <= Unix(h.at) < to then |ReportedBy(Replay(Front(run), stale), h, stale)| else 0
  }

  lemma {:induction false} NewKeysCount(fence: string, at: int, arrivals: seq<Sighting>)
    requires DistinctVehicles(arrivals)
    ensures |NewKeys(fence, at, arrivals)| == |arrivals|
  {
    if |arrivals| > 0 {
      NewKeysCount(fence, at, Front(arrivals));
      var k := StintKey(fence, Last(arrivals).vehicle, at);
      assert arrivals == Front(arrivals) + [Last(arrivals)];
      assert NewKeys(fence, at, arrivals) == NewKeys(fence, at, Front(arrivals)) + {k};
    }
  }

  lemma {:induction false} FilterKeepsDistinct(seen: seq<Sighting>, open: map<string, int>)
    requires DistinctVehicles(seen)
    ensures DistinctVehicles(FilterMap(seen, IfNew(open)))
    ensures forall s :: s in FilterMap(seen, IfNew(open)) ==> s in seen && s.vehicle !in open
  {
    if |seen| > 0 {
      FilterKeepsDistinct(Front(seen), open);
      assert seen == Front(seen) + [Last(seen)];
      var kept := FilterMap(Front(seen), IfNew(open));
      forall i | 0 <= i < |kept|
        ensures kept[i].vehicle != Last(seen).vehicle
      {
        assert kept[i] in Front(seen);
      }
    }
  }

  lemma {:induction false} SightAllKeys(rows: Stints, open: map<string, int>, fence: string, at: int,
                                        seen: seq<Sighting>)
    requires forall v :: v in open ==> StintKey(fence, v, open[v]) in rows
    ensures SightAll(rows, open, fence, at, seen).Keys == rows.Keys + NewKeys(fence, at, FilterMap(seen, IfNew(open)))
  {
    if |seen| > 0 {
      SightAllKeys(rows, open, fence, at, Front(seen));
      var before := SightAll(rows, open, fence, at, Front(seen));
      var kept := FilterMap(Front(seen), IfNew(open));
      if Last(seen).vehicle in open {
        assert FilterMap(seen, IfNew(open)) == kept;
      } else {
        assert FilterMap(seen, IfNew(open)) == kept + [Last(seen)];
        assert NewKeys(fence, at, kept + [Last(seen)]) == NewKeys(fence, at, kept) + {StintKey(fence, Last(seen).vehicle, at)};
      }
    }
  }

  /** A cluster does not end before it begins. */
  lemma ClusterGoesForward(ts: seq<int>, stale: int, i: nat)
    requires Sorted(ts) && i < |Cluster(ts, stale)| && Cluster(ts, stale)[i] != []
    ensures Unix(Cluster(ts, stale)[i][0]) <= Unix(Last(Cluster(ts, stale)[i]))
  {
    var cs := Cluster(ts, stale);
    ClusterIsClustering(ts, stale);
    hide Cluster, Gap, Flatten, Unix;
    FlattenIsSorted(cs, i, 0, i, |cs[i]| - 1);
    UnixMonotone(cs[i][0], Last(cs[i]));
  }

  lemma SortedBefore(ts: seq<int>, at: int)
    requires Sorted(ts + [at])
    ensures Sorted(ts)
  {
    assert forall m :: 0 <= m < |ts| ==> ts[m] == (ts + [at])[m];
  }

  /** A row that began this very second belongs to an open stint. */
  lemma RowOfThisSecondIsOpen(rows: Stints, open: map<string, int>, fence: string, vehicle: string,
                              ts: seq<int>, at: int, stale: int)
    requires Sorted(ts + [at])
    requires forall i :: 0 <= i < |Cluster(ts, stale)| ==> Cluster(ts, stale)[i] != []
    requires Represents(rows, fence, vehicle, Cluster(ts, stale))
    requires IsOpenMap(rows, fence, Cutoff(at, stale), open)
    ensures StintKey(fence, vehicle, Unix(at)) in rows ==> vehicle in open
  {
    var cs := Cluster(ts, stale);
    var k := StintKey(fence, vehicle, Unix(at));
    SortedBefore(ts, at);
    hide Cluster, Unix, Sorted;
    if k in rows {
      var i :| 0 <= i < |cs| && k.first == Unix(cs[i][0]);
      ClusterGoesForward(ts, stale, i);
      UnixMonotone(at - StaleOf(stale), at);
      assert rows[k].last >= Cutoff(at, stale);
    }
  }

  lemma AddedRows(rows: Stints, after: Stints, added: set<StintKey>, fence: string, at: int, from: int, to: int)
    requires after.Keys == rows.Keys + added && added !! rows.Keys
    requires forall k :: k in added ==> k.fence == fence && k.first == at
    ensures |RowsIn(after, fence, from, to)| == |RowsIn(rows, fence, from, to)| + if from <= at < to then |added| else 0
  {
    if from <= at < to {
      assert RowsIn(after, fence, from, to) == RowsIn(rows, fence, from, to) + added;
    } else {
      assert RowsIn(after, fence, from, to) == RowsIn(rows, fence, from, to);
    }
  }

  /** One observation adds a row for each arrival it reports. */
  lemma ObservationAddsArrivals(rows: Stints, open: map<string, int>, fence: string, at: int, seen: seq<Sighting>,
                                from: int, to: int)
    requires DistinctVehicles(seen)
    requires forall v :: v in open ==> StintKey(fence, v, open[v]) in rows
    requires forall v :: StintKey(fence, v, at) in rows ==> v in open
    ensures |RowsIn(SightAll(rows, open, fence, at, seen), fence, from, to)|
            == |RowsIn(rows, fence, from, to)| + if from <= at < to then |FilterMap(seen, IfNew(open))| else 0
  {
    var added := NewKeys(fence, at, FilterMap(seen, IfNew(open)));
    SightAllKeys(rows, open, fence, at, seen);
    FilterKeepsDistinct(seen, open);
    NewKeysCount(fence, at, FilterMap(seen, IfNew(open)));
    AddedRows(rows, SightAll(rows, open, fence, at, seen), added, fence, at, from, to);
  }

  lemma ObservationElsewhere(rows: Stints, open: map<string, int>, f: string, at: int, seen: seq<Sighting>,
                             fence: string, from: int, to: int)
    requires f != fence
    ensures RowsIn(SightAll(rows, open, f, at, seen), fence, from, to) == RowsIn(rows, fence, from, to)
  {
    forall k: StintKey | k.fence == fence
      ensures k in SightAll(rows, open, f, at, seen) <==> k in rows
    {
      SightAllElsewhere(rows, open, f, at, seen, k);
    }
  }

  lemma SecondIsOpen(before: seq<Happening>, stale: int, fence: string, at: int, seen: seq<Sighting>)
    requires InOrder(before + [Seen(fence, at, seen)], fence)
    ensures forall v :: StintKey(fence, v, Unix(at)) in Replay(before, stale)
              ==> v in OpenStints(Replay(before, stale), fence, Cutoff(at, stale))
  {
    var run, longer := before + [Seen(fence, at, seen)], before + [Seen(fence, at, [])];
    assert InOrder(longer, fence) by {
      assert forall i :: 0 <= i < |before| ==> longer[i] == run[i];
      assert run[|before|].at == at;
    }
    var rows, open := Replay(before, stale), OpenStints(Replay(before, stale), fence, Cutoff(at, stale));
    OpenStintsIsOpenMap(rows, fence, Cutoff(at, stale));
    forall v | StintKey(fence, v, Unix(at)) in rows
      ensures v in open
    {
      var ts := PrefixHistory(before, fence, v, Seen(fence, at, []));
      RowOfThisSecondIsOpen(rows, open, fence, v, ts, at, stale);
    }
  }

  /** Over a run without a deletion, `Arrivals` over a window returns as many
      rows as the observations in that window reported. */
  lemma {:induction false} ArrivalsAreConserved(run: seq<Happening>, stale: int, fence: string, from: int, to: int)
    requires InOrder(run, fence)
    requires forall i :: 0 <= i < |run| && run[i].fence == fence ==> run[i].Seen? && DistinctVehicles(run[i].sightings)
    ensures |RowsIn(Replay(run, stale), fence, from, to)| == Reported(run, stale, fence, from, to)
  {
    if |run| > 0 {
      var before, h := Front(run), Last(run);
      assert run == before + [h];
      ArrivalsAreConserved(before, stale, fence, from, to);
      var rows := Replay(before, stale);
      match h
      case Forgotten(f) =>
        assert RowsIn(Happen(rows, h, stale), fence, from, to) == RowsIn(rows, fence, from, to);
      case Seen(f, at, seen) =>
        var open := OpenStints(rows, f, Cutoff(at, stale));
        if f == fence {
          OpenStintsIsOpenMap(rows, f, Cutoff(at, stale));
          SecondIsOpen(before, stale, fence, at, seen);
          ObservationAddsArrivals(rows, open, fence, Unix(at), seen, from, to);
        } else {
          ObservationElsewhere(rows, open, f, Unix(at), seen, fence, from, to);
        }
    }
  }
}
