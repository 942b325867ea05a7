/** What one tick decides: which fences share a query, which vehicles are in a
    fence, and whether a watch's condition is met (`internal/poll/poll.go`). */
module Poll {
  import opened Base
  import opened Geo
  import opened Entur
  import opened Schema

  const MAX_QUERY_RADIUS_M: int := 2000
  const DEFAULT_REACH_M: int := 5000
  const NEAREST_PROBE_COUNT: int := 10
  const DEFAULT_NEAREST_INTERVAL: int := 120_000_000_000

  /** Keeps a vehicle that is inside the fence, measured from the fence. */
  function Rebase(dist: Metric, f: Fence): Vehicle -> Option<Vehicle> {
    (v: Vehicle) =>
      var d := dist(f.at, v.at);
      if d > f.radiusM as real then None else Some(v.(distanceM := d))
  }

  method Within(dist: Metric, vehicles: seq<Vehicle>, f: Fence) returns (out: seq<Vehicle>)
    ensures out == FilterMap(vehicles, Rebase(dist, f))
  {
    out := [];
    for i := 0 to |vehicles|
      invariant out == FilterMap(vehicles[..i], Rebase(dist, f))
    {
      assert vehicles[..i + 1] == vehicles[..i] + [vehicles[i]];
      FilterMapSnoc(vehicles[..i], vehicles[i], Rebase(dist, f));
      var v := vehicles[i];
      var d := dist(f.at, v.at);
      if !(d > f.radiusM as real) {
        out := out + [v.(distanceM := d)];
      }
    }
    assert vehicles[..|vehicles|] == vehicles;
  }

  /** Keeps a vehicle the watch cares about. */
  function Wanted(w: Watch): Vehicle -> Option<Vehicle> {
    (v: Vehicle) =>
      if (|w.operatorKeys| > 0 && v.operatorKey !in w.operatorKeys) || v.rangeM < w.minRangeM then None else Some(v)
  }

  method Matches(vehicles: seq<Vehicle>, w: Watch) returns (out: seq<Vehicle>)
    ensures out == FilterMap(vehicles, Wanted(w))
  {
    out := [];
    var want := set k | k in w.operatorKeys;
    assert |w.operatorKeys| > 0 ==> w.operatorKeys[0] in want;
    var restricted := |want| > 0;
    assert restricted <==> |w.operatorKeys| > 0;
    for i := 0 to |vehicles|
      invariant out == FilterMap(vehicles[..i], Wanted(w))
    {
      assert vehicles[..i + 1] == vehicles[..i] + [vehicles[i]];
      FilterMapSnoc(vehicles[..i], vehicles[i], Wanted(w));
      var v := vehicles[i];
      if restricted && v.operatorKey !in want {
        continue;
      }
      if v.rangeM < w.minRangeM {
        continue;
      }
      out := out + [v];
    }
    assert vehicles[..|vehicles|] == vehicles;
  }

  // ---------------------------------------------------------------------
  // Grouping
  // ---------------------------------------------------------------------

  datatype Group = Group(at: Point, radiusM: int, fences: seq<Fence>)

  function Centres(fences: seq<Fence>): seq<Point> {
    seq(|fences|, i requires 0 <= i < |fences| => fences[i].at)
  }

  function Radii(fences: seq<Fence>): seq<real> {
    seq(|fences|, i requires 0 <= i < |fences| => fences[i].radiusM as real)
  }

  function Alone(f: Fence): Group {
    Group(f.at, f.radiusM, [f])
  }

  function AloneEach(fences: seq<Fence>): (gs: seq<Group>)
    ensures |gs| == |fences|
    ensures forall i :: 0 <= i < |gs| ==> gs[i] == Alone(fences[i])
  {
    if |fences| == 0 then [] else AloneEach(Front(fences)) + [Alone(Last(fences))]
  }

  function GroupsOf(dist: Metric, fences: seq<Fence>): seq<Group> {
    if |fences| == 0 then []
    else
      var (mid, r) := Bounding(dist, Centres(fences), Radii(fences));
      if r <= MAX_QUERY_RADIUS_M as real then [Group(mid, Truncate(r) + 1, fences)]
      else AloneEach(fences)
  }

  method GroupFences(dist: Metric, fences: seq<Fence>) returns (out: seq<Group>)
    ensures out == GroupsOf(dist, fences)
  {
    if |fences| == 0 {
      return [];
    }
    var centres, radii := [], [];
    for i := 0 to |fences|
      invariant |centres| == |radii| == i
      invariant forall j :: 0 <= j < i ==> centres[j] == fences[j].at && radii[j] == fences[j].radiusM as real
    {
      centres := centres + [fences[i].at];
      radii := radii + [fences[i].radiusM as real];
    }
    assert centres == Centres(fences) && radii == Radii(fences);
    var mid, r := BoundingRadius(dist, centres, radii);
    if r <= MAX_QUERY_RADIUS_M as real {
      return [Group(mid, Truncate(r) + 1, fences)];
    }
    out := [];
    for i := 0 to |fences|
      invariant |out| == i
      invariant forall j :: 0 <= j < i ==> out[j] == Alone(fences[j])
    {
      out := out + [Group(fences[i].at, fences[i].radiusM, [fences[i]])];
    }
  }

  ghost predicate DistinctIds(fs: seq<Fence>) {
    forall i, j :: 0 <= i < j < |fs| ==> fs[i].id != fs[j].id
  }

  /** A list of fences from a table names each fence once. */
  lemma FenceListHasDistinctIds(t: Tables, fs: seq<Fence>)
    requires IsFenceList(t, fs)
    ensures DistinctIds(fs)
  {
    forall i, j | 0 <= i < j < |fs|
      ensures fs[i].id != fs[j].id
    {
      assert fs[i] in fs && fs[j] in fs;
    }
  }

  ghost predicate DistinctWatches(ws: seq<Watch>) {
    forall i, j :: 0 <= i < j < |ws| ==> ws[i].id != ws[j].id
  }

  lemma ArmedListHasDistinctIds(t: Tables, now: int, ws: seq<Watch>)
    requires IsArmedList(t, now, ws)
    ensures DistinctWatches(ws)
  {
    forall i, j | 0 <= i < j < |ws|
      ensures ws[i].id != ws[j].id
    {
      assert ws[i] in ws && ws[j] in ws;
    }
  }

  function Members(gs: seq<Group>): seq<Fence> {
    if |gs| == 0 then [] else Members(Front(gs)) + Last(gs).fences
  }

  lemma {:induction false} AloneMembers(fences: seq<Fence>)
    ensures Members(AloneEach(fences)) == fences
  {
    if |fences| > 0 {
      AloneMembers(Front(fences));
      assert Front(AloneEach(fences)) == AloneEach(Front(fences));
    }
  }

  /** Every fence is in exactly one group, in its place; one query serves all of
      them or each has its own; and no query is wider than 2001 m unless a single
      fence is. */
  lemma GroupsPartitionFences(dist: Metric, fences: seq<Fence>)
    ensures var gs := GroupsOf(dist, fences);
            && Members(gs) == fences
            && (|gs| == 1 || |gs| == |fences|)
            && (forall i :: 0 <= i < |gs| ==> gs[i].radiusM <= MAX_QUERY_RADIUS_M + 1 || gs[i] == Alone(fences[i]))
  {
    var gs := GroupsOf(dist, fences);
    if |fences| > 0 {
      var (mid, r) := Bounding(dist, Centres(fences), Radii(fences));
      if r <= MAX_QUERY_RADIUS_M as real {
        ReachIsLeastCover(dist, mid, Centres(fences), Radii(fences), |fences|);
        assert Front(gs) == [];
        assert Members(gs) == Members([]) + fences;
      } else {
        AloneMembers(fences);
      }
    }
  }

  /** One fence of 2000 m is queried with 2001 m. */
  lemma OverwideQueryOccurs(dist: Metric, f: Fence)
    requires IsDistance(dist) && f.radiusM == MAX_QUERY_RADIUS_M
    ensures GroupsOf(dist, [f]) == [Group(f.at, MAX_QUERY_RADIUS_M + 1, [f])]
  {
    assert Centres([f]) == [f.at] && Radii([f]) == [f.radiusM as real];
    CentroidIsMean([], f.at);
    assert Reach(dist, f.at, [f.at], [f.radiusM as real], 0) == 0.0;
    assert Reach(dist, f.at, [f.at], [f.radiusM as real], 1) == MAX_QUERY_RADIUS_M as real;
  }

  /** A query is wider than the limit exactly when the bounding circle is the limit
      to the metre, or some fence is wider than the limit itself. */
  lemma OverwideExactly(dist: Metric, fences: seq<Fence>)
    requires IsDistance(dist) && |fences| > 0
    ensures (exists g :: g in GroupsOf(dist, fences) && g.radiusM > MAX_QUERY_RADIUS_M) <==>
              || Bounding(dist, Centres(fences), Radii(fences)).1 == MAX_QUERY_RADIUS_M as real
              || exists f :: f in fences && f.radiusM > MAX_QUERY_RADIUS_M
  {
    var (mid, r) := Bounding(dist, Centres(fences), Radii(fences));
    ReachIsLeastCover(dist, mid, Centres(fences), Radii(fences), |fences|);
    hide Reach, Centroid;
    if r <= MAX_QUERY_RADIUS_M as real {
      forall f | f in fences
        ensures f.radiusM <= MAX_QUERY_RADIUS_M
      {
        var i :| 0 <= i < |fences| && fences[i] == f;
        assert dist(mid, Centres(fences)[i]) + RadiusAt(Radii(fences), i) <= r;
      }
      assert GroupsOf(dist, fences)[0].radiusM == Truncate(r) + 1;
    } else {
      var gs := GroupsOf(dist, fences);
      assert gs == AloneEach(fences);
      if f :| f in fences && f.radiusM > MAX_QUERY_RADIUS_M {
        var i :| 0 <= i < |fences| && fences[i] == f;
        assert gs[i] in gs && gs[i].radiusM == f.radiusM;
      }
      if g :| g in gs && g.radiusM > MAX_QUERY_RADIUS_M {
        var i :| 0 <= i < |gs| && gs[i] == g;
        assert fences[i] in fences;
      }
    }
  }

  lemma {:induction false} ReachIsTouched(dist: Metric, mid: Point, fences: seq<Fence>, n: nat)
    requires n <= |fences|
    ensures var r := Reach(dist, mid, Centres(fences), Radii(fences), n);
            r == 0.0 || exists f :: f in fences && dist(mid, f.at) + f.radiusM as real == r
  {
    if n > 0 {
      ReachIsTouched(dist, mid, fences, n - 1);
      assert fences[n - 1] in fences;
      assert dist(mid, Centres(fences)[n - 1]) + RadiusAt(Radii(fences), n - 1) == dist(mid, fences[n - 1].at) + fences[n - 1].radiusM as real;
    }
  }

  /** The reach over fences: it covers them, and one of them touches it. */
  lemma ReachOfFences(dist: Metric, mid: Point, fences: seq<Fence>)
    ensures var r := Reach(dist, mid, Centres(fences), Radii(fences), |fences|);
            && r >= 0.0 && (forall f :: f in fences ==> dist(mid, f.at) + f.radiusM as real <= r)
            && (r == 0.0 || exists f :: f in fences && dist(mid, f.at) + f.radiusM as real == r)
  {
    ReachIsLeastCover(dist, mid, Centres(fences), Radii(fences), |fences|);
    forall f | f in fences
      ensures dist(mid, f.at) + f.radiusM as real <= Reach(dist, mid, Centres(fences), Radii(fences), |fences|)
    {
      var i :| 0 <= i < |fences| && fences[i] == f;
      assert dist(mid, Centres(fences)[i]) + RadiusAt(Radii(fences), i) == dist(mid, f.at) + f.radiusM as real;
    }
    ReachIsTouched(dist, mid, fences, |fences|);
  }

  /** One query serves all fences exactly when a circle of 2000 m around the centroid
      of their centres covers them, and it is then wider than it need be by a metre at
      most. */
  lemma SharedExactly(dist: Metric, fences: seq<Fence>)
    requires |fences| > 0
    ensures var gs, mid := GroupsOf(dist, fences), Centroid(Centres(fences));
            var fits := forall f :: f in fences ==> dist(mid, f.at) + f.radiusM as real <= 2000.0;
            && (fits ==>
                  && |gs| == 1 && gs[0].fences == fences && gs[0].at == mid
                  && (forall f :: f in fences ==> dist(mid, f.at) + f.radiusM as real <= gs[0].radiusM as real)
                  && (gs[0].radiusM <= 1 || exists f :: f in fences && gs[0].radiusM as real - 1.0 <= dist(mid, f.at) + f.radiusM as real))
            && (!fits ==>
                  |gs| == |fences| && forall i :: 0 <= i < |fences| ==> gs[i] == Group(fences[i].at, fences[i].radiusM, [fences[i]]))
  {
    var mid := Centroid(Centres(fences));
    var r := Reach(dist, mid, Centres(fences), Radii(fences), |fences|);
    ReachOfFences(dist, mid, fences);
    hide Reach, Centroid;
  }

  /** Whatever is inside a fence is inside the query of its group. */
  lemma GroupCoversFence(dist: Metric, fences: seq<Fence>, g: Group, f: Fence, p: Point)
    requires IsDistance(dist)
    requires g in GroupsOf(dist, fences) && f in g.fences
    requires dist(f.at, p) <= f.radiusM as real
    ensures dist(g.at, p) <= g.radiusM as real
  {
    var (mid, r) := Bounding(dist, Centres(fences), Radii(fences));
    if r <= MAX_QUERY_RADIUS_M as real {
      var i :| 0 <= i < |fences| && fences[i] == f;
      BoundingCovers(dist, Centres(fences), Radii(fences), i, p);
      ReachIsLeastCover(dist, mid, Centres(fences), Radii(fences), |fences|);
      assert g == Group(mid, Truncate(r) + 1, fences);
    }
  }

  // ---------------------------------------------------------------------
  // Counting and nearest
  // ---------------------------------------------------------------------

  function CountKey(v: Vehicle): string {
    if v.operatorKey == "" then "unknown" else v.operatorKey
  }

  function SightingOf(): Vehicle -> Option<Sighting> {
    (v: Vehicle) => Some(Sighting(v.id, CountKey(v)))
  }

  function OperatorKeys(): set<string> {
    set o | o in OPERATORS :: o.key
  }

  function Get(m: map<string, int>, k: string): int {
    if k in m then m[k] else 0
  }

  function Tally(vs: seq<Vehicle>): map<string, int> {
    if |vs| == 0 then map[]
    else var m, k := Tally(Front(vs)), CountKey(Last(vs)); m[k := Get(m, k) + 1]
  }

  function WithZeros(m: map<string, int>): map<string, int> {
    map k | k in m.Keys + OperatorKeys() :: Get(m, k)
  }

  /** Counts per operator, with a zero for every known operator that is absent. */
  function CountsOf(vs: seq<Vehicle>): map<string, int> {
    WithZeros(Tally(vs))
  }

  function WithCountKey(k: string): Vehicle -> Option<Vehicle> {
    (v: Vehicle) => if CountKey(v) == k then Some(v) else None
  }

  function SumOver(ks: seq<string>, m: map<string, int>): int {
    if |ks| == 0 then 0 else SumOver(Front(ks), m) + Get(m, Last(ks))
  }

  /** Each count is the number of vehicles inside with that operator. */
  lemma {:induction false} TallyCounts(vs: seq<Vehicle>, k: string)
    ensures Get(Tally(vs), k) == |FilterMap(vs, WithCountKey(k))|
    ensures k in Tally(vs) <==> exists v :: v in vs && CountKey(v) == k
  {
    if |vs| > 0 {
      var before, v := Front(vs), Last(vs);
      TallyCounts(before, k);
      assert vs == before + [v];
      FilterMapSnoc(before, v, WithCountKey(k));
      hide FilterMap;
    }
  }

  lemma {:induction false} SumOverBump(ks: seq<string>, m: map<string, int>, k: string)
    requires Distinct(ks)
    ensures SumOver(ks, m[k := Get(m, k) + 1]) == SumOver(ks, m) + if k in ks then 1 else 0
  {
    if |ks| > 0 {
      SumOverBump(Front(ks), m, k);
      assert ks == Front(ks) + [Last(ks)];
      assert Last(ks) !in Front(ks);
    }
  }

  lemma {:induction false} SumOverSame(ks: seq<string>, m: map<string, int>, n: map<string, int>)
    requires forall k :: k in ks ==> Get(m, k) == Get(n, k)
    ensures SumOver(ks, m) == SumOver(ks, n)
  {
    if |ks| > 0 {
      SumOverSame(Front(ks), m, n);
    }
  }

  lemma {:induction false} SumOverEmpty(ks: seq<string>)
    ensures SumOver(ks, map[]) == 0
  {
    if |ks| > 0 {
      SumOverEmpty(Front(ks));
    }
  }

  lemma {:induction false} SumOverTally(ks: seq<string>, vs: seq<Vehicle>)
    requires Distinct(ks)
    requires forall v :: v in vs ==> CountKey(v) in ks
    ensures SumOver(ks, Tally(vs)) == |vs|
  {
    if |vs| == 0 {
      SumOverEmpty(ks);
    } else {
      SumOverTally(ks, Front(vs));
      SumOverBump(ks, Tally(Front(vs)), CountKey(Last(vs)));
    }
  }

  /** The counts of a fence add up to the vehicles inside it, in any order, and
      every known operator has one. */
  lemma CountsAddUp(vs: seq<Vehicle>, ks: seq<string>)
    requires Distinct(ks) && forall k :: k in ks <==> k in CountsOf(vs)
    ensures SumOver(ks, CountsOf(vs)) == |vs|
    ensures forall o :: o in OPERATORS ==> o.key in CountsOf(vs)
    ensures forall k :: k in CountsOf(vs) ==> CountsOf(vs)[k] == |FilterMap(vs, WithCountKey(k))|
  {
    forall k
      ensures Get(Tally(vs), k) == |FilterMap(vs, WithCountKey(k))|
      ensures k in Tally(vs) <==> exists v :: v in vs && CountKey(v) == k
    {
      TallyCounts(vs, k);
    }
    SumOverTally(ks, vs);
    SumOverSame(ks, CountsOf(vs), Tally(vs));
  }

  /** The closest vehicle of each operator inside the fence; the first of equals. */
  function ClosestOf(vs: seq<Vehicle>): map<string, Vehicle> {
    if |vs| == 0 then map[]
    else
      var m, v := ClosestOf(Front(vs)), Last(vs);
      if v.operatorKey == "" then m
      else if v.operatorKey !in m || v.distanceM < m[v.operatorKey].distanceM then m[v.operatorKey := v]
      else m
  }

  lemma {:induction false} ClosestIsNearest(vs: seq<Vehicle>, k: string)
    ensures k in ClosestOf(vs) <==> k != "" && exists v :: v in vs && v.operatorKey == k
    ensures k in ClosestOf(vs) ==>
              && ClosestOf(vs)[k] in vs && ClosestOf(vs)[k].operatorKey == k
              && forall v :: v in vs && v.operatorKey == k ==> ClosestOf(vs)[k].distanceM <= v.distanceM
  {
    if |vs| > 0 {
      ClosestIsNearest(Front(vs), k);
      assert vs == Front(vs) + [Last(vs)];
    }
  }

  /** And the first of those. */
  lemma {:induction false} ClosestIsFirst(vs: seq<Vehicle>, k: string)
    requires k in ClosestOf(vs)
    ensures exists i :: 0 <= i < |vs| && vs[i] == ClosestOf(vs)[k] && vs[i].operatorKey == k
                        && forall j :: 0 <= j < i && vs[j].operatorKey == k ==> vs[j].distanceM > vs[i].distanceM
  {
    var before, v := Front(vs), Last(vs);
    ClosestIsNearest(before, k);
    if k in ClosestOf(before) && ClosestOf(vs)[k] == ClosestOf(before)[k] {
      ClosestIsFirst(before, k);
      var i :| 0 <= i < |before| && before[i] == ClosestOf(before)[k] && before[i].operatorKey == k
               && forall j :: 0 <= j < i && before[j].operatorKey == k ==> before[j].distanceM > before[i].distanceM;
      assert vs[i] == before[i] && forall j :: 0 <= j < i ==> vs[j] == before[j];
    } else {
      var i := |vs| - 1;
      assert vs[i] == ClosestOf(vs)[k];
      assert forall j :: 0 <= j < i ==> vs[j] == before[j] && vs[j] in before;
    }
  }

  /** Rounds a distance to whole metres. */
  function Metres(d: real): int {
    Truncate(d + 0.5)
  }

  /** `m` is the whole number nearest to `d`, the larger of two equally near. */
  predicate Rounds(m: int, d: real) {
    m as real - 0.5 <= d < m as real + 0.5
  }

  lemma MetresRound(d: real, m: int)
    requires d >= 0.0
    ensures m == Metres(d) <==> Rounds(m, d)
  {}

  function NearestOf(dist: Metric, vs: seq<Vehicle>, f: Fence): Option<Vehicle> {
    if |vs| == 0 then None
    else
      var best, v := NearestOf(dist, Front(vs), f), Last(vs);
      if best.None? || dist(f.at, v.at) < dist(f.at, best.value.at) then Some(v) else best
  }

  method FindNearest(dist: Metric, vs: seq<Vehicle>, f: Fence) returns (best: Option<Vehicle>)
    ensures best == NearestOf(dist, vs, f)
  {
    best := None;
    for i := 0 to |vs|
      invariant best == NearestOf(dist, vs[..i], f)
    {
      assert vs[..i + 1] == vs[..i] + [vs[i]];
      assert Front(vs[..i + 1]) == vs[..i];
      if best.None? || dist(f.at, vs[i].at) < dist(f.at, best.value.at) {
        best := Some(vs[i]);
      }
    }
    assert vs[..|vs|] == vs;
  }

  lemma {:induction false} NearestOfIsNearest(dist: Metric, vs: seq<Vehicle>, f: Fence)
    ensures NearestOf(dist, vs, f).Some? <==> |vs| > 0
    ensures NearestOf(dist, vs, f).Some? ==>
              var best := NearestOf(dist, vs, f).value;
              best in vs && forall v :: v in vs ==> dist(f.at, best.at) <= dist(f.at, v.at)
  {
    if |vs| > 0 {
      NearestOfIsNearest(dist, Front(vs), f);
      assert vs == Front(vs) + [Last(vs)];
    }
  }

  /** And it is the first of the nearest. */
  lemma {:induction false} NearestOfIsFirst(dist: Metric, vs: seq<Vehicle>, f: Fence)
    requires |vs| > 0
    ensures exists i :: 0 <= i < |vs| && NearestOf(dist, vs, f) == Some(vs[i])
                        && forall j :: 0 <= j < i ==> dist(f.at, vs[j].at) > dist(f.at, vs[i].at)
  {
    var before := Front(vs);
    NearestOfIsNearest(dist, before, f);
    if |before| > 0 && NearestOf(dist, vs, f) == NearestOf(dist, before, f) {
      NearestOfIsFirst(dist, before, f);
      var i :| 0 <= i < |before| && NearestOf(dist, before, f) == Some(before[i])
               && forall j :: 0 <= j < i ==> dist(f.at, before[j].at) > dist(f.at, before[i].at);
      assert vs[i] == before[i] && forall j :: 0 <= j < i ==> vs[j] == before[j];
    } else {
      var i := |vs| - 1;
      assert NearestOf(dist, vs, f) == Some(vs[i]);
      assert forall j :: 0 <= j < i ==> vs[j] == before[j] && vs[j] in before;
    }
  }

  function Absent(closest: map<string, Vehicle>): Operator -> Option<Operator> {
    (o: Operator) => if o.key in closest then None else Some(o)
  }

  /** The one query a tick makes for a group. */
  function GroupQuery(g: Group): Query {
    Query(g.at, g.radiusM, [], 0, [], false, 0)
  }

  function ReachOf(reachM: int): int {
    if reachM <= 0 then DEFAULT_REACH_M else reachM
  }

  /** The wider lookup of one operator around a fence. */
  function ProbeQuery(f: Fence, reachM: int, o: Operator): Query {
    Query(f.at, ReachOf(reachM), [o.key], 0, [], false, NEAREST_PROBE_COUNT)
  }

  // ---------------------------------------------------------------------
  // Judging a watch
  // ---------------------------------------------------------------------

  /** An operator the watch depends on whose feed has stopped. A watch with no
      operators depends on all of them. */
  predicate DarkFor(w: Watch, dark: seq<string>) {
    |dark| > 0 && (|w.operatorKeys| == 0 || exists k :: k in w.operatorKeys && k in dark)
  }

  function NotInBaseline(w: Watch): Vehicle -> Option<Vehicle> {
    (v: Vehicle) => if v.id in w.baseline then None else Some(v)
  }

  datatype Verdict = Hold | Hit(vehicles: seq<Vehicle>) | BadKind

  function Judge(w: Watch, inside: seq<Vehicle>, dark: seq<string>): Verdict {
    var matching := FilterMap(inside, Wanted(w));
    match w.kind
    case Appearance =>
      var hit := FilterMap(matching, NotInBaseline(w));
      if |hit| == 0 then Hold else Hit(hit)
    case Scarcity =>
      if DarkFor(w, dark) then Hold
      else if |matching| > w.threshold then Hold
      else Hit(matching)
    case OtherKind => BadKind
  }

  /** A scarcity watch is due exactly when no feed it depends on is dark and few
      enough matching vehicles are in the fence. */
  lemma ScarcityIsExact(w: Watch, inside: seq<Vehicle>, dark: seq<string>)
    requires w.kind == Scarcity
    ensures Judge(w, inside, dark).Hit? <==>
              && (|w.operatorKeys| == 0 ==> dark == [])
              && (forall k :: k in w.operatorKeys ==> k !in dark)
              && |FilterMap(inside, Wanted(w))| <= w.threshold
  {}

  /** An appearance watch is due exactly when something it cares about is in the
      fence and not in its baseline, and it then reports all of that. */
  lemma AppearanceIsExact(w: Watch, inside: seq<Vehicle>, dark: seq<string>)
    requires w.kind == Appearance
    ensures Judge(w, inside, dark).Hit? <==>
              exists v :: v in inside && Wanted(w)(v).Some? && v.id !in w.baseline
    ensures Judge(w, inside, dark).Hit? ==>
              forall v :: v in Judge(w, inside, dark).vehicles <==>
                v in inside && Wanted(w)(v).Some? && v.id !in w.baseline
  {
    var matching := FilterMap(inside, Wanted(w));
    var hit := FilterMap(matching, NotInBaseline(w));
    forall v
      ensures v in hit <==> v in inside && Wanted(w)(v).Some? && v.id !in w.baseline
    {
      FilterMapMember(inside, Wanted(w), v);
      FilterMapMember(matching, NotInBaseline(w), v);
    }
    assert |hit| > 0 ==> hit[0] in hit;
  }
}
