/** One wide query, filtered locally, answers for every fence it covers; the
    arm-time baseline sees what the tick sees; and a capped probe still finds the
    nearest vehicle. */
module Coalesce {
  import opened Base
  import opened Geo
  import opened Entur
  import opened Schema
  import opened Poll

  function FenceQuery(f: Fence): Query {
    Query(f.at, f.radiusM, [], 0, [], false, 0)
  }

  /** What `createWatch` asks to learn the baseline. */
  function BaselineQuery(f: Fence, w: Watch): Query {
    Query(f.at, f.radiusM, w.operatorKeys, w.minRangeM, [], false, 0)
  }

  /** `res` is an answer to `q` while the upstream holds `feed`. */
  ghost predicate Fetches(dist: Metric, feed: seq<RawVehicle>, q: Query, rows: seq<RawVehicle>, res: FetchResult) {
    && q.radiusM > 0
    && IdsFor(q.operatorKeys).Some?
    && SelectsNearest(dist, feed, q, rows)
    && IsAnswer(dist, q, Rows(rows), res)
  }

  function ByNearness(dist: Metric, at: Point): RawVehicle -> real { (rv: RawVehicle) => dist(at, rv.at) }

  lemma NearBeforeFar<T>(near: seq<T>, far: seq<T>, key: T -> real, x: T, y: T)
    requires SortedBy(near + far, key) && x in near && y in far
    ensures key(x) <= key(y)
  {
    var all := near + far;
    var i :| 0 <= i < |near| && near[i] == x;
    var j :| 0 <= j < |far| && far[j] == y;
    assert all[i] == x && all[|near| + j] == y;
  }

  lemma PrefixIsNearest(dist: Metric, at: Point, near: seq<RawVehicle>, far: seq<RawVehicle>)
    requires SortedBy(near + far, ByNearness(dist, at))
    ensures multiset(near) <= multiset(near + far)
    ensures forall x, y :: x in multiset(near) && y in multiset(near + far) - multiset(near) ==>
              dist(at, x.at) <= dist(at, y.at)
  {
    hide SortedBy;
    assert multiset(near + far) - multiset(near) == multiset(far);
    forall x, y | x in multiset(near) && y in multiset(far)
      ensures dist(at, x.at) <= dist(at, y.at)
    {
      NearBeforeFar(near, far, ByNearness(dist, at), x, y);
    }
  }

  lemma NearestOfAll(dist: Metric, at: Point, all: seq<RawVehicle>, n: nat) returns (rows: seq<RawVehicle>)
    requires n <= |all|
    ensures |rows| == n && multiset(rows) <= multiset(all)
    ensures forall x, y :: x in multiset(rows) && y in multiset(all) - multiset(rows) ==> dist(at, x.at) <= dist(at, y.at)
  {
    hide SortBy;
    var ranked := SortBy(all, ByNearness(dist, at));
    SortByPermutes(all, ByNearness(dist, at));
    SortByOrders(all, ByNearness(dist, at));
    hide SortedBy;
    assert |ranked| == |multiset(ranked)| == |multiset(all)| == |all|;
    rows := ranked[..n];
    assert rows + ranked[n..] == ranked;
    PrefixIsNearest(dist, at, rows, ranked[n..]);
  }

  lemma AnswerToRows(dist: Metric, q: Query, rows: seq<RawVehicle>) returns (res: FetchResult)
    requires q.radiusM > 0 && IdsFor(q.operatorKeys).Some?
    ensures IsAnswer(dist, q, Rows(rows), res)
  {
    hide FilterMap, SortBy, IdsFor, SortedBy;
    var kept := FilterMap(rows, Converter(dist, q));
    SortByPermutes(kept, ByDistance());
    SortByOrders(kept, ByDistance());
    res := Fetched(SortBy(kept, ByDistance()), |rows|, |rows| >= LimitOf(q) && LimitOf(q) == MAX_RESULTS);
  }

  /** Whatever the feed holds, there is an answer to every query that is not
      refused. */
  lemma AnswersExist(dist: Metric, feed: seq<RawVehicle>, q: Query) returns (rows: seq<RawVehicle>, res: FetchResult)
    requires q.radiusM > 0 && IdsFor(q.operatorKeys).Some?
    ensures Fetches(dist, feed, q, rows, res)
  {
    hide FilterMap, IdsFor, IsAnswer, LimitOf;
    var all := FilterMap(feed, AreaOf(dist, q));
    rows := NearestOfAll(dist, q.at, all, if |all| <= LimitOf(q) then |all| else LimitOf(q));
    res := AnswerToRows(dist, q, rows);
  }

  /** Everything a query would keep of the whole feed. */
  function Pipeline(dist: Metric, q: Query): RawVehicle -> Option<Vehicle>
    requires IdsFor(q.operatorKeys).Some?
  {
    Then(AreaOf(dist, q), Converter(dist, q))
  }

  lemma UntruncatedIsWholePipeline(dist: Metric, feed: seq<RawVehicle>, q: Query, rows: seq<RawVehicle>,
                                   res: FetchResult)
    requires Fetches(dist, feed, q, rows, res) && |rows| < LimitOf(q)
    ensures multiset(res.vehicles) == multiset(FilterMap(feed, Pipeline(dist, q)))
  {
    UncappedIsComplete(dist, feed, q, rows);
    FilterMapPermuted(rows, FilterMap(feed, AreaOf(dist, q)), Converter(dist, q));
    FilterMapThen(feed, AreaOf(dist, q), Converter(dist, q));
  }

  lemma {:induction false} FilterMapShorter<T, U, V>(xs: seq<T>, f: T -> Option<U>, g: T -> Option<V>)
    requires forall x :: x in xs && f(x).Some? ==> g(x).Some?
    ensures |FilterMap(xs, f)| <= |FilterMap(xs, g)|
  {
    if |xs| > 0 {
      FilterMapShorter(Front(xs), f, g);
    }
  }

  lemma AllIds()
    ensures IdsFor([]).Some?
    ensures forall o :: o in OPERATORS ==> o.id in IdsFor([]).value
    ensures forall id :: id in IdsFor([]).value ==> exists o :: o in OPERATORS && o.id == id
  {
    var ids := IdsFor([]).value;
    forall o | o in OPERATORS
      ensures o.id in ids
    {
      IdRequestedIffKeyWanted([], o);
    }
    forall id | id in ids
      ensures exists o :: o in OPERATORS && o.id == id
    {
      var i :| 0 <= i < |ids| && ids[i] == id;
      assert OPERATORS[i] in OPERATORS;
    }
  }

  /** Asking for some operators never asks for an unknown id. */
  lemma RequestedIdsAreKnown(keys: seq<string>, id: string)
    requires IdsFor(keys).Some? && id in IdsFor(keys).value
    ensures exists o :: o in OPERATORS && o.id == id
  {
    if keys == [] {
      AllIds();
    } else {
      FilterMapMember(keys, IdOf, id);
      var k :| k in keys && IdOf(k) == Some(id);
      FindKeyFinds(OPERATORS, k);
    }
  }

  /** A vehicle passes the operator filter of the upstream exactly when its
      short key passes the filter of the tick. */
  lemma OperatorFiltersAgree(keys: seq<string>, rv: RawVehicle)
    requires IdsFor(keys).Some? && rv.operatorId.Some?
    ensures rv.operatorId.value in IdsFor(keys).value <==>
              IdsFor([]).Some? && rv.operatorId.value in IdsFor([]).value && (keys == [] || OperatorKeyOf(rv) in keys)
  {
    AllIds();
    var id := rv.operatorId.value;
    if id in IdsFor(keys).value {
      RequestedIdsAreKnown(keys, id);
    }
    if o :| o in OPERATORS && o.id == id {
      KeysAndIdsAreOneToOne(o);
      IdRequestedIffKeyWanted(keys, o);
    }
  }

  // ---------------------------------------------------------------------
  // Coalescing
  // ---------------------------------------------------------------------

  /** For one vehicle: wide query, conversion and local trim agree with the
      fence's own query. */
  lemma TrimAgrees(dist: Metric, fences: seq<Fence>, g: Group, f: Fence, rv: RawVehicle)
    requires IsDistance(dist) && f.radiusM > 0
    requires g in GroupsOf(dist, fences) && f in g.fences
    requires IdsFor([]).Some?
    ensures Then(Pipeline(dist, GroupQuery(g)), Rebase(dist, f))(rv) == Pipeline(dist, FenceQuery(f))(rv)
  {
    if dist(f.at, rv.at) <= f.radiusM as real {
      GroupCoversFence(dist, fences, g, f, rv.at);
    }
  }

  lemma FenceAreaIsInGroupArea(dist: Metric, fences: seq<Fence>, g: Group, f: Fence, q: Query, rv: RawVehicle)
    requires IsDistance(dist) && g in GroupsOf(dist, fences) && f in g.fences
    requires q.at == f.at && q.radiusM == f.radiusM && IdsFor(q.operatorKeys).Some?
    requires AreaOf(dist, q)(rv).Some?
    ensures IdsFor([]).Some? && AreaOf(dist, GroupQuery(g))(rv).Some?
  {
    OperatorFiltersAgree(q.operatorKeys, rv);
    GroupCoversFence(dist, fences, g, f, rv.at);
  }

  /** If the wide query was not capped, no query on one of its fences is. */
  lemma NarrowQueryIsUncapped(dist: Metric, fences: seq<Fence>, g: Group, f: Fence, feed: seq<RawVehicle>,
                              rows: seq<RawVehicle>, res: FetchResult, q: Query, qRows: seq<RawVehicle>)
    requires IsDistance(dist) && g in GroupsOf(dist, fences) && f in g.fences
    requires Fetches(dist, feed, GroupQuery(g), rows, res) && !res.truncated
    requires q.at == f.at && q.radiusM == f.radiusM && q.limit == 0 && IdsFor(q.operatorKeys).Some?
    requires SelectsNearest(dist, feed, q, qRows)
    ensures |rows| < MAX_RESULTS && |qRows| < MAX_RESULTS
  {
    var wide, narrow := FilterMap(feed, AreaOf(dist, GroupQuery(g))), FilterMap(feed, AreaOf(dist, q));
    forall rv | rv in feed && AreaOf(dist, q)(rv).Some?
      ensures AreaOf(dist, GroupQuery(g))(rv).Some?
    {
      FenceAreaIsInGroupArea(dist, fences, g, f, q, rv);
    }
    FilterMapShorter(feed, AreaOf(dist, q), AreaOf(dist, GroupQuery(g)));
  }

  lemma TrimmedPipeline(dist: Metric, fences: seq<Fence>, g: Group, f: Fence, feed: seq<RawVehicle>, vs: seq<Vehicle>)
    requires IsDistance(dist) && g in GroupsOf(dist, fences) && f in g.fences && f.radiusM > 0 && IdsFor([]).Some?
    requires multiset(vs) == multiset(FilterMap(feed, Pipeline(dist, GroupQuery(g))))
    ensures multiset(FilterMap(vs, Rebase(dist, f))) == multiset(FilterMap(feed, Pipeline(dist, FenceQuery(f))))
  {
    var wide := Pipeline(dist, GroupQuery(g));
    FilterMapPermuted(vs, FilterMap(feed, wide), Rebase(dist, f));
    FilterMapThen(feed, wide, Rebase(dist, f));
    forall rv | rv in feed
      ensures Then(wide, Rebase(dist, f))(rv) == Pipeline(dist, FenceQuery(f))(rv)
    {
      TrimAgrees(dist, fences, g, f, rv);
    }
    FilterMapSame(feed, Then(wide, Rebase(dist, f)), Pipeline(dist, FenceQuery(f)));
  }

  /** Trimming an uncapped wide result to a fence gives the very vehicles, with
      the very distances, of a query on that fence alone. */
  lemma CoalescingPreservesMeaning(dist: Metric, fences: seq<Fence>, g: Group, f: Fence, feed: seq<RawVehicle>,
                                   rows: seq<RawVehicle>, res: FetchResult, fRows: seq<RawVehicle>, fRes: FetchResult)
    requires IsDistance(dist) && g in GroupsOf(dist, fences) && f in g.fences
    requires Fetches(dist, feed, GroupQuery(g), rows, res) && !res.truncated
    requires Fetches(dist, feed, FenceQuery(f), fRows, fRes)
    ensures !fRes.truncated
    ensures multiset(FilterMap(res.vehicles, Rebase(dist, f))) == multiset(fRes.vehicles)
  {
    NarrowQueryIsUncapped(dist, fences, g, f, feed, rows, res, FenceQuery(f), fRows);
    UntruncatedIsWholePipeline(dist, feed, GroupQuery(g), rows, res);
    UntruncatedIsWholePipeline(dist, feed, FenceQuery(f), fRows, fRes);
    TrimmedPipeline(dist, fences, g, f, feed, res.vehicles);
  }

  lemma PermutedLength<T>(xs: seq<T>, ys: seq<T>)
    requires multiset(xs) == multiset(ys)
    ensures |xs| == |ys|
  {
    assert |xs| == |multiset(xs)| == |multiset(ys)| == |ys|;
  }

  lemma PermutedCounts(a: seq<Vehicle>, b: seq<Vehicle>, k: string)
    requires multiset(a) == multiset(b)
    ensures Get(CountsOf(a), k) == Get(CountsOf(b), k)
  {
    TallyCounts(a, k);
    TallyCounts(b, k);
    FilterMapPermuted(a, b, WithCountKey(k));
    PermutedLength(FilterMap(a, WithCountKey(k)), FilterMap(b, WithCountKey(k)));
    hide FilterMap;
  }

  lemma VerdictByNumbers(w: Watch, a: seq<Vehicle>, b: seq<Vehicle>, dark: seq<string>)
    requires |FilterMap(a, Wanted(w))| == |FilterMap(b, Wanted(w))|
    requires |FilterMap(FilterMap(a, Wanted(w)), NotInBaseline(w))| == |FilterMap(FilterMap(b, Wanted(w)), NotInBaseline(w))|
    ensures Judge(w, a, dark).Hit? <==> Judge(w, b, dark).Hit?
  {
    hide FilterMap, DarkFor;
  }

  lemma PermutedJudgement(w: Watch, a: seq<Vehicle>, b: seq<Vehicle>, dark: seq<string>)
    requires multiset(a) == multiset(b)
    ensures Judge(w, a, dark).Hit? <==> Judge(w, b, dark).Hit?
  {
    hide *;
    var x, y := FilterMap(a, Wanted(w)), FilterMap(b, Wanted(w));
    FilterMapPermuted(a, b, Wanted(w));
    FilterMapPermuted(x, y, NotInBaseline(w));
    PermutedLength(x, y);
    PermutedLength(FilterMap(x, NotInBaseline(w)), FilterMap(y, NotInBaseline(w)));
    VerdictByNumbers(w, a, b, dark);
  }

  /** However fences are grouped, each sees the same vehicles, at the same distances
      and in the same numbers, and its watches find the same number of matches; so
      regrouping the fences that are left changes none of it. */
  lemma GroupingDoesNotMatter(dist: Metric, f: Fence, feed: seq<RawVehicle>, w: Watch,
                              fences: seq<Fence>, g: Group, rows: seq<RawVehicle>, res: FetchResult,
                              fences': seq<Fence>, g': Group, rows': seq<RawVehicle>, res': FetchResult)
    requires IsDistance(dist) && f.radiusM > 0
    requires g in GroupsOf(dist, fences) && f in g.fences && Fetches(dist, feed, GroupQuery(g), rows, res) && !res.truncated
    requires g' in GroupsOf(dist, fences') && f in g'.fences && Fetches(dist, feed, GroupQuery(g'), rows', res') && !res'.truncated
    ensures var inside, inside' := FilterMap(res.vehicles, Rebase(dist, f)), FilterMap(res'.vehicles, Rebase(dist, f));
            && multiset(inside) == multiset(inside')
            && (forall k :: Get(CountsOf(inside), k) == Get(CountsOf(inside'), k))
            && multiset(FilterMap(inside, Wanted(w))) == multiset(FilterMap(inside', Wanted(w)))
            && forall dark :: Judge(w, inside, dark).Hit? <==> Judge(w, inside', dark).Hit?
  {
    AllIds();
    var inside, inside' := FilterMap(res.vehicles, Rebase(dist, f)), FilterMap(res'.vehicles, Rebase(dist, f));
    hide GroupsOf, FilterMap, CountsOf, Judge, IdsFor;
    UntruncatedIsWholePipeline(dist, feed, GroupQuery(g), rows, res);
    UntruncatedIsWholePipeline(dist, feed, GroupQuery(g'), rows', res');
    TrimmedPipeline(dist, fences, g, f, feed, res.vehicles);
    TrimmedPipeline(dist, fences', g', f, feed, res'.vehicles);
    FilterMapPermuted(inside, inside', Wanted(w));
    forall k
      ensures Get(CountsOf(inside), k) == Get(CountsOf(inside'), k)
    {
      PermutedCounts(inside, inside', k);
    }
    forall dark
      ensures Judge(w, inside, dark).Hit? <==> Judge(w, inside', dark).Hit?
    {
      PermutedJudgement(w, inside, inside', dark);
    }
  }

  // ---------------------------------------------------------------------
  // The baseline
  // ---------------------------------------------------------------------

  /** For one vehicle: what the tick matches, the arm-time query kept; and the
      other way round when the range floor is not negative. */
  lemma MatchAgrees(dist: Metric, f: Fence, w: Watch, rv: RawVehicle)
    requires IdsFor(w.operatorKeys).Some? && IdsFor([]).Some?
    ensures var tick := Then(Pipeline(dist, FenceQuery(f)), Wanted(w))(rv);
            var arm := Pipeline(dist, BaselineQuery(f, w))(rv);
            (tick.Some? || w.minRangeM >= 0) ==> tick == arm
  {
    if rv.operatorId.Some? {
      OperatorFiltersAgree(w.operatorKeys, rv);
    }
  }

  /** Arming and ticking select the same vehicles from the same feed, unless the
      watch was given a negative range floor. */
  lemma ArmAndTickSelectTheSame(dist: Metric, fences: seq<Fence>, g: Group, f: Fence, w: Watch, feed: seq<RawVehicle>,
                                rows: seq<RawVehicle>, res: FetchResult, bRows: seq<RawVehicle>, bRes: FetchResult)
    requires IsDistance(dist) && g in GroupsOf(dist, fences) && f in g.fences
    requires Fetches(dist, feed, GroupQuery(g), rows, res) && !res.truncated
    requires Fetches(dist, feed, BaselineQuery(f, w), bRows, bRes)
    requires w.minRangeM >= 0
    ensures !bRes.truncated
    ensures multiset(FilterMap(FilterMap(res.vehicles, Rebase(dist, f)), Wanted(w))) == multiset(bRes.vehicles)
  {
    NarrowQueryIsUncapped(dist, fences, g, f, feed, rows, res, BaselineQuery(f, w), bRows);
    UntruncatedIsWholePipeline(dist, feed, GroupQuery(g), rows, res);
    UntruncatedIsWholePipeline(dist, feed, BaselineQuery(f, w), bRows, bRes);
    AllIds();
    TrimmedPipeline(dist, fences, g, f, feed, res.vehicles);
    var own := Pipeline(dist, FenceQuery(f));
    FilterMapPermuted(FilterMap(res.vehicles, Rebase(dist, f)), FilterMap(feed, own), Wanted(w));
    FilterMapThen(feed, own, Wanted(w));
    forall rv | rv in feed
      ensures Then(own, Wanted(w))(rv) == Pipeline(dist, BaselineQuery(f, w))(rv)
    {
      MatchAgrees(dist, f, w, rv);
    }
    FilterMapSame(feed, Then(own, Wanted(w)), Pipeline(dist, BaselineQuery(f, w)));
  }

  function IdOfVehicle(): Vehicle -> Option<string> { (v: Vehicle) => Some(v.id) }

  /** The baseline `createWatch` stores. */
  function BaselineOf(res: FetchResult): seq<string>
    requires res.Fetched?
  {
    FilterMap(res.vehicles, IdOfVehicle())
  }

  lemma KeptByBoth<T, U>(xs: seq<T>, f: T -> Option<U>, g: T -> Option<U>, ys: seq<U>, zs: seq<U>, y: U)
    requires multiset(ys) == multiset(FilterMap(xs, f)) && multiset(zs) == multiset(FilterMap(xs, g))
    requires y in ys
    requires forall x :: x in xs && f(x) == Some(y) ==> g(x) == Some(y)
    ensures y in zs
  {
    assert y in multiset(ys);
    FilterMapMember(xs, f, y);
    FilterMapMember(xs, g, y);
    assert y in multiset(zs);
  }

  lemma MatchedIsInBaseline(dist: Metric, f: Fence, w: Watch, feed: seq<RawVehicle>, inside: seq<Vehicle>,
                            armed: seq<Vehicle>, v: Vehicle)
    requires IdsFor(w.operatorKeys).Some? && IdsFor([]).Some?
    requires multiset(inside) == multiset(FilterMap(feed, Pipeline(dist, FenceQuery(f))))
    requires multiset(armed) == multiset(FilterMap(feed, Pipeline(dist, BaselineQuery(f, w))))
    requires v in inside && Wanted(w)(v).Some?
    ensures v.id in FilterMap(armed, IdOfVehicle())
  {
    var own, arm := Pipeline(dist, FenceQuery(f)), Pipeline(dist, BaselineQuery(f, w));
    forall rv | rv in feed && own(rv) == Some(v)
      ensures arm(rv) == Some(v)
    {
      MatchAgrees(dist, f, w, rv);
    }
    KeptByBoth(feed, own, arm, inside, armed, v);
    FilterMapMember(armed, IdOfVehicle(), v.id);
  }

  /** An appearance watch armed on a feed does not fire on that feed, whatever
      its operators and range floor. */
  lemma ArmingNeverFiresOnWhatWasThere(dist: Metric, fences: seq<Fence>, g: Group, f: Fence, w: Watch,
                                       feed: seq<RawVehicle>,
                                       rows: seq<RawVehicle>, res: FetchResult, bRows: seq<RawVehicle>, bRes: FetchResult,
                                       dark: seq<string>)
    requires IsDistance(dist) && g in GroupsOf(dist, fences) && f in g.fences
    requires Fetches(dist, feed, GroupQuery(g), rows, res) && !res.truncated
    requires Fetches(dist, feed, BaselineQuery(f, w), bRows, bRes)
    requires w.kind == Appearance && w.baseline == BaselineOf(bRes)
    ensures Judge(w, FilterMap(res.vehicles, Rebase(dist, f)), dark) == Hold
  {
    var inside := FilterMap(res.vehicles, Rebase(dist, f));
    AllIds();
    NarrowQueryIsUncapped(dist, fences, g, f, feed, rows, res, BaselineQuery(f, w), bRows);
    UntruncatedIsWholePipeline(dist, feed, GroupQuery(g), rows, res);
    UntruncatedIsWholePipeline(dist, feed, BaselineQuery(f, w), bRows, bRes);
    TrimmedPipeline(dist, fences, g, f, feed, res.vehicles);
    forall v | v in inside && Wanted(w)(v).Some?
      ensures v.id in w.baseline
    {
      MatchedIsInBaseline(dist, f, w, feed, inside, bRes.vehicles, v);
    }
    AppearanceIsExact(w, inside, dark);
  }

  /** An operator whose vehicles a request for these keys covers. */
  lemma SomeOperator(keys: seq<string>) returns (o: Operator)
    requires IdsFor(keys).Some?
    ensures o in OPERATORS && (keys == [] || o.key in keys)
  {
    if keys == [] {
      o := OPERATORS[0];
    } else {
      assert keys[0] in keys;
      o := Lookup(keys[0]).value;
      FindKeyFinds(OPERATORS, keys[0]);
    }
  }

  /** The floor must not be negative: otherwise some feed is kept when arming
      and dropped by every tick. */
  lemma NegativeFloorDiffers(dist: Metric, f: Fence, w: Watch) returns (feed: seq<RawVehicle>)
    requires IsDistance(dist) && f.radiusM > 0
    requires w.minRangeM < 0 && IdsFor(w.operatorKeys).Some?
    ensures IdsFor([]).Some?
    ensures FilterMap(FilterMap(feed, Pipeline(dist, FenceQuery(f))), Wanted(w)) == []
    ensures |FilterMap(feed, Pipeline(dist, BaselineQuery(f, w)))| == 1
  {
    AllIds();
    var o := SomeOperator(w.operatorKeys);
    IdRequestedIffKeyWanted(w.operatorKeys, o);
    hide IdsFor;
    var rv := RawVehicle("x", f.at, false, false, Some(w.minRangeM as real), Some(SCOOTER_STANDING), Some(o.id));
    feed := [rv];
    assert RangeOf(rv) == w.minRangeM;
    FilterMapNothing(feed, Pipeline(dist, FenceQuery(f)));
    assert Pipeline(dist, BaselineQuery(f, w))(rv).Some?;
    FilterMapSnoc([], rv, Pipeline(dist, BaselineQuery(f, w)));
    assert [] + [rv] == feed;
  }

  // ---------------------------------------------------------------------
  // Probes
  // ---------------------------------------------------------------------

  /** A vehicle of the operator that can be rented, within reach. */
  ghost predicate Reachable(dist: Metric, feed: seq<RawVehicle>, q: Query, rv: RawVehicle)
    requires IdsFor(q.operatorKeys).Some?
  {
    rv in feed && Pipeline(dist, q)(rv).Some?
  }

  lemma KeptRow(dist: Metric, q: Query, rows: seq<RawVehicle>, res: FetchResult, v: Vehicle) returns (rv: RawVehicle)
    requires IsAnswer(dist, q, Rows(rows), res) && res.Fetched? && v in res.vehicles
    ensures rv in rows && Convert(dist, q, rv) == Some(v)
  {
    assert v in multiset(res.vehicles);
    FilterMapMember(rows, Converter(dist, q), v);
    rv :| rv in rows && Converter(dist, q)(rv) == Some(v);
  }

  lemma WithheldIsFarther(dist: Metric, feed: seq<RawVehicle>, q: Query, rows: seq<RawVehicle>, row: RawVehicle,
                          rv: RawVehicle)
    requires IdsFor(q.operatorKeys).Some? && SelectsNearest(dist, feed, q, rows)
    requires row in rows && rv in feed && rv !in rows && AreaOf(dist, q)(rv) == Some(rv)
    ensures dist(q.at, row.at) <= dist(q.at, rv.at)
  {
    FilterMapMember(feed, AreaOf(dist, q), rv);
    var all := FilterMap(feed, AreaOf(dist, q));
    assert row in multiset(rows) && rv in multiset(all) && rv !in multiset(rows);
    assert rv in multiset(all) - multiset(rows);
  }

  /** If anything the probe returned can be rented, the vehicle picked is the
      nearest one that can be within reach. */
  lemma ProbeFindsTrueNearest(dist: Metric, f: Fence, q: Query, feed: seq<RawVehicle>, rows: seq<RawVehicle>,
                              res: FetchResult, rv: RawVehicle)
    requires q.at == f.at && Fetches(dist, feed, q, rows, res) && |res.vehicles| > 0
    requires Reachable(dist, feed, q, rv)
    ensures NearestOf(dist, res.vehicles, f).Some?
    ensures dist(f.at, NearestOf(dist, res.vehicles, f).value.at) <= dist(f.at, rv.at)
  {
    NearestOfIsNearest(dist, res.vehicles, f);
    var best := NearestOf(dist, res.vehicles, f).value;
    var row := KeptRow(dist, q, rows, res, best);
    if rv in rows {
      var v := Convert(dist, q, rv).value;
      FilterMapMember(rows, Converter(dist, q), v);
      assert v in multiset(res.vehicles);
    } else {
      WithheldIsFarther(dist, feed, q, rows, row, rv);
    }
  }

  lemma ReachableIsReturned(dist: Metric, q: Query, feed: seq<RawVehicle>, rows: seq<RawVehicle>, res: FetchResult,
                            rv: RawVehicle)
    requires Fetches(dist, feed, q, rows, res) && |rows| < LimitOf(q)
    requires Reachable(dist, feed, q, rv)
    ensures |res.vehicles| > 0
  {
    UntruncatedIsWholePipeline(dist, feed, q, rows, res);
    FilterMapMember(feed, Pipeline(dist, q), Pipeline(dist, q)(rv).value);
    assert Pipeline(dist, q)(rv).value in multiset(res.vehicles);
  }

  /** Nothing picked from a page that is not full means nothing is there. */
  lemma NothingOnAShortPageIsTrueAbsence(dist: Metric, f: Fence, q: Query, feed: seq<RawVehicle>, rows: seq<RawVehicle>,
                                         res: FetchResult, rv: RawVehicle)
    requires q.at == f.at && Fetches(dist, feed, q, rows, res)
    requires NearestOf(dist, res.vehicles, f).None? && res.returned < LimitOf(q)
    ensures !Reachable(dist, feed, q, rv)
  {
    NearestOfIsNearest(dist, res.vehicles, f);
    if Reachable(dist, feed, q, rv) {
      ReachableIsReturned(dist, q, feed, rows, res, rv);
      assert false;
    }
  }

  lemma {:induction false} FarthestRow(dist: Metric, at: Point, rows: seq<RawVehicle>) returns (far: RawVehicle)
    requires |rows| > 0
    ensures far in rows && forall x :: x in rows ==> dist(at, x.at) <= dist(at, far.at)
  {
    far := rows[0];
    for i := 0 to |rows|
      invariant far in rows && forall x :: x in rows[..i] ==> dist(at, x.at) <= dist(at, far.at)
    {
      if dist(at, rows[i].at) > dist(at, far.at) {
        far := rows[i];
      }
      assert rows[..i + 1] == rows[..i] + [rows[i]];
    }
    assert rows[..|rows|] == rows;
  }

  /** One more vehicle no nearer than the farthest row leaves a full page valid. */
  lemma FartherVehicleIsWithheld(dist: Metric, feed: seq<RawVehicle>, q: Query, rows: seq<RawVehicle>, rv: RawVehicle)
    requires IdsFor(q.operatorKeys).Some?
    requires SelectsNearest(dist, feed, q, rows) && |rows| == LimitOf(q)
    requires AreaOf(dist, q)(rv) == Some(rv)
    requires forall x :: x in rows ==> dist(q.at, x.at) <= dist(q.at, rv.at)
    ensures SelectsNearest(dist, feed + [rv], q, rows)
  {
    var all := FilterMap(feed, AreaOf(dist, q));
    FilterMapSnoc(feed, rv, AreaOf(dist, q));
    var more := all + [rv];
    assert FilterMap(feed + [rv], AreaOf(dist, q)) == more;
    assert multiset(more) == multiset(all) + multiset{rv};
    forall x, y | x in multiset(rows) && y in multiset(more) - multiset(rows)
      ensures dist(q.at, x.at) <= dist(q.at, y.at)
    {
      if y != rv {
        assert y in multiset(all) - multiset(rows);
      }
    }
  }

  function MadeRentable(rv: RawVehicle, id: string): RawVehicle {
    rv.(id := id, disabled := false, reserved := false, rangeM := None, formFactor := Some(SCOOTER_STANDING))
  }

  lemma MadeRentableIsKept(dist: Metric, feed: seq<RawVehicle>, q: Query, rv: RawVehicle, id: string)
    requires IdsFor(q.operatorKeys).Some? && q.minRangeM == 0 && q.formFactors == []
    requires rv in FilterMap(feed, AreaOf(dist, q))
    ensures AreaOf(dist, q)(MadeRentable(rv, id)) == Some(MadeRentable(rv, id))
    ensures Pipeline(dist, q)(MadeRentable(rv, id)).Some?
  {
    FilterMapMember(feed, AreaOf(dist, q), rv);
  }

  /** Longer than every id in the feed. */
  function FreshId(feed: seq<RawVehicle>): (id: string)
    ensures forall rv :: rv in feed ==> |rv.id| < |id|
  {
    if |feed| == 0 then "x"
    else
      var id := FreshId(feed[1..]);
      assert feed == [feed[0]] + feed[1..];
      if |feed[0].id| < |id| then id else feed[0].id + "x"
  }

  /** A full page of vehicles that cannot be rented decides nothing: whatever the
      feed, one more vehicle, not seen before, can be rentable and in reach without
      changing the answer. */
  lemma FullPageOfUnrentableDecidesNothing(dist: Metric, feed: seq<RawVehicle>, q: Query, rows: seq<RawVehicle>,
                                           res: FetchResult)
      returns (other: seq<RawVehicle>, rv: RawVehicle)
    requires Fetches(dist, feed, q, rows, res) && |rows| == LimitOf(q) && res.vehicles == []
    requires q.minRangeM == 0 && q.formFactors == []
    ensures other == feed + [rv] && forall x :: x in feed ==> x.id != rv.id
    ensures Fetches(dist, other, q, rows, res)
    ensures Reachable(dist, other, q, rv)
  {
    var far := FarthestRow(dist, q.at, rows);
    assert far in multiset(rows);
    assert far in multiset(FilterMap(feed, AreaOf(dist, q)));
    MadeRentableIsKept(dist, feed, q, far, FreshId(feed));
    rv := MadeRentable(far, FreshId(feed));
    FartherVehicleIsWithheld(dist, feed, q, rows, rv);
    other := feed + [rv];
    assert other[|feed|] == rv;
  }
}
