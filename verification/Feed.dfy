/** What answers say about the vehicles upstream publishes, in terms of the fields
    it publishes them with (`internal/entur/client.go`, `internal/poll/poll.go`). */
module Feed {
  import opened Base
  import opened Geo
  import opened Entur
  import opened Schema
  import opened Poll
  import opened Coalesce
  import opened Plan
  import opened Records

  // ---------------------------------------------------------------------
  // One vehicle
  // ---------------------------------------------------------------------

  /** `m` is `x` with its fraction dropped. */
  ghost predicate WholePart(m: int, x: real) {
    if x >= 0.0 then m as real <= x < m as real + 1.0 else m as real - 1.0 < x <= m as real
  }

  /** `v` is the vehicle `rv` seen from a point `d` metres away. */
  ghost predicate Shows(v: Vehicle, rv: RawVehicle, d: real) {
    && v.id == rv.id && v.at == rv.at && v.distanceM == d
    && v.disabled == rv.disabled && v.reserved == rv.reserved
    && v.formFactor == (if rv.formFactor.Some? then rv.formFactor.value else "")
    && (if rv.rangeM.Some? then WholePart(v.rangeM, rv.rangeM.value) else v.rangeM == 0)
    && (forall o :: o in OPERATORS && rv.operatorId == Some(o.id) ==> v.operatorKey == o.key)
    && ((forall o :: o in OPERATORS ==> rv.operatorId != Some(o.id)) ==> v.operatorKey == "")
  }

  /** A standing scooter that can be rented; one without a range counts as empty. */
  ghost predicate Rentable(rv: RawVehicle) {
    && !rv.disabled && !rv.reserved
    && rv.formFactor == Some("SCOOTER_STANDING")
    && (rv.rangeM.Some? ==> rv.rangeM.value > -1.0)
  }

  lemma WholePartIsTruncate(m: int, x: real)
    ensures WholePart(m, x) <==> m == Truncate(x)
  {
    var n := Truncate(x);
    assert WholePart(n, x);
  }

  lemma RangeIsWholePart(v: Vehicle, rv: RawVehicle)
    ensures v.rangeM == RangeOf(rv) <==> if rv.rangeM.Some? then WholePart(v.rangeM, rv.rangeM.value) else v.rangeM == 0
  {
    if rv.rangeM.Some? {
      WholePartIsTruncate(v.rangeM, rv.rangeM.value);
    }
  }

  lemma KeyOfOperator(rv: RawVehicle)
    ensures forall o :: o in OPERATORS && rv.operatorId == Some(o.id) ==> OperatorKeyOf(rv) == o.key
    ensures (forall o :: o in OPERATORS ==> rv.operatorId != Some(o.id)) ==> OperatorKeyOf(rv) == ""
  {
    forall o | o in OPERATORS && rv.operatorId == Some(o.id)
      ensures OperatorKeyOf(rv) == o.key
    {
      KeysAndIdsAreOneToOne(o);
    }
    if rv.operatorId.Some? {
      FindIdFinds(OPERATORS, rv.operatorId.value);
    }
  }

  lemma ShowsIsTheConversion(v: Vehicle, rv: RawVehicle, d: real)
    ensures Shows(v, rv, d) <==>
              v == Vehicle(rv.id, rv.at, d, OperatorKeyOf(rv), FormOf(rv), RangeOf(rv), rv.disabled, rv.reserved)
  {
    KeyOfOperator(rv);
    RangeIsWholePart(v, rv);
    hide OperatorKeyOf, RangeOf, WholePart;
    if forall o :: o in OPERATORS ==> rv.operatorId != Some(o.id) {
    } else {
      var o :| o in OPERATORS && rv.operatorId == Some(o.id);
    }
  }

  // ---------------------------------------------------------------------
  // An answer
  // ---------------------------------------------------------------------

  /** The query keeps the vehicle, which is shown as `v`. */
  ghost predicate Keeps(q: Query, rv: RawVehicle, v: Vehicle) {
    && (q.includeUnrentable || (!rv.disabled && !rv.reserved))
    && (if q.formFactors == [] then v.formFactor == "SCOOTER_STANDING" else v.formFactor in q.formFactors)
    && v.rangeM >= q.minRangeM
    && v.distanceM <= q.radiusM as real
  }

  ghost predicate IsKept(dist: Metric, q: Query, rv: RawVehicle) {
    exists v :: Shows(v, rv, dist(q.at, rv.at)) && Keeps(q, rv, v)
  }

  ghost function KeptRows(dist: Metric, q: Query, rows: seq<RawVehicle>): set<nat> {
    set i: nat | i < |rows| && IsKept(dist, q, rows[i])
  }

  lemma ConvertKeeps(dist: Metric, q: Query, rv: RawVehicle, v: Vehicle)
    requires q.radiusM > 0
    ensures Convert(dist, q, rv) == Some(v) <==> Shows(v, rv, dist(q.at, rv.at)) && Keeps(q, rv, v)
  {
    ShowsIsTheConversion(v, rv, dist(q.at, rv.at));
    hide Shows, RangeOf, OperatorKeyOf, FormOf;
  }

  /** A key that names no operator. */
  ghost predicate Unknown(k: string) {
    forall o :: o in OPERATORS ==> o.key != k
  }

  lemma RefusedExactly(keys: seq<string>)
    ensures IdsFor(keys).None? <==> exists k :: k in keys && Unknown(k)
  {
    forall k
      ensures Lookup(k).None? <==> Unknown(k)
    {
      FindKeyFinds(OPERATORS, k);
    }
    hide Lookup, Unknown;
  }

  lemma AnswerHolds(dist: Metric, q: Query, rows: seq<RawVehicle>, res: FetchResult)
    requires IsAnswer(dist, q, Rows(rows), res) && res.Fetched?
    ensures forall v :: v in res.vehicles <==>
              exists rv :: rv in rows && Shows(v, rv, dist(q.at, rv.at)) && Keeps(q, rv, v)
  {
    hide Convert, Shows, Keeps, IdsFor, SortedBy;
    forall v
      ensures v in res.vehicles <==> exists rv :: rv in rows && Shows(v, rv, dist(q.at, rv.at)) && Keeps(q, rv, v)
    {
      assert v in res.vehicles <==> v in multiset(res.vehicles);
      assert v in FilterMap(rows, Converter(dist, q)) <==> v in multiset(FilterMap(rows, Converter(dist, q)));
      hide FilterMap;
      FilterMapMember(rows, Converter(dist, q), v);
      forall rv | rv in rows
        ensures Converter(dist, q)(rv) == Some(v) <==> Shows(v, rv, dist(q.at, rv.at)) && Keeps(q, rv, v)
      {
        ConvertKeeps(dist, q, rv, v);
      }
    }
  }

  lemma AnswerNumbers(dist: Metric, q: Query, rows: seq<RawVehicle>, res: FetchResult)
    requires IsAnswer(dist, q, Rows(rows), res) && res.Fetched?
    ensures |res.vehicles|
            == |KeptRows(dist, q, rows)|
  {
    hide Convert, Shows, Keeps, IdsFor, SortedBy;
    var f := Converter(dist, q);
    PermutedLength(res.vehicles, FilterMap(rows, f));
    FilterMapLength(rows, f);
    hide FilterMap;
    forall i: nat | i < |rows|
      ensures f(rows[i]).Some? <==> IsKept(dist, q, rows[i])
    {
      if f(rows[i]).Some? {
        ConvertKeeps(dist, q, rows[i], f(rows[i]).value);
      }
      if v :| Shows(v, rows[i], dist(q.at, rows[i].at)) && Keeps(q, rows[i], v) {
        ConvertKeeps(dist, q, rows[i], v);
      }
    }
    assert Places(rows, f) == KeptRows(dist, q, rows);
  }

  /** A query is refused exactly for want of a radius or of an operator, and an answer
      holds exactly the vehicles of the rows that it keeps, once for each row, nearest
      first. */
  lemma AnswerIsExact(dist: Metric, q: Query, reply: Reply, res: FetchResult)
    requires IsAnswer(dist, q, reply, res)
    ensures res.Failed? <==> q.radiusM <= 0 || reply.NoReply? || exists k :: k in q.operatorKeys && Unknown(k)
    ensures res.Fetched? ==>
              && (forall v :: v in res.vehicles <==>
                    exists rv :: rv in reply.rows && Shows(v, rv, dist(q.at, rv.at)) && Keeps(q, rv, v))
              && |res.vehicles|
                 == |KeptRows(dist, q, reply.rows)|
              && (forall i, j :: 0 <= i < j < |res.vehicles| ==> res.vehicles[i].distanceM <= res.vehicles[j].distanceM)
              && res.returned == |reply.rows|
              && (res.truncated <==> |reply.rows| >= 500 && !(0 < q.limit < 500))
  {
    RefusedExactly(q.operatorKeys);
    if res.Fetched? {
      AnswerHolds(dist, q, reply.rows, res);
      AnswerNumbers(dist, q, reply.rows, res);
      forall i, j | 0 <= i < j < |res.vehicles|
        ensures res.vehicles[i].distanceM <= res.vehicles[j].distanceM
      {
        assert ByDistance()(res.vehicles[i]) <= ByDistance()(res.vehicles[j]);
      }
    }
  }

  // ---------------------------------------------------------------------
  // A fence
  // ---------------------------------------------------------------------

  lemma RequestedOperator(keys: seq<string>, rv: RawVehicle)
    requires IdsFor(keys).Some?
    ensures rv.operatorId.Some? && rv.operatorId.value in IdsFor(keys).value <==>
              exists o :: o in OPERATORS && rv.operatorId == Some(o.id) && (keys == [] || o.key in keys)
  {
    if rv.operatorId.Some? {
      if rv.operatorId.value in IdsFor(keys).value {
        RequestedIdsAreKnown(keys, rv.operatorId.value);
        var o :| o in OPERATORS && o.id == rv.operatorId.value;
        IdRequestedIffKeyWanted(keys, o);
      }
      forall o | o in OPERATORS && rv.operatorId == Some(o.id)
        ensures rv.operatorId.value in IdsFor(keys).value <==> keys == [] || o.key in keys
      {
        IdRequestedIffKeyWanted(keys, o);
      }
    }
  }

  lemma PipelineKeeps(dist: Metric, q: Query, rv: RawVehicle, v: Vehicle)
    requires q.radiusM > 0 && IdsFor(q.operatorKeys).Some?
    ensures Pipeline(dist, q)(rv) == Some(v) <==>
              && Shows(v, rv, dist(q.at, rv.at)) && Keeps(q, rv, v)
              && exists o :: o in OPERATORS && rv.operatorId == Some(o.id) && (q.operatorKeys == [] || o.key in q.operatorKeys)
  {
    ConvertKeeps(dist, q, rv, v);
    RequestedOperator(q.operatorKeys, rv);
    hide Convert, IdsFor;
  }

  lemma SameMembers<T>(xs: seq<T>, ys: seq<T>, x: T)
    requires multiset(xs) == multiset(ys)
    ensures x in xs <==> x in ys
  {
    assert x in xs <==> x in multiset(xs);
    assert x in ys <==> x in multiset(ys);
  }

  /** What a query without a form or a floor keeps. */
  lemma PlainlyKept(q: Query, rv: RawVehicle, v: Vehicle, d: real)
    requires q.formFactors == [] && q.minRangeM == 0 && !q.includeUnrentable
    ensures Shows(v, rv, d) ==> (Keeps(q, rv, v) <==> Rentable(rv) && d <= q.radiusM as real)
  {}

  /** From an untruncated answer to its group a fence sees exactly the rentable
      vehicles of known operators within its radius, measured from the fence. */
  lemma FenceSeesExactly(dist: Metric, fences: seq<Fence>, g: Group, f: Fence, feed: seq<RawVehicle>, rows: seq<RawVehicle>,
                         res: FetchResult, v: Vehicle)
    requires IsDistance(dist) && f.radiusM > 0 && g in GroupsOf(dist, fences) && f in g.fences
    requires Fetches(dist, feed, GroupQuery(g), rows, res) && !res.truncated
    ensures v in FilterMap(res.vehicles, Rebase(dist, f)) <==>
              exists rv, o ::
                && rv in feed && o in OPERATORS && rv.operatorId == Some(o.id)
                && !rv.disabled && !rv.reserved && rv.formFactor == Some("SCOOTER_STANDING")
                && (rv.rangeM.Some? ==> rv.rangeM.value > -1.0)
                && dist(f.at, rv.at) <= f.radiusM as real
                && Shows(v, rv, dist(f.at, rv.at))
  {
    AllIds();
    hide GroupsOf, IdsFor, FilterMap, Pipeline;
    UntruncatedIsWholePipeline(dist, feed, GroupQuery(g), rows, res);
    TrimmedPipeline(dist, fences, g, f, feed, res.vehicles);
    var own := Pipeline(dist, FenceQuery(f));
    SameMembers(FilterMap(res.vehicles, Rebase(dist, f)), FilterMap(feed, own), v);
    FilterMapMember(feed, own, v);
    forall rv | rv in feed
      ensures own(rv) == Some(v) <==>
                && (exists o :: o in OPERATORS && rv.operatorId == Some(o.id))
                && Rentable(rv) && dist(f.at, rv.at) <= f.radiusM as real && Shows(v, rv, dist(f.at, rv.at))
    {
      PipelineKeeps(dist, FenceQuery(f), rv, v);
      PlainlyKept(FenceQuery(f), rv, v, dist(f.at, rv.at));
      hide Shows, Keeps, Rentable, Pipeline;
    }
    hide Shows, Pipeline;
  }

  lemma BaselineKeeps(f: Fence, w: Watch, rv: RawVehicle, v: Vehicle, d: real)
    requires Shows(v, rv, d)
    ensures Keeps(BaselineQuery(f, w), rv, v) <==>
              && !rv.disabled && !rv.reserved && rv.formFactor == Some("SCOOTER_STANDING")
              && v.rangeM >= w.minRangeM && d <= f.radiusM as real
  {}

  /** The arming call sees the vehicle, as `v`: it is of an operator asked for, any known
      one when none is, can be rented, has range enough, and is within the radius. */
  ghost predicate ArmSees(dist: Metric, f: Fence, w: Watch, rv: RawVehicle, v: Vehicle) {
    && Shows(v, rv, dist(f.at, rv.at))
    && (exists o :: o in OPERATORS && rv.operatorId == Some(o.id) && (w.operatorKeys == [] || o.key in w.operatorKeys))
    && !rv.disabled && !rv.reserved && rv.formFactor == Some("SCOOTER_STANDING")
    && v.rangeM >= w.minRangeM && dist(f.at, rv.at) <= f.radiusM as real
  }

  lemma ArmSeesId(dist: Metric, f: Fence, w: Watch, rv: RawVehicle, v: Vehicle)
    requires ArmSees(dist, f, w, rv, v)
    ensures v.id == rv.id
  {}

  lemma ArmPipelineSees(dist: Metric, f: Fence, w: Watch, rv: RawVehicle, v: Vehicle)
    requires f.radiusM > 0 && IdsFor(w.operatorKeys).Some?
    ensures Pipeline(dist, BaselineQuery(f, w))(rv) == Some(v) <==> ArmSees(dist, f, w, rv, v)
  {
    hide IdsFor, Pipeline, Shows, Keeps;
    PipelineKeeps(dist, BaselineQuery(f, w), rv, v);
    if Shows(v, rv, dist(f.at, rv.at)) {
      BaselineKeeps(f, w, rv, v, dist(f.at, rv.at));
    }
  }

  lemma ArmAnswerSees(dist: Metric, f: Fence, w: Watch, feed: seq<RawVehicle>, rows: seq<RawVehicle>, res: FetchResult, v: Vehicle)
    requires Fetches(dist, feed, BaselineQuery(f, w), rows, res) && !res.truncated
    ensures v in res.vehicles <==> exists rv :: rv in feed && ArmSees(dist, f, w, rv, v)
  {
    var q := BaselineQuery(f, w);
    UntruncatedIsWholePipeline(dist, feed, q, rows, res);
    hide IdsFor, Pipeline, FilterMap, ArmSees;
    SameMembers(res.vehicles, FilterMap(feed, Pipeline(dist, q)), v);
    FilterMapMember(feed, Pipeline(dist, q), v);
    forall rv | rv in feed
      ensures Pipeline(dist, q)(rv) == Some(v) <==> ArmSees(dist, f, w, rv, v)
    {
      ArmPipelineSees(dist, f, w, rv, v);
    }
  }

  /** An untruncated baseline holds exactly the ids of the vehicles the call sees. */
  lemma BaselineExactly(dist: Metric, f: Fence, w: Watch, feed: seq<RawVehicle>, rows: seq<RawVehicle>, res: FetchResult, id: string)
    requires res.Fetched? && Fetches(dist, feed, BaselineQuery(f, w), rows, res) && !res.truncated
    ensures id in BaselineOf(res) <==> exists rv, v :: rv in feed && rv.id == id && ArmSees(dist, f, w, rv, v)
  {
    hide ArmSees, FilterMap, Fetches;
    FilterMapMember(res.vehicles, IdOfVehicle(), id);
    if id in BaselineOf(res) {
      var v :| v in res.vehicles && IdOfVehicle()(v) == Some(id);
      ArmAnswerSees(dist, f, w, feed, rows, res, v);
      var rv :| rv in feed && ArmSees(dist, f, w, rv, v);
      ArmSeesId(dist, f, w, rv, v);
    }
    if rv, v :| rv in feed && rv.id == id && ArmSees(dist, f, w, rv, v) {
      ArmAnswerSees(dist, f, w, feed, rows, res, v);
      ArmSeesId(dist, f, w, rv, v);
      assert IdOfVehicle()(v) == Some(id);
    }
  }

  // ---------------------------------------------------------------------
  // A probe
  // ---------------------------------------------------------------------

  /** A vehicle the probe for an operator is after: one of its own that can be
      rented, no farther than the reach, 5000 m when none is set. */
  ghost predicate Offers(dist: Metric, feed: seq<RawVehicle>, f: Fence, reachM: int, o: Operator, rv: RawVehicle) {
    && rv in feed && rv.operatorId == Some(o.id)
    && !rv.disabled && !rv.reserved && rv.formFactor == Some("SCOOTER_STANDING")
    && (rv.rangeM.Some? ==> rv.rangeM.value > -1.0)
    && dist(f.at, rv.at) <= (if reachM <= 0 then 5000 else reachM) as real
  }

  lemma ReachableIsOffered(dist: Metric, feed: seq<RawVehicle>, f: Fence, reachM: int, o: Operator, rv: RawVehicle)
    requires o in OPERATORS
    ensures IdsFor(ProbeQuery(f, reachM, o).operatorKeys).Some?
    ensures Reachable(dist, feed, ProbeQuery(f, reachM, o), rv) <==> Offers(dist, feed, f, reachM, o, rv)
  {
    var q := ProbeQuery(f, reachM, o);
    RefusedExactly(q.operatorKeys);
    hide IdsFor, Pipeline;
    OperatorsDiffer();
    if Pipeline(dist, q)(rv).Some? {
      var v := Pipeline(dist, q)(rv).value;
      PipelineKeeps(dist, q, rv, v);
      PlainlyKept(q, rv, v, dist(f.at, rv.at));
    }
    if Offers(dist, feed, f, reachM, o, rv) {
      var v := Vehicle(rv.id, rv.at, dist(f.at, rv.at), OperatorKeyOf(rv), FormOf(rv), RangeOf(rv), rv.disabled, rv.reserved);
      ShowsIsTheConversion(v, rv, dist(f.at, rv.at));
      hide OperatorKeyOf, FormOf, RangeOf, Shows;
      PipelineKeeps(dist, q, rv, v);
      PlainlyKept(q, rv, v, dist(f.at, rv.at));
    }
  }

  /** The row gives the rounded distance and the id of the nearest vehicle the probe
      is after; or nothing, from a page of fewer than ten only when there is none. */
  ghost predicate TellsTruth(dist: Metric, feed: seq<RawVehicle>, f: Fence, reachM: int, o: Operator, r: Reading, returned: nat) {
    match r.distanceM
    case Some(m) =>
      exists rv ::
        && Offers(dist, feed, f, reachM, o, rv) && r.vehicle == rv.id && Rounds(m, dist(f.at, rv.at))
        && forall other :: Offers(dist, feed, f, reachM, o, other) ==> dist(f.at, rv.at) <= dist(f.at, other.at)
    case None =>
      r.vehicle == "" && (returned < 10 ==> forall rv :: !Offers(dist, feed, f, reachM, o, rv))
  }

  lemma RecordedIsTruth(dist: Metric, f: Fence, reachM: int, o: Operator, feed: seq<RawVehicle>, r: Reading, returned: nat)
    requires IsDistance(dist)
    requires r.distanceM.Some? ==> exists best ::
               && Offers(dist, feed, f, reachM, o, best) && r == Reading(Some(Metres(dist(f.at, best.at))), best.id)
               && forall rv :: Offers(dist, feed, f, reachM, o, rv) ==> dist(f.at, best.at) <= dist(f.at, rv.at)
    requires r.distanceM.None? ==> r.vehicle == "" && (returned < 10 ==> forall rv :: !Offers(dist, feed, f, reachM, o, rv))
    ensures TellsTruth(dist, feed, f, reachM, o, r, returned)
  {
    hide Offers, Metres, Rounds;
    if r.distanceM.Some? {
      var best :|
        && Offers(dist, feed, f, reachM, o, best) && r == Reading(Some(Metres(dist(f.at, best.at))), best.id)
        && forall rv :: Offers(dist, feed, f, reachM, o, rv) ==> dist(f.at, best.at) <= dist(f.at, rv.at);
      MetresRound(dist(f.at, best.at), r.distanceM.value);
    }
  }

  lemma NothingFoundIsNameless(dist: Metric, f: Fence, res: FetchResult)
    requires res.Fetched?
    ensures var r := FoundBy(dist, f, res).value; r.distanceM.None? ==> r.vehicle == ""
  {
    hide NearestOf, Metres;
  }

  /** What a probe of an operator is recorded as: the rounded distance and the id of
      the nearest vehicle it is after; and nothing, from a page of fewer than ten, only
      when there is no such vehicle. */
  lemma ProbeTellsTruth(dist: Metric, f: Fence, reachM: int, o: Operator, feed: seq<RawVehicle>, rows: seq<RawVehicle>,
                        res: FetchResult)
    requires IsDistance(dist) && o in OPERATORS && Fetches(dist, feed, ProbeQuery(f, reachM, o), rows, res)
    ensures FoundBy(dist, f, res).Some?
    ensures TellsTruth(dist, feed, f, reachM, o, FoundBy(dist, f, res).value, res.returned)
  {
    forall rv
      ensures Reachable(dist, feed, ProbeQuery(f, reachM, o), rv) <==> Offers(dist, feed, f, reachM, o, rv)
    {
      ReachableIsOffered(dist, feed, f, reachM, o, rv);
    }
    hide Offers, Reachable, NearestOf, Metres, Fetches, Rounds, TellsTruth;
    RecordedProbeIsExact(dist, f, reachM, o, feed, rows, res);
    NothingFoundIsNameless(dist, f, res);
    hide FoundBy;
    RecordedIsTruth(dist, f, reachM, o, feed, FoundBy(dist, f, res).value, res.returned);
  }
}
