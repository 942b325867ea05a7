/** What a tick records about one fence, and what that says about the feed
    (`internal/poll/poll.go`, `internal/store/nearest.go`). */
module Records {
  import opened Base
  import opened Geo
  import opened Entur
  import opened Strings
  import opened Schema
  import opened Poll
  import opened Coalesce
  import opened Plan
  import opened Isolation

  // ---------------------------------------------------------------------
  // The nearest vehicle of each operator
  // ---------------------------------------------------------------------

  /** What the probe of an operator says; nothing for an unknown operator or a
      probe that failed. */
  function AnswerFor(c: Context, f: Fence, o: Option<Operator>): Option<Reading> {
    match o
    case None => None
    case Some(o) => FoundBy(c.dist, f, c.probe(f.id, ProbeQuery(f, c.s.reachM, o)))
  }

  /** What this tick learns about an operator: nothing when it was not looked
      for, or the lookup failed. */
  function Learned(c: Context, f: Fence, inside: seq<Vehicle>, operator: string): Option<Reading> {
    if IntervalOf(c.s) < 0 then None
    else if operator in ClosestOf(inside) then Some(ReadingOf(ClosestOf(inside), operator))
    else if IsDue(c.due, f.id, c.now, IntervalOf(c.s)) then AnswerFor(c, f, Lookup(operator))
    else None
  }

  function LearnedBy(c: Context, f: Fence, inside: seq<Vehicle>): string -> Option<Reading> {
    (k: string) => Learned(c, f, inside, k)
  }

  /** `after` is `before` with one row of this second for each operator learned
      about. */
  ghost predicate Adds(before: Readings, after: Readings, fence: string, at: int, learned: string -> Option<Reading>) {
    forall x: ReadingKey ::
      if x.fence == fence && x.at == at && learned(x.operator).Some?
      then x in after && after[x] == learned(x.operator).value
      else (x in after <==> x in before) && (x in after ==> after[x] == before[x])
  }

  function ProbeOf(c: Context, f: Fence, ops: seq<Operator>): string -> Option<Reading> {
    (k: string) => AnswerFor(c, f, FindKey(ops, k))
  }

  ghost predicate DistinctKeys(ops: seq<Operator>) {
    forall i, j :: 0 <= i < j < |ops| ==> ops[i].key != ops[j].key
  }

  lemma ProbeStep(s: Settings, now: int, p: Progress, f: string, k: string, found: Option<Reading>)
    requires !p.failed && (s.fk ==> f in p.t.fences)
    ensures Exec(s, now, p, Probe(f, k, found))
            == p.(rep := p.rep.(probes := p.rep.probes + 1),
                  t := if found.None? then p.t else p.t.(readings := p.t.readings[ReadingKey(f, Unix(now), k) := found.value]))
  {}

  lemma {:induction false} FindKeySnoc(ops: seq<Operator>, o: Operator, k: string)
    ensures FindKey(ops + [o], k) == if FindKey(ops, k).Some? then FindKey(ops, k) else if o.key == k then Some(o) else None
  {
    if |ops| > 0 {
      assert (ops + [o])[1..] == ops[1..] + [o];
      FindKeySnoc(ops[1..], o, k);
    } else {
      assert (ops + [o])[1..] == [];
    }
  }

  lemma AddsOne(before: Readings, mid: Readings, after: Readings, fence: string, at: int,
                some: string -> Option<Reading>, all: string -> Option<Reading>, k: string)
    requires Adds(before, mid, fence, at, some)
    requires some(k).None? && forall x :: x != k ==> all(x) == some(x)
    requires after == if all(k).None? then mid else mid[ReadingKey(fence, at, k) := all(k).value]
    ensures Adds(before, after, fence, at, all)
  {}

  lemma ProbesGrow(c: Context, f: Fence, some: seq<Operator>, o: Operator)
    requires DistinctKeys(some + [o])
    ensures ProbeOf(c, f, some)(o.key).None?
    ensures ProbeOf(c, f, some + [o])(o.key) == FoundBy(c.dist, f, c.probe(f.id, ProbeQuery(f, c.s.reachM, o)))
    ensures forall k :: k != o.key ==> ProbeOf(c, f, some + [o])(k) == ProbeOf(c, f, some)(k)
  {
    hide FoundBy, ProbeQuery;
    FindKeyFinds(some, o.key);
    forall x | x in some
      ensures x.key != o.key
    {
      var i :| 0 <= i < |some| && some[i] == x;
      assert (some + [o])[i] == x && (some + [o])[|some|] == o;
    }
    forall k
      ensures FindKey(some + [o], k) == if FindKey(some, k).Some? then FindKey(some, k) else if o.key == k then Some(o) else None
    {
      FindKeySnoc(some, o, k);
    }
  }

  lemma AddsNothing(rows: Readings, fence: string, at: int, learned: string -> Option<Reading>)
    requires forall k :: learned(k).None?
    ensures Adds(rows, rows, fence, at, learned)
  {}

  lemma {:induction false} ProbesAdd(c: Context, p: Progress, f: Fence, ops: seq<Operator>)
    requires !p.failed && (c.s.fk ==> f.id in p.t.fences) && DistinctKeys(ops)
    ensures var q := ExecAll(c.s, c.now, p, FilterMap(ops, ProbeFor(c, f)));
            && q == p.(t := p.t.(readings := q.t.readings), rep := p.rep.(probes := p.rep.probes + |ops|))
            && Adds(p.t.readings, q.t.readings, f.id, Unix(c.now), ProbeOf(c, f, ops))
  {
    if |ops| == 0 {
      forall k
        ensures ProbeOf(c, f, ops)(k).None?
      {
        assert FindKey(ops, k).None?;
      }
      AddsNothing(p.t.readings, f.id, Unix(c.now), ProbeOf(c, f, ops));
    } else {
      var o, some := Last(ops), Front(ops);
      var plan := FilterMap(some, ProbeFor(c, f));
      var found := FoundBy(c.dist, f, c.probe(f.id, ProbeQuery(f, c.s.reachM, o)));
      assert ops == some + [o];
      ProbesAdd(c, p, f, some);
      hide Exec, ExecAll, FoundBy, ProbeQuery, FilterMap, Adds;
      var mid := ExecAll(c.s, c.now, p, plan);
      ExecAllSnoc(c.s, c.now, p, plan, Probe(f.id, o.key, found));
      ProbeStep(c.s, c.now, mid, f.id, o.key, found);
      FilterMapSnoc(some, o, ProbeFor(c, f));
      ProbesGrow(c, f, some, o);
      var q := Exec(c.s, c.now, mid, Probe(f.id, o.key, found));
      AddsOne(p.t.readings, mid.t.readings, q.t.readings, f.id, Unix(c.now), ProbeOf(c, f, some), ProbeOf(c, f, ops), o.key);
    }
  }

  // ---------------------------------------------------------------------
  // Present operators
  // ---------------------------------------------------------------------

  function NearOf(closest: map<string, Vehicle>): string -> Option<Reading> {
    (k: string) => if k in closest then Some(ReadingOf(closest, k)) else None
  }

  lemma NearAdds(c: Context, p: Progress, f: Fence, closest: map<string, Vehicle>, order: seq<string>)
    requires !p.failed && (c.s.fk ==> f.id in p.t.fences) && Enumerates(order, closest.Keys)
    ensures var q := ExecAll(c.s, c.now, p, FilterMap(order, NearFor(f.id, closest)));
            && q == p.(t := p.t.(readings := q.t.readings))
            && Adds(p.t.readings, q.t.readings, f.id, Unix(c.now), NearOf(closest))
  {
    hide ExecAll, FilterMap;
    NearestArePuts(c.s, c.now, p, f.id, closest, order);
    forall x: ReadingKey
      ensures x in PutAll(p.t.readings, ReadingKeyFor(f.id, Unix(c.now)), ReadingFor(closest), order) <==>
                x in p.t.readings || (x.fence == f.id && x.at == Unix(c.now) && x.operator in closest)
      ensures x.fence == f.id && x.at == Unix(c.now) && x.operator in closest ==>
                PutAll(p.t.readings, ReadingKeyFor(f.id, Unix(c.now)), ReadingFor(closest), order)[x] == ReadingOf(closest, x.operator)
      ensures x in p.t.readings && !(x.fence == f.id && x.at == Unix(c.now) && x.operator in closest) ==>
                PutAll(p.t.readings, ReadingKeyFor(f.id, Unix(c.now)), ReadingFor(closest), order)[x] == p.t.readings[x]
    {
      PutAllAt(p.t.readings, ReadingKeyFor(f.id, Unix(c.now)), ReadingFor(closest), order, x);
      if x.fence == f.id && x.at == Unix(c.now) && x.operator in closest {
        assert ReadingKeyFor(f.id, Unix(c.now))(x.operator) == x;
      }
    }
  }

  lemma AddsBoth(a: Readings, b: Readings, d: Readings, fence: string, at: int, first: string -> Option<Reading>,
                 second: string -> Option<Reading>, both: string -> Option<Reading>)
    requires Adds(a, b, fence, at, first) && Adds(b, d, fence, at, second)
    requires forall k :: both(k) == if second(k).Some? then second(k) else first(k)
    ensures Adds(a, d, fence, at, both)
  {}

  // ---------------------------------------------------------------------
  // The whole lookup
  // ---------------------------------------------------------------------

  lemma FrontAndLast<T>(xs: seq<T>)
    requires |xs| > 0
    ensures xs == Front(xs) + [Last(xs)]
  {}

  lemma KeysDiffer(some: seq<Operator>, o: Operator)
    requires DistinctKeys(some + [o])
    ensures DistinctKeys(some) && forall x :: x in some ==> x.key != o.key
  {
    var all := some + [o];
    assert forall i :: 0 <= i < |some| ==> all[i] == some[i];
    assert all[|some|] == o;
  }

  lemma KeysStayDifferent(kept: seq<Operator>, some: seq<Operator>, o: Operator)
    requires DistinctKeys(kept) && (forall x :: x in kept ==> x in some) && forall x :: x in some ==> x.key != o.key
    ensures DistinctKeys(kept + [o])
  {}

  lemma OneAbsent(closest: map<string, Vehicle>, o: Operator)
    ensures ToSeq(Absent(closest)(o)) == if o.key in closest then [] else [o]
  {}

  lemma {:induction false} FindAbsentKey(ops: seq<Operator>, closest: map<string, Vehicle>, k: string)
    requires DistinctKeys(ops)
    ensures FindKey(FilterMap(ops, Absent(closest)), k) == if k in closest then None else FindKey(ops, k)
    ensures DistinctKeys(FilterMap(ops, Absent(closest)))
    ensures forall o :: o in FilterMap(ops, Absent(closest)) ==> o in ops
  {
    if |ops| == 0 {
      assert ops == [];
    } else {
      hide *;
      var some, o := Front(ops), Last(ops);
      var kept := FilterMap(some, Absent(closest));
      assert ops == some + [o] by { FrontAndLast(ops); }
      KeysDiffer(some, o);
      FindAbsentKey(some, closest, k);
      FilterMapSnoc(some, o, Absent(closest));
      FindKeySnoc(some, o, k);
      FindKeySnoc(kept, o, k);
      FindKeyFinds(some, o.key);
      OneAbsent(closest, o);
      KeysStayDifferent(kept, some, o);
      assert kept + [] == kept;
      assert FilterMap(ops, Absent(closest)) == if o.key in closest then kept else kept + [o];
    }
  }

  /** Whether it came from the fence or from a probe, and never from both. */
  lemma LearnedFrom(c: Context, f: Fence, inside: seq<Vehicle>, k: string)
    requires IntervalOf(c.s) >= 0
    ensures var near, probed := NearOf(ClosestOf(inside))(k), ProbeOf(c, f, FilterMap(OPERATORS, Absent(ClosestOf(inside))))(k);
            LearnedBy(c, f, inside)(k)
            == if IsDue(c.due, f.id, c.now, IntervalOf(c.s)) && probed.Some? then probed else near
  {
    hide FoundBy, ProbeQuery, ClosestOf, FilterMap, IsDue, ReadingOf;
    var closest := ClosestOf(inside);
    var absent := FilterMap(OPERATORS, Absent(closest));
    OperatorsDiffer();
    FindAbsentKey(OPERATORS, closest, k);
    assert ProbeOf(c, f, absent)(k) == AnswerFor(c, f, FindKey(absent, k));
    assert Lookup(k) == FindKey(OPERATORS, k);
  }

  lemma AddsSame(a: Readings, b: Readings, fence: string, at: int, some: string -> Option<Reading>,
                 same: string -> Option<Reading>)
    requires Adds(a, b, fence, at, some) && forall k :: some(k) == same(k)
    ensures Adds(a, b, fence, at, same)
  {}

  lemma NothingRuns(c: Context, p: Progress)
    ensures ExecAll(c.s, c.now, p, []) == p
  {}

  lemma StampStep(c: Context, p: Progress, f: string)
    requires !p.failed
    ensures ExecAll(c.s, c.now, p, [Stamp(f)]) == p.(due := p.due[f := c.now])
  {
    assert Front([Stamp(f)]) == [];
  }

  lemma ProbingRuns(c: Context, p: Progress, f: Fence, closest: map<string, Vehicle>)
    requires !p.failed && (c.s.fk ==> f.id in p.t.fences) && IsDue(c.due, f.id, c.now, IntervalOf(c.s))
    ensures var q := ExecAll(c.s, c.now, p, ProbePlan(c, f, closest));
            && !q.failed
            && q.t == p.t.(readings := q.t.readings)
            && q.due == p.due[f.id := c.now]
            && Adds(p.t.readings, q.t.readings, f.id, Unix(c.now), ProbeOf(c, f, FilterMap(OPERATORS, Absent(closest))))
  {
    hide Exec, FilterMap, Adds, FoundBy;
    var absent := FilterMap(OPERATORS, Absent(closest));
    OperatorsDiffer();
    FindAbsentKey(OPERATORS, closest, "");
    StampStep(c, p, f.id);
    ExecAllConcat(c.s, c.now, p, [Stamp(f.id)], FilterMap(absent, ProbeFor(c, f)));
    hide ExecAll;
    ProbesAdd(c, p.(due := p.due[f.id := c.now]), f, absent);
  }

  /** The lookup of one fence writes one row of this second for each operator it
      learned about, touches no other row, and stamps the schedule exactly when
      the wider lookup was due. */
  lemma NearestPlanRecords(c: Context, p: Progress, f: Fence, inside: seq<Vehicle>, order: seq<string>)
    requires !p.failed && (c.s.fk ==> f.id in p.t.fences) && Enumerates(order, ClosestOf(inside).Keys)
    ensures var q := ExecAll(c.s, c.now, p, NearestPlan(c, f, inside, order));
            && !q.failed
            && q.t == p.t.(readings := q.t.readings)
            && q.due == (if IntervalOf(c.s) >= 0 && IsDue(c.due, f.id, c.now, IntervalOf(c.s)) then p.due[f.id := c.now] else p.due)
            && Adds(p.t.readings, q.t.readings, f.id, Unix(c.now), LearnedBy(c, f, inside))
  {
    var closest := ClosestOf(inside);
    var near, probing := FilterMap(order, NearFor(f.id, closest)), ProbePlan(c, f, closest);
    var absent := FilterMap(OPERATORS, Absent(closest));
    NearestPlanParts(c, f, inside);
    if IntervalOf(c.s) < 0 {
      NothingRuns(c, p);
      AddsNothing(p.t.readings, f.id, Unix(c.now), LearnedBy(c, f, inside));
    } else {
      forall k
        ensures LearnedBy(c, f, inside)(k)
                == if IsDue(c.due, f.id, c.now, IntervalOf(c.s)) && ProbeOf(c, f, absent)(k).Some? then ProbeOf(c, f, absent)(k)
                   else NearOf(closest)(k)
      {
        LearnedFrom(c, f, inside, k);
      }
      hide *;
      NearAdds(c, p, f, closest, order);
      ExecAllConcat(c.s, c.now, p, near, probing);
      var mid := ExecAll(c.s, c.now, p, near);
      if IsDue(c.due, f.id, c.now, IntervalOf(c.s)) {
        ProbingRuns(c, mid, f, closest);
        AddsBoth(p.t.readings, mid.t.readings, ExecAll(c.s, c.now, mid, probing).t.readings, f.id, Unix(c.now),
                 NearOf(closest), ProbeOf(c, f, absent), LearnedBy(c, f, inside));
      } else {
        NothingRuns(c, mid);
        AddsSame(p.t.readings, mid.t.readings, f.id, Unix(c.now), NearOf(closest), LearnedBy(c, f, inside));
      }
    }
  }

  // ---------------------------------------------------------------------
  // Present operators are never dark
  // ---------------------------------------------------------------------

  /** An operator with a vehicle in the fence is never taken for dark, as long as
      the clock does not go back and the lookup is not switched off. */
  lemma PresentIsNeverDark(c: Context, p: Progress, f: Fence, inside: seq<Vehicle>, order: seq<string>, v: Vehicle)
    requires !p.failed && (c.s.fk ==> f.id in p.t.fences) && Enumerates(order, ClosestOf(inside).Keys)
    requires IntervalOf(c.s) >= 0 && NoneLater(p.t.readings, f.id, c.now)
    requires v in inside && v.operatorKey != ""
    ensures var q := ExecAll(c.s, c.now, p, NearestPlan(c, f, inside, order));
            && NoneLater(q.t.readings, f.id, c.now)
            && v.operatorKey !in DarkOperators(q.t.readings, f.id, c.now, 0)
  {
    hide ExecAll, NearestPlan, ClosestOf, FoundBy, ProbeQuery, LatestNearest;
    var k := v.operatorKey;
    ClosestIsNearest(inside, k);
    NearestPlanRecords(c, p, f, inside, order);
    var q := ExecAll(c.s, c.now, p, NearestPlan(c, f, inside, order));
    var x := ReadingKey(f.id, Unix(c.now), k);
    assert LearnedBy(c, f, inside)(k).Some?;
    assert x in q.t.readings && q.t.readings[x].distanceM.Some?;
    assert x.operator == k && x.at in ReadingTimes(q.t.readings, f.id, k);
    LatestIs(q.t.readings, f.id, k, x, Unix(c.now));
  }

  /** The row of an operator with a vehicle in the fence gives the whole metres to
      the nearest of its vehicles there, and its id. */
  lemma PresentRowIsNearest(c: Context, p: Progress, f: Fence, inside: seq<Vehicle>, order: seq<string>, v: Vehicle)
    requires !p.failed && (c.s.fk ==> f.id in p.t.fences) && Enumerates(order, ClosestOf(inside).Keys)
    requires IntervalOf(c.s) >= 0 && v in inside && v.operatorKey != ""
    ensures var q := ExecAll(c.s, c.now, p, NearestPlan(c, f, inside, order));
            var x := ReadingKey(f.id, Unix(c.now), v.operatorKey);
            x in q.t.readings && exists best ::
              && best in inside && best.operatorKey == v.operatorKey
              && q.t.readings[x] == Reading(Some(Metres(best.distanceM)), best.id)
              && forall u :: u in inside && u.operatorKey == v.operatorKey ==> best.distanceM <= u.distanceM
  {
    hide ExecAll, NearestPlan, ClosestOf, FoundBy, ProbeQuery;
    ClosestIsNearest(inside, v.operatorKey);
    NearestPlanRecords(c, p, f, inside, order);
    assert LearnedBy(c, f, inside)(v.operatorKey) == Some(ReadingOf(ClosestOf(inside), v.operatorKey));
  }

  /** After a wider lookup, every known operator has a row of this second or had
      its probe fail; and a row without a distance came from a probe that found
      nothing. */
  lemma EveryOperatorIsAccountedFor(c: Context, p: Progress, f: Fence, inside: seq<Vehicle>, order: seq<string>,
                                    o: Operator)
    requires !p.failed && (c.s.fk ==> f.id in p.t.fences) && Enumerates(order, ClosestOf(inside).Keys)
    requires IntervalOf(c.s) >= 0 && IsDue(c.due, f.id, c.now, IntervalOf(c.s)) && o in OPERATORS
    ensures var q := ExecAll(c.s, c.now, p, NearestPlan(c, f, inside, order));
            var x := ReadingKey(f.id, Unix(c.now), o.key);
            var answer := c.probe(f.id, ProbeQuery(f, c.s.reachM, o));
            if exists v :: v in inside && v.operatorKey == o.key then x in q.t.readings && q.t.readings[x].distanceM.Some?
            else if answer.Fetched? then x in q.t.readings && Some(q.t.readings[x]) == FoundBy(c.dist, f, answer)
            else x in q.t.readings <==> x in p.t.readings
  {
    OperatorsDiffer();
    KeysAndIdsAreOneToOne(o);
    hide ExecAll, NearestPlan, ClosestOf, ProbeQuery, Lookup;
    ClosestIsNearest(inside, o.key);
    NearestPlanRecords(c, p, f, inside, order);
    assert LearnedBy(c, f, inside)(o.key) == Learned(c, f, inside, o.key);
  }

  lemma RowIsReachable(dist: Metric, feed: seq<RawVehicle>, q: Query, rows: seq<RawVehicle>, row: RawVehicle)
    requires IdsFor(q.operatorKeys).Some? && SelectsNearest(dist, feed, q, rows)
    requires row in rows && Convert(dist, q, row).Some?
    ensures Reachable(dist, feed, q, row)
  {
    assert row in multiset(rows);
    assert row in multiset(FilterMap(feed, AreaOf(dist, q)));
    FilterMapMember(feed, AreaOf(dist, q), row);
  }

  /** What a probe's answer is recorded as: the true nearest vehicle that can be
      rented, or, from a page that is not full, true absence. */
  lemma RecordedProbeIsExact(dist: Metric, f: Fence, reachM: int, o: Operator, feed: seq<RawVehicle>,
                             rows: seq<RawVehicle>,
                             res: FetchResult)
    requires Fetches(dist, feed, ProbeQuery(f, reachM, o), rows, res)
    ensures FoundBy(dist, f, res).Some?
    ensures var q, r := ProbeQuery(f, reachM, o), FoundBy(dist, f, res).value;
            && (r.distanceM.Some? ==> exists best ::
                  && Reachable(dist, feed, q, best) && r == Reading(Some(Metres(dist(f.at, best.at))), best.id)
                  && forall rv :: Reachable(dist, feed, q, rv) ==> dist(f.at, best.at) <= dist(f.at, rv.at))
            && (r.distanceM.None? && res.returned < NEAREST_PROBE_COUNT ==> forall rv :: !Reachable(dist, feed, q, rv))
  {
    hide Pipeline, NearestOf, FilterMap;
    var q := ProbeQuery(f, reachM, o);
    NearestOfIsNearest(dist, res.vehicles, f);
    if |res.vehicles| > 0 {
      var best := NearestOf(dist, res.vehicles, f).value;
      var row := KeptRow(dist, q, rows, res, best);
      RowIsReachable(dist, feed, q, rows, row);
      forall rv | Reachable(dist, feed, q, rv)
        ensures dist(f.at, row.at) <= dist(f.at, rv.at)
      {
        ProbeFindsTrueNearest(dist, f, q, feed, rows, res, rv);
      }
    } else {
      forall rv | res.returned < NEAREST_PROBE_COUNT
        ensures !Reachable(dist, feed, q, rv)
      {
        NothingOnAShortPageIsTrueAbsence(dist, f, q, feed, rows, res, rv);
      }
    }
  }

  // ---------------------------------------------------------------------
  // Counts
  // ---------------------------------------------------------------------

  lemma ObserveKeepsSamples(s: Settings, now: int, p: Progress, f: string, seen: seq<Sighting>)
    ensures Exec(s, now, p, Observe(f, seen)).t.samples == p.t.samples
  {
    hide SightAll, OpenStints, FilterMap;
  }

  lemma NewestSampleIs(samples: map<SampleKey, int>, fence: string, x: SampleKey)
    requires x in samples && x.fence == fence && x.at != 0
    requires forall y :: y in samples && y.fence == fence ==> y.at <= x.at
    ensures NewestSample(samples, fence) == x.at
    ensures x.operator in LatestCounts(samples, fence) && LatestCounts(samples, fence)[x.operator] == samples[x]
  {
    assert x.at in SampleTimes(samples, fence);
  }

  /** The counts read back are the counts of this tick, known operators and all. */
  lemma CountsReadBack(c: Context, p: Progress, f: Fence, inside: seq<Vehicle>, order: seq<string>, k: string)
    requires !p.failed && (c.s.fk ==> f.id in p.t.fences) && Enumerates(order, CountsOf(inside).Keys)
    requires Unix(c.now) != 0 && forall x :: x in p.t.samples && x.fence == f.id ==> x.at <= Unix(c.now)
    requires k in CountsOf(inside)
    ensures var latest := LatestCounts(ExecAll(c.s, c.now, p, FencePlanStart(f, inside, order)).t.samples, f.id);
            k in latest && latest[k] == CountsOf(inside)[k]
  {
    hide Exec, ExecAll, CountsOf, FilterMap;
    var counts := CountsOf(inside);
    var samples := PutAll(p.t.samples, SampleKeyFor(f.id, Unix(c.now)), CountFor(counts), order);
    SamplesArePuts(c.s, c.now, p, f.id, counts, order);
    ExecAllSnoc(c.s, c.now, p, FilterMap(order, SampleFor(f.id, counts)), Observe(f.id, FilterMap(inside, SightingOf())));
    ObserveKeepsSamples(c.s, c.now, ExecAll(c.s, c.now, p, FilterMap(order, SampleFor(f.id, counts))), f.id,
                        FilterMap(inside, SightingOf()));
    forall x: SampleKey
      ensures x in samples && x.fence == f.id ==> x.at <= Unix(c.now)
      ensures x == SampleKey(f.id, Unix(c.now), k) ==> x in samples && samples[x] == counts[k]
    {
      PutAllAt(p.t.samples, SampleKeyFor(f.id, Unix(c.now)), CountFor(counts), order, x);
      assert SampleKeyFor(f.id, Unix(c.now))(k) == SampleKey(f.id, Unix(c.now), k);
    }
    NewestSampleIs(samples, f.id, SampleKey(f.id, Unix(c.now), k));
  }

  /** Counts that exist are found unless the newest is of second zero, which
      stands for no counts at all. */
  lemma CountsAreFoundExactly(samples: map<SampleKey, int>, fence: string, x: SampleKey)
    requires x in samples && x.fence == fence
    ensures LatestCounts(samples, fence) != map[] <==> NewestSample(samples, fence) != 0
  {
    assert x.at in SampleTimes(samples, fence);
    var at := NewestSample(samples, fence);
    if at != 0 {
      var y :| y in samples && y.fence == fence && y.at == at;
      forall z | z in samples && z.fence == fence
        ensures z.at <= at
      {
        assert z.at in SampleTimes(samples, fence);
      }
      NewestSampleIs(samples, fence, y);
    }
  }
}
