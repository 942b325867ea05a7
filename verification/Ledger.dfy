/** What whole ticks, and sequences of ticks, leave in the history tables: the
    counts, the outcome of the wider lookup, and the arrivals they reported
    (`internal/poll/poll.go`, `internal/store/store.go`). */
module Ledger {
  import opened Base
  import opened Geo
  import opened Entur
  import opened Schema
  import opened Poll
  import opened Plan
  import opened Isolation
  import opened Evaluation
  import opened Records
  import opened Sequential
  import opened Ticks
  import opened Schedule
  import P = Poller
  import R = Presence

  // ---------------------------------------------------------------------
  // Counts
  // ---------------------------------------------------------------------

  lemma CallKeepsSamples(s: Settings, now: int, p: Progress, i: Instr)
    requires !i.Sample?
    ensures Exec(s, now, p, i).t.samples == p.t.samples
  {
    hide FilterMap, SightAll, OpenStints, DarkOperators, Judge;
  }

  lemma {:induction false} RunKeepsSamples(s: Settings, now: int, p: Progress, plan: seq<Instr>)
    requires forall i :: i in plan ==> !i.Sample?
    ensures ExecAll(s, now, p, plan).t.samples == p.t.samples
  {
    hide Exec;
    if |plan| > 0 {
      assert Last(plan) in plan && forall i :: i in Front(plan) ==> i in plan;
      RunKeepsSamples(s, now, p, Front(plan));
      CallKeepsSamples(s, now, ExecAll(s, now, p, Front(plan)), Last(plan));
    }
  }

  lemma LookupHasNoSample(c: Context, f: Fence, inside: seq<Vehicle>, order: seq<string>, i: Instr)
    requires i in NearestPlan(c, f, inside, order)
    ensures !i.Sample?
  {
    hide FilterMap, ClosestOf;
    var closest := ClosestOf(inside);
    FilterMapMember(order, NearFor(f.id, closest), i);
    FilterMapMember(FilterMap(OPERATORS, Absent(closest)), ProbeFor(c, f), i);
  }

  lemma EvaluationsHaveNoSample(c: Context, f: Fence, inside: seq<Vehicle>, i: Instr)
    requires i in FilterMap(c.watches, EvaluateFor(f, inside))
    ensures i.Evaluate?
  {
    FilterMapMember(c.watches, EvaluateFor(f, inside), i);
  }

  /** The counts of the fence are in the table, and none of it is later. */
  ghost predicate Counted(samples: map<SampleKey, int>, fence: string, at: int, counts: map<string, int>) {
    && (forall x :: x in samples && x.fence == fence ==> x.at <= at)
    && forall k :: k in counts ==> SampleKey(fence, at, k) in samples && samples[SampleKey(fence, at, k)] == counts[k]
  }

  lemma StartCounts(c: Context, p: Progress, f: Fence, inside: seq<Vehicle>, order: seq<string>)
    requires !p.failed && (c.s.fk ==> f.id in p.t.fences) && Enumerates(order, CountsOf(inside).Keys)
    requires forall x :: x in p.t.samples && x.fence == f.id ==> x.at <= Unix(c.now)
    ensures Counted(ExecAll(c.s, c.now, p, FencePlanStart(f, inside, order)).t.samples, f.id, Unix(c.now), CountsOf(inside))
  {
    hide Exec, ExecAll, CountsOf, FilterMap;
    var counts := CountsOf(inside);
    var plan, last := FilterMap(order, SampleFor(f.id, counts)), Observe(f.id, FilterMap(inside, SightingOf()));
    var samples := PutAll(p.t.samples, SampleKeyFor(f.id, Unix(c.now)), CountFor(counts), order);
    SamplesArePuts(c.s, c.now, p, f.id, counts, order);
    ExecAllSnoc(c.s, c.now, p, plan, last);
    CallKeepsSamples(c.s, c.now, ExecAll(c.s, c.now, p, plan), last);
    forall x: SampleKey
      ensures x in samples && x.fence == f.id ==> x.at <= Unix(c.now)
      ensures x.fence == f.id && x.at == Unix(c.now) && x.operator in counts ==> x in samples && samples[x] == counts[x.operator]
    {
      PutAllAt(p.t.samples, SampleKeyFor(f.id, Unix(c.now)), CountFor(counts), order, x);
      assert SampleKeyFor(f.id, Unix(c.now))(x.operator) == SampleKey(f.id, Unix(c.now), x.operator);
    }
  }

  lemma PlanCounts(c: Context, p: Progress, f: Fence, vs: seq<Vehicle>, o: Orders)
    requires !p.failed && (c.s.fk ==> f.id in p.t.fences) && ValidOrders(c, f, vs, o)
    requires forall x :: x in p.t.samples && x.fence == f.id ==> x.at <= Unix(c.now)
    ensures Counted(ExecAll(c.s, c.now, p, FencePlan(c, f, vs, o)).t.samples, f.id, Unix(c.now),
                    CountsOf(FilterMap(vs, Rebase(c.dist, f))))
  {
    var inside := FilterMap(vs, Rebase(c.dist, f));
    var begin, near := FencePlanStart(f, inside, o.counts), NearestPlan(c, f, inside, o.closest);
    var evals := FilterMap(c.watches, EvaluateFor(f, inside));
    hide Exec, ExecAll, FencePlanStart, NearestPlan, FilterMap, CountsOf, ClosestOf, Counted, FencePlan, Enumerates;
    forall i | i in near
      ensures !i.Sample?
    {
      LookupHasNoSample(c, f, inside, o.closest, i);
    }
    forall i | i in evals
      ensures !i.Sample?
    {
      EvaluationsHaveNoSample(c, f, inside, i);
    }
    FencePlanRuns(c, f, vs, o, p);
    StartCounts(c, p, f, inside, o.counts);
    var a := ExecAll(c.s, c.now, p, begin);
    var b := ExecAll(c.s, c.now, a, near);
    RunKeepsSamples(c.s, c.now, a, near);
    CallKeepsSamples(c.s, c.now, b, Health(f.id));
    RunKeepsSamples(c.s, c.now, Exec(c.s, c.now, b, Health(f.id)), evals);
  }

  lemma SameSamples(p: Progress, q: Progress, f: string, at: int, counts: map<string, int>)
    requires ViewOf(p, f) == ViewOf(q, f) && Counted(q.t.samples, f, at, counts)
    ensures Counted(p.t.samples, f, at, counts)
  {
    var a, b := SamplesAt(p.t.samples, f), SamplesAt(q.t.samples, f);
    assert a == b;
    forall x | x in p.t.samples && x.fence == f
      ensures x.at <= at
    {
      assert x in a;
    }
    forall k | k in counts
      ensures SampleKey(f, at, k) in p.t.samples && p.t.samples[SampleKey(f, at, k)] == counts[k]
    {
      assert SampleKey(f, at, k) in b;
    }
  }

  lemma CountedIsLatest(samples: map<SampleKey, int>, fence: string, at: int, counts: map<string, int>, k: string)
    requires Counted(samples, fence, at, counts) && at != 0 && k in counts
    ensures k in LatestCounts(samples, fence) && LatestCounts(samples, fence)[k] == counts[k]
  {
    NewestSampleIs(samples, fence, SampleKey(fence, at, k));
  }

  /** After a tick whose clock is not behind the counts of a fence that was
      answered, the counts read back for it are those of its vehicles, known
      operators with none included. */
  lemma CountsReadBackInTick(p: P.Poller, before: Progress, now: int, fetch: Fetch, probe: Probe, fences: seq<Fence>,
                             watches: seq<Watch>, pieces: seq<seq<Instr>>, after: Progress, err: P.TickError,
                             g: nat, f: Fence, k: string)
    requires p.Ticked(before, now, fetch, probe, fences, watches, pieces, after, err) && |fences| > 0
    requires forall x :: x in watches ==> x.kind != OtherKind
    requires g < |GroupsOf(p.dist, fences)| && f in GroupsOf(p.dist, fences)[g].fences
    requires fetch(g, GroupQuery(GroupsOf(p.dist, fences)[g])).Fetched?
    requires Unix(now) != 0 && forall x :: x in before.t.samples && x.fence == f.id ==> x.at <= Unix(now)
    requires k in CountsOf(FilterMap(fetch(g, GroupQuery(GroupsOf(p.dist, fences)[g])).vehicles, Rebase(p.dist, f)))
    ensures k in LatestCounts(after.t.samples, f.id)
    ensures LatestCounts(after.t.samples, f.id)[k]
            == CountsOf(FilterMap(fetch(g, GroupQuery(GroupsOf(p.dist, fences)[g])).vehicles, Rebase(p.dist, f)))[k]
  {
    var gs := GroupsOf(p.dist, fences);
    var answers := P.AnswersOf(fetch, gs);
    var c := p.ContextOf(now, watches, before.due, probe);
    var start := P.StartOf(before, now, gs, fences);
    FenceIsThere(start.t, p.dist, fences, g, f);
    hide GroupsOf, Work, IsPlan, Outcome, IsFenceList, IsArmedList, ExecAll, FencePlan, ViewOf, FilterMap, CountsOf, ValidOrders, Counted,
         LatestCounts;
    var o := FenceAlone(c, start.t, start, fences, gs, answers, pieces, g, f);
    PlanCounts(c, start, f, answers[g].vehicles, o);
    var alone := ExecAll(c.s, c.now, start, FencePlan(c, f, answers[g].vehicles, o));
    var counts := CountsOf(FilterMap(answers[g].vehicles, Rebase(p.dist, f)));
    SameSamples(after, alone, f.id, Unix(now), counts);
    CountedIsLatest(after.t.samples, f.id, Unix(now), counts, k);
  }

  // ---------------------------------------------------------------------
  // The wider lookup
  // ---------------------------------------------------------------------

  /** What the table says about an operator at a fence after a wider lookup. */
  ghost predicate AccountedFor(before: Readings, after: Readings, c: Context, f: Fence, inside: seq<Vehicle>, o: Operator) {
    var x, answer := ReadingKey(f.id, Unix(c.now), o.key), c.probe(f.id, ProbeQuery(f, c.s.reachM, o));
    if exists v :: v in inside && v.operatorKey == o.key then x in after && after[x].distanceM.Some?
    else if answer.Fetched? then x in after && Some(after[x]) == FoundBy(c.dist, f, answer)
    else x in after <==> x in before
  }

  lemma AccountedAfterLookup(c: Context, p: Progress, f: Fence, inside: seq<Vehicle>, order: seq<string>, o: Operator)
    requires !p.failed && (c.s.fk ==> f.id in p.t.fences) && Enumerates(order, ClosestOf(inside).Keys)
    requires IntervalOf(c.s) >= 0 && IsDue(c.due, f.id, c.now, IntervalOf(c.s)) && o in OPERATORS
    ensures AccountedFor(p.t.readings, ExecAll(c.s, c.now, p, NearestPlan(c, f, inside, order)).t.readings, c, f, inside, o)
  {
    hide ExecAll, NearestPlan, ClosestOf, ProbeQuery, FoundBy, IsDue, Enumerates;
    EveryOperatorIsAccountedFor(c, p, f, inside, order, o);
  }

  lemma PlanAccounts(c: Context, p: Progress, f: Fence, vs: seq<Vehicle>, o: Orders, op: Operator)
    requires !p.failed && (c.s.fk ==> f.id in p.t.fences) && ValidOrders(c, f, vs, o)
    requires !ExecAll(c.s, c.now, p, FencePlan(c, f, vs, o)).failed
    requires IntervalOf(c.s) >= 0 && IsDue(c.due, f.id, c.now, IntervalOf(c.s)) && op in OPERATORS
    ensures AccountedFor(p.t.readings, ExecAll(c.s, c.now, p, FencePlan(c, f, vs, o)).t.readings, c, f,
                         FilterMap(vs, Rebase(c.dist, f)), op)
  {
    var inside := FilterMap(vs, Rebase(c.dist, f));
    var begin, near := FencePlanStart(f, inside, o.counts), NearestPlan(c, f, inside, o.closest);
    var evals := FilterMap(c.watches, EvaluateFor(f, inside));
    assert Enumerates(o.closest, ClosestOf(inside).Keys);
    forall i | i in evals
      ensures i.Evaluate?
    {
      EvaluationsHaveNoSample(c, f, inside, i);
    }
    hide *;
    FencePlanRuns(c, f, vs, o, p);
    var a := ExecAll(c.s, c.now, p, begin);
    var b := ExecAll(c.s, c.now, a, near);
    var h := Exec(c.s, c.now, b, Health(f.id));
    StartKeepsReadings(c.s, c.now, p, f, inside, o.counts);
    ExecAllKeepsFences(c.s, c.now, p, begin);
    RunFailedStays(c.s, c.now, h, evals);
    FailedStays(c.s, c.now, b, Health(f.id));
    RunFailedStays(c.s, c.now, a, near);
    AccountedAfterLookup(c, a, f, inside, o.closest, op);
    HealthFinds(c.s, c.now, b, f.id);
    EvaluationsKeepHealth(c.s, c.now, h, evals);
  }

  lemma SameReadings(p: Progress, q: Progress, before: Readings, c: Context, f: Fence, inside: seq<Vehicle>, o: Operator)
    requires ViewOf(p, f.id) == ViewOf(q, f.id) && AccountedFor(before, q.t.readings, c, f, inside, o)
    ensures AccountedFor(before, p.t.readings, c, f, inside, o)
  {
    hide FoundBy, ProbeQuery, FilterMap;
    var x := ReadingKey(f.id, Unix(c.now), o.key);
    var a, b := ReadingsAt(p.t.readings, f.id), ReadingsAt(q.t.readings, f.id);
    assert a == b;
    assert x in a <==> x in p.t.readings;
    assert x in b <==> x in q.t.readings;
  }

  /** After a tick that found the wider lookup of a fence due, every known operator
      has a vehicle in the fence and a row with its distance, or what its probe was
      answered in a row of this second, or had its probe fail and no new row. */
  lemma EveryOperatorIsAccountedForInTick(p: P.Poller, before: Progress, now: int, fetch: Fetch, probe: Probe, fences: seq<Fence>,
                                          watches: seq<Watch>, pieces: seq<seq<Instr>>, after: Progress, err: P.TickError,
                                          g: nat, f: Fence, o: Operator)
    requires p.Ticked(before, now, fetch, probe, fences, watches, pieces, after, err) && |fences| > 0
    requires forall x :: x in watches ==> x.kind != OtherKind
    requires g < |GroupsOf(p.dist, fences)| && f in GroupsOf(p.dist, fences)[g].fences
    requires fetch(g, GroupQuery(GroupsOf(p.dist, fences)[g])).Fetched?
    requires IntervalOf(p.s) >= 0 && IsDue(before.due, f.id, now, IntervalOf(p.s)) && o in OPERATORS
    ensures var inside := FilterMap(fetch(g, GroupQuery(GroupsOf(p.dist, fences)[g])).vehicles, Rebase(p.dist, f));
            var x, answer := ReadingKey(f.id, Unix(now), o.key), probe(f.id, ProbeQuery(f, p.s.reachM, o));
            if exists v :: v in inside && v.operatorKey == o.key then x in after.t.readings && after.t.readings[x].distanceM.Some?
            else if answer.Fetched? then x in after.t.readings && Some(after.t.readings[x]) == FoundBy(p.dist, f, answer)
            else x in after.t.readings <==> x in before.t.readings
  {
    var gs := GroupsOf(p.dist, fences);
    var answers := P.AnswersOf(fetch, gs);
    var c := p.ContextOf(now, watches, before.due, probe);
    var start := P.StartOf(before, now, gs, fences);
    FenceIsThere(start.t, p.dist, fences, g, f);
    assert start.t.readings == before.t.readings;
    hide GroupsOf, Work, IsPlan, Outcome, IsFenceList, IsArmedList, ExecAll, FencePlan, ViewOf, FilterMap, ValidOrders, FoundBy, ProbeQuery,
         IsDue, IntervalOf;
    var o' := FenceAlone(c, start.t, start, fences, gs, answers, pieces, g, f);
    PlanAccounts(c, start, f, answers[g].vehicles, o', o);
    var alone := ExecAll(c.s, c.now, start, FencePlan(c, f, answers[g].vehicles, o'));
    SameReadings(after, alone, before.t.readings, c, f, FilterMap(answers[g].vehicles, Rebase(p.dist, f)), o);
  }

  // ---------------------------------------------------------------------
  // Arrivals
  // ---------------------------------------------------------------------

  /** The stints, of any fence, that began in a window. */
  ghost function Began(rows: Stints, from: int, to: int): set<StintKey> {
    set k | k in rows && from <= k.first < to
  }

  /** Stints do not end before they begin, and none begins after `at`. */
  ghost predicate Forward(rows: Stints, at: int) {
    forall k :: k in rows ==> k.first <= at && k.first <= rows[k].last
  }

  lemma {:induction false} SightingsGoForward(rows: Stints, open: map<string, int>, fence: string, at: int, seen: seq<Sighting>)
    requires Forward(rows, at) && forall v :: v in open ==> open[v] <= at
    ensures Forward(SightAll(rows, open, fence, at, seen), at)
  {
    if |seen| > 0 {
      SightingsGoForward(rows, open, fence, at, Front(seen));
    }
  }

  lemma AddedBegin(rows: Stints, after: Stints, added: set<StintKey>, at: int, from: int, to: int)
    requires after.Keys == rows.Keys + added && added !! rows.Keys
    requires forall k :: k in added ==> k.first == at
    ensures |Began(after, from, to)| == |Began(rows, from, to)| + if from <= at < to then |added| else 0
  {
    if from <= at < to {
      assert Began(after, from, to) == Began(rows, from, to) + added;
    } else {
      assert Began(after, from, to) == Began(rows, from, to);
    }
  }

  /** A stint that began this very second is open. */
  lemma ThisSecondIsOpen(rows: Stints, fence: string, now: int, stale: int, v: string)
    requires Forward(rows, Unix(now)) && StintKey(fence, v, Unix(now)) in rows
    ensures v in OpenStints(rows, fence, Cutoff(now, stale))
  {
    OpenStintsIsOpenMap(rows, fence, Cutoff(now, stale));
    UnixMonotone(now - StaleOf(stale), now);
  }

  /** An observation adds a row for each arrival it reports, and none otherwise. */
  lemma ObservationAdds(rows: Stints, fence: string, now: int, stale: int, seen: seq<Sighting>, from: int, to: int)
    requires Forward(rows, Unix(now)) && R.DistinctVehicles(seen)
    ensures var open := OpenStints(rows, fence, Cutoff(now, stale));
            var after := SightAll(rows, open, fence, Unix(now), seen);
            && Forward(after, Unix(now))
            && |Began(after, from, to)|
               == |Began(rows, from, to)| + if from <= Unix(now) < to then |FilterMap(seen, IfNew(open))| else 0
  {
    var open := OpenStints(rows, fence, Cutoff(now, stale));
    var arrivals := FilterMap(seen, IfNew(open));
    var added := R.NewKeys(fence, Unix(now), arrivals);
    OpenStintsIsOpenMap(rows, fence, Cutoff(now, stale));
    hide FilterMap, SightAll;
    forall v | v in open
      ensures open[v] <= Unix(now)
    {
      assert StintKey(fence, v, open[v]) in rows;
    }
    SightingsGoForward(rows, open, fence, Unix(now), seen);
    R.SightAllKeys(rows, open, fence, Unix(now), seen);
    R.FilterKeepsDistinct(seen, open);
    R.NewKeysCount(fence, Unix(now), arrivals);
    forall k | k in added
      ensures k !in rows
    {
      if k in rows {
        ThisSecondIsOpen(rows, fence, now, stale, k.vehicle);
      }
    }
    AddedBegin(rows, SightAll(rows, open, fence, Unix(now), seen), added, Unix(now), from, to);
  }

  /** What a call adds to the stints it also adds to the report. */
  ghost predicate Tallies(now: int, p: Progress, q: Progress, from: int, to: int) {
    && Forward(q.t.stints, Unix(now)) && q.rep.arrivals >= p.rep.arrivals
    && |Began(q.t.stints, from, to)|
       == |Began(p.t.stints, from, to)| + if from <= Unix(now) < to then q.rep.arrivals - p.rep.arrivals else 0
  }

  lemma OtherCallsAddNone(s: Settings, now: int, p: Progress, i: Instr)
    requires !i.Observe? || p.failed
    ensures Exec(s, now, p, i).t.stints == p.t.stints && Exec(s, now, p, i).rep.arrivals == p.rep.arrivals
  {
    hide FilterMap, DarkOperators, Judge, ObservePresence;
  }

  lemma CallTallies(s: Settings, now: int, p: Progress, i: Instr, from: int, to: int)
    requires Forward(p.t.stints, Unix(now)) && (i.Observe? ==> R.DistinctVehicles(i.seen))
    ensures Tallies(now, p, Exec(s, now, p, i), from, to)
  {
    hide FilterMap, SightAll, OpenStints, Forward, Began;
    if i.Observe? && !p.failed {
      ObservationAdds(p.t.stints, i.fence, now, s.stale, i.seen, from, to);
    } else {
      OtherCallsAddNone(s, now, p, i);
      hide Exec;
    }
  }

  lemma {:induction false} RunTallies(s: Settings, now: int, p: Progress, plan: seq<Instr>, from: int, to: int)
    requires Forward(p.t.stints, Unix(now)) && forall i :: i in plan && i.Observe? ==> R.DistinctVehicles(i.seen)
    ensures Tallies(now, p, ExecAll(s, now, p, plan), from, to)
  {
    hide Exec, Forward, Began, R.DistinctVehicles;
    if |plan| > 0 {
      assert Last(plan) in plan && forall i :: i in Front(plan) ==> i in plan;
      RunTallies(s, now, p, Front(plan), from, to);
      CallTallies(s, now, ExecAll(s, now, p, Front(plan)), Last(plan), from, to);
    }
  }

  /** No two vehicles of an answer share an id. */
  ghost predicate DistinctAnswer(vs: seq<Vehicle>) {
    forall i, j :: 0 <= i < j < |vs| ==> vs[i].id != vs[j].id
  }

  lemma DistinctSnoc(vs: seq<Vehicle>, v: Vehicle)
    requires DistinctAnswer(vs) && forall u :: u in vs ==> u.id != v.id
    ensures DistinctAnswer(vs + [v])
  {}

  lemma {:induction false} InsideIsDistinct(dist: Metric, f: Fence, vs: seq<Vehicle>)
    requires DistinctAnswer(vs)
    ensures DistinctAnswer(FilterMap(vs, Rebase(dist, f)))
    ensures forall u :: u in FilterMap(vs, Rebase(dist, f)) ==> exists v :: v in vs && v.id == u.id
  {
    if |vs| > 0 {
      var before, v := Front(vs), Last(vs);
      assert vs == before + [v] && v in vs && forall u :: u in before ==> u in vs && u.id != v.id;
      InsideIsDistinct(dist, f, before);
      var kept := FilterMap(before, Rebase(dist, f));
      assert FilterMap(vs, Rebase(dist, f)) == kept + ToSeq(Rebase(dist, f)(v));
      hide FilterMap, DistinctAnswer;
      if Rebase(dist, f)(v).Some? {
        DistinctSnoc(kept, Rebase(dist, f)(v).value);
      } else {
        assert kept + [] == kept;
      }
    }
  }

  lemma {:induction false} SightingsFollow(vs: seq<Vehicle>)
    ensures |FilterMap(vs, SightingOf())| == |vs|
    ensures forall i :: 0 <= i < |vs| ==> FilterMap(vs, SightingOf())[i].vehicle == vs[i].id
  {
    if |vs| > 0 {
      SightingsFollow(Front(vs));
    }
  }

  lemma SightingsAreDistinct(dist: Metric, f: Fence, vs: seq<Vehicle>)
    requires DistinctAnswer(vs)
    ensures R.DistinctVehicles(FilterMap(FilterMap(vs, Rebase(dist, f)), SightingOf()))
  {
    hide FilterMap;
    InsideIsDistinct(dist, f, vs);
    SightingsFollow(FilterMap(vs, Rebase(dist, f)));
  }

  lemma SamplesDoNotObserve(order: seq<string>, f: string, counts: map<string, int>, i: Instr)
    requires i in FilterMap(order, SampleFor(f, counts))
    ensures i.Sample?
  {
    FilterMapMember(order, SampleFor(f, counts), i);
  }

  lemma LookupDoesNotObserve(c: Context, f: Fence, inside: seq<Vehicle>, order: seq<string>, i: Instr)
    requires i in NearestPlan(c, f, inside, order)
    ensures !i.Observe?
  {
    hide FilterMap, ClosestOf;
    var closest := ClosestOf(inside);
    FilterMapMember(order, NearFor(f.id, closest), i);
    FilterMapMember(FilterMap(OPERATORS, Absent(closest)), ProbeFor(c, f), i);
  }

  lemma PieceObserves(c: Context, v: Visit, piece: seq<Instr>, i: Instr)
    requires IsPiece(c, v, piece) && i in piece && i.Observe?
    requires v.AtFence? ==> DistinctAnswer(v.vehicles)
    ensures R.DistinctVehicles(i.seen)
  {
    match v
    case OpenGroup(_) =>
    case AtFence(f, vs) =>
      hide FilterMap, NearestPlan, CountsOf, ClosestOf, Enumerates, R.DistinctVehicles, DistinctAnswer;
      var o :| ValidOrders(c, f, vs, o) && piece == FencePlan(c, f, vs, o);
      var inside := FilterMap(vs, Rebase(c.dist, f));
      SightingsAreDistinct(c.dist, f, vs);
      if i in FilterMap(o.counts, SampleFor(f.id, CountsOf(inside))) {
        SamplesDoNotObserve(o.counts, f.id, CountsOf(inside), i);
      } else if i in NearestPlan(c, f, inside, o.closest) {
        LookupDoesNotObserve(c, f, inside, o.closest, i);
      } else if i in FilterMap(c.watches, EvaluateFor(f, inside)) {
        EvaluationsHaveNoSample(c, f, inside, i);
      }
  }

  lemma {:induction false} VisitsSee(fs: seq<Fence>, vs: seq<Vehicle>, v: Visit)
    requires v in VisitsOf(fs, vs)
    ensures v.AtFence? && v.vehicles == vs
  {
    if |fs| > 0 && v != Last(VisitsOf(fs, vs)) {
      VisitsSee(Front(fs), vs, v);
    }
  }

  /** No answer of a tick names a vehicle twice. */
  ghost predicate DistinctAnswers(answers: seq<FetchResult>) {
    forall g :: 0 <= g < |answers| && answers[g].Fetched? ==> DistinctAnswer(answers[g].vehicles)
  }

  lemma {:induction false} WorkSees(gs: seq<Group>, answers: seq<FetchResult>, v: Visit)
    requires |gs| == |answers| && DistinctAnswers(answers) && v in Work(gs, answers) && v.AtFence?
    ensures DistinctAnswer(v.vehicles)
  {
    if |gs| > 0 {
      if v in Work(Front(gs), Front(answers)) {
        WorkSees(Front(gs), Front(answers), v);
      } else {
        assert v in VisitGroup(Last(gs), Last(answers));
        VisitsSee(Last(gs).fences, Last(answers).vehicles, v);
      }
    }
  }

  /** A tick, whatever fails in it, adds as many stints as it reports arrivals. */
  lemma TickTallies(p: P.Poller, before: Progress, now: int, fetch: Fetch, probe: Probe, fences: seq<Fence>,
                    watches: seq<Watch>, pieces: seq<seq<Instr>>, after: Progress, err: P.TickError, from: int, to: int)
    requires p.Ticked(before, now, fetch, probe, fences, watches, pieces, after, err)
    requires DistinctAnswers(P.AnswersOf(fetch, GroupsOf(p.dist, fences))) && Forward(before.t.stints, Unix(now))
    ensures Forward(after.t.stints, Unix(now))
    ensures |Began(after.t.stints, from, to)|
            == |Began(before.t.stints, from, to)| + if from <= Unix(now) < to then after.rep.arrivals else 0
  {
    var gs := GroupsOf(p.dist, fences);
    var answers := P.AnswersOf(fetch, gs);
    var c := p.ContextOf(now, watches, before.due, probe);
    var start := P.StartOf(before, now, gs, fences);
    assert start.t.stints == before.t.stints && start.rep.arrivals == 0;
    hide GroupsOf, Work, IsPiece, ExecAll, IsFenceList, IsArmedList, ExpireWatches, Forward, Began, R.DistinctVehicles, DistinctAnswer,
         DistinctAnswers, Concat;
    forall i | i in Concat(pieces) && i.Observe?
      ensures R.DistinctVehicles(i.seen)
    {
      var k := ConcatMember(pieces, i);
      if Work(gs, answers)[k].AtFence? {
        WorkSees(gs, answers, Work(gs, answers)[k]);
      }
      PieceObserves(c, Work(gs, answers)[k], pieces[k], i);
    }
    RunTallies(p.s, now, start, Concat(pieces), from, to);
  }

  /** Ticks of one poller in the order of their clocks, from a store without stints,
      with nothing else touching the stints. Anything may happen to other tables. */
  ghost predicate OnlyTicksSee(p: P.Poller, rounds: seq<Round>) {
    |rounds| > 0 ==>
      var r := Last(rounds);
      && OnlyTicksSee(p, Front(rounds))
      && p.Ticked(r.before, r.now, r.fetch, r.probe, r.fences, r.watches, r.pieces, r.after, r.err)
      && DistinctAnswers(P.AnswersOf(r.fetch, GroupsOf(p.dist, r.fences)))
      && if |rounds| == 1 then r.before.t.stints == map[]
         else Last(Front(rounds)).now <= r.now && r.before.t.stints == Last(Front(rounds)).after.t.stints
  }

  /** The arrivals counted in the reports of a window. */
  ghost function ReportedIn(rounds: seq<Round>, from: int, to: int): int {
    if |rounds| == 0 then 0
    else ReportedIn(Front(rounds), from, to) + if from <= Unix(Last(rounds).now) < to then Last(rounds).after.rep.arrivals else 0
  }

  lemma ForwardLater(rows: Stints, at: int, later: int)
    requires Forward(rows, at) && at <= later
    ensures Forward(rows, later)
  {}

  /** Over any ticks, however many fences, groups and calls of theirs fail, the
      stints that began in a window are as many as the arrivals reported in it. */
  lemma {:induction false} ReportsTellEveryArrival(p: P.Poller, rounds: seq<Round>, from: int, to: int)
    requires OnlyTicksSee(p, rounds) && |rounds| > 0
    ensures Forward(Last(rounds).after.t.stints, Unix(Last(rounds).now))
    ensures |Began(Last(rounds).after.t.stints, from, to)| == ReportedIn(rounds, from, to)
    decreases |rounds|
  {
    var r := Last(rounds);
    hide P.Poller.Ticked, DistinctAnswers, Unix;
    if |rounds| > 1 {
      ReportsTellEveryArrival(p, Front(rounds), from, to);
      hide Forward, Began;
      UnixMonotone(Last(Front(rounds)).now, r.now);
      ForwardLater(r.before.t.stints, Unix(Last(Front(rounds)).now), Unix(r.now));
    } else {
      assert Front(rounds) == [] && Began(map[], from, to) == {};
    }
    hide Forward, Began, OnlyTicksSee;
    TickTallies(p, r.before, r.now, r.fetch, r.probe, r.fences, r.watches, r.pieces, r.after, r.err, from, to);
  }
}
