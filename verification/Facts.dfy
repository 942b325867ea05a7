/** What a tick leaves about a fence, said of the vehicles its group was answered
    with: who is present, how many there are, which watches fired and with what
    (`internal/poll/poll.go`, `Tick`). */
module Facts {
  import opened Base
  import opened Geo
  import opened Entur
  import opened Strings
  import opened Schema
  import opened Poll
  import opened Plan
  import opened Isolation
  import opened Evaluation
  import opened Records
  import opened Feed
  import opened Sequential
  import opened Ticks
  import opened Schedule
  import opened Ledger
  import Coalesce
  import P = Poller
  import R = Presence

  // ---------------------------------------------------------------------
  // An answered fence
  // ---------------------------------------------------------------------

  /** Within the radius of the fence. */
  ghost predicate In(dist: Metric, f: Fence, v: Vehicle) {
    dist(f.at, v.at) <= f.radiusM as real
  }

  lemma InsideMember(dist: Metric, f: Fence, vs: seq<Vehicle>, u: Vehicle)
    ensures u in FilterMap(vs, Rebase(dist, f)) <==>
              exists v :: v in vs && In(dist, f, v) && u == v.(distanceM := dist(f.at, v.at))
  {
    FilterMapMember(vs, Rebase(dist, f), u);
  }

  /** The group of the fence was answered with these vehicles. */
  ghost predicate IsAnswered(p: P.Poller, fetch: Fetch, fences: seq<Fence>, g: nat, f: Fence, vs: seq<Vehicle>) {
    var gs := GroupsOf(p.dist, fences);
    && g < |gs| && f in gs[g].fences
    && fetch(g, GroupQuery(gs[g])).Fetched? && fetch(g, GroupQuery(gs[g])).vehicles == vs
  }

  lemma AnsweredGroup(p: P.Poller, fetch: Fetch, fences: seq<Fence>, g: nat, f: Fence, vs: seq<Vehicle>)
    requires IsAnswered(p, fetch, fences, g, f, vs)
    ensures |fences| > 0 && g < |GroupsOf(p.dist, fences)| && f in GroupsOf(p.dist, fences)[g].fences
    ensures fetch(g, GroupQuery(GroupsOf(p.dist, fences)[g])).Fetched?
    ensures fetch(g, GroupQuery(GroupsOf(p.dist, fences)[g])).vehicles == vs
  {}

  /** What the tick leaves about the fence is what its own plan leaves. */
  lemma TickAt(p: P.Poller, before: Progress, now: int, fetch: Fetch, probe: Probe, fences: seq<Fence>,
               watches: seq<Watch>, pieces: seq<seq<Instr>>, after: Progress, err: P.TickError,
               g: nat, f: Fence, vs: seq<Vehicle>) returns (c: Context, start: Progress, o: Orders)
    requires p.Ticked(before, now, fetch, probe, fences, watches, pieces, after, err)
    requires forall x :: x in watches ==> x.kind != OtherKind
    requires IsAnswered(p, fetch, fences, g, f, vs)
    ensures c.dist == p.dist && c.s == p.s && c.now == now && c.watches == watches && c.due == before.due && c.probe == probe
    ensures start.t == ExpireWatches(before.t, now) && start.due == before.due && !start.failed && f.id in start.t.fences
    ensures IsArmedList(start.t, now, watches)
    ensures var alone := ExecAll(c.s, c.now, start, FencePlan(c, f, vs, o));
            !alone.failed && ValidOrders(c, f, vs, o) && ViewOf(after, f.id) == ViewOf(alone, f.id)
  {
    var gs := GroupsOf(p.dist, fences);
    var answers := P.AnswersOf(fetch, gs);
    c := p.ContextOf(now, watches, before.due, probe);
    start := P.StartOf(before, now, gs, fences);
    assert |fences| > 0;
    FenceIsThere(start.t, p.dist, fences, g, f);
    hide GroupsOf, Work, IsPlan, Outcome, IsFenceList, IsArmedList, ExecAll, FencePlan, ViewOf, ValidOrders, ExpireWatches;
    o := FenceAlone(c, start.t, start, fences, gs, answers, pieces, g, f);
  }

  // ---------------------------------------------------------------------
  // Presence
  // ---------------------------------------------------------------------

  /** Present at a fence means sighted there no longer ago than the stale limit,
      three minutes when none is set, in whole seconds. */
  lemma PresentMeans(t: Tables, fence: string, at: int, stale: int, v: string)
    ensures v in PresentIds(t, fence, at, stale) <==>
              exists first ::
                var k := StintKey(fence, v, first);
                k in t.stints && t.stints[k].last >= Unix(at - if stale <= 0 then 180_000_000_000 else stale)
  {
    if v in PresentIds(t, fence, at, stale) {
      var k :| k in t.stints && k.fence == fence && t.stints[k].last >= Cutoff(at, stale) && k.vehicle == v;
      assert k == StintKey(fence, v, k.first);
    }
    if first :| var k := StintKey(fence, v, first);
                k in t.stints && t.stints[k].last >= Unix(at - if stale <= 0 then 180_000_000_000 else stale) {
      assert StintKey(fence, v, first) in t.stints;
    }
  }

  lemma CallKeepsStints(s: Settings, now: int, p: Progress, i: Instr)
    requires !i.Observe?
    ensures Exec(s, now, p, i).t.stints == p.t.stints
  {
    hide FilterMap, DarkOperators, Judge;
  }

  lemma {:induction false} RunKeepsStints(s: Settings, now: int, p: Progress, plan: seq<Instr>)
    requires forall i :: i in plan ==> !i.Observe?
    ensures ExecAll(s, now, p, plan).t.stints == p.t.stints
  {
    hide Exec;
    if |plan| > 0 {
      assert Last(plan) in plan && forall i :: i in Front(plan) ==> i in plan;
      RunKeepsStints(s, now, p, Front(plan));
      CallKeepsStints(s, now, ExecAll(s, now, p, Front(plan)), Last(plan));
    }
  }

  lemma ObserveSights(s: Settings, now: int, p: Progress, fence: string, seen: seq<Sighting>)
    requires !p.failed && !Exec(s, now, p, Observe(fence, seen)).failed
    ensures Exec(s, now, p, Observe(fence, seen)).t.stints
            == SightAll(p.t.stints, OpenStints(p.t.stints, fence, Cutoff(now, s.stale)), fence, Unix(now), seen)
  {
    hide FilterMap, SightAll, OpenStints;
  }

  lemma PlanSights(c: Context, p: Progress, f: Fence, vs: seq<Vehicle>, o: Orders)
    requires !p.failed && f.id in p.t.fences && !ExecAll(c.s, c.now, p, FencePlan(c, f, vs, o)).failed
    ensures ExecAll(c.s, c.now, p, FencePlan(c, f, vs, o)).t.stints
            == SightAll(p.t.stints, OpenStints(p.t.stints, f.id, Cutoff(c.now, c.s.stale)), f.id, Unix(c.now),
                        FilterMap(FilterMap(vs, Rebase(c.dist, f)), SightingOf()))
  {
    var inside := FilterMap(vs, Rebase(c.dist, f));
    var samples, observe := FilterMap(o.counts, SampleFor(f.id, CountsOf(inside))), Observe(f.id, FilterMap(inside, SightingOf()));
    var near, evals := NearestPlan(c, f, inside, o.closest), FilterMap(c.watches, EvaluateFor(f, inside));
    hide Exec, ExecAll, NearestPlan, FilterMap, CountsOf, ClosestOf, FencePlan, OpenStints, SightAll;
    forall i | i in samples
      ensures !i.Observe?
    {
      SamplesDoNotObserve(o.counts, f.id, CountsOf(inside), i);
    }
    forall i | i in near
      ensures !i.Observe?
    {
      LookupDoesNotObserve(c, f, inside, o.closest, i);
    }
    forall i | i in evals
      ensures !i.Observe?
    {
      EvaluationsHaveNoSample(c, f, inside, i);
    }
    FencePlanRuns(c, f, vs, o, p);
    ExecAllSnoc(c.s, c.now, p, samples, observe);
    var a := ExecAll(c.s, c.now, p, samples);
    var b := Exec(c.s, c.now, a, observe);
    var d := ExecAll(c.s, c.now, b, near);
    var h := Exec(c.s, c.now, d, Health(f.id));
    RunKeepsStints(c.s, c.now, p, samples);
    RunKeepsStints(c.s, c.now, b, near);
    CallKeepsStints(c.s, c.now, d, Health(f.id));
    RunKeepsStints(c.s, c.now, h, evals);
    RunFailedStays(c.s, c.now, h, evals);
    FailedStays(c.s, c.now, d, Health(f.id));
    RunFailedStays(c.s, c.now, b, near);
    FailedStays(c.s, c.now, a, observe);
    ObserveSights(c.s, c.now, a, f.id, FilterMap(inside, SightingOf()));
  }

  /** The operator a vehicle is entered with. */
  ghost predicate EnteredAs(v: Vehicle, operator: string) {
    operator == if v.operatorKey == "" then "unknown" else v.operatorKey
  }

  lemma {:induction false} SightAllGrows(rows: Stints, open: map<string, int>, fence: string, at: int, seen: seq<Sighting>)
    ensures rows.Keys <= SightAll(rows, open, fence, at, seen).Keys
  {
    if |seen| > 0 {
      SightAllGrows(rows, open, fence, at, Front(seen));
    }
  }

  lemma SightEnters(rows: Stints, open: map<string, int>, fence: string, at: int, y: Sighting, x: Sighting)
    requires forall v :: v in open ==> StintKey(fence, v, open[v]) in rows
    ensures var after, k := Sight(rows, open, fence, at, y), StintKey(fence, x.vehicle, if x.vehicle in open then open[x.vehicle] else at);
            && (k in rows && rows[k].last == at ==> k in after && after[k].last == at)
            && (x == y ==> k in after && after[k].last == at)
  {}

  /** Everyone sighted has a row that says so now; one not in `open` has it under this
      second, with the operator of its first sighting. */
  lemma {:induction false} SightingsEnter(rows: Stints, open: map<string, int>, fence: string, at: int, seen: seq<Sighting>,
                                          x: Sighting)
    requires x in seen && forall v :: v in open ==> StintKey(fence, v, open[v]) in rows
    ensures var after, k := SightAll(rows, open, fence, at, seen), StintKey(fence, x.vehicle, if x.vehicle in open then open[x.vehicle] else at);
            k in after && after[k].last == at
  {
    hide Sight;
    var before, y := SightAll(rows, open, fence, at, Front(seen)), Last(seen);
    assert seen == Front(seen) + [y];
    SightAllGrows(rows, open, fence, at, Front(seen));
    SightEnters(before, open, fence, at, y, x);
    if x in Front(seen) {
      SightingsEnter(rows, open, fence, at, Front(seen), x);
    }
  }

  /** What the rows of a fence become: those of vehicles inside are entered or
      extended, and no other changes. */
  lemma {:induction false} SightingsOnly(rows: Stints, open: map<string, int>, fence: string, at: int, seen: seq<Sighting>, k: StintKey)
    requires forall v :: v in open ==> StintKey(fence, v, open[v]) in rows
    ensures var after := SightAll(rows, open, fence, at, seen);
            && (k in rows ==> k in after && (after[k] == rows[k] || after[k] == Stint(rows[k].operator, at)))
            && (k in after && k !in rows ==>
                  && k.fence == fence && k.first == at && k.vehicle !in open && after[k].last == at
                  && Sighting(k.vehicle, after[k].operator) in seen)
            && (k in rows && !(k.fence == fence && R.Spots(seen, k.vehicle)) ==> after[k] == rows[k])
            && (k in rows && k.vehicle in open && k.first != open[k.vehicle] ==> after[k] == rows[k])
  {
    if |seen| > 0 {
      var y := Last(seen);
      assert seen == Front(seen) + [y] && y in seen;
      assert R.Spots(Front(seen), k.vehicle) ==> R.Spots(seen, k.vehicle);
      assert y.vehicle == k.vehicle ==> R.Spots(seen, k.vehicle);
      SightingsOnly(rows, open, fence, at, Front(seen), k);
      SightAllGrows(rows, open, fence, at, Front(seen));
    }
  }

  lemma SeenIsInside(dist: Metric, f: Fence, vs: seq<Vehicle>, x: Sighting)
    ensures x in FilterMap(FilterMap(vs, Rebase(dist, f)), SightingOf()) <==>
              exists v :: v in vs && In(dist, f, v) && x.vehicle == v.id && EnteredAs(v, x.operator)
  {
    var inside := FilterMap(vs, Rebase(dist, f));
    FilterMapMember(inside, SightingOf(), x);
    hide FilterMap;
    if v :| v in vs && In(dist, f, v) && x.vehicle == v.id && EnteredAs(v, x.operator) {
      var u := v.(distanceM := dist(f.at, v.at));
      InsideMember(dist, f, vs, u);
      assert SightingOf()(u) == Some(x);
    }
    if u :| u in inside && SightingOf()(u) == Some(x) {
      InsideMember(dist, f, vs, u);
    }
  }

  lemma PresentIsOpen(t: Tables, fence: string, at: int, stale: int, v: string)
    ensures v in PresentIds(t, fence, at, stale) <==> v in OpenStints(t.stints, fence, Cutoff(at, stale))
  {
    OpenStintsIsOpenMap(t.stints, fence, Cutoff(at, stale));
    hide OpenStints, Cutoff;
    if v in OpenStints(t.stints, fence, Cutoff(at, stale)) {
      assert StintKey(fence, v, OpenStints(t.stints, fence, Cutoff(at, stale))[v]) in t.stints;
    }
  }

  lemma NowIsRecent(at: int, stale: int)
    ensures Cutoff(at, stale) <= Unix(at)
  {
    UnixMonotone(at - StaleOf(stale), at);
  }

  /** The fence's stints once its vehicles are entered. */
  ghost predicate Entered(rows: Stints, after: Stints, dist: Metric, f: Fence, at: int, open: map<string, int>, vs: seq<Vehicle>) {
    && (forall v :: v in vs && In(dist, f, v) ==>
          var k := StintKey(f.id, v.id, if v.id in open then open[v.id] else at);
          k in after && after[k].last == at)
    && (forall k :: k in after && k.fence == f.id && k !in rows ==>
          && k.first == after[k].last == at && k.vehicle !in open
          && exists v :: v in vs && In(dist, f, v) && v.id == k.vehicle && EnteredAs(v, after[k].operator))
    && (forall k :: k in rows && k.fence == f.id ==>
          && k in after
          && (after[k] == rows[k]
              || (after[k] == Stint(rows[k].operator, at) && exists v :: v in vs && In(dist, f, v) && v.id == k.vehicle)))
  }

  lemma EnteredByKey(v: Vehicle)
    ensures EnteredAs(v, CountKey(v))
  {}

  lemma SightingsEnterAll(rows: Stints, dist: Metric, f: Fence, at: int, open: map<string, int>, vs: seq<Vehicle>)
    requires forall v :: v in open ==> StintKey(f.id, v, open[v]) in rows
    ensures Entered(rows, SightAll(rows, open, f.id, at, FilterMap(FilterMap(vs, Rebase(dist, f)), SightingOf())), dist, f, at, open, vs)
  {
    var seen := FilterMap(FilterMap(vs, Rebase(dist, f)), SightingOf());
    var after := SightAll(rows, open, f.id, at, seen);
    hide SightAll, FilterMap, In, EnteredAs;
    forall v | v in vs && In(dist, f, v)
      ensures var k := StintKey(f.id, v.id, if v.id in open then open[v.id] else at); k in after && after[k].last == at
    {
      var x := Sighting(v.id, CountKey(v));
      assert EnteredAs(v, x.operator) by { EnteredByKey(v); }
      SeenIsInside(dist, f, vs, x);
      SightingsEnter(rows, open, f.id, at, seen, x);
    }
    forall k | k in after && k.fence == f.id
      ensures k !in rows ==> k.first == after[k].last == at && k.vehicle !in open
      ensures k !in rows ==> exists v :: v in vs && In(dist, f, v) && v.id == k.vehicle && EnteredAs(v, after[k].operator)
    {
      SightingsOnly(rows, open, f.id, at, seen, k);
      SeenIsInside(dist, f, vs, Sighting(k.vehicle, after[k].operator));
    }
    forall k | k in rows && k.fence == f.id
      ensures k in after
      ensures after[k] == rows[k] || after[k] == Stint(rows[k].operator, at)
      ensures after[k] != rows[k] ==> exists v :: v in vs && In(dist, f, v) && v.id == k.vehicle
    {
      SightingsOnly(rows, open, f.id, at, seen, k);
      if after[k] != rows[k] {
        var x :| x in seen && x.vehicle == k.vehicle;
        SeenIsInside(dist, f, vs, x);
      }
    }
  }

  lemma OpenRows(rows: Stints, fence: string, cutoff: int)
    ensures forall v :: v in OpenStints(rows, fence, cutoff) ==> StintKey(fence, v, OpenStints(rows, fence, cutoff)[v]) in rows
  {
    OpenStintsIsOpenMap(rows, fence, cutoff);
    hide OpenStints;
  }

  lemma ExpiryKeepsStints(t: Tables, now: int)
    ensures ExpireWatches(t, now).stints == t.stints
  {}

  lemma SameStints(p: Progress, q: Progress, f: string)
    requires ViewOf(p, f) == ViewOf(q, f)
    ensures forall k: StintKey :: k.fence == f ==> (k in p.t.stints <==> k in q.t.stints)
    ensures forall k: StintKey :: k.fence == f && k in p.t.stints ==> p.t.stints[k] == q.t.stints[k]
  {
    var a, b := StintsAt(p.t.stints, f), StintsAt(q.t.stints, f);
    assert a == b;
    forall k: StintKey | k.fence == f
      ensures k in p.t.stints <==> k in q.t.stints
      ensures k in p.t.stints ==> p.t.stints[k] == q.t.stints[k]
    {
      assert k in a <==> k in p.t.stints;
      assert k in b <==> k in q.t.stints;
    }
  }

  lemma EnteredIsPresent(before: Tables, after: Tables, alone: Stints, dist: Metric, f: Fence, now: int, stale: int, vs: seq<Vehicle>)
    requires forall k: StintKey :: k.fence == f.id ==> (k in after.stints <==> k in alone)
    requires forall k: StintKey :: k.fence == f.id && k in after.stints ==> after.stints[k] == alone[k]
    requires Entered(before.stints, alone, dist, f, Unix(now), OpenStints(before.stints, f.id, Cutoff(now, stale)), vs)
    ensures forall v :: v in vs && In(dist, f, v) ==>
              && v.id in PresentIds(after, f.id, now, stale)
              && (exists k :: k in after.stints && k.fence == f.id && k.vehicle == v.id && after.stints[k].last == Unix(now))
              && (v.id !in PresentIds(before, f.id, now, stale) ==> StintKey(f.id, v.id, Unix(now)) in after.stints)
    ensures forall k :: k in after.stints && k.fence == f.id && k !in before.stints ==>
              && k.first == after.stints[k].last == Unix(now) && k.vehicle !in PresentIds(before, f.id, now, stale)
              && exists v :: v in vs && In(dist, f, v) && v.id == k.vehicle && EnteredAs(v, after.stints[k].operator)
    ensures forall k :: k in before.stints && k.fence == f.id ==>
              && k in after.stints
              && (after.stints[k] == before.stints[k]
                  || (after.stints[k] == Stint(before.stints[k].operator, Unix(now))
                      && exists v :: v in vs && In(dist, f, v) && v.id == k.vehicle))
  {
    var open := OpenStints(before.stints, f.id, Cutoff(now, stale));
    NowIsRecent(now, stale);
    forall v
      ensures v in PresentIds(before, f.id, now, stale) <==> v in open
    {
      PresentIsOpen(before, f.id, now, stale, v);
    }
    hide In, EnteredAs, OpenStints, Cutoff, Unix;
    forall v | v in vs && In(dist, f, v)
      ensures v.id in PresentIds(after, f.id, now, stale)
      ensures exists k :: k in after.stints && k.fence == f.id && k.vehicle == v.id && after.stints[k].last == Unix(now)
      ensures v.id !in open ==> StintKey(f.id, v.id, Unix(now)) in after.stints
    {
      var k := StintKey(f.id, v.id, if v.id in open then open[v.id] else Unix(now));
      assert k in alone && alone[k].last == Unix(now);
      assert k in after.stints;
    }
  }

  /** After a tick every vehicle of the answer within the radius of a fence is present
      there, sighted this second. One that was not present has a new stint, begun this
      second, with its operator; the new stints of the fence are just those; and no
      other stint of the fence changes but in being extended to this second, which
      only one of a vehicle inside is. */
  lemma PresenceFollowsTheVehicles(p: P.Poller, before: Progress, now: int, fetch: Fetch, probe: Probe, fences: seq<Fence>,
                                   watches: seq<Watch>, pieces: seq<seq<Instr>>, after: Progress, err: P.TickError,
                                   g: nat, f: Fence, vs: seq<Vehicle>)
    requires p.Ticked(before, now, fetch, probe, fences, watches, pieces, after, err)
    requires forall x :: x in watches ==> x.kind != OtherKind
    requires IsAnswered(p, fetch, fences, g, f, vs)
    ensures forall v :: v in vs && In(p.dist, f, v) ==>
              && v.id in PresentIds(after.t, f.id, now, p.s.stale)
              && (exists k :: k in after.t.stints && k.fence == f.id && k.vehicle == v.id && after.t.stints[k].last == Unix(now))
              && (v.id !in PresentIds(before.t, f.id, now, p.s.stale) ==> StintKey(f.id, v.id, Unix(now)) in after.t.stints)
    ensures forall k :: k in after.t.stints && k.fence == f.id && k !in before.t.stints ==>
              && k.first == after.t.stints[k].last == Unix(now) && k.vehicle !in PresentIds(before.t, f.id, now, p.s.stale)
              && exists v :: v in vs && In(p.dist, f, v) && v.id == k.vehicle && EnteredAs(v, after.t.stints[k].operator)
    ensures forall k :: k in before.t.stints && k.fence == f.id ==>
              && k in after.t.stints
              && (after.t.stints[k] == before.t.stints[k]
                  || (after.t.stints[k] == Stint(before.t.stints[k].operator, Unix(now))
                      && exists v :: v in vs && In(p.dist, f, v) && v.id == k.vehicle))
  {
    var c, start, o := TickAt(p, before, now, fetch, probe, fences, watches, pieces, after, err, g, f, vs);
    var alone := ExecAll(c.s, c.now, start, FencePlan(c, f, vs, o));
    hide *;
    var rows, cutoff := before.t.stints, Cutoff(now, p.s.stale);
    var open := OpenStints(rows, f.id, cutoff);
    ExpiryKeepsStints(before.t, now);
    OpenRows(rows, f.id, cutoff);
    PlanSights(c, start, f, vs, o);
    SameStints(after, alone, f.id);
    SightingsEnterAll(rows, p.dist, f, Unix(now), open, vs);
    EnteredIsPresent(before.t, after.t, alone.t.stints, p.dist, f, now, p.s.stale, vs);
  }

  /** A vehicle that can be rented, of a known operator, within the radius. */
  ghost predicate IsThere(dist: Metric, f: Fence, rv: RawVehicle) {
    && (exists o :: o in OPERATORS && rv.operatorId == Some(o.id))
    && !rv.disabled && !rv.reserved && rv.formFactor == Some("SCOOTER_STANDING") && (rv.rangeM.Some? ==> rv.rangeM.value > -1.0)
    && dist(f.at, rv.at) <= f.radiusM as real
  }

  lemma SeenFromFeed(dist: Metric, fences: seq<Fence>, g: Group, f: Fence, feed: seq<RawVehicle>, rows: seq<RawVehicle>,
                     res: FetchResult)
    requires IsDistance(dist) && f.radiusM > 0 && g in GroupsOf(dist, fences) && f in g.fences && res.Fetched?
    requires Coalesce.Fetches(dist, feed, GroupQuery(g), rows, res) && !res.truncated
    ensures forall rv :: rv in feed && IsThere(dist, f, rv) ==> exists v :: v in res.vehicles && In(dist, f, v) && v.id == rv.id
    ensures forall v :: v in res.vehicles && In(dist, f, v) ==> exists rv :: rv in feed && IsThere(dist, f, rv) && rv.id == v.id
  {
    hide GroupsOf, FilterMap, Coalesce.Fetches, IsDistance;
    forall rv | rv in feed && IsThere(dist, f, rv)
      ensures exists v :: v in res.vehicles && In(dist, f, v) && v.id == rv.id
    {
      var u := Vehicle(rv.id, rv.at, dist(f.at, rv.at), OperatorKeyOf(rv), FormOf(rv), RangeOf(rv), rv.disabled, rv.reserved);
      ShowsIsTheConversion(u, rv, dist(f.at, rv.at));
      hide Shows, OperatorKeyOf, FormOf, RangeOf, In;
      FenceSeesExactly(dist, fences, g, f, feed, rows, res, u);
      InsideMember(dist, f, res.vehicles, u);
    }
    forall v | v in res.vehicles && In(dist, f, v)
      ensures exists rv :: rv in feed && IsThere(dist, f, rv) && rv.id == v.id
    {
      var u := v.(distanceM := dist(f.at, v.at));
      InsideMember(dist, f, res.vehicles, u);
      FenceSeesExactly(dist, fences, g, f, feed, rows, res, u);
    }
  }

  /** After a tick, whatever rentable vehicle of a known operator upstream held within
      the radius of a fence, when it answered its group untruncated, is present there;
      and each new stint of the fence is of such a vehicle. */
  lemma WhatIsThereIsPresent(p: P.Poller, before: Progress, now: int, fetch: Fetch, probe: Probe, fences: seq<Fence>,
                             watches: seq<Watch>, pieces: seq<seq<Instr>>, after: Progress, err: P.TickError,
                             g: nat, f: Fence, feed: seq<RawVehicle>, rows: seq<RawVehicle>, res: FetchResult)
    requires p.Ticked(before, now, fetch, probe, fences, watches, pieces, after, err)
    requires forall x :: x in watches ==> x.kind != OtherKind
    requires res.Fetched? && !res.truncated && IsAnswered(p, fetch, fences, g, f, res.vehicles)
    requires IsDistance(p.dist) && f.radiusM > 0
    requires Coalesce.Fetches(p.dist, feed, GroupQuery(GroupsOf(p.dist, fences)[g]), rows, res)
    ensures forall rv :: rv in feed && IsThere(p.dist, f, rv) ==> rv.id in PresentIds(after.t, f.id, now, p.s.stale)
    ensures forall k :: k in after.t.stints && k.fence == f.id && k !in before.t.stints ==>
              exists rv :: rv in feed && IsThere(p.dist, f, rv) && rv.id == k.vehicle
  {
    hide *;
    PresenceFollowsTheVehicles(p, before, now, fetch, probe, fences, watches, pieces, after, err, g, f, res.vehicles);
    AnsweredGroup(p, fetch, fences, g, f, res.vehicles);
    SeenFromFeed(p.dist, fences, GroupsOf(p.dist, fences)[g], f, feed, rows, res);
  }

  // ---------------------------------------------------------------------
  // Counts
  // ---------------------------------------------------------------------

  /** The places of the vehicles of an operator within the radius. */
  ghost function CountedPlaces(dist: Metric, f: Fence, vs: seq<Vehicle>, operator: string): set<nat> {
    set i: nat | i < |vs| && In(dist, f, vs[i]) && EnteredAs(vs[i], operator)
  }

  lemma CountedIsNumber(dist: Metric, f: Fence, vs: seq<Vehicle>, k: string)
    ensures |FilterMap(FilterMap(vs, Rebase(dist, f)), WithCountKey(k))| == |CountedPlaces(dist, f, vs, k)|
  {
    var both := Then(Rebase(dist, f), WithCountKey(k));
    FilterMapThen(vs, Rebase(dist, f), WithCountKey(k));
    FilterMapLength(vs, both);
    hide FilterMap;
    assert Places(vs, both) == CountedPlaces(dist, f, vs, k);
  }

  lemma CountIsThere(dist: Metric, f: Fence, vs: seq<Vehicle>, k: string)
    requires (exists o :: o in OPERATORS && o.key == k) || exists v :: v in vs && In(dist, f, v) && EnteredAs(v, k)
    ensures k in CountsOf(FilterMap(vs, Rebase(dist, f)))
  {
    var inside := FilterMap(vs, Rebase(dist, f));
    TallyCounts(inside, k);
    hide FilterMap, Tally;
    if v :| v in vs && In(dist, f, v) && EnteredAs(v, k) {
      var u := v.(distanceM := dist(f.at, v.at));
      InsideMember(dist, f, vs, u);
      assert u in inside && CountKey(u) == k;
    }
  }

  lemma CountIsNumber(dist: Metric, f: Fence, vs: seq<Vehicle>, k: string)
    requires k in CountsOf(FilterMap(vs, Rebase(dist, f)))
    ensures CountsOf(FilterMap(vs, Rebase(dist, f)))[k] == |CountedPlaces(dist, f, vs, k)|
  {
    TallyCounts(FilterMap(vs, Rebase(dist, f)), k);
    CountedIsNumber(dist, f, vs, k);
    hide FilterMap, Tally, CountedPlaces;
  }

  /** After a tick that is not behind the counts of a fence, the latest count of each
      known operator, and of each there is, is the number of its vehicles in the
      answer within the radius. */
  lemma CountsFollowTheVehicles(p: P.Poller, before: Progress, now: int, fetch: Fetch, probe: Probe, fences: seq<Fence>,
                                watches: seq<Watch>, pieces: seq<seq<Instr>>, after: Progress, err: P.TickError,
                                g: nat, f: Fence, vs: seq<Vehicle>, k: string)
    requires p.Ticked(before, now, fetch, probe, fences, watches, pieces, after, err)
    requires forall x :: x in watches ==> x.kind != OtherKind
    requires IsAnswered(p, fetch, fences, g, f, vs)
    requires Unix(now) != 0 && forall x :: x in before.t.samples && x.fence == f.id ==> x.at <= Unix(now)
    requires (exists o :: o in OPERATORS && o.key == k) || exists v :: v in vs && In(p.dist, f, v) && EnteredAs(v, k)
    ensures k in LatestCounts(after.t.samples, f.id)
    ensures LatestCounts(after.t.samples, f.id)[k]
            == |set i: nat | i < |vs| && In(p.dist, f, vs[i]) && EnteredAs(vs[i], k)|
  {
    CountIsThere(p.dist, f, vs, k);
    CountIsNumber(p.dist, f, vs, k);
    assert |fences| > 0;
    hide GroupsOf, CountsOf, FilterMap, LatestCounts, P.Poller.Ticked;
    CountsReadBackInTick(p, before, now, fetch, probe, fences, watches, pieces, after, err, g, f, k);
    assert CountedPlaces(p.dist, f, vs, k) == set i: nat | i < |vs| && In(p.dist, f, vs[i]) && EnteredAs(vs[i], k);
  }

  // ---------------------------------------------------------------------
  // Nearest vehicles
  // ---------------------------------------------------------------------

  /** The readings after the plan of a fence are those after its lookup. */
  lemma PlanReads(c: Context, p: Progress, f: Fence, vs: seq<Vehicle>, o: Orders) returns (a: Progress)
    requires !p.failed && f.id in p.t.fences && !ExecAll(c.s, c.now, p, FencePlan(c, f, vs, o)).failed
    ensures !a.failed && f.id in a.t.fences && a.t.readings == p.t.readings
    ensures ExecAll(c.s, c.now, p, FencePlan(c, f, vs, o)).t.readings
            == ExecAll(c.s, c.now, a, NearestPlan(c, f, FilterMap(vs, Rebase(c.dist, f)), o.closest)).t.readings
  {
    var inside := FilterMap(vs, Rebase(c.dist, f));
    var begin, near := FencePlanStart(f, inside, o.counts), NearestPlan(c, f, inside, o.closest);
    var evals := FilterMap(c.watches, EvaluateFor(f, inside));
    forall i | i in evals
      ensures i.Evaluate?
    {
      EvaluationsHaveNoSample(c, f, inside, i);
    }
    hide *;
    FencePlanRuns(c, f, vs, o, p);
    a := ExecAll(c.s, c.now, p, begin);
    var b := ExecAll(c.s, c.now, a, near);
    var h := Exec(c.s, c.now, b, Health(f.id));
    StartKeepsReadings(c.s, c.now, p, f, inside, o.counts);
    ExecAllKeepsFences(c.s, c.now, p, begin);
    RunFailedStays(c.s, c.now, h, evals);
    FailedStays(c.s, c.now, b, Health(f.id));
    RunFailedStays(c.s, c.now, a, near);
    HealthFinds(c.s, c.now, b, f.id);
    EvaluationsKeepHealth(c.s, c.now, h, evals);
  }

  lemma SameReadingRows(p: Progress, q: Progress, f: string, x: ReadingKey)
    requires ViewOf(p, f) == ViewOf(q, f) && x.fence == f
    ensures x in p.t.readings <==> x in q.t.readings
    ensures x in p.t.readings ==> p.t.readings[x] == q.t.readings[x]
  {
    var a, b := ReadingsAt(p.t.readings, f), ReadingsAt(q.t.readings, f);
    assert a == b;
    assert x in a <==> x in p.t.readings;
    assert x in b <==> x in q.t.readings;
  }

  lemma NearestInside(dist: Metric, f: Fence, vs: seq<Vehicle>, best: Vehicle, key: string) returns (v: Vehicle)
    requires IsDistance(dist) && best in FilterMap(vs, Rebase(dist, f)) && best.operatorKey == key
    requires forall u :: u in FilterMap(vs, Rebase(dist, f)) && u.operatorKey == key ==> best.distanceM <= u.distanceM
    ensures v in vs && In(dist, f, v) && v.operatorKey == key && v.id == best.id
    ensures Rounds(Metres(best.distanceM), dist(f.at, v.at))
    ensures forall u :: u in vs && In(dist, f, u) && u.operatorKey == key ==> dist(f.at, v.at) <= dist(f.at, u.at)
  {
    InsideMember(dist, f, vs, best);
    v :| v in vs && In(dist, f, v) && best == v.(distanceM := dist(f.at, v.at));
    MetresRound(dist(f.at, v.at), Metres(best.distanceM));
    forall u | u in vs && In(dist, f, u) && u.operatorKey == key
      ensures dist(f.at, v.at) <= dist(f.at, u.at)
    {
      InsideMember(dist, f, vs, u.(distanceM := dist(f.at, u.at)));
    }
  }

  /** After a tick with the lookup on, the row of this second of an operator with
      vehicles within the radius gives the rounded distance and the id of the nearest
      of them. */
  lemma NearestFollowsTheVehicles(p: P.Poller, before: Progress, now: int, fetch: Fetch, probe: Probe, fences: seq<Fence>,
                                  watches: seq<Watch>, pieces: seq<seq<Instr>>, after: Progress, err: P.TickError,
                                  g: nat, f: Fence, vs: seq<Vehicle>, v: Vehicle)
    requires p.Ticked(before, now, fetch, probe, fences, watches, pieces, after, err)
    requires forall x :: x in watches ==> x.kind != OtherKind
    requires IsAnswered(p, fetch, fences, g, f, vs) && IsDistance(p.dist) && p.s.nearestInterval >= 0
    requires v in vs && In(p.dist, f, v) && v.operatorKey != ""
    ensures var x := ReadingKey(f.id, Unix(now), v.operatorKey);
            && x in after.t.readings && after.t.readings[x].distanceM.Some?
            && exists best ::
                 && best in vs && In(p.dist, f, best) && best.operatorKey == v.operatorKey
                 && after.t.readings[x].vehicle == best.id
                 && Rounds(after.t.readings[x].distanceM.value, p.dist(f.at, best.at))
                 && forall u :: u in vs && In(p.dist, f, u) && u.operatorKey == v.operatorKey ==>
                      p.dist(f.at, best.at) <= p.dist(f.at, u.at)
  {
    var c, start, o := TickAt(p, before, now, fetch, probe, fences, watches, pieces, after, err, g, f, vs);
    var inside, u := FilterMap(vs, Rebase(p.dist, f)), v.(distanceM := p.dist(f.at, v.at));
    assert Enumerates(o.closest, ClosestOf(inside).Keys);
    hide ExecAll, FencePlan, NearestPlan, ViewOf, FilterMap, IsArmedList, ExpireWatches, IsAnswered, ValidOrders, Enumerates, IsDistance,
         Metres, ClosestOf, P.Poller.Ticked;
    InsideMember(p.dist, f, vs, u);
    var a := PlanReads(c, start, f, vs, o);
    PresentRowIsNearest(c, a, f, inside, o.closest, u);
    var x := ReadingKey(f.id, Unix(now), v.operatorKey);
    SameReadingRows(after, ExecAll(c.s, c.now, start, FencePlan(c, f, vs, o)), f.id, x);
    hide In, Rounds;
    var best :| best in inside && best.operatorKey == v.operatorKey
                && after.t.readings[x] == Reading(Some(Metres(best.distanceM)), best.id)
                && forall w :: w in inside && w.operatorKey == v.operatorKey ==> best.distanceM <= w.distanceM;
    var near := NearestInside(p.dist, f, vs, best, v.operatorKey);
  }

  /** Whether the lookup of a fence is due: it is on, and two minutes, or the interval
      set, have gone by since the last. */
  ghost predicate LookupDue(s: Settings, due: map<string, int>, fence: string, now: int) {
    && s.nearestInterval >= 0
    && (fence in due ==> now - due[fence] >= if s.nearestInterval == 0 then 120_000_000_000 else s.nearestInterval)
  }

  lemma LookupDueExactly(s: Settings, due: map<string, int>, fence: string, now: int)
    ensures LookupDue(s, due, fence, now) <==> IntervalOf(s) >= 0 && IsDue(due, fence, now, IntervalOf(s))
  {}

  lemma NoneInside(dist: Metric, f: Fence, vs: seq<Vehicle>, key: string)
    requires forall v :: v in vs && In(dist, f, v) ==> v.operatorKey != key
    ensures !exists u :: u in FilterMap(vs, Rebase(dist, f)) && u.operatorKey == key
  {
    forall u | u in FilterMap(vs, Rebase(dist, f))
      ensures u.operatorKey != key
    {
      InsideMember(dist, f, vs, u);
    }
  }

  lemma AbsentRow(p: P.Poller, before: Progress, now: int, fetch: Fetch, probe: Probe, fences: seq<Fence>,
                         watches: seq<Watch>, pieces: seq<seq<Instr>>, after: Progress, err: P.TickError,
                         g: nat, f: Fence, vs: seq<Vehicle>, o: Operator)
    requires p.Ticked(before, now, fetch, probe, fences, watches, pieces, after, err)
    requires forall x :: x in watches ==> x.kind != OtherKind
    requires IsAnswered(p, fetch, fences, g, f, vs) && LookupDue(p.s, before.due, f.id, now)
    requires o in OPERATORS && forall v :: v in vs && In(p.dist, f, v) ==> v.operatorKey != o.key
    ensures var x, answer := ReadingKey(f.id, Unix(now), o.key), probe(f.id, ProbeQuery(f, p.s.reachM, o));
            if answer.Failed? then x in after.t.readings <==> x in before.t.readings
            else x in after.t.readings && Some(after.t.readings[x]) == FoundBy(p.dist, f, answer)
  {
    hide *;
    LookupDueExactly(p.s, before.due, f.id, now);
    NoneInside(p.dist, f, vs, o.key);
    AnsweredGroup(p, fetch, fences, g, f, vs);
    EveryOperatorIsAccountedForInTick(p, before, now, fetch, probe, fences, watches, pieces, after, err, g, f, o);
  }

  /** After a tick with the lookup due, the row of this second of a known operator
      without vehicles within the radius tells what its probe found: the rounded
      distance and the id of the nearest of its vehicles that can be rented within
      reach; nothing, on a page of fewer than ten, only when there is none; and no new
      row when the probe failed. */
  lemma LookupTellsTruth(p: P.Poller, before: Progress, now: int, fetch: Fetch, probe: Probe, fences: seq<Fence>,
                         watches: seq<Watch>, pieces: seq<seq<Instr>>, after: Progress, err: P.TickError,
                         g: nat, f: Fence, vs: seq<Vehicle>, o: Operator, feed: seq<RawVehicle>, rows: seq<RawVehicle>)
    requires p.Ticked(before, now, fetch, probe, fences, watches, pieces, after, err)
    requires forall x :: x in watches ==> x.kind != OtherKind
    requires IsAnswered(p, fetch, fences, g, f, vs) && IsDistance(p.dist) && LookupDue(p.s, before.due, f.id, now)
    requires o in OPERATORS && forall v :: v in vs && In(p.dist, f, v) ==> v.operatorKey != o.key
    requires var q := ProbeQuery(f, p.s.reachM, o);
             probe(f.id, q).Fetched? ==> Coalesce.Fetches(p.dist, feed, q, rows, probe(f.id, q))
    ensures var x, answer := ReadingKey(f.id, Unix(now), o.key), probe(f.id, ProbeQuery(f, p.s.reachM, o));
            if answer.Failed? then x in after.t.readings <==> x in before.t.readings
            else x in after.t.readings && TellsTruth(p.dist, feed, f, p.s.reachM, o, after.t.readings[x], answer.returned)
  {
    hide *;
    AbsentRow(p, before, now, fetch, probe, fences, watches, pieces, after, err, g, f, vs, o);
    if probe(f.id, ProbeQuery(f, p.s.reachM, o)).Fetched? {
      ProbeTellsTruth(p.dist, f, p.s.reachM, o, feed, rows, probe(f.id, ProbeQuery(f, p.s.reachM, o)));
    }
  }

  // ---------------------------------------------------------------------
  // The schedule
  // ---------------------------------------------------------------------

  lemma {:induction false} AllStamped(s: Settings, now: int, p: Progress, plan: seq<Instr>, f: string)
    requires !ExecAll(s, now, p, plan).failed
    ensures Stamped(s, now, p, plan, f) == |FilterMap(plan, StampAt(f))|
  {
    hide Exec;
    if |plan| > 0 {
      FailedStays(s, now, ExecAll(s, now, p, Front(plan)), Last(plan));
      AllStamped(s, now, p, Front(plan), f);
      assert |ToSeq(StampAt(f)(Last(plan)))| == if Last(plan) == Stamp(f) then 1 else 0;
    }
  }

  lemma SameSchedule(p: Progress, q: Progress, f: string)
    requires ViewOf(p, f) == ViewOf(q, f)
    ensures P.SameDue(p.due, q.due, f)
  {}

  /** A tick stamps an answered fence exactly when its lookup is due, and leaves its
      schedule as it was when not. */
  lemma LookupHappensExactly(p: P.Poller, before: Progress, now: int, fetch: Fetch, probe: Probe, fences: seq<Fence>,
                             watches: seq<Watch>, pieces: seq<seq<Instr>>, after: Progress, err: P.TickError,
                             g: nat, f: Fence, vs: seq<Vehicle>)
    requires p.Ticked(before, now, fetch, probe, fences, watches, pieces, after, err)
    requires forall x :: x in watches ==> x.kind != OtherKind
    requires IsAnswered(p, fetch, fences, g, f, vs)
    ensures if LookupDue(p.s, before.due, f.id, now) then f.id in after.due && after.due[f.id] == now
            else (f.id in after.due <==> f.id in before.due) && (f.id in before.due ==> after.due[f.id] == before.due[f.id])
  {
    var c, start, o := TickAt(p, before, now, fetch, probe, fences, watches, pieces, after, err, g, f, vs);
    var plan := FencePlan(c, f, vs, o);
    hide ExecAll, FencePlan, FilterMap, IsArmedList, ExpireWatches, IsAnswered, ValidOrders, Stamped, P.Poller.Ticked, ViewOf;
    FencePlanStamps(c, f, vs, o, f.id);
    AllStamped(c.s, c.now, start, plan, f.id);
    ScheduleTells(c.s, c.now, start, plan, f.id);
    LookupDueExactly(p.s, before.due, f.id, now);
    SameSchedule(after, ExecAll(c.s, c.now, start, plan), f.id);
    hide IsDue, IntervalOf, LookupDue;
  }
}
