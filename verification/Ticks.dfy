/** Whole ticks of the poller: they complete, they do not depend on the order
    things happen to finish in, and what fails upstream stays where it failed
    (`internal/poll/poll.go`, `Tick`). */
module Ticks {
  import opened Base
  import opened Geo
  import opened Entur
  import opened Strings
  import opened Schema
  import opened Poll
  import opened Plan
  import opened Isolation
  import opened Evaluation
  import opened Records
  import opened Lifecycle
  import opened Sequential
  import P = Poller

  type Fetch = (nat, Query) -> FetchResult

  type Probe = (string, Query) -> FetchResult

  /** The fences of a tick exist in the tables it starts from, and it visits each
      at most once. */
  lemma WorkIsSafe(t: Tables, dist: Metric, fences: seq<Fence>, answers: seq<FetchResult>, p: Progress)
    requires IsFenceList(t, fences) && |answers| == |GroupsOf(dist, fences)| && p.t == t
    ensures var work := Work(GroupsOf(dist, fences), answers);
            FencesExist(p, work) && DistinctVisits(work) && VisitsIn(work, fences)
  {
    hide Work, GroupsOf, DistinctVisits;
    GroupsPartitionFences(dist, fences);
    FenceListHasDistinctIds(t, fences);
    WorkVisits(GroupsOf(dist, fences), answers);
    var work := Work(GroupsOf(dist, fences), answers);
    forall i | 0 <= i < |work| && work[i].AtFence?
      ensures work[i].fence.id in p.t.fences
    {
      assert work[i] in work;
    }
  }

  lemma LoadedWatchesStay(t: Tables, now: int, fences: seq<Fence>, ws: seq<Watch>)
    requires IsArmedList(t, now, ws)
    ensures WatchesStay(t, ws)
  {}

  /** As long as every stored watch is of a kind the poller knows, no store call
      of a tick that runs alone fails: its only error is what failed upstream. */
  lemma TickCompletes(p: P.Poller, before: Progress, now: int, fetch: Fetch, probe: Probe, fences: seq<Fence>,
                      watches: seq<Watch>, pieces: seq<seq<Instr>>, after: Progress, err: P.TickError)
    requires p.Ticked(before, now, fetch, probe, fences, watches, pieces, after, err)
    requires forall w :: w in watches ==> w.kind != OtherKind
    ensures !after.failed && !err.Stopped?
  {
    var gs := GroupsOf(p.dist, fences);
    var answers := P.AnswersOf(fetch, gs);
    var c := p.ContextOf(now, watches, before.due, probe);
    var start := P.StartOf(before, now, gs, fences);
    hide GroupsOf, Work, IsPlan, Outcome, IsFenceList, FencesExist, IsArmedList, ExpireWatches;
    WorkIsSafe(start.t, p.dist, fences, answers, start);
    TickNeverStops(c, start, Work(gs, answers), pieces);
  }

  /** A tick's tables, schedule, report, dispatches and error do not depend on the
      order queries finish in or maps are walked in: two ticks from the same state
      with the same answers end the same. */
  lemma TickIsDeterministic(p: P.Poller, before: Progress, now: int, fetch: Fetch, probe: Probe, fences: seq<Fence>,
                            watches: seq<Watch>, pieces: seq<seq<Instr>>, after: Progress, err: P.TickError,
                            pieces': seq<seq<Instr>>, after': Progress, err': P.TickError)
    requires p.Ticked(before, now, fetch, probe, fences, watches, pieces, after, err)
    requires p.Ticked(before, now, fetch, probe, fences, watches, pieces', after', err')
    ensures after == after' && err == err'
  {
    var gs := GroupsOf(p.dist, fences);
    var answers := P.AnswersOf(fetch, gs);
    var c := p.ContextOf(now, watches, before.due, probe);
    var start := P.StartOf(before, now, gs, fences);
    hide GroupsOf, Work, IsPlan, Outcome, IsFenceList, FencesExist, IsArmedList, ExpireWatches;
    WorkIsSafe(start.t, p.dist, fences, answers, start);
    MapOrderIsInvisible(c, start, Work(gs, answers), pieces, pieces');
  }

  /** The place of a fence in the work of a tick. */
  lemma {:induction false} FencePlace(gs: seq<Group>, answers: seq<FetchResult>, g: nat, f: Fence) returns (k: nat)
    requires |gs| == |answers| && g < |gs| && f in gs[g].fences && answers[g].Fetched?
    ensures k < |Work(gs, answers)| && Work(gs, answers)[k] == AtFence(f, answers[g].vehicles)
  {
    if g == |gs| - 1 {
      VisitsAt(gs[g].fences, answers[g].vehicles);
      var i :| 0 <= i < |gs[g].fences| && gs[g].fences[i] == f;
      k := |Work(Front(gs), Front(answers))| + 1 + i;
    } else {
      k := FencePlace(Front(gs), Front(answers), g, f);
    }
  }

  lemma PlaceIsOnlyOne(work: seq<Visit>, k: nat)
    requires DistinctVisits(work) && k < |work| && work[k].AtFence?
    ensures OnceAt(work, k)
  {}

  /** What a tick leaves behind for a fence depends on the answer for that fence
      alone: the other groups may be answered differently or fail. */
  lemma FailureStaysInItsGroup(p: P.Poller, before: Progress, now: int, fetch: Fetch, fetch': Fetch, probe: Probe,
                               fences: seq<Fence>, watches: seq<Watch>,
                               pieces: seq<seq<Instr>>, after: Progress, err: P.TickError,
                               pieces': seq<seq<Instr>>, after': Progress, err': P.TickError, g: nat, f: Fence)
    requires p.Ticked(before, now, fetch, probe, fences, watches, pieces, after, err)
    requires p.Ticked(before, now, fetch', probe, fences, watches, pieces', after', err')
    requires |fences| > 0 && forall w :: w in watches ==> w.kind != OtherKind
    requires g < |GroupsOf(p.dist, fences)| && f in GroupsOf(p.dist, fences)[g].fences
    requires var q := GroupQuery(GroupsOf(p.dist, fences)[g]); fetch(g, q) == fetch'(g, q) && fetch(g, q).Fetched?
    ensures ViewOf(after, f.id) == ViewOf(after', f.id)
  {
    var gs := GroupsOf(p.dist, fences);
    var answers, answers' := P.AnswersOf(fetch, gs), P.AnswersOf(fetch', gs);
    var c := p.ContextOf(now, watches, before.due, probe);
    var start := P.StartOf(before, now, gs, fences);
    hide GroupsOf, Work, IsPlan, Outcome, IsFenceList, FencesExist, IsArmedList, ExpireWatches, ViewOf, DistinctVisits, OnceAt;
    LoadedWatchesStay(start.t, now, fences, watches);
    hide WatchesStay;
    WorkIsSafe(start.t, p.dist, fences, answers, start);
    WorkIsSafe(start.t, p.dist, fences, answers', start);
    var k := FencePlace(gs, answers, g, f);
    var j := FencePlace(gs, answers', g, f);
    PlaceIsOnlyOne(Work(gs, answers), k);
    PlaceIsOnlyOne(Work(gs, answers'), j);
    OtherAnswersDoNotMatter(c, start, Work(gs, answers), pieces, k, Work(gs, answers'), pieces', j);
  }

  /** The plan of a tick is one that `Lifecycle` lets a tick decide from the
      snapshot it took. */
  lemma TickIsATick(p: P.Poller, before: Progress, now: int, fetch: Fetch, probe: Probe, fences: seq<Fence>,
                    watches: seq<Watch>, pieces: seq<seq<Instr>>, after: Progress, err: P.TickError)
    requires p.Ticked(before, now, fetch, probe, fences, watches, pieces, after, err) && |fences| > 0
    ensures Fits(fences, watches, Concat(pieces))
  {
    var gs := GroupsOf(p.dist, fences);
    GroupsPartitionFences(p.dist, fences);
    hide GroupsOf, Work, IsPlan, Outcome, IsFenceList, IsArmedList, ExpireWatches;
    RealPlansFit(p.ContextOf(now, watches, before.due, probe), ExpireWatches(before.t, now), fences, gs,
                 P.AnswersOf(fetch, gs), pieces);
  }

  lemma IdsCross(fs: seq<Fence>, gs: seq<Fence>, a: Fence, b: Fence)
    requires DistinctIds(fs + gs) && a in fs && b in gs
    ensures a.id != b.id
  {
    var i :| 0 <= i < |fs| && fs[i] == a;
    var j :| 0 <= j < |gs| && gs[j] == b;
    assert (fs + gs)[i] == a && (fs + gs)[|fs| + j] == b;
  }

  lemma {:induction false} MembersHas(gs: seq<Group>, g: nat, f: Fence)
    requires g < |gs| && f in gs[g].fences
    ensures f in Members(gs)
  {
    if g < |gs| - 1 {
      MembersHas(Front(gs), g, f);
    }
  }

  lemma NeverAtEither(a: seq<Visit>, b: seq<Visit>, id: string)
    requires NeverAt(a, id) && forall v :: v in b && v.AtFence? ==> v.fence.id != id
    ensures NeverAt(a + b, id)
  {}

  lemma {:induction false} FailedGroupIsNotVisited(gs: seq<Group>, answers: seq<FetchResult>, g: nat, f: Fence)
    requires |gs| == |answers| && DistinctIds(Members(gs))
    requires g < |gs| && f in gs[g].fences && answers[g].Failed?
    ensures NeverAt(Work(gs, answers), f.id)
  {
    var before, last := Members(Front(gs)), Last(gs).fences;
    DistinctParts(before, last);
    WorkVisits(Front(gs), Front(answers));
    GroupVisits(Last(gs), Last(answers));
    hide DistinctIds, DistinctVisits;
    if g == |gs| - 1 {
      forall v | v in Work(Front(gs), Front(answers)) && v.AtFence?
        ensures v.fence.id != f.id
      {
        IdsCross(before, last, v.fence, f);
      }
      NeverAtEither([], Work(Front(gs), Front(answers)), f.id);
      assert Work(gs, answers) == [] + Work(Front(gs), Front(answers));
    } else {
      FailedGroupIsNotVisited(Front(gs), Front(answers), g, f);
      MembersHas(Front(gs), g, f);
      forall v | v in VisitGroup(Last(gs), Last(answers)) && v.AtFence?
        ensures v.fence.id != f.id
      {
        IdsCross(before, last, f, v.fence);
      }
      NeverAtEither(Work(Front(gs), Front(answers)), VisitGroup(Last(gs), Last(answers)), f.id);
    }
  }

  /** A fence whose group failed keeps all it had: nothing is counted, seen, looked
      up, fired or dispatched for it. */
  lemma FailedGroupLosesItsTickOnly(p: P.Poller, before: Progress, now: int, fetch: Fetch, probe: Probe,
                                    fences: seq<Fence>,
                                    watches: seq<Watch>, pieces: seq<seq<Instr>>, after: Progress, err: P.TickError,
                                    g: nat, f: Fence)
    requires p.Ticked(before, now, fetch, probe, fences, watches, pieces, after, err) && |fences| > 0
    requires g < |GroupsOf(p.dist, fences)| && f in GroupsOf(p.dist, fences)[g].fences
    requires fetch(g, GroupQuery(GroupsOf(p.dist, fences)[g])).Failed?
    ensures ViewOf(after, f.id) == ViewOf(P.StartOf(before, now, GroupsOf(p.dist, fences), fences), f.id)
  {
    var gs := GroupsOf(p.dist, fences);
    var answers := P.AnswersOf(fetch, gs);
    var c := p.ContextOf(now, watches, before.due, probe);
    var start := P.StartOf(before, now, gs, fences);
    hide GroupsOf, Work, IsPlan, Outcome, IsFenceList, IsArmedList, ExpireWatches, ViewOf;
    LoadedWatchesStay(start.t, now, fences, watches);
    GroupsPartitionFences(p.dist, fences);
    FenceListHasDistinctIds(start.t, fences);
    FailedGroupIsNotVisited(gs, answers, g, f);
    UnansweredFenceIsUntouched(c, start, Work(gs, answers), pieces, f.id);
  }

  lemma {:induction false} AnsweredAlone(fences: seq<Fence>, answers: seq<FetchResult>)
    requires |answers| == |fences|
    ensures var healthy := Answered(AloneEach(fences), answers).0; healthy == AloneEach(Members(healthy))
  {
    if |fences| > 0 {
      var before, f := Front(fences), Last(fences);
      assert Front(AloneEach(fences)) == AloneEach(before);
      AnsweredAlone(before, Front(answers));
      var some := Answered(AloneEach(before), Front(answers)).0;
      if Last(answers).Fetched? {
        assert Front(some + [Alone(f)]) == some;
        assert Front(Members(some) + [f]) == Members(some);
      }
    }
  }

  /** A tick in which some groups fail does the very work of a tick over the fences
      that were answered, unless those would then share a query; if they would, they
      see the same vehicles by `Coalesce.CoalescingPreservesMeaning`. */
  lemma WorkIsThatOfHealthyFences(dist: Metric, fences: seq<Fence>, answers: seq<FetchResult>)
    requires |answers| == |GroupsOf(dist, fences)|
    ensures var gs := GroupsOf(dist, fences);
            var (healthy, theirs) := Answered(gs, answers);
            var left := Members(healthy);
            && (|left| == 0 || Bounding(dist, Centres(left), Radii(left)).1 > MAX_QUERY_RADIUS_M as real || healthy == gs ==>
                  GroupsOf(dist, left) == healthy && Work(gs, answers) == Work(GroupsOf(dist, left), theirs))
  {
    var gs := GroupsOf(dist, fences);
    var (healthy, theirs) := Answered(gs, answers);
    var left := Members(healthy);
    FailedGroupsAreSkipped(gs, answers);
    GroupsPartitionFences(dist, fences);
    hide Bounding;
    if |fences| == 0 {
      assert gs == [];
    } else if gs == AloneEach(fences) {
      AnsweredAlone(fences, answers);
    } else {
      assert Front(gs) == [] && Front(answers) == [];
      assert healthy == [] || healthy == gs;
      assert Members([Last(gs)]) == [] + Last(gs).fences;
    }
  }

  /** So from where it started it leaves what that tick leaves: the same tables,
      schedule, report and dispatches. */
  lemma HealthyFencesDecide(c: Context, p: Progress, fences: seq<Fence>, answers: seq<FetchResult>, a: seq<seq<Instr>>,
                            b: seq<seq<Instr>>)
    requires |answers| == |GroupsOf(c.dist, fences)| && IsPlan(c, Work(GroupsOf(c.dist, fences), answers), a)
    requires c.s.fk ==> FencesExist(p, Work(GroupsOf(c.dist, fences), answers))
    requires var gs := GroupsOf(c.dist, fences);
             var (healthy, theirs) := Answered(gs, answers);
             var left := Members(healthy);
             && (|left| == 0 || Bounding(c.dist, Centres(left), Radii(left)).1 > MAX_QUERY_RADIUS_M as real || healthy == gs)
             && |theirs| == |GroupsOf(c.dist, left)| && IsPlan(c, Work(GroupsOf(c.dist, left), theirs), b)
    ensures Outcome(c, p, a) == Outcome(c, p, b)
  {
    hide GroupsOf, Work, IsPlan, Outcome, FencesExist, Bounding, Answered;
    WorkIsThatOfHealthyFences(c.dist, fences, answers);
    MapOrderIsInvisible(c, p, Work(GroupsOf(c.dist, fences), answers), a, b);
  }

  // ---------------------------------------------------------------------
  // What a tick fires
  // ---------------------------------------------------------------------

  lemma ReportedIn(events: seq<Event>, added: seq<Event>, id: string)
    ensures Reported(events + added, |events|, id) <==> exists e :: e in added && e.watchId == id
  {
    var all := events + added;
    if e :| e in added && e.watchId == id {
      var i :| 0 <= i < |added| && added[i] == e;
      assert all[|events| + i] == e;
    }
  }

  lemma {:induction false} AllKept(events: seq<Event>, f: Fence)
    requires forall e :: e in events ==> e.payload.fence == f
    ensures FilterMap(events, EventAt(f.id)) == events
  {
    if |events| > 0 {
      var before, e := Front(events), Last(events);
      assert events == before + [e];
      AllKept(before, f);
      FilterMapSnoc(before, e, EventAt(f.id));
    }
  }

  /** Later events that are all of one fence are the later events of that fence. */
  lemma EventsOfFence(events: seq<Event>, more: seq<Event>, f: Fence, id: string)
    requires events <= more && forall i :: |events| <= i < |more| ==> more[i].payload.fence == f
    ensures var some, all := FilterMap(events, EventAt(f.id)), FilterMap(more, EventAt(f.id));
            some <= all && (Reported(all, |some|, id) <==> Reported(more, |events|, id))
  {
    hide FilterMap, Reported;
    var added := more[|events|..];
    assert more == events + added;
    FilterMapConcat(events, added, EventAt(f.id));
    AllKept(added, f);
    ReportedIn(events, added, id);
    ReportedIn(FilterMap(events, EventAt(f.id)), added, id);
  }

  /** A fence's own calls, run from where the tick started, leave its events and
      its dark feeds as the whole tick does. */
  lemma FenceAlone(c: Context, t: Tables, start: Progress, fences: seq<Fence>, gs: seq<Group>, answers: seq<FetchResult>,
                   pieces: seq<seq<Instr>>, g: nat, f: Fence)
      returns (o: Orders)
    requires !start.failed && start.t == t && IsFenceList(t, fences) && IsArmedList(t, c.now, c.watches)
    requires gs == GroupsOf(c.dist, fences) && |answers| == |gs| && IsPlan(c, Work(gs, answers), pieces)
    requires forall w :: w in c.watches ==> w.kind != OtherKind
    requires g < |gs| && f in gs[g].fences && answers[g].Fetched?
    ensures var alone := ExecAll(c.s, c.now, start, FencePlan(c, f, answers[g].vehicles, o));
            && !alone.failed && ValidOrders(c, f, answers[g].vehicles, o)
            && ViewOf(Outcome(c, start, pieces), f.id) == ViewOf(alone, f.id)
  {
    hide GroupsOf, Work, Outcome, IsFenceList, IsArmedList, ViewOf, DistinctVisits, OnceAt, WatchesStay, Local, FencePlan,
         ExecAll, ValidOrders;
    var work := Work(gs, answers);
    WorkIsSafe(t, c.dist, fences, answers, start);
    LoadedWatchesStay(t, c.now, fences, c.watches);
    var k := FencePlace(gs, answers, g, f);
    PlaceIsOnlyOne(work, k);
    TickNeverStops(c, start, work, pieces);
    assert IsPiece(c, work[k], pieces[k]);
    o :| ValidOrders(c, f, answers[g].vehicles, o) && pieces[k] == FencePlan(c, f, answers[g].vehicles, o);
    PieceIsLocal(c, work[k], pieces[k]);
    PlanNeverStops(c, start, f.id, pieces[k]);
    FenceStandsAlone(c, start, work, pieces, k);
  }

  lemma SameView(p: Progress, q: Progress, f: string, now: int)
    requires ViewOf(p, f) == ViewOf(q, f)
    ensures FilterMap(p.t.events, EventAt(f)) == FilterMap(q.t.events, EventAt(f))
    ensures DarkOperators(p.t.readings, f, now, 0) == DarkOperators(q.t.readings, f, now, 0)
  {
    hide FilterMap, DarkOperators, ReadingsAt;
    DarkLocal(p.t.readings, f, now);
    DarkLocal(q.t.readings, f, now);
  }

  /** In a tick, a scarcity watch of the snapshot on a fence that was answered
      fires exactly when no feed it depends on is dark by the readings the tick
      leaves for the fence and few enough vehicles match. */
  lemma ScarcityFiresExactlyInTick(p: P.Poller, before: Progress, now: int, fetch: Fetch, probe: Probe, fences: seq<Fence>,
                                   watches: seq<Watch>, pieces: seq<seq<Instr>>, after: Progress, err: P.TickError,
                                   g: nat, f: Fence, w: Watch)
    requires p.Ticked(before, now, fetch, probe, fences, watches, pieces, after, err) && |fences| > 0
    requires forall x :: x in watches ==> x.kind != OtherKind
    requires g < |GroupsOf(p.dist, fences)| && f in GroupsOf(p.dist, fences)[g].fences
    requires fetch(g, GroupQuery(GroupsOf(p.dist, fences)[g])).Fetched?
    requires w in watches && w.fenceId == f.id && w.kind == Scarcity
    ensures var vs := fetch(g, GroupQuery(GroupsOf(p.dist, fences)[g])).vehicles;
            var had, has := FilterMap(before.t.events, EventAt(f.id)), FilterMap(after.t.events, EventAt(f.id));
            had <= has && (Reported(has, |had|, w.id) <==>
                             && NoneDark(w, DarkOperators(after.t.readings, f.id, now, 0))
                             && |FilterMap(FilterMap(vs, Rebase(p.dist, f)), Wanted(w))| <= w.threshold)
  {
    var gs := GroupsOf(p.dist, fences);
    var answers := P.AnswersOf(fetch, gs);
    var c := p.ContextOf(now, watches, before.due, probe);
    var start := P.StartOf(before, now, gs, fences);
    assert IsArmed(start.t, w.id);
    ArmedListHasDistinctIds(start.t, now, watches);
    hide GroupsOf, Work, IsPlan, Outcome, IsFenceList, IsArmedList, ExecAll, FencePlan, ViewOf, FilterMap, DarkOperators, NoneDark,
         DistinctWatches, Reported, IsArmed;
    var o := FenceAlone(c, start.t, start, fences, gs, answers, pieces, g, f);
    var alone := ExecAll(c.s, c.now, start, FencePlan(c, f, answers[g].vehicles, o));
    FencePlanFires(c, start, f, answers[g].vehicles, o);
    ScarcityFiresExactlyInPlan(c, start, f, answers[g].vehicles, o, w);
    SameView(after, alone, f.id, now);
    EventsOfFence(start.t.events, alone.t.events, f, w.id);
  }

  // ---------------------------------------------------------------------
  // The clock
  // ---------------------------------------------------------------------

  /** A tick keeps the rows of a fence from running ahead of the clock. */
  lemma TickKeepsTime(p: P.Poller, before: Progress, now: int, fetch: Fetch, probe: Probe, fences: seq<Fence>,
                      watches: seq<Watch>, pieces: seq<seq<Instr>>, after: Progress, err: P.TickError,
                      fence: string, clock: int)
    requires p.Ticked(before, now, fetch, probe, fences, watches, pieces, after, err)
    requires now <= clock && NoneLater(before.t.readings, fence, clock)
    ensures NoneLater(after.t.readings, fence, clock)
  {
    var start := P.StartOf(before, now, GroupsOf(p.dist, fences), fences);
    assert start.t.readings == before.t.readings;
    hide NoneLater, ExecAll, GroupsOf, Work, IsPlan, IsFenceList, IsArmedList, ExpireWatches;
    RunKeepsTime(p.s, now, start, Concat(pieces), fence, clock);
  }

  /** The plan of a fence leaves no operator dark that has a vehicle in it. */
  lemma PresentIsNeverDarkInPlan(c: Context, p: Progress, f: Fence, vs: seq<Vehicle>, o: Orders, v: Vehicle)
    requires ValidOrders(c, f, vs, o) && !ExecAll(c.s, c.now, p, FencePlan(c, f, vs, o)).failed
    requires c.s.fk ==> f.id in p.t.fences
    requires IntervalOf(c.s) >= 0 && NoneLater(p.t.readings, f.id, c.now)
    requires v in FilterMap(vs, Rebase(c.dist, f)) && v.operatorKey != ""
    ensures v.operatorKey !in DarkOperators(ExecAll(c.s, c.now, p, FencePlan(c, f, vs, o)).t.readings, f.id, c.now, 0)
  {
    var inside := FilterMap(vs, Rebase(c.dist, f));
    var begin, near := FencePlanStart(f, inside, o.counts), NearestPlan(c, f, inside, o.closest);
    var evals := FilterMap(c.watches, EvaluateFor(f, inside));
    assert Enumerates(o.closest, ClosestOf(inside).Keys);
    forall i | i in evals
      ensures i.Evaluate?
    {
      EvaluationsAreHere(c, f, inside, i);
    }
    hide *;
    FencePlanRuns(c, f, vs, o, p);
    var a := ExecAll(c.s, c.now, p, begin);
    var b := ExecAll(c.s, c.now, a, near);
    var h := Exec(c.s, c.now, b, Health(f.id));
    StartKeepsReadings(c.s, c.now, p, f, inside, o.counts);
    ExecAllKeepsFences(c.s, c.now, p, begin);
    RunFailedStays(c.s, c.now, h, evals);
    FailedStays(c.s, c.now, b, Health(f.id));
    RunFailedStays(c.s, c.now, a, near);
    PresentIsNeverDark(c, a, f, inside, o.closest, v);
    HealthFinds(c.s, c.now, b, f.id);
    EvaluationsKeepHealth(c.s, c.now, h, evals);
  }

  lemma FenceIsThere(t: Tables, dist: Metric, fences: seq<Fence>, g: nat, f: Fence)
    requires IsFenceList(t, fences) && g < |GroupsOf(dist, fences)| && f in GroupsOf(dist, fences)[g].fences
    ensures f.id in t.fences
  {
    hide GroupsOf;
    GroupsPartitionFences(dist, fences);
    MembersHas(GroupsOf(dist, fences), g, f);
  }

  /** In a tick whose clock is not behind the rows of a fence, no operator with a
      vehicle in the fence is dark by the readings the tick leaves for it. */
  lemma PresentIsNeverDarkInTick(p: P.Poller, before: Progress, now: int, fetch: Fetch, probe: Probe, fences: seq<Fence>,
                                 watches: seq<Watch>, pieces: seq<seq<Instr>>, after: Progress, err: P.TickError,
                                 g: nat, f: Fence, v: Vehicle)
    requires p.Ticked(before, now, fetch, probe, fences, watches, pieces, after, err) && |fences| > 0
    requires forall x :: x in watches ==> x.kind != OtherKind
    requires g < |GroupsOf(p.dist, fences)| && f in GroupsOf(p.dist, fences)[g].fences
    requires fetch(g, GroupQuery(GroupsOf(p.dist, fences)[g])).Fetched?
    requires IntervalOf(p.s) >= 0 && NoneLater(before.t.readings, f.id, now)
    requires v in FilterMap(fetch(g, GroupQuery(GroupsOf(p.dist, fences)[g])).vehicles, Rebase(p.dist, f)) && v.operatorKey != ""
    ensures v.operatorKey !in DarkOperators(after.t.readings, f.id, now, 0)
  {
    var gs := GroupsOf(p.dist, fences);
    var answers := P.AnswersOf(fetch, gs);
    var c := p.ContextOf(now, watches, before.due, probe);
    var start := P.StartOf(before, now, gs, fences);
    FenceIsThere(start.t, p.dist, fences, g, f);
    hide GroupsOf, Work, IsPlan, Outcome, IsFenceList, IsArmedList, ExecAll, FencePlan, ViewOf, FilterMap, DarkOperators, NoneLater,
         ValidOrders, IntervalOf;
    var o := FenceAlone(c, start.t, start, fences, gs, answers, pieces, g, f);
    var alone := ExecAll(c.s, c.now, start, FencePlan(c, f, answers[g].vehicles, o));
    PresentIsNeverDarkInPlan(c, start, f, answers[g].vehicles, o, v);
    SameView(after, alone, f.id, now);
  }
}
