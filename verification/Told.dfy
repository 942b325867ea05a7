/** What a tick tells: which stored watches it fires and with what, which groups it
    says failed, and what its report and its dispatches list (`internal/poll/poll.go`,
    `Tick`). */
module Told {
  import opened Base
  import opened Geo
  import opened Entur
  import opened Strings
  import opened Schema
  import opened Poll
  import opened Plan
  import opened Isolation
  import opened Evaluation
  import opened Asked
  import opened Sequential
  import opened Ticks
  import opened Facts
  import P = Poller

  // ---------------------------------------------------------------------
  // What a watch sees
  // ---------------------------------------------------------------------

  /** The places of the vehicles within the radius that the watch asks for. */
  ghost function MatchPlaces(dist: Metric, f: Fence, vs: seq<Vehicle>, w: Watch): set<nat> {
    set i: nat | i < |vs| && In(dist, f, vs[i]) && Wants(w.operatorKeys, w.minRangeM, vs[i])
  }

  /** What the watch asks for has come about among the vehicles of the answer. */
  ghost predicate IsDueAt(dist: Metric, f: Fence, vs: seq<Vehicle>, w: Watch, dark: set<string>) {
    match w.kind
    case Scarcity => AllLight(w.operatorKeys, dark) && |MatchPlaces(dist, f, vs, w)| <= w.threshold
    case Appearance =>
      exists v :: v in vs && In(dist, f, v) && Wants(w.operatorKeys, w.minRangeM, v) && v.id !in w.baseline
    case OtherKind => false
  }

  lemma MatchNumber(dist: Metric, f: Fence, vs: seq<Vehicle>, w: Watch)
    ensures |FilterMap(FilterMap(vs, Rebase(dist, f)), Wanted(w))| == |MatchPlaces(dist, f, vs, w)|
  {
    var both := Then(Rebase(dist, f), Wanted(w));
    FilterMapThen(vs, Rebase(dist, f), Wanted(w));
    FilterMapLength(vs, both);
    hide FilterMap;
    assert Places(vs, both) == MatchPlaces(dist, f, vs, w);
  }

  lemma DueInside(dist: Metric, f: Fence, vs: seq<Vehicle>, w: Watch, dark: set<string>)
    ensures Judge(w, FilterMap(vs, Rebase(dist, f)), Sorted(dark)).Hit? <==> IsDueAt(dist, f, vs, w, dark)
  {
    var inside := FilterMap(vs, Rebase(dist, f));
    DueExactly(w, inside, dark);
    WantedNumber(w, inside);
    MatchNumber(dist, f, vs, w);
    hide Judge, FilterMap, MatchPlaces, WantedPlaces, In, AllLight;
    if v :| v in vs && In(dist, f, v) && Wants(w.operatorKeys, w.minRangeM, v) && v.id !in w.baseline {
      var u := v.(distanceM := dist(f.at, v.at));
      InsideMember(dist, f, vs, u);
      assert u in inside && Wants(w.operatorKeys, w.minRangeM, u) && u.id !in w.baseline;
    }
    if u :| u in inside && Wants(w.operatorKeys, w.minRangeM, u) && u.id !in w.baseline {
      InsideMember(dist, f, vs, u);
    }
  }

  /** The event tells of the watch: when, where, on how many matches, and of exactly
      the vehicles it asked for, those not in its baseline if it waits for new ones. */
  ghost predicate TellsOf(e: Event, now: int, dist: Metric, f: Fence, vs: seq<Vehicle>, w: Watch) {
    && e.watchId == e.payload.watchId == w.id && e.at == Unix(now)
    && e.payload.kind == w.kind && e.payload.firedAt == now && e.payload.fence == f
    && e.payload.count == |MatchPlaces(dist, f, vs, w)|
    && forall u :: u in e.payload.vehicles <==>
         exists v ::
           && v in vs && In(dist, f, v) && Wants(w.operatorKeys, w.minRangeM, v) && (w.kind == Appearance ==> v.id !in w.baseline)
           && u == v.(distanceM := dist(f.at, v.at))
  }

  lemma WantsRebased(dist: Metric, f: Fence, w: Watch)
    ensures forall v: Vehicle :: Wants(w.operatorKeys, w.minRangeM, v.(distanceM := dist(f.at, v.at))) <==> Wants(w.operatorKeys, w.minRangeM, v)
  {}

  lemma TellsOfMatches(now: int, dist: Metric, f: Fence, vs: seq<Vehicle>, dark: seq<string>, w: Watch, e: Event)
    requires Tells(now, f, FilterMap(vs, Rebase(dist, f)), dark, w, e)
    ensures TellsOf(e, now, dist, f, vs, w)
  {
    var inside := FilterMap(vs, Rebase(dist, f));
    MatchNumber(dist, f, vs, w);
    hide FilterMap, MatchPlaces, Judge, In;
    forall u
      ensures u in e.payload.vehicles <==>
                exists v ::
                  && v in vs && In(dist, f, v) && Wants(w.operatorKeys, w.minRangeM, v) && (w.kind == Appearance ==> v.id !in w.baseline)
                  && u == v.(distanceM := dist(f.at, v.at))
    {
      HitTells(w, inside, dark, u);
      InsideMember(dist, f, vs, u);
      WantsRebased(dist, f, w);
      hide Wants;
    }
  }

  // ---------------------------------------------------------------------
  // What fires
  // ---------------------------------------------------------------------

  lemma SnapshotHolds(t: Tables, now: int, ws: seq<Watch>, w: Watch)
    requires w.id in t.watches && t.watches[w.id] == w && IsArmedList(ExpireWatches(t, now), now, ws)
    ensures w in ws <==> w.state == Armed && w.expiresAt > Unix(now)
    ensures forall x :: x in ws && x.id == w.id ==> x == w
    ensures var after := ExpireWatches(t, now);
            w.id in after.watches && after.watches[w.id] == if w.state == Armed && w.expiresAt <= Unix(now) then w.(state := Expired) else w
  {
    hide SortedBy;
  }

  lemma NewEvents(events: seq<Event>, more: seq<Event>, f: Fence)
    requires events <= more && forall i :: |events| <= i < |more| ==> more[i].payload.fence == f
    ensures FilterMap(more, EventAt(f.id)) == FilterMap(events, EventAt(f.id)) + more[|events|..]
  {
    hide FilterMap;
    var added := more[|events|..];
    assert more == events + added;
    FilterMapConcat(events, added, EventAt(f.id));
    AllKept(added, f);
  }

  lemma SameWatchRow(p: Progress, q: Progress, f: string, id: string)
    requires ViewOf(p, f) == ViewOf(q, f) && id in q.t.watches && q.t.watches[id].fenceId == f
    ensures id in p.t.watches && p.t.watches[id] == q.t.watches[id]
  {
    var a, b := WatchesAt(p.t.watches, f), WatchesAt(q.t.watches, f);
    assert a == b && id in b;
  }

  lemma TellersAreHere(now: int, p: Progress, q: Progress, f: Fence, inside: seq<Vehicle>, dark: seq<string>, ws: seq<Watch>)
    requires AllTold(now, p, q, f, inside, dark, ws)
    ensures forall i :: |p.t.events| <= i < |q.t.events| ==> q.t.events[i].payload.fence == f
  {
    hide Judge, FilterMap;
  }

  lemma TellerOf(now: int, f: Fence, inside: seq<Vehicle>, dark: seq<string>, ws: seq<Watch>, e: Event, w: Watch)
    requires ToldOf(now, f, inside, dark, ws, e) && e.watchId == w.id
    requires forall x :: x in ws && x.id == w.id ==> x == w
    ensures Tells(now, f, inside, dark, w, e) && w in ws
  {
    hide Judge, FilterMap;
    var x :| x in ws && x.fenceId == f.id && Tells(now, f, inside, dark, x, e);
  }

  /** What the tick makes of a stored watch on an answered fence. */
  ghost predicate Fares(before: Progress, after: Progress, now: int, dist: Metric, f: Fence, vs: seq<Vehicle>, w: Watch) {
    var had, has := FilterMap(before.t.events, EventAt(f.id)), FilterMap(after.t.events, EventAt(f.id));
    var fires := w.state == Armed && w.expiresAt > Unix(now) && IsDueAt(dist, f, vs, w, DarkOperators(after.t.readings, f.id, now, 0));
    && had <= has
    && (fires <==> Reported(has, |had|, w.id))
    && (forall i :: |had| <= i < |has| && has[i].watchId == w.id ==> TellsOf(has[i], now, dist, f, vs, w))
    && w.id in after.t.watches
    && after.t.watches[w.id]
       == (if fires then w.(firedAt := Some(Unix(now)), state := if w.repeats then Armed else Fired)
           else if w.state == Armed && w.expiresAt <= Unix(now) then w.(state := Expired)
           else w)
  }

  lemma RowFares(now: int, p: Progress, q: Progress, w: Watch, reported: bool)
    requires RowsMarked(now, p, q) && w.id in p.t.watches && (reported <==> Reported(q.t.events, |p.t.events|, w.id))
    ensures w.id in q.t.watches
    ensures q.t.watches[w.id] == if reported then Marked(p.t.watches[w.id], now) else p.t.watches[w.id]
    ensures reported ==> p.t.watches[w.id].state == Armed
  {
    hide Reported, Marked;
  }

  lemma ExpiryKeepsEvents(t: Tables, now: int)
    ensures ExpireWatches(t, now).events == t.events
  {}

  lemma ToldEach(now: int, p: Progress, q: Progress, f: Fence, inside: seq<Vehicle>, dark: seq<string>, ws: seq<Watch>, i: nat)
    requires AllTold(now, p, q, f, inside, dark, ws) && |p.t.events| <= i < |q.t.events|
    ensures ToldOf(now, f, inside, dark, ws, q.t.events[i])
  {
    hide ToldOf;
  }

  /** Each new event of the fence tells of its watch. */
  lemma PlanTells(c: Context, before: Progress, start: Progress, f: Fence, vs: seq<Vehicle>, o: Orders, w: Watch)
    requires start.t == ExpireWatches(before.t, c.now) && IsArmedList(start.t, c.now, c.watches)
    requires !ExecAll(c.s, c.now, start, FencePlan(c, f, vs, o)).failed
    requires w.id in before.t.watches && before.t.watches[w.id] == w && w.fenceId == f.id
    ensures var q := ExecAll(c.s, c.now, start, FencePlan(c, f, vs, o));
            var had, has := FilterMap(start.t.events, EventAt(f.id)), FilterMap(q.t.events, EventAt(f.id));
            && had <= has
            && (Reported(has, |had|, w.id) <==> Reported(q.t.events, |start.t.events|, w.id))
            && forall i :: |had| <= i < |has| && has[i].watchId == w.id ==> TellsOf(has[i], c.now, c.dist, f, vs, w) && w in c.watches
  {
    var q, inside := ExecAll(c.s, c.now, start, FencePlan(c, f, vs, o)), FilterMap(vs, Rebase(c.dist, f));
    var dark := Sorted(DarkOperators(q.t.readings, f.id, c.now, 0));
    SnapshotHolds(before.t, c.now, c.watches, w);
    hide *;
    FencePlanMarks(c, start, f, vs, o);
    TellersAreHere(c.now, start, q, f, inside, dark, c.watches);
    NewEvents(start.t.events, q.t.events, f);
    EventsOfFence(start.t.events, q.t.events, f, w.id);
    var had, has := FilterMap(start.t.events, EventAt(f.id)), FilterMap(q.t.events, EventAt(f.id));
    forall i | |had| <= i < |has| && has[i].watchId == w.id
      ensures TellsOf(has[i], c.now, c.dist, f, vs, w) && w in c.watches
    {
      var j := |start.t.events| + (i - |had|);
      assert has[i] == q.t.events[j];
      ToldEach(c.now, start, q, f, inside, dark, c.watches, j);
      TellerOf(c.now, f, inside, dark, c.watches, has[i], w);
      TellsOfMatches(c.now, c.dist, f, vs, dark, w, has[i]);
    }
  }

  lemma ReportedHas(events: seq<Event>, from: nat, id: string)
    requires Reported(events, from, id)
    ensures exists i :: from <= i < |events| && events[i].watchId == id
  {}

  lemma FaresAltogether(before: Progress, start: Progress, q: Progress, now: int, dist: Metric, f: Fence, vs: seq<Vehicle>, w: Watch,
                        ws: seq<Watch>)
    requires start.t.events == before.t.events && (w in ws <==> w.state == Armed && w.expiresAt > Unix(now))
    requires w.id in start.t.watches
    requires start.t.watches[w.id] == if w.state == Armed && w.expiresAt <= Unix(now) then w.(state := Expired) else w
    requires var had, has := FilterMap(start.t.events, EventAt(f.id)), FilterMap(q.t.events, EventAt(f.id));
             var reported := Reported(has, |had|, w.id);
             && had <= has
             && (forall i :: |had| <= i < |has| && has[i].watchId == w.id ==> TellsOf(has[i], now, dist, f, vs, w) && w in ws)
             && (reported ==> w in ws)
             && (w in ws ==> (reported <==> IsArmed(start.t, w.id) && IsDueAt(dist, f, vs, w, DarkOperators(q.t.readings, f.id, now, 0))))
             && w.id in q.t.watches
             && q.t.watches[w.id] == if reported then Marked(start.t.watches[w.id], now) else start.t.watches[w.id]
    ensures Fares(before, q, now, dist, f, vs, w)
  {
    hide FilterMap, DarkOperators, IsDueAt, TellsOf, Reported, Unix;
  }

  lemma PlanFares(c: Context, before: Progress, start: Progress, f: Fence, vs: seq<Vehicle>, o: Orders, w: Watch)
    requires start.t == ExpireWatches(before.t, c.now) && IsArmedList(start.t, c.now, c.watches)
    requires !ExecAll(c.s, c.now, start, FencePlan(c, f, vs, o)).failed
    requires w.id in before.t.watches && before.t.watches[w.id] == w && w.fenceId == f.id
    ensures Fares(before, ExecAll(c.s, c.now, start, FencePlan(c, f, vs, o)), c.now, c.dist, f, vs, w)
  {
    var q := ExecAll(c.s, c.now, start, FencePlan(c, f, vs, o));
    var had, has := FilterMap(start.t.events, EventAt(f.id)), FilterMap(q.t.events, EventAt(f.id));
    SnapshotHolds(before.t, c.now, c.watches, w);
    hide *;
    ArmedListHasDistinctIds(start.t, c.now, c.watches);
    ExpiryKeepsEvents(before.t, c.now);
    PlanTells(c, before, start, f, vs, o, w);
    FencePlanFires(c, start, f, vs, o);
    FencePlanMarks(c, start, f, vs, o);
    DueInside(c.dist, f, vs, w, DarkOperators(q.t.readings, f.id, c.now, 0));
    RowFares(c.now, start, q, w, Reported(has, |had|, w.id));
    if Reported(has, |had|, w.id) {
      ReportedHas(has, |had|, w.id);
    }
    FaresAltogether(before, start, q, c.now, c.dist, f, vs, w, c.watches);
  }

  lemma SameFare(before: Progress, p: Progress, q: Progress, now: int, dist: Metric, f: Fence, vs: seq<Vehicle>, w: Watch)
    requires ViewOf(p, f.id) == ViewOf(q, f.id) && w.fenceId == f.id && Fares(before, q, now, dist, f, vs, w)
    ensures Fares(before, p, now, dist, f, vs, w)
  {
    SameView(p, q, f.id, now);
    hide FilterMap, DarkOperators, IsDueAt, TellsOf, Reported, ViewOf;
    SameWatchRow(p, q, f.id, w.id);
  }

  /** A tick fires a stored watch on an answered fence exactly when it is armed, has
      not expired, and what it asks for has come about by the vehicles of the answer
      and the readings the tick leaves; each new event tells of just that; and the row
      is marked, expired or left alone accordingly. */
  lemma WatchFaresExactly(p: P.Poller, before: Progress, now: int, fetch: Fetch, probe: Probe, fences: seq<Fence>,
                          watches: seq<Watch>, pieces: seq<seq<Instr>>, after: Progress, err: P.TickError,
                          g: nat, f: Fence, vs: seq<Vehicle>, w: Watch)
    requires p.Ticked(before, now, fetch, probe, fences, watches, pieces, after, err)
    requires forall x :: x in watches ==> x.kind != OtherKind
    requires IsAnswered(p, fetch, fences, g, f, vs)
    requires w.id in before.t.watches && before.t.watches[w.id] == w && w.fenceId == f.id
    ensures Fares(before, after, now, p.dist, f, vs, w)
  {
    hide *;
    var c, start, o := TickAt(p, before, now, fetch, probe, fences, watches, pieces, after, err, g, f, vs);
    PlanFares(c, before, start, f, vs, o, w);
    SameFare(before, after, ExecAll(c.s, c.now, start, FencePlan(c, f, vs, o)), now, p.dist, f, vs, w);
  }

  // ---------------------------------------------------------------------
  // Errors
  // ---------------------------------------------------------------------

  lemma {:induction false} FailedGroupsAre(answers: seq<FetchResult>)
    ensures forall g: nat :: g in P.FailedGroups(answers) <==> g < |answers| && answers[g].Failed?
    ensures forall i, j :: 0 <= i < j < |P.FailedGroups(answers)| ==> P.FailedGroups(answers)[i] < P.FailedGroups(answers)[j]
  {
    if |answers| > 0 {
      var before, failed := Front(answers), P.FailedGroups(Front(answers));
      FailedGroupsAre(before);
      assert forall i :: 0 <= i < |failed| ==> failed[i] in failed;
      assert forall g: nat :: g < |before| ==> answers[g] == before[g];
    }
  }

  /** A tick ends without an error exactly when no store call failed and every group
      was answered; when none failed it names exactly the groups that were not. */
  lemma ErrorTellsExactly(p: P.Poller, before: Progress, now: int, fetch: Fetch, probe: Probe, fences: seq<Fence>,
                          watches: seq<Watch>, pieces: seq<seq<Instr>>, after: Progress, err: P.TickError)
    requires p.Ticked(before, now, fetch, probe, fences, watches, pieces, after, err)
    ensures err.Stopped? <==> after.failed
    ensures var gs := GroupsOf(p.dist, fences);
            && (err.NoError? <==> !after.failed && forall g: nat :: g < |gs| ==> fetch(g, GroupQuery(gs[g])).Fetched?)
            && (err.Upstream? ==>
                  && (forall g: nat :: g in err.groups <==> g < |gs| && fetch(g, GroupQuery(gs[g])).Failed?)
                  && forall i, j :: 0 <= i < j < |err.groups| ==> err.groups[i] < err.groups[j])
  {
    var gs := GroupsOf(p.dist, fences);
    var answers := P.AnswersOf(fetch, gs);
    hide GroupsOf, Work, IsPlan, Outcome, IsFenceList, IsArmedList, ExpireWatches;
    FailedGroupsAre(answers);
    hide P.FailedGroups;
    if P.FailedGroups(answers) != [] {
      assert P.FailedGroups(answers)[0] in P.FailedGroups(answers);
    } else {
      assert forall g: nat :: g < |gs| ==> g !in P.FailedGroups(answers);
    }
  }

  // ---------------------------------------------------------------------
  // The report and the dispatches
  // ---------------------------------------------------------------------

  function WatchIds(events: seq<Event>): seq<string> {
    seq(|events|, i requires 0 <= i < |events| => events[i].watchId)
  }

  function Payloads(events: seq<Event>): seq<Notification> {
    seq(|events|, i requires 0 <= i < |events| => events[i].payload)
  }

  /** From `p` to `q` the report lists the watch of each new event, and each was
      dispatched if there is a sink. */
  ghost predicate Listed(s: Settings, p: Progress, q: Progress) {
    && p.t.events <= q.t.events
    && q.rep.fired == p.rep.fired + WatchIds(q.t.events[|p.t.events|..])
    && q.sent == p.sent + (if s.sink then Payloads(q.t.events[|p.t.events|..]) else [])
    && q.rep.queries == p.rep.queries && q.rep.fences == p.rep.fences && q.rep.expired == p.rep.expired
  }

  lemma MarkFiredKeepsEvents(t: Tables, id: string, now: int)
    ensures MarkFired(t, id, now).Written? ==> MarkFired(t, id, now).t.events == t.events
  {}

  lemma CallLists(s: Settings, now: int, p: Progress, i: Instr)
    ensures Listed(s, p, Exec(s, now, p, i))
  {
    hide FilterMap, SightAll, OpenStints, DarkOperators, Judge, MarkFired;
    MarkFiredKeepsEvents(p.t, if i.Evaluate? then i.watch.id else "", now);
  }

  lemma NewThenNew(a: seq<Event>, b: seq<Event>, c: seq<Event>)
    requires a <= b && b <= c
    ensures a <= c && c[|a|..] == b[|a|..] + c[|b|..]
    ensures WatchIds(c[|a|..]) == WatchIds(b[|a|..]) + WatchIds(c[|b|..])
    ensures Payloads(c[|a|..]) == Payloads(b[|a|..]) + Payloads(c[|b|..])
  {}

  lemma ListedThen(s: Settings, p: Progress, q: Progress, r: Progress)
    requires Listed(s, p, q) && Listed(s, q, r)
    ensures Listed(s, p, r)
  {
    NewThenNew(p.t.events, q.t.events, r.t.events);
    hide WatchIds, Payloads;
  }

  lemma {:induction false} RunLists(s: Settings, now: int, p: Progress, plan: seq<Instr>)
    ensures Listed(s, p, ExecAll(s, now, p, plan))
  {
    hide Exec;
    if |plan| > 0 {
      hide Listed;
      RunLists(s, now, p, Front(plan));
      CallLists(s, now, ExecAll(s, now, p, Front(plan)), Last(plan));
      ListedThen(s, p, ExecAll(s, now, p, Front(plan)), ExecAll(s, now, p, plan));
    }
  }

  /** A tick, whatever fails in it, reports one fire for each new event, in order, and
      with a sink dispatches the payload of each; without one it dispatches nothing. It
      reports how many queries and fences there were and how many watches it expired. */
  lemma ReportTellsExactly(p: P.Poller, before: Progress, now: int, fetch: Fetch, probe: Probe, fences: seq<Fence>,
                           watches: seq<Watch>, pieces: seq<seq<Instr>>, after: Progress, err: P.TickError)
    requires p.Ticked(before, now, fetch, probe, fences, watches, pieces, after, err)
    ensures before.t.events <= after.t.events
    ensures after.rep.fired == WatchIds(after.t.events[|before.t.events|..])
    ensures after.sent == before.sent + if p.s.sink then Payloads(after.t.events[|before.t.events|..]) else []
    ensures after.rep.queries == |GroupsOf(p.dist, fences)| && after.rep.fences == |fences|
    ensures after.rep.expired
            == |set id | id in before.t.watches && before.t.watches[id].state == Armed && before.t.watches[id].expiresAt <= Unix(now)|
  {
    var start := P.StartOf(before, now, GroupsOf(p.dist, fences), fences);
    ExpiryKeepsEvents(before.t, now);
    assert P.StartOf(before, now, GroupsOf(p.dist, fences), fences).rep.fired == [];
    assert OverdueIds(before.t, now)
        == set id | id in before.t.watches && before.t.watches[id].state == Armed && before.t.watches[id].expiresAt <= Unix(now);
    hide GroupsOf, Work, IsPlan, ExecAll, IsFenceList, IsArmedList, ExpireWatches, OverdueIds;
    RunLists(p.s, now, start, Concat(pieces));
    hide WatchIds, Payloads;
  }

  lemma OnlyChecksReportDark(s: Settings, now: int, p: Progress, i: Instr)
    requires !i.Health?
    ensures Exec(s, now, p, i).rep.dark == p.rep.dark
  {
    hide FilterMap, SightAll, OpenStints, DarkOperators, Judge, MarkFired;
  }

  lemma {:induction false} RunReportsNoDark(s: Settings, now: int, p: Progress, plan: seq<Instr>)
    requires forall i :: i in plan ==> !i.Health?
    ensures ExecAll(s, now, p, plan).rep.dark == p.rep.dark
  {
    hide Exec;
    if |plan| > 0 {
      assert Last(plan) in plan && forall i :: i in Front(plan) ==> i in plan;
      RunReportsNoDark(s, now, p, Front(plan));
      OnlyChecksReportDark(s, now, ExecAll(s, now, p, Front(plan)), Last(plan));
    }
  }

  lemma StartChecksNothing(f: Fence, inside: seq<Vehicle>, order: seq<string>, i: Instr)
    requires i in FencePlanStart(f, inside, order)
    ensures !i.Health?
  {
    hide FilterMap, CountsOf;
    FilterMapMember(order, SampleFor(f.id, CountsOf(inside)), i);
  }

  lemma LookupChecksNothing(c: Context, f: Fence, inside: seq<Vehicle>, order: seq<string>, i: Instr)
    requires i in NearestPlan(c, f, inside, order)
    ensures !i.Health?
  {
    hide FilterMap, ClosestOf;
    FilterMapMember(order, NearFor(f.id, ClosestOf(inside)), i);
    FilterMapMember(FilterMap(OPERATORS, Absent(ClosestOf(inside))), ProbeFor(c, f), i);
  }

  lemma CheckReports(s: Settings, now: int, p: Progress, f: string)
    requires !p.failed
    ensures Exec(s, now, p, Health(f)).rep.dark == p.rep.dark + Sorted(DarkOperators(p.t.readings, f, now, 0))
  {
    hide DarkOperators;
  }

  /** The plan of a fence adds to the report just the operators that are dark by the
      readings it leaves, in order. */
  lemma DarkIsReported(c: Context, p: Progress, f: Fence, vs: seq<Vehicle>, o: Orders)
    requires !ExecAll(c.s, c.now, p, FencePlan(c, f, vs, o)).failed
    ensures var q := ExecAll(c.s, c.now, p, FencePlan(c, f, vs, o));
            q.rep.dark == p.rep.dark + Sorted(DarkOperators(q.t.readings, f.id, c.now, 0))
  {
    var inside := FilterMap(vs, Rebase(c.dist, f));
    var begin, near := FencePlanStart(f, inside, o.counts), NearestPlan(c, f, inside, o.closest);
    var evals := FilterMap(c.watches, EvaluateFor(f, inside));
    forall i | i in evals
      ensures i.Evaluate?
    {
      EvaluationsAreHere(c, f, inside, i);
    }
    hide *;
    forall i | i in begin
      ensures !i.Health?
    {
      StartChecksNothing(f, inside, o.counts, i);
    }
    forall i | i in near
      ensures !i.Health?
    {
      LookupChecksNothing(c, f, inside, o.closest, i);
    }
    FencePlanRuns(c, f, vs, o, p);
    var a := ExecAll(c.s, c.now, p, begin);
    var b := ExecAll(c.s, c.now, a, near);
    var h := Exec(c.s, c.now, b, Health(f.id));
    RunReportsNoDark(c.s, c.now, p, begin);
    RunReportsNoDark(c.s, c.now, a, near);
    RunReportsNoDark(c.s, c.now, h, evals);
    RunFailedStays(c.s, c.now, h, evals);
    FailedStays(c.s, c.now, b, Health(f.id));
    CheckReports(c.s, c.now, b, f.id);
    HealthFinds(c.s, c.now, b, f.id);
    EvaluationsKeepHealth(c.s, c.now, h, evals);
  }

  // ---------------------------------------------------------------------
  // Probes
  // ---------------------------------------------------------------------

  function IfProbe(): Instr -> Option<Instr> {
    (i: Instr) => if i.Probe? then Some(i) else None
  }

  lemma CallProbes(s: Settings, now: int, p: Progress, i: Instr)
    requires !p.failed
    ensures Exec(s, now, p, i).rep.probes == p.rep.probes + if i.Probe? then 1 else 0
  {
    hide FilterMap, SightAll, OpenStints, DarkOperators, Judge, MarkFired;
  }

  lemma {:induction false} RunProbes(s: Settings, now: int, p: Progress, plan: seq<Instr>)
    requires !ExecAll(s, now, p, plan).failed
    ensures ExecAll(s, now, p, plan).rep.probes == p.rep.probes + |FilterMap(plan, IfProbe())|
  {
    hide Exec;
    if |plan| > 0 {
      var q := ExecAll(s, now, p, Front(plan));
      FailedStays(s, now, q, Last(plan));
      RunProbes(s, now, p, Front(plan));
      CallProbes(s, now, q, Last(plan));
      assert |ToSeq(IfProbe()(Last(plan)))| == if Last(plan).Probe? then 1 else 0;
    }
  }

  lemma NoProbes(plan: seq<Instr>)
    requires forall i :: i in plan ==> !i.Probe?
    ensures FilterMap(plan, IfProbe()) == []
  {
    FilterMapNothing(plan, IfProbe());
  }

  lemma {:induction false} AllProbes(plan: seq<Instr>)
    requires forall i :: i in plan ==> i.Probe?
    ensures |FilterMap(plan, IfProbe())| == |plan|
  {
    P.FilterMapTotal(plan, IfProbe());
  }

  lemma ProbesAreProbes(c: Context, f: Fence, absent: seq<Operator>)
    ensures |FilterMap(absent, ProbeFor(c, f))| == |absent|
    ensures forall i :: i in FilterMap(absent, ProbeFor(c, f)) ==> i.Probe?
  {
    P.FilterMapTotal(absent, ProbeFor(c, f));
    forall i | i in FilterMap(absent, ProbeFor(c, f))
      ensures i.Probe?
    {
      FilterMapMember(absent, ProbeFor(c, f), i);
    }
    hide FilterMap;
  }

  lemma NearHasNoProbe(f: string, closest: map<string, Vehicle>, order: seq<string>, i: Instr)
    requires i in FilterMap(order, NearFor(f, closest))
    ensures !i.Probe?
  {
    FilterMapMember(order, NearFor(f, closest), i);
  }

  lemma LookupProbes(c: Context, f: Fence, inside: seq<Vehicle>, order: seq<string>)
    ensures |FilterMap(NearestPlan(c, f, inside, order), IfProbe())|
            == if LookupDue(c.s, c.due, f.id, c.now) then |FilterMap(OPERATORS, Absent(ClosestOf(inside)))| else 0
  {
    var closest := ClosestOf(inside);
    var near, absent := FilterMap(order, NearFor(f.id, closest)), FilterMap(OPERATORS, Absent(closest));
    var probes := FilterMap(absent, ProbeFor(c, f));
    LookupDueExactly(c.s, c.due, f.id, c.now);
    NearestPlanParts(c, f, inside);
    hide FilterMap, ClosestOf, NearestPlan, ProbePlan, LookupDue, IsDue, IntervalOf;
    forall i | i in near
      ensures !i.Probe?
    {
      NearHasNoProbe(f.id, closest, order, i);
    }
    NoProbes(near);
    NoProbes([]);
    NoProbes([Stamp(f.id)]);
    ProbesAreProbes(c, f, absent);
    AllProbes(probes);
    FilterMapConcat(near, ProbePlan(c, f, closest), IfProbe());
    FilterMapConcat([Stamp(f.id)], probes, IfProbe());
  }

  /** The places of the operators without a vehicle within the radius. */
  ghost function AbsentPlaces(dist: Metric, f: Fence, vs: seq<Vehicle>): set<nat> {
    set i: nat | i < |OPERATORS| && forall v :: v in vs && In(dist, f, v) ==> v.operatorKey != OPERATORS[i].key
  }

  lemma IsAbsent(dist: Metric, f: Fence, vs: seq<Vehicle>, o: Operator)
    requires o.key != ""
    ensures o.key !in ClosestOf(FilterMap(vs, Rebase(dist, f)))
            <==> forall v :: v in vs && In(dist, f, v) ==> v.operatorKey != o.key
  {
    var inside := FilterMap(vs, Rebase(dist, f));
    ClosestIsNearest(inside, o.key);
    hide FilterMap, ClosestOf, In;
    if v :| v in vs && In(dist, f, v) && v.operatorKey == o.key {
      InsideMember(dist, f, vs, v.(distanceM := dist(f.at, v.at)));
    }
    if u :| u in inside && u.operatorKey == o.key {
      InsideMember(dist, f, vs, u);
    }
  }

  lemma AbsentNumber(dist: Metric, f: Fence, vs: seq<Vehicle>)
    ensures |FilterMap(OPERATORS, Absent(ClosestOf(FilterMap(vs, Rebase(dist, f)))))| == |AbsentPlaces(dist, f, vs)|
  {
    var inside := FilterMap(vs, Rebase(dist, f));
    OperatorsDiffer();
    FilterMapLength(OPERATORS, Absent(ClosestOf(inside)));
    hide FilterMap, ClosestOf, In;
    forall i: nat | i < |OPERATORS|
      ensures Absent(ClosestOf(inside))(OPERATORS[i]).Some?
              <==> forall v :: v in vs && In(dist, f, v) ==> v.operatorKey != OPERATORS[i].key
    {
      IsAbsent(dist, f, vs, OPERATORS[i]);
    }
    assert Places(OPERATORS, Absent(ClosestOf(inside))) == AbsentPlaces(dist, f, vs);
  }

  lemma StartProbesNothing(f: Fence, inside: seq<Vehicle>, order: seq<string>, i: Instr)
    requires i in FencePlanStart(f, inside, order)
    ensures !i.Probe?
  {
    hide FilterMap, CountsOf;
    FilterMapMember(order, SampleFor(f.id, CountsOf(inside)), i);
  }

  /** The plan of a fence whose lookup is due reports one probe for each known operator
      without a vehicle within the radius, and otherwise none. */
  lemma ProbesAreReported(c: Context, p: Progress, f: Fence, vs: seq<Vehicle>, o: Orders)
    requires !ExecAll(c.s, c.now, p, FencePlan(c, f, vs, o)).failed
    ensures ExecAll(c.s, c.now, p, FencePlan(c, f, vs, o)).rep.probes
            == p.rep.probes + if LookupDue(c.s, c.due, f.id, c.now) then |AbsentPlaces(c.dist, f, vs)| else 0
  {
    var inside := FilterMap(vs, Rebase(c.dist, f));
    var begin, near := FencePlanStart(f, inside, o.counts), NearestPlan(c, f, inside, o.closest);
    var evals := FilterMap(c.watches, EvaluateFor(f, inside));
    assert FencePlan(c, f, vs, o) == begin + (near + ([Health(f.id)] + evals));
    forall i | i in evals
      ensures !i.Probe?
    {
      EvaluationsAreHere(c, f, inside, i);
    }
    hide *;
    forall i | i in begin
      ensures !i.Probe?
    {
      StartProbesNothing(f, inside, o.counts, i);
    }
    RunProbes(c.s, c.now, p, FencePlan(c, f, vs, o));
    FilterMapConcat(begin, near + ([Health(f.id)] + evals), IfProbe());
    FilterMapConcat(near, [Health(f.id)] + evals, IfProbe());
    FilterMapConcat([Health(f.id)], evals, IfProbe());
    NoProbes(begin);
    NoProbes([Health(f.id)]);
    NoProbes(evals);
    LookupProbes(c, f, inside, o.closest);
    AbsentNumber(c.dist, f, vs);
  }

  // ---------------------------------------------------------------------
  // Truncation
  // ---------------------------------------------------------------------

  lemma CallTruncates(s: Settings, now: int, p: Progress, i: Instr)
    ensures Exec(s, now, p, i).rep.truncated <==> p.rep.truncated || (i == Open(true) && !p.failed)
  {
    hide FilterMap, SightAll, OpenStints, DarkOperators, Judge, MarkFired;
  }

  lemma {:induction false} RunTruncates(s: Settings, now: int, p: Progress, plan: seq<Instr>)
    requires !ExecAll(s, now, p, plan).failed
    ensures ExecAll(s, now, p, plan).rep.truncated <==> p.rep.truncated || Open(true) in plan
  {
    hide Exec;
    if |plan| > 0 {
      var q := ExecAll(s, now, p, Front(plan));
      assert plan == Front(plan) + [Last(plan)];
      FailedStays(s, now, q, Last(plan));
      RunTruncates(s, now, p, Front(plan));
      CallTruncates(s, now, q, Last(plan));
    }
  }

  lemma {:induction false} VisitsOpenNothing(fs: seq<Fence>, vs: seq<Vehicle>)
    ensures forall v :: v in VisitsOf(fs, vs) ==> v.AtFence?
  {
    if |fs| > 0 {
      VisitsOpenNothing(Front(fs), vs);
    }
  }

  ghost predicate SomeTruncated(answers: seq<FetchResult>) {
    exists g: nat :: g < |answers| && answers[g].Fetched? && answers[g].truncated
  }

  lemma SomeTruncatedLast(answers: seq<FetchResult>)
    requires |answers| > 0
    ensures SomeTruncated(answers) <==> SomeTruncated(Front(answers)) || (Last(answers).Fetched? && Last(answers).truncated)
  {
    var before := Front(answers);
    assert forall g: nat :: g < |before| ==> answers[g] == before[g];
  }

  lemma {:induction false} WorkOpens(gs: seq<Group>, answers: seq<FetchResult>)
    requires |gs| == |answers|
    ensures OpenGroup(true) in Work(gs, answers) <==> SomeTruncated(answers)
  {
    if |gs| > 0 {
      var last := Last(answers);
      WorkOpens(Front(gs), Front(answers));
      SomeTruncatedLast(answers);
      hide SomeTruncated;
      if last.Fetched? {
        VisitsOpenNothing(Last(gs).fences, last.vehicles);
      }
    }
  }

  lemma PieceOpens(c: Context, v: Visit, piece: seq<Instr>)
    requires IsPiece(c, v, piece)
    ensures Open(true) in piece <==> v == OpenGroup(true)
  {
    match v
    case OpenGroup(_) =>
    case AtFence(f, vs) =>
      hide FencePlan;
      PieceIsLocal(c, v, piece);
  }

  lemma {:induction false} ConcatHas(pieces: seq<seq<Instr>>, k: nat, i: Instr)
    requires k < |pieces| && i in pieces[k]
    ensures i in Concat(pieces)
  {
    if k < |pieces| - 1 {
      ConcatHas(Front(pieces), k, i);
    }
  }

  /** A tick whose store calls all succeed says it was truncated exactly when some
      answer was. */
  lemma TruncationIsTold(p: P.Poller, before: Progress, now: int, fetch: Fetch, probe: Probe, fences: seq<Fence>,
                         watches: seq<Watch>, pieces: seq<seq<Instr>>, after: Progress, err: P.TickError)
    requires p.Ticked(before, now, fetch, probe, fences, watches, pieces, after, err) && !after.failed
    ensures var gs := GroupsOf(p.dist, fences);
            after.rep.truncated <==>
              exists g: nat :: g < |gs| && fetch(g, GroupQuery(gs[g])).Fetched? && fetch(g, GroupQuery(gs[g])).truncated
  {
    var gs := GroupsOf(p.dist, fences);
    var answers := P.AnswersOf(fetch, gs);
    var work := Work(gs, answers);
    var c := p.ContextOf(now, watches, before.due, probe);
    var start := P.StartOf(before, now, gs, fences);
    assert !start.rep.truncated;
    hide GroupsOf, Work, IsPiece, ExecAll, IsFenceList, IsArmedList, ExpireWatches, Concat, OverdueIds;
    RunTruncates(p.s, now, start, Concat(pieces));
    WorkOpens(gs, answers);
    if Open(true) in Concat(pieces) {
      var k := ConcatMember(pieces, Open(true));
      PieceOpens(c, work[k], pieces[k]);
    }
    if OpenGroup(true) in work {
      var k :| 0 <= k < |work| && work[k] == OpenGroup(true);
      PieceOpens(c, work[k], pieces[k]);
      ConcatHas(pieces, k, Open(true));
    }
  }
}
