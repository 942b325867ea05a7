/** Runs of `Lifecycle` whose ticks decide what a poller decides: a plan for the
    snapshot the tick took, some answers from upstream, and the probe schedule the
    earlier ticks left (`internal/poll/poll.go`, `Tick`). */
module Genuine {
  import opened Base
  import opened Geo
  import opened Entur
  import opened Schema
  import opened Poll
  import opened Plan
  import opened Lifecycle
  import opened Sequential

  // ---------------------------------------------------------------------
  // Runs of a poller
  // ---------------------------------------------------------------------

  ghost predicate Stamping(w: World, a: Action) {
    && a.Step? && a.tick in w.ticks
    && w.ticks[a.tick].stage.Running? && w.ticks[a.tick].stage.pending == Nothing
    && |w.ticks[a.tick].stage.todo| > 0 && w.ticks[a.tick].stage.todo[0].Stamp?
  }

  /** When the poller last looked farther than each fence. */
  ghost function ScheduleAfter(s: Settings, run: seq<Action>): map<string, int> {
    if |run| == 0 then map[]
    else
      var due, w, a := ScheduleAfter(s, Front(run)), After(s, Front(run)), Last(run);
      if Stamping(w, a) then due[w.ticks[a.tick].stage.todo[0].fence := w.ticks[a.tick].now] else due
  }

  /** The calls a poller makes for these fences and watches, for some answers. */
  ghost predicate PollerDecides(s: Settings, dist: Metric, now: int, fences: seq<Fence>, watches: seq<Watch>, due: map<string, int>,
                                plan: seq<Instr>) {
    exists probe: (string, Query) -> FetchResult, answers: seq<FetchResult>, pieces: seq<seq<Instr>> ::
      && |answers| == |GroupsOf(dist, fences)|
      && IsPlan(Context(dist, s, now, watches, due, probe), Work(GroupsOf(dist, fences), answers), pieces)
      && plan == Concat(pieces)
  }

  ghost predicate DecidesAsPoller(s: Settings, dist: Metric, w: World, due: map<string, int>, a: Action) {
    a.Decide? && a.tick in w.ticks && w.ticks[a.tick].stage.ReadWatches? ==>
      var fr := w.ticks[a.tick];
      PollerDecides(s, dist, fr.now, fr.stage.fences, fr.stage.watches, due, a.plan)
  }

  /** Every plan decided in the run is one its poller makes at that point. */
  ghost predicate IsGenuine(s: Settings, dist: Metric, run: seq<Action>) {
    |run| > 0 ==>
      && IsGenuine(s, dist, Front(run))
      && DecidesAsPoller(s, dist, After(s, Front(run)), ScheduleAfter(s, Front(run)), Last(run))
  }

  lemma NoRun(s: Settings, dist: Metric)
    ensures After(s, []) == START && IsGenuine(s, dist, [])
  {}

  lemma AfterOne(s: Settings, run: seq<Action>, a: Action)
    ensures After(s, run + [a]) == Next(s, After(s, run), a)
  {
    hide Next;
    assert Front(run + [a]) == run;
  }

  /** One action more that decides nothing. */
  lemma More(s: Settings, dist: Metric, run: seq<Action>, a: Action) returns (more: seq<Action>)
    requires IsGenuine(s, dist, run) && !a.Decide?
    ensures more == run + [a] && IsGenuine(s, dist, more)
    ensures After(s, more) == Next(s, After(s, run), a)
  {
    hide Next, After, ScheduleAfter;
    more := run + [a];
    AfterOne(s, run, a);
    assert Front(more) == run;
  }

  /** A tick decides what its poller would. */
  lemma Decided(s: Settings, dist: Metric, run: seq<Action>, k: nat, plan: seq<Instr>) returns (more: seq<Action>)
    requires IsGenuine(s, dist, run) && k in After(s, run).ticks && After(s, run).ticks[k].stage.ReadWatches?
    requires var fr := After(s, run).ticks[k];
             PollerDecides(s, dist, fr.now, fr.stage.fences, fr.stage.watches, ScheduleAfter(s, run), plan)
    ensures more == run + [Decide(k, plan)] && IsGenuine(s, dist, more)
    ensures After(s, more) == Next(s, After(s, run), Decide(k, plan))
  {
    hide Next, After, ScheduleAfter, PollerDecides;
    more := run + [Decide(k, plan)];
    AfterOne(s, run, Decide(k, plan));
    assert Front(more) == run;
  }

  // ---------------------------------------------------------------------
  // One empty fence
  // ---------------------------------------------------------------------

  const HERE := Fence("f", "here", Point(0.0, 0.0), 150)

  const NO_ANSWER: (string, Query) -> FetchResult := (f, q) => Failed

  const KEYS: seq<string> := ["ryde", "voi", "bolt", "dott"]

  lemma KeysAreKnown()
    ensures Enumerates(KEYS, CountsOf([]).Keys) && Enumerates([], ClosestOf([]).Keys)
  {
    OperatorsDiffer();
    assert KEYS[0] == OPERATORS[0].key && KEYS[1] == OPERATORS[1].key && KEYS[2] == OPERATORS[2].key && KEYS[3] == OPERATORS[3].key;
    assert CountsOf([]).Keys == OperatorKeys();
    forall k
      ensures k in KEYS <==> k in OperatorKeys()
    {
      if k in OperatorKeys() {
        var o :| o in OPERATORS && o.key == k;
      }
    }
  }

  /** Calls that leave everything a tick judges by as it is. */
  predicate Plain(i: Instr) {
    match i
    case Open(_) => true
    case Sample(f, _, _) => f == "f"
    case Observe(f, seen) => f == "f" && seen == []
    case Stamp(_) => true
    case Probe(_, _, found) => found.None?
    case _ => false
  }

  lemma ProbesArePlain(c: Context, i: Instr)
    requires c.probe == NO_ANSWER
    requires i in ProbePlan(c, HERE, ClosestOf([]))
    ensures Plain(i)
  {
    hide FilterMap, ClosestOf;
    var absent := FilterMap(OPERATORS, Absent(ClosestOf([])));
    if i != Stamp("f") {
      FilterMapMember(absent, ProbeFor(c, HERE), i);
      var o :| o in absent && ProbeFor(c, HERE)(o) == Some(i);
      assert c.probe("f", ProbeQuery(HERE, c.s.reachM, o)) == Failed;
    }
  }

  lemma SamplesArePlain(order: seq<string>, counts: map<string, int>, i: Instr)
    requires i in FilterMap(order, SampleFor("f", counts))
    ensures Plain(i)
  {
    FilterMapMember(order, SampleFor("f", counts), i);
  }

  lemma FirstSample(counts: map<string, int>)
    requires "ryde" in counts ==> counts["ryde"] == 0
    ensures |FilterMap(KEYS, SampleFor("f", counts))| > 0
    ensures FilterMap(KEYS, SampleFor("f", counts))[0] == Sample("f", "ryde", 0)
  {
    var rest := KEYS[1..];
    assert KEYS == ["ryde"] + rest;
    FilterMapConcat(["ryde"], rest, SampleFor("f", counts));
    assert Front(["ryde"]) == [];
  }

  lemma LookupIsPlain(c: Context, i: Instr)
    requires c.probe == NO_ANSWER && i in NearestPlan(c, HERE, [], [])
    ensures Plain(i)
  {
    hide ProbePlan, ClosestOf;
    assert FilterMap<string, Instr>([], NearFor("f", ClosestOf([]))) == [];
    ProbesArePlain(c, i);
  }

  /** The calls for the fence, when there is nothing in it. */
  ghost function EmptyFenceCalls(c: Context): seq<Instr> {
    FilterMap(KEYS, SampleFor("f", CountsOf([]))) + [Observe("f", [])] + NearestPlan(c, HERE, [], [])
  }

  lemma EmptyPiece(c: Context)
    ensures IsPiece(c, AtFence(HERE, []), EmptyFenceCalls(c) + ([Health("f")] + FilterMap(c.watches, EvaluateFor(HERE, []))))
  {
    var o := Orders(KEYS, []);
    KeysAreKnown();
    assert FilterMap<Vehicle, Vehicle>([], Rebase(c.dist, HERE)) == [] && FilterMap<Vehicle, Sighting>([], SightingOf()) == [];
    hide FilterMap, CountsOf, ClosestOf, Enumerates, NearestPlan;
    assert ValidOrders(c, HERE, [], o);
    var samples, near := FilterMap(KEYS, SampleFor("f", CountsOf([]))), NearestPlan(c, HERE, [], []);
    var evals := FilterMap(c.watches, EvaluateFor(HERE, []));
    assert FencePlan(c, HERE, [], o) == (samples + [Observe("f", [])]) + (near + ([Health("f")] + evals));
    assert FencePlan(c, HERE, [], o) == EmptyFenceCalls(c) + ([Health("f")] + evals);
  }

  lemma EmptyFenceCallsArePlain(c: Context)
    requires c.probe == NO_ANSWER
    ensures forall i :: i in EmptyFenceCalls(c) ==> Plain(i)
    ensures |EmptyFenceCalls(c)| > 1 && EmptyFenceCalls(c)[0] == Sample("f", "ryde", 0)
  {
    KeysAreKnown();
    assert "ryde" in KEYS && CountsOf([])["ryde"] == 0 by { assert KEYS[0] == "ryde"; }
    FirstSample(CountsOf([]));
    hide FilterMap, CountsOf, NearestPlan;
    forall i | i in EmptyFenceCalls(c)
      ensures Plain(i)
    {
      if i in FilterMap(KEYS, SampleFor("f", CountsOf([]))) {
        SamplesArePlain(KEYS, CountsOf([]), i);
      } else if i != Observe("f", []) {
        LookupIsPlain(c, i);
      }
    }
  }

  lemma ConcatPair(a: seq<Instr>, b: seq<Instr>)
    ensures Concat([a, b]) == a + b
  {
    assert Front([a, b]) == [a] && Front([a]) == [];
    assert Concat([a]) == Concat([]) + a;
  }

  lemma OneGroup(dist: Metric)
    ensures |GroupsOf(dist, [HERE])| == 1 && GroupsOf(dist, [HERE])[0].fences == [HERE] && Members(GroupsOf(dist, [HERE])) == [HERE]
  {
    var gs := GroupsOf(dist, [HERE]);
    GroupsPartitionFences(dist, [HERE]);
    hide GroupsOf;
    assert gs == [gs[0]] && Front(gs) == [];
    assert Members(gs) == Members([]) + gs[0].fences;
  }

  lemma {:induction false} WorkOfOne(gs: seq<Group>, answer: FetchResult)
    requires |gs| == 1 && gs[0].fences == [HERE] && answer == Fetched([], 0, false)
    ensures Work(gs, [answer]) == [OpenGroup(false), AtFence(HERE, [])]
  {
    assert Front(gs) == [] && Front([answer]) == [] && Front([HERE]) == [];
    assert VisitsOf([HERE], []) == [AtFence(HERE, [])];
  }

  lemma PollerMayDecide(c: Context, fences: seq<Fence>, answers: seq<FetchResult>, pieces: seq<seq<Instr>>)
    requires |answers| == |GroupsOf(c.dist, fences)| && IsPlan(c, Work(GroupsOf(c.dist, fences), answers), pieces)
    ensures PollerDecides(c.s, c.dist, c.now, fences, c.watches, c.due, Concat(pieces))
  {
    hide IsPlan, GroupsOf, Work, Concat;
    assert c == Context(c.dist, c.s, c.now, c.watches, c.due, c.probe);
  }

  lemma PlanOfTwo(c: Context, work: seq<Visit>, piece: seq<Instr>)
    requires work == [OpenGroup(false), AtFence(HERE, [])] && IsPiece(c, work[1], piece)
    ensures IsPlan(c, work, [[Open(false)], piece])
  {
    hide FencePlan, ValidOrders;
  }

  lemma OpenIsPlain()
    ensures Plain(Open(false))
  {}

  /** What a poller decides for the one fence, when upstream has nothing there and
      its probes fail: only its last calls look at watches. */
  lemma EmptyFencePlan(s: Settings, dist: Metric, t: Tables, ws: seq<Watch>, due: map<string, int>) returns (pre: seq<Instr>)
    requires IsFenceList(t, [HERE]) && IsArmedList(t, 0, ws)
    ensures var plan := pre + ([Health("f")] + FilterMap(ws, EvaluateFor(HERE, [])));
            PollerDecides(s, dist, 0, [HERE], ws, due, plan) && Fits([HERE], ws, plan)
    ensures |pre| > 2 && pre[0] == Open(false) && pre[1] == Sample("f", "ryde", 0)
    ensures forall i :: i in pre ==> Plain(i)
  {
    hide *;
    var c := Context(dist, s, 0, ws, due, NO_ANSWER);
    var gs, answers := GroupsOf(dist, [HERE]), [Fetched([], 0, false)];
    var last := [Health("f")] + FilterMap(ws, EvaluateFor(HERE, []));
    var calls := EmptyFenceCalls(c);
    pre := [Open(false)] + calls;
    var pieces := [[Open(false)], calls + last];
    OneGroup(dist);
    WorkOfOne(gs, answers[0]);
    EmptyPiece(c);
    EmptyFenceCallsArePlain(c);
    OpenIsPlain();
    ConcatPair([Open(false)], calls + last);
    assert Concat(pieces) == pre + last;
    PlanOfTwo(c, Work(gs, answers), calls + last);
    PollerMayDecide(c, [HERE], answers, pieces);
    RealPlansFit(c, t, [HERE], gs, answers, pieces);
  }

  // ---------------------------------------------------------------------
  // Walking through a plan
  // ---------------------------------------------------------------------

  /** The world with one tick under way, begun at time 0. */
  function At(w: World, stage: Stage): World {
    w.(ticks := map[w.nextTick := Frame(0, stage)], nextTick := w.nextTick + 1)
  }

  /** Nothing a tick judges by has changed. */
  ghost predicate Unmoved(v: World, w: World) {
    && w == v.(t := w.t)
    && w.t.fences == v.t.fences && w.t.watches == v.t.watches && w.t.events == v.t.events && w.t.readings == v.t.readings
  }

  lemma PlainCall(s: Settings, p: Progress, i: Instr)
    requires Plain(i) && !p.failed && "f" in p.t.fences
    ensures var q := Exec(s, 0, p, i);
            && !q.failed && q.dark == p.dark
            && q.t.fences == p.t.fences && q.t.watches == p.t.watches && q.t.events == p.t.events && q.t.readings == p.t.readings
  {
    hide OpenStints, FilterMap;
  }

  lemma PlainStep(s: Settings, w: World, todo: seq<Instr>) returns (v: World)
    requires |todo| > 0 && Plain(todo[0]) && "f" in w.t.fences && w.ticks == map[]
    ensures Unmoved(w, v)
    ensures Next(s, At(w, Running(todo, [], Nothing)), Step(w.nextTick)) == At(v, Running(todo[1..], [], Nothing))
  {
    var p := Progress(w.t, map[], [], NO_REPORT, [], false);
    PlainCall(s, p, todo[0]);
    v := w.(t := Exec(s, 0, p, todo[0]).t);
    hide Exec;
    assert At(w, Running(todo, [], Nothing)).ticks[w.nextTick] == Frame(0, Running(todo, [], Nothing));
  }

  lemma LastPlain(pre: seq<Instr>, rest: seq<Instr>)
    requires |pre| > 0 && forall i :: i in pre ==> Plain(i)
    ensures var todo := [Last(pre)] + rest;
            pre + rest == Front(pre) + todo && todo[0] == Last(pre) && todo[1..] == rest && Plain(Last(pre))
    ensures forall i :: i in Front(pre) ==> Plain(i)
  {
    hide Plain;
    assert Last(pre) in pre && forall i :: i in Front(pre) ==> i in pre;
  }

  lemma UnmovedTick(w: World, v: World)
    requires Unmoved(w, v)
    ensures v.ticks == w.ticks && v.nextTick == w.nextTick && v.t.fences == w.t.fences
  {}

  lemma UnmovedBoth(w: World, u: World, v: World)
    requires Unmoved(w, u) && Unmoved(u, v)
    ensures Unmoved(w, v)
  {}

  /** The tick goes through plain calls one after the other. */
  lemma {:induction false} Walk(s: Settings, dist: Metric, run: seq<Action>, w: World, pre: seq<Instr>, rest: seq<Instr>)
      returns (more: seq<Action>, v: World)
    requires IsGenuine(s, dist, run) && After(s, run) == At(w, Running(pre + rest, [], Nothing))
    requires "f" in w.t.fences && w.ticks == map[] && forall i :: i in pre ==> Plain(i)
    ensures IsGenuine(s, dist, more) && After(s, more) == At(v, Running(rest, [], Nothing)) && Unmoved(w, v)
    decreases |pre|
  {
    if |pre| == 0 {
      assert pre + rest == rest;
      more, v := run, w;
    } else {
      var todo := [Last(pre)] + rest;
      hide *;
      LastPlain(pre, rest);
      var u;
      more, u := Walk(s, dist, run, w, Front(pre), todo);
      UnmovedTick(w, u);
      more := More(s, dist, more, Step(u.nextTick));
      v := PlainStep(s, u, todo);
      UnmovedBoth(w, u, v);
    }
  }
}
