/** Concrete runs of `Lifecycle` that show what cannot be promised; their ticks
    decide what a poller would. */
module Witness {
  import opened Base
  import opened Geo
  import opened Entur
  import opened Strings
  import opened Schema
  import opened Poll
  import opened Plan
  import opened Api
  import opened Integrity
  import opened Lifecycle
  import opened Safety
  import opened Genuine

  /** Tell me when none are left; the fence stays empty throughout. */
  function NoneLeft(repeats: bool): Request {
    Request("phone", Scarcity, [], 0, 0, 60, repeats)
  }

  function WatchFor(repeats: bool): Watch {
    WatchOf(NoneLeft(repeats), "f", [], "w", 0)
  }

  // ---------------------------------------------------------------------
  // Arming
  // ---------------------------------------------------------------------

  /** A fence and a call that has resolved it. */
  function Resolved(repeats: bool): World {
    START.(t := EMPTY.(fences := map["f" := HERE]), calls := map[0 := Call(NoneLeft(repeats), HERE, true)])
  }

  function Waiting(repeats: bool): World {
    Resolved(repeats).(t := Resolved(repeats).t.(watches := map["w" := WatchFor(repeats)]), calls := map[],
                       issued := map["w" := WatchFor(repeats)])
  }

  lemma Resolves(s: Settings, repeats: bool)
    ensures Next(s, Next(s, START, Save(HERE)), ResolveNamed(0, NoneLeft(repeats), "f")) == Resolved(repeats)
  {}

  lemma Arms(s: Settings, repeats: bool)
    ensures Next(s, Resolved(repeats), Arm(0, "w", [], 0)) == Waiting(repeats)
  {
    assert Next(s, Resolved(repeats), Arm(0, "w", [], 0)).calls == map[];
  }

  lemma ResolvedRun(s: Settings, dist: Metric, repeats: bool) returns (run: seq<Action>)
    ensures IsGenuine(s, dist, run) && After(s, run) == Resolved(repeats)
  {
    hide *;
    NoRun(s, dist);
    run := More(s, dist, [], Save(HERE));
    run := More(s, dist, run, ResolveNamed(0, NoneLeft(repeats), "f"));
    Resolves(s, repeats);
  }

  lemma WaitingRun(s: Settings, dist: Metric, repeats: bool) returns (run: seq<Action>)
    ensures IsGenuine(s, dist, run) && After(s, run) == Waiting(repeats)
  {
    hide *;
    run := ResolvedRun(s, dist, repeats);
    Arms(s, repeats);
    run := More(s, dist, run, Arm(0, "w", [], 0));
  }

  /** Without foreign keys, a fence deleted between resolving it and storing the
      watch leaves an armed watch on no fence. */
  lemma ArmedWithoutFence(s: Settings, dist: Metric) returns (run: seq<Action>)
    requires !s.fk
    ensures IsGenuine(s, dist, run)
    ensures IsArmed(After(s, run).t, "w") && After(s, run).t.watches["w"].fenceId !in After(s, run).t.fences
    ensures "w" in After(s, run).undermined
  {
    run := ResolvedRun(s, dist, false);
    hide After, IsGenuine;
    var w1 := Next(s, Resolved(false), Delete("f"));
    assert w1.t.fences == map[] && w1.calls == map[0 := Call(NoneLeft(false), HERE, false)];
    assert w1.t.watches == map[] && w1.issued == map[];
    run := More(s, dist, run, Delete("f"));
    run := More(s, dist, run, Arm(0, "w", [], 0));
  }

  // ---------------------------------------------------------------------
  // A tick that fires
  // ---------------------------------------------------------------------

  /** Nothing under way, and one armed watch for when none are left. */
  ghost predicate Ready(w: World, row: Watch) {
    && w.t.fences == map["f" := HERE] && w.t.watches == map["w" := row] && w.t.readings == map[] && w.ticks == map[]
    && row.id == "w" && row.fenceId == "f" && row.kind == Scarcity && row.operatorKeys == [] && row.threshold == 0
    && row.state == Armed && row.expiresAt == 60
  }

  /** The last calls of its tick. */
  function Ending(row: Watch): seq<Instr> {
    [Health("f"), Evaluate(HERE, row, [])]
  }

  function Tell(row: Watch): Notification {
    Message(0, HERE, row, [], [])
  }

  function FiredRow(row: Watch): Watch {
    row.(firedAt := Some(0), state := if row.repeats then Armed else Fired)
  }

  function AfterMark(w: World, row: Watch): World {
    w.(t := w.t.(watches := map["w" := FiredRow(row)]), fires := w.fires + [Firing("w", w.nextTick, 0, row)])
  }

  function AfterRecord(w: World, row: Watch): World {
    var v := AfterMark(w, row);
    v.(t := v.t.(events := v.t.events + [Event("w", 0, Tell(row))]), recorded := v.recorded + [Mark("w", w.nextTick)])
  }

  function AfterSend(s: Settings, w: World, row: Watch): World {
    var v := AfterRecord(w, row);
    v.(sent := if s.sink then v.sent + [Mark("w", w.nextTick)] else v.sent)
  }

  lemma Begins(s: Settings, w: World, row: Watch)
    requires Ready(w, row)
    ensures Next(s, w, Begin(0)) == At(w, Begun)
  {
    assert ExpireWatches(w.t, 0).watches == w.t.watches;
  }

  lemma Lists(w: World, row: Watch)
    requires Ready(w, row)
    ensures IsFenceList(w.t, [HERE]) && IsArmedList(w.t, 0, [row])
  {}

  lemma Snapshots(s: Settings, w: World, row: Watch)
    requires Ready(w, row)
    ensures Next(s, At(w, Begun), TakeFences(w.nextTick, [HERE])) == At(w, ReadFences([HERE]))
    ensures Next(s, At(w, ReadFences([HERE])), TakeWatches(w.nextTick, [row])) == At(w, ReadWatches([HERE], [row]))
  {
    Lists(w, row);
    hide IsFenceList, IsArmedList, Ready;
  }

  lemma NoReadingsNoDark(now: int)
    ensures Sorted(DarkOperators(map[], "f", now, 0)) == []
  {
    var dark := DarkOperators(map[], "f", now, 0);
    assert dark == {};
    IncreasingIsUnique(Sorted(dark), []);
  }

  lemma Checks(s: Settings, w: World, row: Watch)
    requires Ready(w, row)
    ensures Next(s, At(w, Running(Ending(row), [], Nothing)), Step(w.nextTick))
            == At(w, Running([Evaluate(HERE, row, [])], [], Nothing))
  {
    NoReadingsNoDark(0);
    hide DarkOperators, Sorted;
    assert Ending(row)[1..] == [Evaluate(HERE, row, [])];
  }

  lemma IsDueNow(row: Watch)
    requires row.kind == Scarcity && row.operatorKeys == [] && row.threshold == 0
    ensures Judge(row, [], []) == Hit([])
  {}

  lemma Marks(s: Settings, w: World, row: Watch)
    requires Ready(w, row)
    ensures Next(s, At(w, Running([Evaluate(HERE, row, [])], [], Nothing)), Step(w.nextTick))
            == At(AfterMark(w, row), Running([], [], Marked(Tell(row))))
  {
    assert [Evaluate(HERE, row, [])][1..] == [];
    IsDueNow(row);
    assert MarkFired(w.t, "w", 0) == Written(w.t.(watches := map["w" := FiredRow(row)]));
    hide Judge, MarkFired;
  }

  lemma Records(s: Settings, w: World, row: Watch)
    requires Ready(w, row)
    ensures Next(s, At(AfterMark(w, row), Running([], [], Marked(Tell(row)))), Step(w.nextTick))
            == At(AfterRecord(w, row), Running([], [], Recorded(Tell(row))))
  {}

  lemma Sends(s: Settings, w: World, row: Watch)
    requires Ready(w, row)
    ensures Next(s, At(AfterRecord(w, row), Running([], [], Recorded(Tell(row)))), Step(w.nextTick))
            == At(AfterSend(s, w, row), Running([], [], Nothing))
  {}

  lemma Ends(s: Settings, w: World)
    requires w.ticks == map[]
    ensures Next(s, At(w, Running([], [], Nothing)), Step(w.nextTick)) == w.(nextTick := w.nextTick + 1)
  {
    assert Next(s, At(w, Running([], [], Nothing)), Step(w.nextTick)).ticks == map[];
  }

  lemma ReadyStays(v: World, w: World, row: Watch)
    requires Ready(v, row) && Unmoved(v, w)
    ensures Ready(w, row) && w.nextTick == v.nextTick
  {}

  lemma Evaluations(row: Watch)
    requires row.fenceId == "f"
    ensures [Health("f")] + FilterMap([row], EvaluateFor(HERE, [])) == Ending(row)
  {
    assert Front([row]) == [];
    assert FilterMap([row], EvaluateFor(HERE, [])) == [] + [Evaluate(HERE, row, [])];
  }

  lemma Decides(s: Settings, w: World, row: Watch, plan: seq<Instr>)
    requires Fits([HERE], [row], plan)
    ensures Next(s, At(w, ReadWatches([HERE], [row])), Decide(w.nextTick, plan)) == At(w, Running(plan, [], Nothing))
  {
    hide Fits;
  }

  lemma AtNext(w: World, stage: Stage)
    ensures var v := At(w, stage);
            v.nextTick == w.nextTick + 1 && v.t == w.t && w.nextTick in v.ticks && v.ticks[w.nextTick] == Frame(0, stage)
  {}

  /** A tick begins, reads its snapshot and decides what the poller would. */
  lemma TickDecides(s: Settings, dist: Metric, run: seq<Action>, w: World, row: Watch) returns (more: seq<Action>, pre: seq<Instr>)
    requires IsGenuine(s, dist, run) && After(s, run) == w && Ready(w, row)
    ensures IsGenuine(s, dist, more)
    ensures After(s, more) == At(w, Running(pre + Ending(row), [], Nothing))
    ensures forall i :: i in pre ==> Plain(i)
  {
    var k := w.nextTick;
    assert row.fenceId == "f";
    hide *;
    Begins(s, w, row);
    more := More(s, dist, run, Begin(0));
    Snapshots(s, w, row);
    more := More(s, dist, more, TakeFences(k, [HERE]));
    more := More(s, dist, more, TakeWatches(k, [row]));
    AtNext(w, ReadWatches([HERE], [row]));
    Lists(w, row);
    pre := EmptyFencePlan(s, dist, w.t, [row], ScheduleAfter(s, more));
    Evaluations(row);
    Decides(s, w, row, pre + Ending(row));
    more := Decided(s, dist, more, k, pre + Ending(row));
  }

  lemma MarkNext(s: Settings, v: World, row: Watch)
    requires Ready(v, row)
    ensures AfterMark(v, row).nextTick == v.nextTick && AfterSend(s, v, row).nextTick == v.nextTick
    ensures AfterMark(v, row).ticks == map[] && AfterSend(s, v, row).ticks == map[]
  {}

  /** A tick begins, reads, decides, and makes its calls up to the mark. */
  lemma TickMarks(s: Settings, dist: Metric, run: seq<Action>, w: World, row: Watch) returns (marked: seq<Action>, v: World)
    requires IsGenuine(s, dist, run) && After(s, run) == w && Ready(w, row)
    ensures IsGenuine(s, dist, marked) && Unmoved(w, v)
    ensures After(s, marked) == At(AfterMark(v, row), Running([], [], Marked(Tell(row))))
  {
    assert "f" in w.t.fences && w.ticks == map[];
    hide *;
    var pre;
    marked, pre := TickDecides(s, dist, run, w, row);
    marked, v := Walk(s, dist, marked, w, pre, Ending(row));
    ReadyStays(w, v, row);
    Checks(s, v, row);
    marked := More(s, dist, marked, Step(v.nextTick));
    Marks(s, v, row);
    marked := More(s, dist, marked, Step(v.nextTick));
  }

  /** A whole tick: up to the mark, and then it records, dispatches and ends. */
  lemma TickFires(s: Settings, dist: Metric, run: seq<Action>, w: World, row: Watch)
      returns (marked: seq<Action>, done: seq<Action>, v: World)
    requires IsGenuine(s, dist, run) && After(s, run) == w && Ready(w, row)
    ensures IsGenuine(s, dist, marked) && IsGenuine(s, dist, done) && Unmoved(w, v)
    ensures After(s, marked) == At(AfterMark(v, row), Running([], [], Marked(Tell(row))))
    ensures After(s, done) == AfterSend(s, v, row).(nextTick := w.nextTick + 1)
  {
    hide *;
    var k := w.nextTick;
    marked, v := TickMarks(s, dist, run, w, row);
    ReadyStays(w, v, row);
    MarkNext(s, v, row);
    Records(s, v, row);
    done := More(s, dist, marked, Step(k));
    Sends(s, v, row);
    done := More(s, dist, done, Step(k));
    Ends(s, AfterSend(s, v, row));
    done := More(s, dist, done, Step(k));
  }

  lemma WaitingIsReady(repeats: bool)
    ensures Ready(Waiting(repeats), WatchFor(repeats)) && Waiting(repeats).nextTick == 0
  {}

  /** A run in which a watch fires, and the same run with the tick gone through. */
  lemma FiredRun(s: Settings, dist: Metric, repeats: bool) returns (marked: seq<Action>, done: seq<Action>, v: World)
    ensures IsGenuine(s, dist, marked) && IsGenuine(s, dist, done) && Unmoved(Waiting(repeats), v)
    ensures After(s, marked) == At(AfterMark(v, WatchFor(repeats)), Running([], [], Marked(Tell(WatchFor(repeats)))))
    ensures After(s, done) == AfterSend(s, v, WatchFor(repeats)).(nextTick := 1)
  {
    hide *;
    WaitingIsReady(repeats);
    var run := WaitingRun(s, dist, repeats);
    marked, done, v := TickFires(s, dist, run, Waiting(repeats), WatchFor(repeats));
  }

  /** A fired watch can still be cancelled, and then no longer says it fired. */
  lemma FiredThenCancelled(s: Settings, dist: Metric) returns (run: seq<Action>)
    ensures IsGenuine(s, dist, run + [Cancel("w")])
    ensures "w" in After(s, run).t.watches && After(s, run).t.watches["w"].state == Fired
    ensures "w" in After(s, run + [Cancel("w")]).t.watches && After(s, run + [Cancel("w")]).t.watches["w"].state == Cancelled
  {
    var marked, v;
    marked, run, v := FiredRun(s, dist, false);
    hide After, IsGenuine;
    var more := More(s, dist, run, Cancel("w"));
  }

  lemma DeletionTakesAll(v: World)
    requires Unmoved(Waiting(false), v)
    ensures var d := DeleteFence(AfterMark(v, WatchFor(false)).t, true, "f");
            d.Deleted? && d.t.watches == map[] && d.t.events == []
  {}

  lemma Vanishes(s: Settings, v: World)
    requires s.fk && Unmoved(Waiting(false), v)
    ensures var w := At(AfterMark(v, WatchFor(false)), Running([], [], Marked(Tell(WatchFor(false)))));
            var x := Next(s, Next(s, w, Delete("f")), Step(0));
            x.ticks == map[] && |x.fires| == 1 && x.recorded == [] && x.sent == [] && x.t.events == []
  {
    DeletionTakesAll(v);
    hide DeleteFence;
    var w := At(AfterMark(v, WatchFor(false)), Running([], [], Marked(Tell(WatchFor(false)))));
    var gone := Next(s, w, Delete("f"));
    assert gone.ticks == w.ticks;
  }

  /** With foreign keys enforced, a fence deleted between `MarkFired` and
      `RecordEvent` takes the watch with it: the tick stops, and the fire is
      neither recorded nor dispatched. */
  lemma FireLostToDeletion(s: Settings, dist: Metric) returns (run: seq<Action>)
    requires s.fk
    ensures IsGenuine(s, dist, run)
    ensures var w := After(s, run);
            w.ticks == map[] && |w.fires| == 1 && w.recorded == [] && w.sent == [] && w.t.events == []
  {
    hide *;
    var done, v;
    run, done, v := FiredRun(s, dist, false);
    Vanishes(s, v);
    run := More(s, dist, run, Delete("f"));
    run := More(s, dist, run, Step(0));
  }

  lemma Refuses(s: Settings, v: World)
    requires s.fk && Unmoved(Waiting(false), v)
    ensures var w := AfterSend(s, v, WatchFor(false)).(nextTick := 1);
            && DeleteFence(w.t, s.fk, "f") == Violation && Next(s, w, Delete("f")) == w
            && forall id :: !IsArmed(w.t, id)
  {
    var w := AfterSend(s, v, WatchFor(false)).(nextTick := 1);
    assert w.t.events[0] in w.t.events && w.t.events[0].watchId == "w";
  }

  /** With foreign keys enforced, a fence whose watch produced an event cannot be
      deleted, though none of its watches is armed. */
  lemma DeletionRefusedForEvent(s: Settings, dist: Metric) returns (run: seq<Action>)
    requires s.fk
    ensures IsGenuine(s, dist, run)
    ensures DeleteFence(After(s, run).t, s.fk, "f") == Violation
    ensures forall id :: !IsArmed(After(s, run).t, id)
    ensures After(s, run + [Delete("f")]) == After(s, run)
  {
    hide *;
    var marked, v;
    marked, run, v := FiredRun(s, dist, false);
    AfterOne(s, run, Delete("f"));
    Refuses(s, v);
  }

  lemma ReadyAgain(s: Settings, v: World)
    requires Unmoved(Waiting(true), v)
    ensures Ready(AfterSend(s, v, WatchFor(true)).(nextTick := 1), FiredRow(WatchFor(true)))
    ensures AfterSend(s, v, WatchFor(true)).(nextTick := 1).nextTick == 1
  {}

  lemma FiredTwice(s: Settings, v: World, u: World)
    requires s.sink && Unmoved(Waiting(true), v)
    requires Unmoved(AfterSend(s, v, WatchFor(true)).(nextTick := 1), u)
    ensures var w := AfterSend(s, u, FiredRow(WatchFor(true))).(nextTick := 2);
            && w.sent == [Mark("w", 0), Mark("w", 1)] && w.recorded == w.sent
            && |w.fires| == 2 && w.fires[0].now == w.fires[1].now == 0
            && |w.t.events| == 2 && w.t.events[0].at == w.t.events[1].at == 0
  {}

  /** A repeating watch has no cooldown: two ticks of the same second fire, record
      and dispatch it. */
  lemma RepeatsAtOnce(s: Settings, dist: Metric) returns (run: seq<Action>)
    requires s.sink
    ensures IsGenuine(s, dist, run)
    ensures var w := After(s, run);
            && w.sent == [Mark("w", 0), Mark("w", 1)] && w.recorded == w.sent
            && |w.fires| == 2 && w.fires[0].now == w.fires[1].now == 0
            && |w.t.events| == 2 && w.t.events[0].at == w.t.events[1].at == 0
  {
    hide *;
    var marked, v, u;
    marked, run, v := FiredRun(s, dist, true);
    ReadyAgain(s, v);
    var w := AfterSend(s, v, WatchFor(true)).(nextTick := 1);
    marked, run, u := TickFires(s, dist, run, w, FiredRow(WatchFor(true)));
    FiredTwice(s, v, u);
  }

  // ---------------------------------------------------------------------
  // A row without its fence
  // ---------------------------------------------------------------------

  function Fenced(): World {
    START.(t := EMPTY.(fences := map["f" := HERE]))
  }

  lemma FencedStarts()
    ensures Fenced().nextTick == 0
  {}

  lemma FencedLists()
    ensures ExpireWatches(Fenced().t, 0) == Fenced().t
    ensures IsFenceList(Fenced().t, [HERE]) && IsArmedList(Fenced().t, 0, [])
  {
    assert ExpireWatches(Fenced().t, 0).watches == map[];
  }

  lemma FencedBegins(s: Settings)
    ensures Next(s, START, Save(HERE)) == Fenced()
    ensures Next(s, Fenced(), Begin(0)) == At(Fenced(), Begun)
  {
    FencedLists();
    hide ExpireWatches, Fits, IsFenceList, IsArmedList;
  }

  lemma FencedSnapshots(s: Settings)
    ensures Next(s, At(Fenced(), Begun), TakeFences(0, [HERE])) == At(Fenced(), ReadFences([HERE]))
    ensures Next(s, At(Fenced(), ReadFences([HERE])), TakeWatches(0, [])) == At(Fenced(), ReadWatches([HERE], []))
  {
    FencedLists();
    hide IsFenceList, IsArmedList, ExpireWatches, Fits;
  }

  lemma FencedDecides(s: Settings, plan: seq<Instr>)
    requires Fits([HERE], [], plan) && |plan| > 0 && plan[0] == Open(false)
    ensures Next(s, At(Fenced(), ReadWatches([HERE], [])), Decide(0, plan)) == At(Fenced(), Running(plan, [], Nothing))
    ensures Next(s, At(Fenced(), Running(plan, [], Nothing)), Step(0)) == At(Fenced(), Running(plan[1..], [], Nothing))
  {
    hide Fits;
  }

  lemma CountOrphaned(s: Settings, todo: seq<Instr>)
    requires !s.fk && |todo| > 0 && todo[0] == Sample("f", "ryde", 0)
    ensures var v := Next(s, Next(s, At(Fenced(), Running(todo, [], Nothing)), Delete("f")), Step(0));
            "f" !in v.t.fences && SampleKey("f", 0, "ryde") in v.t.samples && !Whole(v.t)
  {
    var gone := Next(s, At(Fenced(), Running(todo, [], Nothing)), Delete("f"));
    assert gone.t.fences == map[] && gone.ticks == At(Fenced(), Running(todo, [], Nothing)).ticks;
  }

  /** Without foreign keys a tick under way leaves a count for a fence deleted
      meanwhile. */
  lemma OrphanRowWithoutForeignKeys(s: Settings, dist: Metric) returns (run: seq<Action>)
    requires !s.fk
    ensures IsGenuine(s, dist, run)
    ensures var w := After(s, run);
            "f" !in w.t.fences && SampleKey("f", 0, "ryde") in w.t.samples && !Whole(w.t)
  {
    hide *;
    NoRun(s, dist);
    FencedBegins(s);
    run := More(s, dist, [], Save(HERE));
    run := More(s, dist, run, Begin(0));
    FencedSnapshots(s);
    run := More(s, dist, run, TakeFences(0, [HERE]));
    run := More(s, dist, run, TakeWatches(0, []));
    AtNext(Fenced(), ReadWatches([HERE], []));
    FencedStarts();
    FencedLists();
    var pre := EmptyFencePlan(s, dist, Fenced().t, [], ScheduleAfter(s, run));
    var plan := pre + ([Health("f")] + FilterMap([], EvaluateFor(HERE, [])));
    FencedDecides(s, plan);
    run := Decided(s, dist, run, 0, plan);
    run := More(s, dist, run, Step(0));
    CountOrphaned(s, plan[1..]);
    run := More(s, dist, run, Delete("f"));
    run := More(s, dist, run, Step(0));
  }
}
