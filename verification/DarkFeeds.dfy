/** Dark feeds in every run of `Lifecycle`: a scarcity watch never fires on a
    feed that its tick found dark, however other ticks and calls interleave
    (`internal/poll/poll.go`, `internal/store/nearest.go`). */
module DarkFeeds {
  import opened Base
  import opened Entur
  import opened Strings
  import opened Schema
  import opened Poll
  import opened Plan
  import opened Isolation
  import opened Evaluation
  import opened Lifecycle

  // ---------------------------------------------------------------------
  // Where a tick's dark feeds come from
  // ---------------------------------------------------------------------

  /** The next call of the tick is the health check of the fence. */
  ghost predicate AboutToCheck(w: World, k: nat, now: int, fence: string) {
    && k in w.ticks && w.ticks[k].now == now
    && w.ticks[k].stage.Running? && w.ticks[k].stage.pending == Nothing
    && |w.ticks[k].stage.todo| > 0 && w.ticks[k].stage.todo[0] == Health(fence)
  }

  /** The health check that the tick made of the fence found these feeds dark. */
  ghost predicate FoundAt(s: Settings, run: seq<Action>, k: nat, now: int, fence: string, dark: seq<string>, i: nat) {
    && i < |run| && run[i] == Step(k) && AboutToCheck(After(s, run[..i]), k, now, fence)
    && dark == Sorted(DarkOperators(After(s, run[..i]).t.readings, fence, now, 0))
  }

  ghost predicate Found(s: Settings, run: seq<Action>, k: nat, now: int, fence: string, dark: seq<string>) {
    exists i: nat :: FoundAt(s, run, k, now, fence, dark, i)
  }

  lemma FoundLater(s: Settings, run: seq<Action>, a: Action, k: nat, now: int, fence: string, dark: seq<string>)
    requires Found(s, run, k, now, fence, dark)
    ensures Found(s, run + [a], k, now, fence, dark)
  {
    hide After, AboutToCheck;
    var i: nat :| FoundAt(s, run, k, now, fence, dark, i);
    assert (run + [a])[..i] == run[..i] && (run + [a])[i] == run[i];
    assert FoundAt(s, run + [a], k, now, fence, dark, i);
  }

  lemma FoundNow(s: Settings, run: seq<Action>, k: nat, now: int, fence: string)
    requires AboutToCheck(After(s, run), k, now, fence)
    ensures Found(s, run + [Step(k)], k, now, fence, Sorted(DarkOperators(After(s, run).t.readings, fence, now, 0)))
  {
    hide After, DarkOperators, AboutToCheck;
    assert (run + [Step(k)])[..|run|] == run;
    assert FoundAt(s, run + [Step(k)], k, now, fence, Sorted(DarkOperators(After(s, run).t.readings, fence, now, 0)), |run|);
  }

  /** Before place `j` there is no health check. */
  ghost predicate NoneBefore(todo: seq<Instr>, j: nat) {
    forall m :: 0 <= m < j && m < |todo| ==> !todo[m].Health?
  }

  /** Every watch still to be evaluated will have its fence checked first, or the
      tick's dark feeds are those found for its fence. */
  ghost predicate Watched(s: Settings, run: seq<Action>, k: nat, now: int, todo: seq<Instr>, dark: seq<string>) {
    forall j :: 0 <= j < |todo| && todo[j].Evaluate? ==>
      CheckedAt(todo, j) || (NoneBefore(todo, j) && Found(s, run, k, now, todo[j].watch.fenceId, dark))
  }

  ghost predicate AllWatched(s: Settings, run: seq<Action>, w: World) {
    forall k :: k in w.ticks && w.ticks[k].stage.Running? ==>
      Watched(s, run, k, w.ticks[k].now, w.ticks[k].stage.todo, w.ticks[k].stage.dark)
  }

  lemma WatchedLater(s: Settings, run: seq<Action>, a: Action, k: nat, now: int, todo: seq<Instr>, dark: seq<string>)
    requires Watched(s, run, k, now, todo, dark)
    ensures Watched(s, run + [a], k, now, todo, dark)
  {
    hide CheckedAt, NoneBefore, Found;
    forall j | 0 <= j < |todo| && todo[j].Evaluate? && !CheckedAt(todo, j)
      ensures Found(s, run + [a], k, now, todo[j].watch.fenceId, dark)
    {
      FoundLater(s, run, a, k, now, todo[j].watch.fenceId, dark);
    }
  }

  lemma CheckedRest(todo: seq<Instr>, j: nat)
    requires |todo| > 0 && j < |todo| - 1 && CheckedAt(todo, j + 1)
    ensures CheckedAt(todo[1..], j) || (todo[0] == Health(todo[j + 1].watch.fenceId) && NoneBefore(todo[1..], j))
  {
    var rest := todo[1..];
    var h :| 0 <= h < j + 1 && todo[h] == Health(todo[j + 1].watch.fenceId) && forall m :: h < m < j + 1 ==> !todo[m].Health?;
    assert forall m :: 0 <= m < |rest| ==> rest[m] == todo[m + 1];
    if h > 0 {
      assert rest[h - 1] == todo[h];
    }
  }

  lemma NoneBeforeRest(todo: seq<Instr>, j: nat)
    requires |todo| > 0 && NoneBefore(todo, j + 1)
    ensures NoneBefore(todo[1..], j) && !todo[0].Health?
  {
    assert forall m :: 0 <= m < |todo[1..]| ==> todo[1..][m] == todo[m + 1];
  }

  /** A step over anything but a health check leaves the dark feeds standing. */
  lemma WatchedRest(s: Settings, run: seq<Action>, k: nat, now: int, todo: seq<Instr>, dark: seq<string>)
    requires |todo| > 0 && !todo[0].Health? && Watched(s, run, k, now, todo, dark)
    ensures Watched(s, run, k, now, todo[1..], dark)
  {
    hide CheckedAt, NoneBefore, Found;
    forall j | 0 <= j < |todo[1..]| && todo[1..][j].Evaluate?
      ensures CheckedAt(todo[1..], j) || (NoneBefore(todo[1..], j) && Found(s, run, k, now, todo[1..][j].watch.fenceId, dark))
    {
      assert todo[1..][j] == todo[j + 1];
      if CheckedAt(todo, j + 1) {
        CheckedRest(todo, j);
      } else {
        NoneBeforeRest(todo, j);
      }
    }
  }

  /** A health check renews them. */
  lemma WatchedAfterCheck(s: Settings, run: seq<Action>, k: nat, now: int, todo: seq<Instr>, was: seq<string>, fence: string)
    requires |todo| > 0 && todo[0] == Health(fence) && Watched(s, run, k, now, todo, was)
    requires AboutToCheck(After(s, run), k, now, fence)
    ensures Watched(s, run + [Step(k)], k, now, todo[1..],
                    Sorted(DarkOperators(After(s, run).t.readings, fence, now, 0)))
  {
    hide CheckedAt, NoneBefore, Found, After, DarkOperators, AboutToCheck;
    FoundNow(s, run, k, now, fence);
    forall j | 0 <= j < |todo[1..]| && todo[1..][j].Evaluate?
      ensures CheckedAt(todo[1..], j) || (NoneBefore(todo[1..], j) && todo[1..][j].watch.fenceId == fence)
    {
      assert todo[1..][j] == todo[j + 1];
      if CheckedAt(todo, j + 1) {
        CheckedRest(todo, j);
      } else {
        NoneBeforeRest(todo, j);
      }
    }
  }

  lemma WatchedFromStart(s: Settings, run: seq<Action>, k: nat, now: int, plan: seq<Instr>, dark: seq<string>)
    requires Checked(plan)
    ensures Watched(s, run, k, now, plan, dark)
  {
    hide CheckedAt, Found;
  }

  // ---------------------------------------------------------------------
  // Steps
  // ---------------------------------------------------------------------

  lemma OnlyChecksChangeDark(s: Settings, now: int, p: Progress, i: Instr)
    requires !i.Evaluate?
    ensures Exec(s, now, p, i).dark
            == if i.Health? && !p.failed then Sorted(DarkOperators(p.t.readings, i.fence, now, 0)) else p.dark
  {
    hide DarkOperators, Sorted, FilterMap, SightAll, OpenStints;
  }

  lemma AdvanceWatched(s: Settings, run: seq<Action>, w: World, k: nat, now: int, todo: seq<Instr>, dark: seq<string>)
    requires w == After(s, run) && k in w.ticks && w.ticks[k] == Frame(now, Running(todo, dark, Nothing))
    requires Watched(s, run, k, now, todo, dark)
    ensures var v := Advance(s, w, k, now, todo, dark);
            k in v.ticks ==>
              && v.ticks[k].now == now && v.ticks[k].stage.Running?
              && Watched(s, run + [Step(k)], k, now, v.ticks[k].stage.todo, v.ticks[k].stage.dark)
  {
    hide After, Watched, Exec, Judge, MarkFired;
    if |todo| > 0 {
      if todo[0].Health? {
        OnlyChecksChangeDark(s, now, Progress(w.t, map[], dark, NO_REPORT, [], false), todo[0]);
        WatchedAfterCheck(s, run, k, now, todo, dark, todo[0].fence);
      } else {
        WatchedRest(s, run, k, now, todo, dark);
        WatchedLater(s, run, Step(k), k, now, todo[1..], dark);
        if !todo[0].Evaluate? {
          OnlyChecksChangeDark(s, now, Progress(w.t, map[], dark, NO_REPORT, [], false), todo[0]);
        }
      }
    }
  }

  /** Only the tick that steps changes its frame. */
  lemma StepElsewhere(s: Settings, w: World, k: nat)
    requires k in w.ticks
    ensures var v := StepTick(s, w, k, w.ticks[k]);
            && (forall j :: j in v.ticks && j != k ==> j in w.ticks && v.ticks[j] == w.ticks[j])
            && v.nextTick == w.nextTick
  {
    hide Exec, Judge, MarkFired, RecordEvent;
  }

  lemma StepWatched(s: Settings, run: seq<Action>, k: nat)
    requires AllWatched(s, run, After(s, run)) && k in After(s, run).ticks
    ensures AllWatched(s, run + [Step(k)], StepTick(s, After(s, run), k, After(s, run).ticks[k]))
  {
    hide After, Watched, Advance;
    var w := After(s, run);
    var v := StepTick(s, w, k, w.ticks[k]);
    StepElsewhere(s, w, k);
    forall j | j in v.ticks && v.ticks[j].stage.Running?
      ensures Watched(s, run + [Step(k)], j, v.ticks[j].now, v.ticks[j].stage.todo, v.ticks[j].stage.dark)
    {
      if j != k {
        WatchedLater(s, run, Step(k), j, w.ticks[j].now, w.ticks[j].stage.todo, w.ticks[j].stage.dark);
      } else {
        match w.ticks[k]
        case Frame(now, Running(todo, dark, pending)) =>
          WatchedLater(s, run, Step(k), k, now, todo, dark);
          if pending == Nothing {
            AdvanceWatched(s, run, w, k, now, todo, dark);
          }
        case _ =>
      }
    }
  }

  lemma NextWatched(s: Settings, run: seq<Action>, a: Action)
    requires AllWatched(s, run, After(s, run))
    ensures AllWatched(s, run + [a], Next(s, After(s, run), a))
  {
    hide After, Watched, StepTick, IsFenceList, IsArmedList, Acceptable, CreateWatch, DeleteFence, SetState, Checked, OncePerWatch;
    var w := After(s, run);
    var v := Next(s, w, a);
    if a.Step? && a.tick in w.ticks {
      StepWatched(s, run, a.tick);
    } else {
      forall j | j in v.ticks && v.ticks[j].stage.Running?
        ensures Watched(s, run + [a], j, v.ticks[j].now, v.ticks[j].stage.todo, v.ticks[j].stage.dark)
      {
        if j in w.ticks && v.ticks[j] == w.ticks[j] {
          WatchedLater(s, run, a, j, w.ticks[j].now, w.ticks[j].stage.todo, w.ticks[j].stage.dark);
        } else {
          WatchedFromStart(s, run + [a], j, v.ticks[j].now, v.ticks[j].stage.todo, v.ticks[j].stage.dark);
        }
      }
    }
  }

  lemma {:induction false} EveryRunIsWatched(s: Settings, run: seq<Action>)
    ensures AllWatched(s, run, After(s, run))
  {
    hide Next, Watched;
    if |run| > 0 {
      hide AllWatched;
      EveryRunIsWatched(s, Front(run));
      NextWatched(s, Front(run), Last(run));
      assert run == Front(run) + [Last(run)];
    }
  }

  // ---------------------------------------------------------------------
  // Fires
  // ---------------------------------------------------------------------

  /** Fires are never taken back. */
  lemma FiresGrow(s: Settings, w: World, a: Action, f: Firing)
    requires f in w.fires
    ensures f in Next(s, w, a).fires
  {
    hide Exec, Judge, MarkFired, RecordEvent, Fits, IsFenceList, IsArmedList, Acceptable, CreateWatch, DeleteFence, SetState;
  }

  lemma {:induction false} FiresStay(s: Settings, run: seq<Action>, i: nat, f: Firing)
    requires i <= |run| && f in After(s, run[..i]).fires
    ensures f in After(s, run).fires
  {
    hide Next;
    if i < |run| {
      assert run[..i] == Front(run)[..i];
      FiresStay(s, Front(run), i, f);
      FiresGrow(s, After(s, Front(run)), Last(run), f);
    } else {
      assert run[..i] == run;
    }
  }

  /** Step `i` of the run is the health check that the tick of a fire made of the
      fence of its watch; it came before the fire, and found no feed the watch
      depends on dark. */
  ghost predicate CheckedFor(s: Settings, run: seq<Action>, f: Firing, i: nat) {
    && i < |run| && run[i] == Step(f.tick)
    && var w := After(s, run[..i]);
       && AboutToCheck(w, f.tick, f.now, f.found.fenceId)
       && f !in w.fires
       && NoneDark(f.found, DarkOperators(w.t.readings, f.found.fenceId, f.now, 0))
  }

  ghost predicate FoundNoneDark(s: Settings, run: seq<Action>, f: Firing) {
    exists i: nat :: CheckedFor(s, run, f, i)
  }

  lemma FoundNoneDarkLater(s: Settings, run: seq<Action>, a: Action, f: Firing)
    requires FoundNoneDark(s, run, f)
    ensures FoundNoneDark(s, run + [a], f)
  {
    hide After, NoneDark, DarkOperators, AboutToCheck;
    var i: nat :| CheckedFor(s, run, f, i);
    assert (run + [a])[..i] == run[..i] && (run + [a])[i] == run[i];
    assert CheckedFor(s, run + [a], f, i);
  }

  lemma HitFoundNoneDark(s: Settings, run: seq<Action>, k: nat, now: int, w: Watch, inside: seq<Vehicle>, dark: seq<string>,
                         found: Watch)
    requires Found(s, run, k, now, w.fenceId, dark) && Judge(w, inside, dark).Hit?
    requires Stem(found) == Stem(w) && w.kind == Scarcity
    requires Firing(w.id, k, now, found) !in After(s, run).fires
    ensures FoundNoneDark(s, run, Firing(w.id, k, now, found))
  {
    var f := Firing(w.id, k, now, found);
    assert found.fenceId == w.fenceId && found.operatorKeys == w.operatorKeys;
    hide After, DarkOperators, Judge, AboutToCheck;
    var i: nat :| FoundAt(s, run, k, now, w.fenceId, dark, i);
    JudgedBySet(w, inside, DarkOperators(After(s, run[..i]).t.readings, w.fenceId, now, 0));
    if f in After(s, run[..i]).fires {
      FiresStay(s, run, i, f);
    }
    assert CheckedFor(s, run, f, i);
  }

  /** The one step that fires. */
  lemma StepFires(s: Settings, w: World, k: nat)
    requires Inv(w) && k in w.ticks && StepTick(s, w, k, w.ticks[k]).fires != w.fires
    ensures var v := StepTick(s, w, k, w.ticks[k]);
            && w.ticks[k].stage.Running?
            && var todo := w.ticks[k].stage.todo;
            && |todo| > 0 && todo[0].Evaluate? && Judge(todo[0].watch, todo[0].inside, w.ticks[k].stage.dark).Hit?
            && |v.fires| == |w.fires| + 1 && v.fires == w.fires + [Last(v.fires)]
            && Last(v.fires) == Firing(todo[0].watch.id, k, w.ticks[k].now, Last(v.fires).found)
            && Stem(Last(v.fires).found) == Stem(todo[0].watch)
  {
    hide Exec, Judge, RecordEvent, Fires, Logs, PendingOk, HasFired, OncePerWatch;
    assert FrameOk(w, k, w.ticks[k]);
    var todo := w.ticks[k].stage.todo;
    assert todo[0] in todo;
  }

  lemma NothingChecksTheFirst(todo: seq<Instr>)
    ensures !CheckedAt(todo, 0)
  {}

  lemma OnlyStepFires(s: Settings, w: World, a: Action)
    requires Next(s, w, a).fires != w.fires
    ensures a.Step? && a.tick in w.ticks && Next(s, w, a) == StepTick(s, w, a.tick, w.ticks[a.tick])
  {
    hide StepTick, Fits, IsFenceList, IsArmedList, Acceptable, CreateWatch, DeleteFence, SetState;
  }

  lemma NextFoundNoneDark(s: Settings, run: seq<Action>, a: Action, f: Firing)
    requires AllWatched(s, run, After(s, run)) && Inv(After(s, run))
    requires f in Next(s, After(s, run), a).fires && f.found.kind == Scarcity
    requires f in After(s, run).fires ==> FoundNoneDark(s, run, f)
    ensures FoundNoneDark(s, run + [a], f)
  {
    var w := After(s, run);
    if f in w.fires {
      FoundNoneDarkLater(s, run, a, f);
    } else {
      hide After, StepTick, Inv, FoundNoneDark, Judge, Found, CheckedAt, NoneBefore;
      OnlyStepFires(s, w, a);
      var k := a.tick;
      StepFires(s, w, k);
      var todo := w.ticks[k].stage.todo;
      NothingChecksTheFirst(todo);
      HitFoundNoneDark(s, run, k, w.ticks[k].now, todo[0].watch, todo[0].inside, w.ticks[k].stage.dark, f.found);
      FoundNoneDarkLater(s, run, a, f);
    }
  }

  lemma {:induction false} EveryFireWasChecked(s: Settings, run: seq<Action>, f: Firing)
    requires f in After(s, run).fires && f.found.kind == Scarcity
    ensures FoundNoneDark(s, run, f)
  {
    hide Next, AllWatched, Inv, FoundNoneDark;
    assert |run| > 0;
    var before, a := Front(run), Last(run);
    assert run == before + [a];
    assert After(s, run) == Next(s, After(s, before), a);
    hide After;
    EveryRunIsWatched(s, before);
    EveryRunKeeps(s, before);
    if f in After(s, before).fires {
      EveryFireWasChecked(s, before, f);
    }
    NextFoundNoneDark(s, before, a, f);
  }

  /** In every run, however ticks and calls interleave, each fire of a scarcity
      watch came after the health check that its own tick made of its fence, at step
      `i`, and that check found no feed the watch depends on dark. */
  lemma EveryScarcityFireFoundNoneDark(s: Settings, run: seq<Action>, f: Firing) returns (i: nat)
    requires f in After(s, run).fires && f.found.kind == Scarcity
    ensures i < |run| && run[i] == Step(f.tick)
    ensures AboutToCheck(After(s, run[..i]), f.tick, f.now, f.found.fenceId)
    ensures f !in After(s, run[..i]).fires
    ensures NoneDark(f.found, DarkOperators(After(s, run[..i]).t.readings, f.found.fenceId, f.now, 0))
  {
    hide After, AboutToCheck, NoneDark, DarkOperators;
    EveryFireWasChecked(s, run, f);
    i :| CheckedFor(s, run, f, i);
  }

  // ---------------------------------------------------------------------
  // The clock
  // ---------------------------------------------------------------------

  /** No reading is later than the clock, and no tick under way began later. */
  ghost predicate OnTime(w: World, clock: int) {
    && (forall fence :: NoneLater(w.t.readings, fence, clock))
    && forall k :: k in w.ticks ==> w.ticks[k].now <= clock
  }

  lemma MarkFiredKeepsReadings(t: Tables, id: string, at: int)
    ensures MarkFired(t, id, at).Written? ==> MarkFired(t, id, at).t.readings == t.readings
  {}

  lemma AdvanceKeepsTime(s: Settings, w: World, k: nat, now: int, todo: seq<Instr>, dark: seq<string>, clock: int)
    requires OnTime(w, clock) && k in w.ticks && now <= clock
    ensures OnTime(Advance(s, w, k, now, todo, dark), clock)
  {
    hide Exec, Judge, MarkFired, NoneLater;
    if |todo| > 0 {
      if todo[0].Evaluate? {
        MarkFiredKeepsReadings(w.t, todo[0].watch.id, now);
      } else {
        var p := Progress(w.t, map[], dark, NO_REPORT, [], false);
        forall fence
          ensures NoneLater(Exec(s, now, p, todo[0]).t.readings, fence, clock)
        {
          CallKeepsTime(s, now, p, todo[0], fence, clock);
        }
      }
    }
  }

  lemma StepKeepsTime(s: Settings, w: World, k: nat, clock: int)
    requires OnTime(w, clock) && k in w.ticks
    ensures OnTime(StepTick(s, w, k, w.ticks[k]), clock)
  {
    hide Advance, NoneLater;
    match w.ticks[k]
    case Frame(now, Running(todo, dark, Nothing)) => AdvanceKeepsTime(s, w, k, now, todo, dark, clock);
    case _ =>
  }

  lemma DeleteKeepsTime(t: Tables, fk: bool, id: string, clock: int)
    requires forall fence :: NoneLater(t.readings, fence, clock)
    ensures DeleteFence(t, fk, id).Deleted? ==> forall fence :: NoneLater(DeleteFence(t, fk, id).t.readings, fence, clock)
  {
    hide HasArmed, HasEvents;
    forall fence
      ensures NoneLater(ReadingsElsewhere(t.readings, id), fence, clock)
    {
      assert NoneLater(t.readings, fence, clock);
    }
  }

  lemma NextKeepsTime(s: Settings, w: World, a: Action, clock: int)
    requires OnTime(w, clock) && (a.Begin? ==> a.at <= clock)
    ensures OnTime(Next(s, w, a), clock)
  {
    hide StepTick, Fits, IsFenceList, IsArmedList, Acceptable, HasArmed, HasEvents;
    match a
    case Step(k) =>
      if k in w.ticks {
        hide OnTime;
        StepKeepsTime(s, w, k, clock);
      }
    case Delete(id) => DeleteKeepsTime(w.t, s.fk, id, clock);
    case _ => hide NoneLater;
  }

  /** In every run whose ticks began no later than the clock, no reading is later
      than it; so with a clock that does not go back, a tick that begins finds none
      ahead of it, however many others are under way. */
  lemma {:induction false} EveryRunIsOnTime(s: Settings, run: seq<Action>, clock: int)
    requires forall a :: a in run && a.Begin? ==> a.at <= clock
    ensures OnTime(After(s, run), clock)
  {
    hide Next;
    if |run| > 0 {
      assert Last(run) in run && forall a :: a in Front(run) ==> a in run;
      hide OnTime;
      EveryRunIsOnTime(s, Front(run), clock);
      NextKeepsTime(s, After(s, Front(run)), Last(run), clock);
    }
  }
}
