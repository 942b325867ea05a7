/** What holds in every run of `Lifecycle`, however its steps interleave. */
module Safety {
  import opened Base
  import opened Geo
  import opened Entur
  import opened Schema
  import opened Poll
  import opened Plan
  import opened Api
  import opened Integrity
  import opened Lifecycle

  // ---------------------------------------------------------------------
  // At most once
  // ---------------------------------------------------------------------

  ghost predicate Repeats(w: World, id: string) {
    id in w.issued && w.issued[id].repeats
  }

  lemma TwoMarks(w: World, m: Mark, n: Mark)
    requires Fires(w) && Logs(w) && m in w.recorded && n in w.recorded && m != n && m.watch == n.watch
    ensures Repeats(w, m.watch)
  {
    hide Timely, FiredIsDisarmed;
    var f :| f in w.fires && f.watch == m.watch && f.tick == m.tick;
    var g :| g in w.fires && g.watch == n.watch && g.tick == n.tick;
    var i :| 0 <= i < |w.fires| && w.fires[i] == f;
    var j :| 0 <= j < |w.fires| && w.fires[j] == g;
    assert i < j || j < i;
  }

  /** In every interleaving, two successful `MarkFired` calls, two event rows or
      two dispatches of one watch mean that it repeats; so a watch that does not
      is fired, recorded and dispatched at most once. */
  lemma AtMostOnce(s: Settings, run: seq<Action>, i: nat, j: nat)
    ensures var w := After(s, run);
            && (i < j < |w.fires| && w.fires[i].watch == w.fires[j].watch ==> Repeats(w, w.fires[i].watch))
            && (i < j < |w.t.events| && w.t.events[i].watchId == w.t.events[j].watchId ==> Repeats(w, w.t.events[i].watchId))
            && (i < j < |w.sent| && w.sent[i].watch == w.sent[j].watch ==> Repeats(w, w.sent[i].watch))
  {
    var w := After(s, run);
    EveryRunKeeps(s, run);
    hide After, Frames, Stored, Timely;
    if i < j < |w.recorded| && w.recorded[i].watch == w.recorded[j].watch {
      TwoMarks(w, w.recorded[i], w.recorded[j]);
    }
    if i < j < |w.sent| && w.sent[i].watch == w.sent[j].watch {
      TwoMarks(w, w.sent[i], w.sent[j]);
    }
  }

  /** One tick fires, records and dispatches a watch at most once, repeating or
      not; what is dispatched was recorded, and what is recorded was fired. */
  lemma OncePerTick(s: Settings, run: seq<Action>)
    ensures var w := After(s, run);
            && (forall i, j :: 0 <= i < j < |w.fires| ==> w.fires[i].watch != w.fires[j].watch || w.fires[i].tick != w.fires[j].tick)
            && Distinct(w.recorded) && Distinct(w.sent)
            && (forall m :: m in w.sent ==> m in w.recorded)
            && (forall m :: m in w.recorded ==> exists f :: f in w.fires && f.watch == m.watch && f.tick == m.tick)
            && |w.t.events| == |w.recorded|
            && (forall i :: 0 <= i < |w.recorded| ==> w.t.events[i].watchId == w.recorded[i].watch)
  {
    EveryRunKeeps(s, run);
    hide After, Frames, Stored, Timely;
  }

  /** Every fire found its watch armed, in a second strictly before its expiry,
      exactly as it was created. */
  lemma EveryFireIsTimely(s: Settings, run: seq<Action>, f: Firing)
    requires f in After(s, run).fires
    ensures var w := After(s, run);
            && f.found.state == Armed
            && Unix(f.now) < f.found.expiresAt
            && f.watch in w.issued && f.found.(state := Armed, firedAt := None) == w.issued[f.watch]
  {
    EveryRunKeeps(s, run);
    hide After, Frames, Stored;
  }

  /** Every watch that is or was stored has a kind the poller knows, operators
      that exist, and at most six hours to live. */
  lemma EveryWatchIsSound(s: Settings, run: seq<Action>, id: string)
    requires id in After(s, run).t.watches
    ensures var w := After(s, run).t.watches[id];
            && w.id == id && (w.kind == Appearance || w.kind == Scarcity)
            && (forall k :: k in w.operatorKeys ==> Lookup(k).Some?)
            && 0 <= w.expiresAt - w.createdAt <= 21600
  {
    EveryRunKeeps(s, run);
    hide After, Frames, Fires, Logs;
  }

  // ---------------------------------------------------------------------
  // Leaving armed
  // ---------------------------------------------------------------------

  /** The rows of watches already issued only ever go down: none appears, none
      is armed again, none changes what it asks for. */
  ghost predicate Settles(w: World, v: World) {
    && (forall id :: id in w.issued ==> id in v.issued && v.issued[id] == w.issued[id])
    && (forall id :: id in w.issued && id in v.t.watches ==>
          id in w.t.watches && (v.t.watches[id].state == Armed ==> w.t.watches[id].state == Armed))
  }

  /** The same watches on the same fences, and none newly armed. */
  ghost predicate Touches(w: World, v: World) {
    && v.issued == w.issued && v.calls == w.calls && v.undermined == w.undermined
    && v.t.fences == w.t.fences
    && (v.t.watches == w.t.watches
        || exists id, at :: MarkFired(w.t, id, at).Written? && v.t.watches == MarkFired(w.t, id, at).t.watches)
  }

  lemma EvaluateTouches(s: Settings, w: World, k: nat, now: int, todo: seq<Instr>, dark: seq<string>)
    requires |todo| > 0 && todo[0].Evaluate?
    ensures Touches(w, EvaluateNext(s, w, k, now, todo, dark))
  {
    hide Judge, MarkFired;
    MarkFiredKeepsIds(w.t, todo[0].watch.id, now);
  }

  lemma AdvanceTouches(s: Settings, w: World, k: nat, now: int, todo: seq<Instr>, dark: seq<string>)
    ensures Touches(w, Advance(s, w, k, now, todo, dark))
  {
    hide Exec, EvaluateNext;
    if |todo| > 0 {
      if todo[0].Evaluate? {
        EvaluateTouches(s, w, k, now, todo, dark);
      } else {
        var p := Progress(w.t, map[], dark, NO_REPORT, [], false);
        HistoryIsTame(s, now, p, todo[0]);
        ExecKeepsFences(s, now, p, todo[0]);
      }
    }
  }

  /** One step of a tick touches the watches with at most one guarded update. */
  lemma StepTouches(s: Settings, w: World, k: nat)
    requires k in w.ticks
    ensures Touches(w, StepTick(s, w, k, w.ticks[k]))
  {
    hide Advance;
    match w.ticks[k]
    case Frame(now, Running(todo, dark, Nothing)) => AdvanceTouches(s, w, k, now, todo, dark);
    case _ =>
  }

  lemma StepSettles(s: Settings, w: World, k: nat)
    requires k in w.ticks
    ensures Settles(w, StepTick(s, w, k, w.ticks[k]))
  {
    hide StepTick;
    StepTouches(s, w, k);
  }

  lemma SettledStays(t: Tables, id: string, at: int, device: string, x: string)
    requires id in t.watches && t.watches[id].state != Armed
    ensures id in ExpireWatches(t, at).watches && ExpireWatches(t, at).watches[id] == t.watches[id]
    ensures id in CancelArmed(t, device).watches && CancelArmed(t, device).watches[id] == t.watches[id]
    ensures MarkFired(t, x, at).Written? ==> id in MarkFired(t, x, at).t.watches && MarkFired(t, x, at).t.watches[id] == t.watches[id]
  {}

  lemma ArmSettles(s: Settings, w: World, c: nat, id: string, baseline: seq<string>, at: int)
    requires c in w.calls && id !in w.issued
    ensures Settles(w, Arming(s, w, c, id, baseline, at))
  {}

  lemma TameSettles(w: World, v: World)
    requires Tame(w.t, v.t) && v.issued == w.issued
    ensures Settles(w, v)
  {
    hide Stem;
  }

  lemma SameRowsSettle(w: World, v: World)
    requires v.t.watches == w.t.watches && v.issued == w.issued
    ensures Settles(w, v)
  {}

  lemma NextSettles(s: Settings, w: World, a: Action)
    ensures Settles(w, Next(s, w, a))
  {
    hide StepTick, Fits, IsFenceList, IsArmedList, Acceptable, ExpireWatches, CancelArmed, DeleteFence, SetState, Arming, Settles, Tame;
    var v := Next(s, w, a);
    SameRowsSettle(w, w);
    match a
    case Delete(id) =>
      DeleteIsTame(w.t, s.fk, id);
      if DeleteFence(w.t, s.fk, id).Deleted? { TameSettles(w, v); }
    case Cancel(id) =>
      CancelIsTame(w.t, id);
      if SetState(w.t, id, Cancelled).Written? { TameSettles(w, v); }
    case CancelAll(device) =>
      CancelArmedIsTame(w.t, device);
      TameSettles(w, v);
    case Begin(at) =>
      ExpireIsTame(w.t, at);
      TameSettles(w, v);
    case Arm(c, id, baseline, at) => if c in w.calls && id !in w.issued { ArmSettles(s, w, c, id, baseline, at); }
    case Step(k) => if k in w.ticks { StepSettles(s, w, k); }
    case _ => SameRowsSettle(w, v);
  }

  lemma SettlesThen(a: World, b: World, c: World)
    requires Settles(a, b) && Settles(b, c)
    ensures Settles(a, c)
  {}

  lemma SettlesSame(w: World)
    ensures Settles(w, w)
  {}

  lemma {:induction false} RunSettles(s: Settings, run: seq<Action>, more: seq<Action>)
    ensures Settles(After(s, run), After(s, run + more))
  {
    hide Next, Settles;
    if |more| == 0 {
      assert run + more == run;
      SettlesSame(After(s, run));
    } else {
      assert Front(run + more) == run + Front(more) && Last(run + more) == Last(more);
      RunSettles(s, run, Front(more));
      NextSettles(s, After(s, run + Front(more)), Last(more));
      SettlesThen(After(s, run), After(s, run + Front(more)), After(s, run + more));
    }
  }

  /** A watch that has left the armed state never comes back to it, in any
      continuation of any run. */
  lemma NeverRearmed(s: Settings, run: seq<Action>, more: seq<Action>, id: string)
    requires id in After(s, run).issued && !IsArmed(After(s, run).t, id)
    ensures !IsArmed(After(s, run + more).t, id)
  {
    hide After;
    RunSettles(s, run, more);
  }

  lemma CancelSets(t: Tables, x: string, id: string)
    requires id in t.watches
    ensures x == id ==> SetState(t, x, Cancelled).Written?
    ensures SetState(t, x, Cancelled).Written? ==>
              && id in SetState(t, x, Cancelled).t.watches
              && SetState(t, x, Cancelled).t.watches[id] == if x == id then t.watches[id].(state := Cancelled) else t.watches[id]
  {}

  lemma DeleteLeaves(t: Tables, fk: bool, f: string, id: string)
    ensures DeleteFence(t, fk, f).Deleted? && id in DeleteFence(t, fk, f).t.watches ==>
              id in t.watches && DeleteFence(t, fk, f).t.watches[id] == t.watches[id]
  {}

  lemma ArmLeaves(s: Settings, w: World, c: nat, x: string, baseline: seq<string>, at: int, id: string)
    requires c in w.calls && id in w.t.watches
    ensures id in Arming(s, w, c, x, baseline, at).t.watches && Arming(s, w, c, x, baseline, at).t.watches[id] == w.t.watches[id]
  {}

  lemma StepLeaves(s: Settings, w: World, k: nat, id: string)
    requires k in w.ticks && id in w.t.watches && w.t.watches[id].state != Armed
    ensures id in StepTick(s, w, k, w.ticks[k]).t.watches && StepTick(s, w, k, w.ticks[k]).t.watches[id] == w.t.watches[id]
  {
    hide StepTick, MarkFired;
    var v := StepTick(s, w, k, w.ticks[k]);
    StepTouches(s, w, k);
    if v.t.watches != w.t.watches {
      var x, at :| MarkFired(w.t, x, at).Written? && v.t.watches == MarkFired(w.t, x, at).t.watches;
      SettledStays(w.t, id, at, "", x);
    }
  }

  /** A watch that is no longer armed changes state in one way only: an explicit
      cancellation of it, which has no guard and overwrites fired and expired. */
  lemma OnlyCancelChangesSettledState(s: Settings, w: World, a: Action, id: string)
    requires id in w.t.watches && w.t.watches[id].state != Armed && id in Next(s, w, a).t.watches
    ensures Next(s, w, a).t.watches[id].state
            == if a == Cancel(id) then Cancelled else w.t.watches[id].state
  {
    hide StepTick, Fits, IsFenceList, IsArmedList, Acceptable, ExpireWatches, CancelArmed, DeleteFence, Arming, SetState;
    match a
    case Cancel(x) => CancelSets(w.t, x, id);
    case Delete(f) => DeleteLeaves(w.t, s.fk, f, id);
    case Arm(c, x, baseline, at) => if c in w.calls { ArmLeaves(s, w, c, x, baseline, at, id); }
    case Begin(at) => SettledStays(w.t, id, at, "", id);
    case CancelAll(device) => SettledStays(w.t, id, 0, device, id);
    case Step(k) => if k in w.ticks { StepLeaves(s, w, k, id); }
    case _ =>
  }

  /** A repeating watch has no cooldown: once marked it can be marked again at
      once, at any time. */
  lemma RepeatingHasNoCooldown(t: Tables, id: string, at: int, later: int)
    requires IsArmed(t, id)
    ensures MarkFired(t, id, at).Written?
    ensures MarkFired(MarkFired(t, id, at).t, id, later).Written? <==> t.watches[id].repeats
  {}

  // ---------------------------------------------------------------------
  // References
  // ---------------------------------------------------------------------

  lemma StepKeepsWhole(s: Settings, w: World, k: nat)
    requires s.fk && k in w.ticks && Whole(w.t)
    ensures Whole(StepTick(s, w, k, w.ticks[k]).t)
  {
    var fr := w.ticks[k];
    hide Exec, Judge, MarkFired, RecordEvent, Whole;
    match fr.stage
    case Running(todo, dark, Nothing) =>
      if |todo| > 0 {
        var i := todo[0];
        if i.Evaluate? {
          MarkFiredKeepsIds(w.t, i.watch.id, fr.now);
          if MarkFired(w.t, i.watch.id, fr.now).Written? {
            SameIdsKeepsWhole(w.t, MarkFired(w.t, i.watch.id, fr.now).t);
          }
        } else {
          HistoryKeepsWhole(s, fr.now, Progress(w.t, map[], dark, NO_REPORT, [], false), i);
        }
      }
    case Running(todo, dark, Marked(n)) => RecordEventKeepsWhole(w.t, n.watchId, fr.now, n);
    case _ =>
  }

  lemma NextKeepsWhole(s: Settings, w: World, a: Action)
    requires s.fk && Whole(w.t)
    ensures Whole(Next(s, w, a).t)
  {
    hide StepTick, Fits, IsFenceList, IsArmedList, Acceptable, Whole, DeleteFence, SetState, CancelArmed, ExpireWatches, SaveFence,
         CreateWatch;
    match a
    case Save(f) => SaveFenceKeepsWhole(w.t, f);
    case ResolveHere(_, _, f) => SaveFenceKeepsWhole(w.t, f);
    case Delete(id) => DeleteFenceKeepsWhole(w.t, id);
    case Arm(c, id, baseline, at) =>
      if c in w.calls {
        CreateWatchKeepsWhole(w.t, WatchOf(w.calls[c].req, w.calls[c].fence.id, baseline, id, at));
      }
    case Cancel(id) =>
      SetStateKeepsIds(w.t, id, Cancelled);
      if SetState(w.t, id, Cancelled).Written? { SameIdsKeepsWhole(w.t, SetState(w.t, id, Cancelled).t); }
    case CancelAll(device) =>
      CancelArmedKeepsIds(w.t, device);
      SameIdsKeepsWhole(w.t, CancelArmed(w.t, device));
    case Begin(at) =>
      ExpireKeepsIds(w.t, at);
      SameIdsKeepsWhole(w.t, ExpireWatches(w.t, at));
    case Step(k) => if k in w.ticks { StepKeepsWhole(s, w, k); }
    case _ =>
  }

  lemma EmptyIsWhole()
    ensures Whole(START.t)
  {}

  /** With foreign keys enforced no run leaves a watch, a count, a stint, a
      reading or an event that refers to nothing. */
  lemma {:induction false} ForeignKeysKeepReferences(s: Settings, run: seq<Action>)
    requires s.fk
    ensures Whole(After(s, run).t)
  {
    hide Next, Whole;
    if |run| == 0 {
      EmptyIsWhole();
    } else {
      ForeignKeysKeepReferences(s, Front(run));
      NextKeepsWhole(s, After(s, Front(run)), Last(run));
    }
  }

  /** A fence resolved and not deleted since is there; an armed watch has its
      fence unless that was deleted while the watch was being created. */
  ghost predicate Founded(w: World) {
    && (forall id :: id in w.t.fences ==> w.t.fences[id].id == id)
    && (forall c :: c in w.calls && w.calls[c].intact ==> w.calls[c].fence.id in w.t.fences)
    && (forall id :: id in w.t.watches && w.t.watches[id].state == Armed && id !in w.undermined ==>
          w.t.watches[id].fenceId in w.t.fences)
  }

  lemma SameIdsKeepFounded(w: World, v: World)
    requires Founded(w) && SameIds(w.t, v.t) && Tame(w.t, v.t) && v.calls == w.calls && v.undermined == w.undermined
    ensures Founded(v)
  {}

  lemma StepKeepsFounded(s: Settings, w: World, k: nat)
    requires Founded(w) && k in w.ticks
    ensures Founded(StepTick(s, w, k, w.ticks[k]))
  {
    hide StepTick;
    StepTouches(s, w, k);
  }

  lemma DeleteKeepsFounded(s: Settings, w: World, id: string)
    requires Founded(w)
    ensures Founded(Next(s, w, Delete(id)))
  {
    hide HasEvents;
  }

  lemma ArmKeepsFounded(s: Settings, w: World, c: nat, id: string, baseline: seq<string>, at: int)
    requires Founded(w) && c in w.calls
    ensures Founded(Arming(s, w, c, id, baseline, at))
  {}

  lemma SaveKeepsFounded(w: World, f: Fence)
    requires Founded(w)
    ensures Founded(w.(t := SaveFence(w.t, f)))
  {}

  lemma ResolveKeepsFounded(s: Settings, w: World, c: nat, r: Request, f: Fence)
    requires Founded(w)
    ensures Founded(Next(s, w, ResolveHere(c, r, f)))
  {
    hide Acceptable;
  }

  lemma NextKeepsFounded(s: Settings, w: World, a: Action)
    requires Founded(w)
    ensures Founded(Next(s, w, a))
  {
    hide StepTick, Arming, Removed, DeleteFence, SetState, CancelArmed, ExpireWatches, SaveFence, Acceptable, Fits, IsFenceList,
         IsArmedList, SameIds, Tame;
    match a
    case Save(f) => SaveKeepsFounded(w, f);
    case Delete(id) => DeleteKeepsFounded(s, w, id);
    case ResolveHere(c, r, f) => ResolveKeepsFounded(s, w, c, r, f);
    case Arm(c, id, baseline, at) => if c in w.calls { ArmKeepsFounded(s, w, c, id, baseline, at); }
    case Cancel(id) =>
      SetStateKeepsIds(w.t, id, Cancelled);
      CancelIsTame(w.t, id);
      if SetState(w.t, id, Cancelled).Written? { SameIdsKeepFounded(w, w.(t := SetState(w.t, id, Cancelled).t)); }
    case CancelAll(device) =>
      CancelArmedKeepsIds(w.t, device);
      CancelArmedIsTame(w.t, device);
      SameIdsKeepFounded(w, w.(t := CancelArmed(w.t, device)));
    case Begin(at) =>
      ExpireKeepsIds(w.t, at);
      ExpireIsTame(w.t, at);
      SameIdsKeepFounded(w, w.(t := ExpireWatches(w.t, at)));
    case Step(k) => if k in w.ticks { StepKeepsFounded(s, w, k); }
    case _ =>
  }

  lemma {:induction false} EveryRunIsFounded(s: Settings, run: seq<Action>)
    ensures Founded(After(s, run))
  {
    hide Next;
    if |run| > 0 {
      hide Founded;
      EveryRunIsFounded(s, Front(run));
      NextKeepsFounded(s, After(s, Front(run)), Last(run));
    }
  }

  /** Every armed watch names a fence that exists: always with foreign keys, and
      without them as long as no deletion came between resolving the fence and
      storing the watch. */
  lemma ArmedWatchHasFence(s: Settings, run: seq<Action>, id: string)
    requires IsArmed(After(s, run).t, id) && (s.fk || id !in After(s, run).undermined)
    ensures After(s, run).t.watches[id].fenceId in After(s, run).t.fences
  {
    hide After;
    EveryRunIsFounded(s, run);
    if s.fk {
      ForeignKeysKeepReferences(s, run);
    }
  }

  /** Storing a watch: with foreign keys it succeeds exactly when its fence is
      still there; without them it always succeeds, and the watch is on a fence
      exactly when that is still there. */
  lemma ArmingIsFoundedExactly(s: Settings, run: seq<Action>, c: nat, id: string, baseline: seq<string>, at: int)
    requires c in After(s, run).calls && id !in After(s, run).issued
    ensures var w := After(s, run);
            var v, there := Next(s, w, Arm(c, id, baseline, at)), w.calls[c].fence.id in w.t.fences;
            && c !in v.calls
            && (id in v.t.watches <==> !s.fk || there)
            && (id in v.t.watches ==> (v.t.watches[id].fenceId in v.t.fences <==> there) && v.t.watches[id].state == Armed)
  {
    EveryRunKeeps(s, run);
    hide After, Frames, Fires, Logs;
  }

  // ---------------------------------------------------------------------
  // What becomes of a fire
  // ---------------------------------------------------------------------

  ghost predicate IsMarked(w: World, id: string, k: nat) {
    k in w.ticks && w.ticks[k].stage.Running? && w.ticks[k].stage.pending.Marked? && w.ticks[k].stage.pending.n.watchId == id
  }

  ghost predicate IsRecorded(w: World, id: string, k: nat) {
    k in w.ticks && w.ticks[k].stage.Running? && w.ticks[k].stage.pending.Recorded? && w.ticks[k].stage.pending.n.watchId == id
  }

  /** Every fire has its event, or its tick is about to write it, or foreign keys
      are enforced and the watch has been deleted; and with a sink every event
      was dispatched or is about to be. */
  ghost predicate Accounted(s: Settings, w: World) {
    && (forall f :: f in w.fires ==>
          || Mark(f.watch, f.tick) in w.recorded
          || IsMarked(w, f.watch, f.tick)
          || (s.fk && f.watch !in w.t.watches))
    && (s.sink ==> forall m :: m in w.recorded ==> m in w.sent || IsRecorded(w, m.watch, m.tick))
  }

  ghost predicate HalfDone(w: World, k: nat) {
    k in w.ticks && w.ticks[k].stage.Running? && w.ticks[k].stage.pending != Nothing
  }

  /** A step that touches no log, and no tick that has something half done. */
  lemma QuietStepAccounts(s: Settings, w: World, v: World, k: nat)
    requires Inv(w) && Accounted(s, w) && Settles(w, v)
    requires v.fires == w.fires && v.recorded == w.recorded && v.sent == w.sent
    requires !HalfDone(w, k) && forall j :: j in w.ticks && j != k ==> j in v.ticks && v.ticks[j] == w.ticks[j]
    ensures Accounted(s, v)
  {
    hide FrameOk, FiresApart, FiredIsDisarmed;
    forall f | f in w.fires
      ensures f.watch in w.issued
    {
      assert Timely(w, f);
    }
  }

  lemma RecordAccounts(s: Settings, w: World, k: nat, now: int, todo: seq<Instr>, dark: seq<string>, n: Notification)
    requires Accounted(s, w) && k in w.ticks && w.ticks[k] == Frame(now, Running(todo, dark, Marked(n)))
    ensures Accounted(s, RecordNext(s, w, k, now, todo, dark, n))
  {
    var v := RecordNext(s, w, k, now, todo, dark, n);
    assert forall m :: m in w.recorded ==> m in v.recorded;
    if RecordEvent(w.t, s.fk, n.watchId, now, n).Written? {
      assert Mark(n.watchId, k) in v.recorded;
    }
  }

  lemma SendAccounts(s: Settings, w: World, k: nat, now: int, todo: seq<Instr>, dark: seq<string>, n: Notification)
    requires Accounted(s, w) && k in w.ticks && w.ticks[k] == Frame(now, Running(todo, dark, Recorded(n)))
    ensures Accounted(s, SendNext(s, w, k, now, todo, dark, n))
  {
    var v := SendNext(s, w, k, now, todo, dark, n);
    assert forall m :: m in w.sent ==> m in v.sent;
    assert s.sink ==> Mark(n.watchId, k) in v.sent;
  }

  lemma FireAccounts(s: Settings, w: World, v: World, k: nat, f: Firing)
    requires Inv(w) && Accounted(s, w) && Settles(w, v) && f.tick == k
    requires v.fires == w.fires + [f] && v.recorded == w.recorded && v.sent == w.sent
    requires !HalfDone(w, k) && IsMarked(v, f.watch, k)
    requires forall j :: j in w.ticks && j != k ==> j in v.ticks && v.ticks[j] == w.ticks[j]
    ensures Accounted(s, v)
  {
    hide FrameOk, FiresApart, FiredIsDisarmed;
    forall g | g in w.fires
      ensures g.watch in w.issued
    {
      assert Timely(w, g);
    }
  }

  lemma MarkedWasThere(t: Tables, id: string, at: int)
    requires MarkFired(t, id, at).Written?
    ensures id in t.watches && t.watches[id].state == Armed
  {}

  lemma EvaluateAccounts(s: Settings, w: World, k: nat, now: int, todo: seq<Instr>, dark: seq<string>)
    requires Inv(w) && Accounted(s, w) && k in w.ticks && w.ticks[k] == Frame(now, Running(todo, dark, Nothing))
    requires |todo| > 0 && todo[0].Evaluate? && Settles(w, EvaluateNext(s, w, k, now, todo, dark))
    ensures Accounted(s, EvaluateNext(s, w, k, now, todo, dark))
  {
    hide Inv, Judge, Settles, MarkFired, Accounted;
    var v, id := EvaluateNext(s, w, k, now, todo, dark), todo[0].watch.id;
    if v.fires == w.fires {
      QuietStepAccounts(s, w, v, k);
    } else {
      MarkFiredKeepsIds(w.t, id, now);
      assert id in w.t.watches by { MarkedWasThere(w.t, id, now); }
      FireAccounts(s, w, v, k, Firing(id, k, now, w.t.watches[id]));
    }
  }

  lemma StepAccounts(s: Settings, w: World, k: nat)
    requires Inv(w) && Accounted(s, w) && k in w.ticks
    ensures Accounted(s, StepTick(s, w, k, w.ticks[k]))
  {
    hide Inv, Settles, EvaluateNext, RecordNext, SendNext, Accounted, Exec;
    StepSettles(s, w, k);
    match w.ticks[k]
    case Frame(now, Running(todo, dark, Nothing)) =>
      if |todo| > 0 && todo[0].Evaluate? {
        EvaluateAccounts(s, w, k, now, todo, dark);
      } else {
        QuietStepAccounts(s, w, StepTick(s, w, k, w.ticks[k]), k);
      }
    case Frame(now, Running(todo, dark, Marked(n))) => RecordAccounts(s, w, k, now, todo, dark, n);
    case Frame(now, Running(todo, dark, Recorded(n))) => SendAccounts(s, w, k, now, todo, dark, n);
    case _ =>
  }

  lemma NextAccounts(s: Settings, w: World, a: Action)
    requires Inv(w) && Accounted(s, w)
    ensures Accounted(s, Next(s, w, a))
  {
    NextSettles(s, w, a);
    if a.Step? && a.tick in w.ticks {
      hide Inv, Accounted, StepTick;
      StepAccounts(s, w, a.tick);
    } else {
      var k := if a.TakeFences? || a.TakeWatches? || a.Decide? then a.tick else w.nextTick;
      assert w.nextTick !in w.ticks;
      hide Inv, Accounted, Settles, StepTick, Fits, IsFenceList, IsArmedList, Acceptable, CreateWatch, DeleteFence, SetState;
      if Next(s, w, a) == w {
      } else {
        QuietStepAccounts(s, w, Next(s, w, a), k);
      }
    }
  }

  lemma {:induction false} EveryRunAccounts(s: Settings, run: seq<Action>)
    ensures Accounted(s, After(s, run))
  {
    hide Next, Inv;
    if |run| > 0 {
      hide Accounted;
      EveryRunAccounts(s, Front(run));
      EveryRunKeeps(s, Front(run));
      NextAccounts(s, After(s, Front(run)), Last(run));
    }
  }

  lemma RecordedIsThere(w: World)
    requires Whole(w.t) && |w.t.events| == |w.recorded|
    requires forall i :: 0 <= i < |w.recorded| ==> w.t.events[i].watchId == w.recorded[i].watch
    ensures forall m :: m in w.recorded ==> m.watch in w.t.watches
  {
    forall m | m in w.recorded
      ensures m.watch in w.t.watches
    {
      var i :| 0 <= i < |w.recorded| && w.recorded[i] == m;
      assert w.t.events[i] in w.t.events;
    }
  }

  /** When no tick is under way, a fire has its event row exactly unless foreign keys
      are enforced and its watch is gone; and when there is a sink exactly the
      events were dispatched. */
  lemma NothingElseIsLost(s: Settings, run: seq<Action>)
    requires After(s, run).ticks == map[]
    ensures var w := After(s, run);
            && (forall f :: f in w.fires ==> (Mark(f.watch, f.tick) in w.recorded <==> !(s.fk && f.watch !in w.t.watches)))
            && (s.sink ==> forall m :: m in w.recorded <==> m in w.sent)
  {
    hide After, Inv;
    EveryRunAccounts(s, run);
    OncePerTick(s, run);
    if s.fk {
      ForeignKeysKeepReferences(s, run);
      RecordedIsThere(After(s, run));
    }
  }

  // ---------------------------------------------------------------------
  // Silence
  // ---------------------------------------------------------------------

  /** Everything the watch would report was there when it was armed. */
  ghost predicate WithinBaseline(i: Instr)
    requires i.Evaluate?
  {
    && i.watch.kind == Appearance
    && forall v :: v in i.inside && Wanted(i.watch)(v).Some? ==> v.id in i.watch.baseline
  }

  ghost predicate NothingNewFor(plan: seq<Instr>, id: string) {
    forall i :: i in plan && i.Evaluate? && i.watch.id == id ==> WithinBaseline(i)
  }

  ghost predicate Hushed(w: World, id: string) {
    && (forall f :: f in w.fires ==> f.watch != id)
    && forall k :: k in w.ticks && w.ticks[k].stage.Running? ==> NothingNewFor(w.ticks[k].stage.todo, id)
  }

  lemma HoldOrHit(w: Watch, inside: seq<Vehicle>, dark: seq<string>)
    requires w.kind == Appearance
    ensures Judge(w, inside, dark).Hold? || Judge(w, inside, dark).Hit?
  {}

  lemma WithinIsHeld(i: Instr, dark: seq<string>)
    requires i.Evaluate? && WithinBaseline(i)
    ensures Judge(i.watch, i.inside, dark) == Hold
  {
    hide Judge;
    AppearanceIsExact(i.watch, i.inside, dark);
    HoldOrHit(i.watch, i.inside, dark);
  }

  lemma NothingNewFirst(todo: seq<Instr>, id: string, dark: seq<string>)
    requires |todo| > 0 && NothingNewFor(todo, id)
    ensures NothingNewFor(todo[1..], id)
    ensures todo[0].Evaluate? && todo[0].watch.id == id ==> Judge(todo[0].watch, todo[0].inside, dark) == Hold
  {
    hide WithinBaseline, Judge;
    assert todo[0] in todo && forall i :: i in todo[1..] ==> i in todo;
    if todo[0].Evaluate? && todo[0].watch.id == id {
      WithinIsHeld(todo[0], dark);
    }
  }

  lemma StepHushes(s: Settings, w: World, k: nat, id: string)
    requires Hushed(w, id) && k in w.ticks
    ensures Hushed(StepTick(s, w, k, w.ticks[k]), id)
  {
    hide Exec, MarkFired, RecordEvent, NothingNewFor, Judge, Message;
    match w.ticks[k]
    case Frame(now, Running(todo, dark, Nothing)) => if |todo| > 0 { NothingNewFirst(todo, id, dark); }
    case _ =>
  }

  lemma NextHushes(s: Settings, w: World, a: Action, id: string)
    requires Hushed(w, id) && (a.Decide? ==> NothingNewFor(a.plan, id))
    ensures Hushed(Next(s, w, a), id)
  {
    hide StepTick, Fits, IsFenceList, IsArmedList, Acceptable, CreateWatch, DeleteFence, SetState, NothingNewFor;
    if a.Step? && a.tick in w.ticks {
      hide Hushed;
      StepHushes(s, w, a.tick, id);
    }
  }

  /** An appearance watch never fires in a run in which every matching vehicle
      seen in its fence was in its baseline. */
  lemma {:induction false} SilentWhileNothingIsNew(s: Settings, run: seq<Action>, id: string)
    requires forall a :: a in run && a.Decide? ==> NothingNewFor(a.plan, id)
    ensures Hushed(After(s, run), id)
  {
    hide Next;
    if |run| > 0 {
      assert Last(run) in run && forall a :: a in Front(run) ==> a in run;
      hide Hushed, NothingNewFor;
      SilentWhileNothingIsNew(s, Front(run), id);
      NextHushes(s, After(s, Front(run)), Last(run), id);
    }
  }

  // ---------------------------------------------------------------------
  // Fences
  // ---------------------------------------------------------------------

  /** The fence last saved under an id, by name or for a watch, and not deleted since. */
  ghost function LastSaved(s: Settings, run: seq<Action>, id: string): Option<Fence> {
    if |run| == 0 then None
    else
      var w, was := After(s, Front(run)), LastSaved(s, Front(run), id);
      match Last(run)
      case Save(f) => if f.id == id then Some(f) else was
      case ResolveHere(c, r, f) => if f.id == id && c !in w.calls && Acceptable(r) then Some(f) else was
      case Delete(d) => if d == id && DeleteFence(w.t, s.fk, d).Deleted? then None else was
      case _ => was
  }

  lemma ActionOnFences(s: Settings, w: World, a: Action, id: string)
    requires !a.Step?
    ensures var fences := Next(s, w, a).t.fences;
            match a
            case Save(f) => fences == w.t.fences[f.id := f]
            case ResolveHere(c, r, f) => fences == if c !in w.calls && Acceptable(r) then w.t.fences[f.id := f] else w.t.fences
            case Delete(d) => fences == if DeleteFence(w.t, s.fk, d).Deleted? then w.t.fences - {d} else w.t.fences
            case _ => fences == w.t.fences
  {
    hide Fits, IsFenceList, IsArmedList, Acceptable, HasArmed, HasEvents;
  }

  lemma AdvanceOnFences(s: Settings, w: World, k: nat, now: int, todo: seq<Instr>, dark: seq<string>)
    ensures Advance(s, w, k, now, todo, dark).t.fences == w.t.fences
  {
    hide Exec, Judge, Message, FilterMap;
    if |todo| > 0 {
      ExecKeepsFences(s, now, Progress(w.t, map[], dark, NO_REPORT, [], false), todo[0]);
    }
  }

  lemma StepOnFences(s: Settings, w: World, k: nat)
    ensures Next(s, w, Step(k)).t.fences == w.t.fences
  {
    hide Advance;
    if k in w.ticks {
      match w.ticks[k]
      case Frame(now, Running(todo, dark, Nothing)) => AdvanceOnFences(s, w, k, now, todo, dark);
      case _ =>
    }
  }

  /** In every run the fence stored under an id is the one last saved under it, unless
      it was deleted since. */
  lemma {:induction false} FencesAreLastSaved(s: Settings, run: seq<Action>, id: string)
    ensures var t := After(s, run).t;
            LastSaved(s, run, id) == if id in t.fences then Some(t.fences[id]) else None
  {
    hide Next, DeleteFence, Acceptable;
    if |run| > 0 {
      FencesAreLastSaved(s, Front(run), id);
      if Last(run).Step? {
        StepOnFences(s, After(s, Front(run)), Last(run).tick);
      } else {
        ActionOnFences(s, After(s, Front(run)), Last(run), id);
      }
    }
  }
}
