/** Every interleaving of any number of ticks and API calls. Each step is one
    store call, because the database has one connection; between two steps of a
    tick or of `createWatch` anything else may run (`internal/poll/poll.go`,
    `internal/store/watch.go`, `internal/api/api.go`). */
module Lifecycle {
  import opened Base
  import opened Entur
  import opened Schema
  import opened Poll
  import opened Plan
  import opened Api
  import opened Integrity

  // ---------------------------------------------------------------------
  // States
  // ---------------------------------------------------------------------

  /** A watch and the tick that handled it. */
  datatype Mark = Mark(watch: string, tick: nat)

  /** A successful `MarkFired`, with the row it found. */
  datatype Firing = Firing(watch: string, tick: nat, now: int, found: Watch)

  /** A fire under way: marked, or marked and recorded. */
  datatype Pending = Nothing | Marked(n: Notification) | Recorded(n: Notification)

  datatype Stage =
    | Begun
    | ReadFences(fences: seq<Fence>)
    | ReadWatches(fences: seq<Fence>, watches: seq<Watch>)
    | Running(todo: seq<Instr>, dark: seq<string>, pending: Pending)

  datatype Frame = Frame(now: int, stage: Stage)

  /** A `createWatch` that is waiting for its baseline. `intact` says that its
      fence has not been deleted since it was resolved. */
  datatype Call = Call(req: Request, fence: Fence, intact: bool)

  /** `issued` holds every watch ever stored, as it was armed; `undermined` those
      whose fence was deleted while they were being created. The three logs keep
      every successful `MarkFired`, every event row and every dispatch. */
  datatype World = World(
    t: Tables,
    ticks: map<nat, Frame>,
    nextTick: nat,
    calls: map<nat, Call>,
    issued: map<string, Watch>,
    undermined: set<string>,
    fires: seq<Firing>,
    recorded: seq<Mark>,
    sent: seq<Mark>)

  const START := World(EMPTY, map[], 0, map[], map[], {}, [], [], [])

  datatype Action =
    | Save(fence: Fence)
    | Delete(fenceId: string)
    | ResolveNamed(call: nat, req: Request, fenceId: string)
    | ResolveHere(call: nat, req: Request, fence: Fence)
    | Arm(call: nat, watchId: string, baseline: seq<string>, at: int)
    | GiveUp(call: nat)
    | Cancel(watchId: string)
    | CancelAll(device: string)
    | Begin(at: int)
    | TakeFences(tick: nat, fences: seq<Fence>)
    | TakeWatches(tick: nat, watches: seq<Watch>)
    | Decide(tick: nat, plan: seq<Instr>)
    | Step(tick: nat)

  /** A watch as it was armed. */
  function Stem(w: Watch): Watch {
    w.(state := Armed, firedAt := None)
  }

  predicate Acceptable(r: Request) {
    r.kind != OtherKind && forall k :: k in r.operatorKeys ==> Lookup(k).Some?
  }

  /** No watch is evaluated twice. */
  ghost predicate OncePerWatch(plan: seq<Instr>) {
    forall i, j :: 0 <= i < j < |plan| && plan[i].Evaluate? && plan[j].Evaluate? ==> plan[i].watch.id != plan[j].watch.id
  }

  /** The last health check before place `j` is of the fence of the watch there. */
  ghost predicate CheckedAt(plan: seq<Instr>, j: nat) {
    j < |plan| && plan[j].Evaluate? && exists h ::
      && 0 <= h < j && plan[h] == Health(plan[j].watch.fenceId)
      && forall m :: h < m < j ==> !plan[m].Health?
  }

  /** Every watch is evaluated right after the health check of its fence. */
  ghost predicate Checked(plan: seq<Instr>) {
    forall j :: 0 <= j < |plan| && plan[j].Evaluate? ==> CheckedAt(plan, j)
  }

  /** A plan decided from a snapshot, however old. */
  ghost predicate Fits(fences: seq<Fence>, watches: seq<Watch>, plan: seq<Instr>) {
    && OncePerWatch(plan)
    && Checked(plan)
    && forall i :: i in plan && i.Evaluate? ==> i.at in fences && i.watch in watches && i.watch.fenceId == i.at.id
  }

  // ---------------------------------------------------------------------
  // Steps
  // ---------------------------------------------------------------------

  function Ended(w: World, k: nat): World {
    w.(ticks := w.ticks - {k})
  }

  function Moved(w: World, k: nat, now: int, stage: Stage): World {
    w.(ticks := w.ticks[k := Frame(now, stage)])
  }

  function Removed(w: World, id: string, t: Tables): World {
    w.(t := t, calls := map c | c in w.calls :: if w.calls[c].fence.id == id then w.calls[c].(intact := false) else w.calls[c])
  }

  function Arming(s: Settings, w: World, c: nat, id: string, baseline: seq<string>, at: int): World
    requires c in w.calls
  {
    var call := w.calls[c];
    var watch := WatchOf(call.req, call.fence.id, baseline, id, at);
    match CreateWatch(w.t, s.fk, watch)
    case Written(t) =>
      w.(t := t, calls := w.calls - {c}, issued := w.issued[id := Stem(watch)],
         undermined := if call.intact then w.undermined else w.undermined + {id})
    case _ => w.(calls := w.calls - {c})
  }

  function EvaluateNext(s: Settings, w: World, k: nat, now: int, todo: seq<Instr>, dark: seq<string>): World
    requires |todo| > 0 && todo[0].Evaluate?
  {
    var i := todo[0];
    match Judge(i.watch, i.inside, dark)
    case Hold => Moved(w, k, now, Running(todo[1..], dark, Nothing))
    case BadKind => Ended(w, k)
    case Hit(hit) =>
      match MarkFired(w.t, i.watch.id, now)
      case NotFound => Moved(w, k, now, Running(todo[1..], dark, Nothing))
      case Constraint => Ended(w, k)
      case Written(t) =>
        Moved(w.(t := t, fires := w.fires + [Firing(i.watch.id, k, now, w.t.watches[i.watch.id])]),
              k, now, Running(todo[1..], dark, Marked(Message(now, i.at, i.watch, i.inside, hit))))
  }

  /** The next store call of a tick that has nothing half done. */
  ghost function Advance(s: Settings, w: World, k: nat, now: int, todo: seq<Instr>, dark: seq<string>): World {
    if |todo| == 0 then Ended(w, k)
    else if todo[0].Evaluate? then EvaluateNext(s, w, k, now, todo, dark)
    else
      var p := Exec(s, now, Progress(w.t, map[], dark, NO_REPORT, [], false), todo[0]);
      if p.failed then Ended(w, k)
      else Moved(w.(t := p.t), k, now, Running(todo[1..], p.dark, Nothing))
  }

  function RecordNext(s: Settings, w: World, k: nat, now: int, todo: seq<Instr>, dark: seq<string>,
                      n: Notification): World {
    match RecordEvent(w.t, s.fk, n.watchId, now, n)
    case Written(t) =>
      Moved(w.(t := t, recorded := w.recorded + [Mark(n.watchId, k)]), k, now, Running(todo, dark, Recorded(n)))
    case _ => Ended(w, k)
  }

  function SendNext(s: Settings, w: World, k: nat, now: int, todo: seq<Instr>, dark: seq<string>,
                    n: Notification): World {
    Moved(w.(sent := if s.sink then w.sent + [Mark(n.watchId, k)] else w.sent), k, now, Running(todo, dark, Nothing))
  }

  ghost function StepTick(s: Settings, w: World, k: nat, fr: Frame): World {
    match fr.stage
    case Running(todo, dark, Nothing) => Advance(s, w, k, fr.now, todo, dark)
    case Running(todo, dark, Marked(n)) => RecordNext(s, w, k, fr.now, todo, dark, n)
    case Running(todo, dark, Recorded(n)) => SendNext(s, w, k, fr.now, todo, dark, n)
    case _ => w
  }

  /** An action that is not enabled changes nothing. */
  ghost function Next(s: Settings, w: World, a: Action): World {
    match a
    case Save(f) => w.(t := SaveFence(w.t, f))
    case Delete(id) =>
      (match DeleteFence(w.t, s.fk, id)
       case Deleted(t, _) => Removed(w, id, t)
       case _ => w)
    case ResolveNamed(c, r, id) =>
      if c in w.calls || !Acceptable(r) || id !in w.t.fences then w
      else w.(calls := w.calls[c := Call(r, w.t.fences[id], true)])
    case ResolveHere(c, r, f) =>
      if c in w.calls || !Acceptable(r) then w
      else w.(t := SaveFence(w.t, f), calls := w.calls[c := Call(r, f, true)])
    case Arm(c, id, baseline, at) =>
      if c !in w.calls || id in w.issued then w else Arming(s, w, c, id, baseline, at)
    case GiveUp(c) => w.(calls := w.calls - {c})
    case Cancel(id) =>
      (match SetState(w.t, id, Cancelled)
       case Written(t) => w.(t := t)
       case _ => w)
    case CancelAll(device) => w.(t := CancelArmed(w.t, device))
    case Begin(at) =>
      Moved(w.(t := ExpireWatches(w.t, at), nextTick := w.nextTick + 1), w.nextTick, at, Begun)
    case TakeFences(k, fs) =>
      if k !in w.ticks || !w.ticks[k].stage.Begun? || !IsFenceList(w.t, fs) then w
      else if |fs| == 0 then Ended(w, k)
      else Moved(w, k, w.ticks[k].now, ReadFences(fs))
    case TakeWatches(k, ws) =>
      if k !in w.ticks || !w.ticks[k].stage.ReadFences? || !IsArmedList(w.t, w.ticks[k].now, ws) then w
      else Moved(w, k, w.ticks[k].now, ReadWatches(w.ticks[k].stage.fences, ws))
    case Decide(k, plan) =>
      if k !in w.ticks || !w.ticks[k].stage.ReadWatches?
         || !Fits(w.ticks[k].stage.fences, w.ticks[k].stage.watches, plan) then w
      else Moved(w, k, w.ticks[k].now, Running(plan, [], Nothing))
    case Step(k) =>
      if k !in w.ticks then w else StepTick(s, w, k, w.ticks[k])
  }

  ghost function After(s: Settings, run: seq<Action>): World {
    if |run| == 0 then START else Next(s, After(s, Front(run)), Last(run))
  }

  // ---------------------------------------------------------------------
  // What every step keeps
  // ---------------------------------------------------------------------

  /** What the API lets through: a kind the poller knows, operators that exist,
      and at most six hours to live. */
  ghost predicate Sound(w: Watch) {
    w.kind != OtherKind && (forall k :: k in w.operatorKeys ==> Lookup(k).Some?) && 0 <= w.expiresAt - w.createdAt <= 21600
  }

  ghost predicate Stored(t: Tables, issued: map<string, Watch>) {
    && (forall id :: id in t.watches ==> t.watches[id].id == id && id in issued && Stem(t.watches[id]) == issued[id])
    && (forall id :: id in issued ==> Sound(issued[id]))
  }

  ghost predicate HasFired(fires: seq<Firing>, id: string, k: nat) {
    exists f :: f in fires && f.watch == id && f.tick == k
  }

  /** The watch was live when its tick took the snapshot. */
  ghost predicate Snapped(issued: map<string, Watch>, now: int, x: Watch) {
    x.id in issued && Stem(x) == issued[x.id] && x.state == Armed && Unix(now) < x.expiresAt
  }

  ghost predicate TodoOk(w: World, k: nat, now: int, todo: seq<Instr>) {
    && OncePerWatch(todo)
    && forall i :: i in todo && i.Evaluate? ==> Snapped(w.issued, now, i.watch) && !HasFired(w.fires, i.watch.id, k)
  }

  ghost predicate PendingOk(w: World, k: nat, pending: Pending) {
    match pending
    case Nothing => true
    case Marked(n) => HasFired(w.fires, n.watchId, k) && Mark(n.watchId, k) !in w.recorded
    case Recorded(n) => Mark(n.watchId, k) in w.recorded && Mark(n.watchId, k) !in w.sent
  }

  ghost predicate FrameOk(w: World, k: nat, fr: Frame) {
    && k < w.nextTick
    && match fr.stage
       case Begun => !exists f :: f in w.fires && f.tick == k
       case ReadFences(_) => !exists f :: f in w.fires && f.tick == k
       case ReadWatches(_, ws) =>
         && (!exists f :: f in w.fires && f.tick == k)
         && forall x :: x in ws ==> Snapped(w.issued, fr.now, x)
       case Running(todo, _, pending) => TodoOk(w, k, fr.now, todo) && PendingOk(w, k, pending)
  }

  ghost predicate Frames(w: World) {
    forall k :: k in w.ticks ==> FrameOk(w, k, w.ticks[k])
  }

  /** A fire found its watch armed, in a second before its expiry. */
  ghost predicate Timely(w: World, f: Firing) {
    && f.tick < w.nextTick && f.watch in w.issued
    && Stem(f.found) == w.issued[f.watch] && f.found.state == Armed && Unix(f.now) < f.found.expiresAt
  }

  /** Two fires of a watch are of different ticks, and only a repeating watch has
      two. */
  ghost predicate FiresApart(issued: map<string, Watch>, fires: seq<Firing>) {
    forall i, j :: 0 <= i < j < |fires| && fires[i].watch == fires[j].watch ==>
      fires[i].tick != fires[j].tick && fires[i].watch in issued && issued[fires[i].watch].repeats
  }

  /** A watch that fired and does not repeat is not armed. */
  ghost predicate FiredIsDisarmed(w: World) {
    forall f :: f in w.fires && f.watch in w.t.watches && !w.t.watches[f.watch].repeats ==>
      w.t.watches[f.watch].state != Armed
  }

  ghost predicate Fires(w: World) {
    FiresApart(w.issued, w.fires) && FiredIsDisarmed(w) && forall f :: f in w.fires ==> Timely(w, f)
  }

  /** The logs follow one another: dispatched, recorded, fired. */
  ghost predicate Logs(w: World) {
    && Distinct(w.recorded) && Distinct(w.sent)
    && (forall m :: m in w.recorded ==> HasFired(w.fires, m.watch, m.tick))
    && (forall m :: m in w.sent ==> m in w.recorded)
    && |w.t.events| == |w.recorded|
    && (forall i :: 0 <= i < |w.recorded| ==> w.t.events[i].watchId == w.recorded[i].watch)
  }

  ghost predicate Calls(w: World) {
    forall c :: c in w.calls ==> Acceptable(w.calls[c].req)
  }

  ghost predicate Inv(w: World) {
    Stored(w.t, w.issued) && Frames(w) && Fires(w) && Logs(w) && Calls(w)
  }

  /** A change that adds no watch, arms none and records nothing. */
  ghost predicate Tame(a: Tables, b: Tables) {
    && b.events == a.events
    && forall id :: id in b.watches ==>
         && id in a.watches && Stem(b.watches[id]) == Stem(a.watches[id])
         && (b.watches[id].state == Armed ==> a.watches[id].state == Armed)
  }

  lemma TameKeeps(w: World, t: Tables)
    requires Inv(w) && Tame(w.t, t)
    ensures Inv(w.(t := t))
  {
    var v := w.(t := t);
    hide Snapped, OncePerWatch;
    assert Stored(v.t, v.issued);
    assert Frames(v) by {
      forall k | k in v.ticks
        ensures FrameOk(v, k, v.ticks[k])
      {
        assert FrameOk(w, k, w.ticks[k]);
      }
    }
    assert forall f :: f in w.fires ==> Timely(w, f);
  }

  lemma StillOk(w: World, v: World, k: nat, fr: Frame)
    requires FrameOk(w, k, fr)
    requires v.issued == w.issued && v.fires == w.fires && v.recorded == w.recorded && v.sent == w.sent && v.nextTick >= w.nextTick
    ensures FrameOk(v, k, fr)
  {
    hide Snapped, OncePerWatch;
  }

  lemma SameButFrames(w: World, v: World)
    requires Inv(w)
    requires v.t == w.t && v.issued == w.issued && v.fires == w.fires && v.recorded == w.recorded && v.sent == w.sent
    requires v.nextTick >= w.nextTick && Calls(v)
    requires forall k :: k in v.ticks ==> FrameOk(v, k, v.ticks[k]) || (k in w.ticks && v.ticks[k] == w.ticks[k])
    ensures Inv(v)
  {
    hide Snapped, OncePerWatch, TodoOk;
    forall k | k in v.ticks
      ensures FrameOk(v, k, v.ticks[k])
    {
      if k in w.ticks && v.ticks[k] == w.ticks[k] {
        assert FrameOk(w, k, w.ticks[k]);
        StillOk(w, v, k, w.ticks[k]);
      }
    }
    assert forall f :: f in w.fires ==> Timely(w, f);
  }

  lemma EndKeeps(w: World, k: nat)
    requires Inv(w)
    ensures Inv(Ended(w, k))
  {
    SameButFrames(w, Ended(w, k));
  }

  // ---------------------------------------------------------------------
  // Statements that add no watch and arm none
  // ---------------------------------------------------------------------

  lemma DeleteIsTame(t: Tables, fk: bool, id: string)
    ensures DeleteFence(t, fk, id).Deleted? ==> Tame(t, DeleteFence(t, fk, id).t)
  {}

  lemma CancelIsTame(t: Tables, id: string)
    ensures SetState(t, id, Cancelled).Written? ==> Tame(t, SetState(t, id, Cancelled).t)
  {}

  lemma CancelArmedIsTame(t: Tables, device: string)
    ensures Tame(t, CancelArmed(t, device))
  {}

  lemma ExpireIsTame(t: Tables, now: int)
    ensures Tame(t, ExpireWatches(t, now))
  {}

  lemma MarkFiredIsTame(t: Tables, id: string, now: int)
    ensures MarkFired(t, id, now).Written? ==> Tame(t, MarkFired(t, id, now).t)
  {}

  lemma HistoryIsTame(s: Settings, now: int, p: Progress, i: Instr)
    requires !i.Evaluate?
    ensures Exec(s, now, p, i).t.watches == p.t.watches && Exec(s, now, p, i).t.events == p.t.events
    ensures Tame(p.t, Exec(s, now, p, i).t)
  {
    hide FilterMap, SightAll, OpenStints, DarkOperators, Judge, Fire;
  }

  // ---------------------------------------------------------------------
  // Steps that add something
  // ---------------------------------------------------------------------

  /** More watches issued change nothing for those already there. */
  lemma IssuedGrows(w: World, v: World, k: nat, fr: Frame)
    requires FrameOk(w, k, fr)
    requires v.fires == w.fires && v.recorded == w.recorded && v.sent == w.sent && v.nextTick == w.nextTick
    requires forall id :: id in w.issued ==> id in v.issued && v.issued[id] == w.issued[id]
    ensures FrameOk(v, k, fr)
  {
    hide OncePerWatch;
  }

  lemma AddedWatchFires(w: World, v: World, row: Watch)
    requires Fires(w) && row.id !in w.issued
    requires v.t.watches == w.t.watches[row.id := row] && v.issued == w.issued[row.id := row]
    requires v.fires == w.fires && v.nextTick == w.nextTick
    ensures Fires(v)
  {
    forall f | f in v.fires
      ensures Timely(v, f) && f.watch != row.id
    {
      assert Timely(w, f);
    }
  }

  lemma AddedWatchKeeps(w: World, v: World, row: Watch)
    requires Inv(w) && row.id !in w.issued && Stem(row) == row && Sound(row)
    requires v.t.watches == w.t.watches[row.id := row] && v.t.events == w.t.events
    requires v.issued == w.issued[row.id := row] && v.ticks == w.ticks && v.nextTick == w.nextTick && Calls(v)
    requires v.fires == w.fires && v.recorded == w.recorded && v.sent == w.sent
    ensures Inv(v)
  {
    hide Snapped, OncePerWatch, TodoOk, PendingOk, Sound, FrameOk;
    forall k | k in v.ticks
      ensures FrameOk(v, k, v.ticks[k])
    {
      IssuedGrows(w, v, k, w.ticks[k]);
    }
    AddedWatchFires(w, v, row);
  }

  lemma CallsOnly(w: World, v: World)
    requires Inv(w) && Calls(v) && v == w.(calls := v.calls)
    ensures Inv(v)
  {
    SameButFrames(w, v);
  }

  lemma ArmKeeps(s: Settings, w: World, c: nat, id: string, baseline: seq<string>, at: int)
    requires Inv(w) && c in w.calls && id !in w.issued
    ensures Inv(Arming(s, w, c, id, baseline, at))
  {
    hide FrameOk, Frames, Fires, Logs, Stored;
    var v := Arming(s, w, c, id, baseline, at);
    var watch := WatchOf(w.calls[c].req, w.calls[c].fence.id, baseline, id, at);
    assert Calls(v);
    LifetimeIsBounded(w.calls[c].req, w.calls[c].fence.id, baseline, id, at);
    hide TtlOf, Unix;
    if v.issued == w.issued && v.t == w.t {
      CallsOnly(w, v);
    } else {
      AddedWatchKeeps(w, v, watch);
    }
  }

  lemma OncePerRest(todo: seq<Instr>)
    requires |todo| > 0 && OncePerWatch(todo)
    ensures OncePerWatch(todo[1..])
    ensures forall i :: i in todo[1..] && i.Evaluate? && todo[0].Evaluate? ==> i.watch.id != todo[0].watch.id
    ensures forall i :: i in todo[1..] ==> i in todo
  {
    var rest := todo[1..];
    assert forall i :: 0 <= i < |rest| ==> rest[i] == todo[i + 1];
  }

  /** A tick that only moves on. */
  lemma MoveKeeps(w: World, k: nat, now: int, todo: seq<Instr>, rest: seq<Instr>, was: seq<string>, dark: seq<string>)
    requires Inv(w) && k in w.ticks && w.ticks[k] == Frame(now, Running(todo, was, Nothing))
    requires |todo| > 0 && rest == todo[1..]
    ensures Inv(Moved(w, k, now, Running(rest, dark, Nothing)))
  {
    hide Snapped, OncePerWatch;
    var v := Moved(w, k, now, Running(rest, dark, Nothing));
    assert FrameOk(w, k, w.ticks[k]);
    OncePerRest(todo);
    assert FrameOk(v, k, v.ticks[k]);
    SameButFrames(w, v);
  }

  /** One more fire of another tick does not touch this one. */
  lemma FireElsewhere(w: World, v: World, k: nat, fr: Frame, f: Firing)
    requires FrameOk(w, k, fr) && f.tick != k
    requires v.issued == w.issued && v.fires == w.fires + [f] && v.recorded == w.recorded && v.sent == w.sent && v.nextTick == w.nextTick
    ensures FrameOk(v, k, fr)
  {
    hide Snapped, OncePerWatch;
    forall id
      ensures HasFired(v.fires, id, k) <==> HasFired(w.fires, id, k)
    {
      if HasFired(w.fires, id, k) {
        var g :| g in w.fires && g.watch == id && g.tick == k;
        assert g in v.fires;
      }
    }
  }

  lemma FireLogged(w: World, f: Firing, t: Tables)
    requires Inv(w) && Timely(w, f)
    requires f.watch in w.t.watches && w.t.watches[f.watch].state == Armed
    requires !HasFired(w.fires, f.watch, f.tick)
    requires Tame(w.t, t) && (f.watch in t.watches && !t.watches[f.watch].repeats ==> t.watches[f.watch].state != Armed)
    ensures Fires(w.(t := t, fires := w.fires + [f]))
  {
    var v := w.(t := t, fires := w.fires + [f]);
    forall g | g in v.fires
      ensures Timely(v, g)
    {
      assert Timely(w, if g == f then f else g);
    }
    forall i | 0 <= i < |w.fires| && w.fires[i].watch == f.watch
      ensures w.fires[i].tick != f.tick && f.watch in w.issued && w.issued[f.watch].repeats
    {
      assert w.fires[i] in w.fires;
      assert Stem(w.t.watches[f.watch]) == w.issued[f.watch];
    }
    forall g | g in v.fires && g.watch in t.watches && !t.watches[g.watch].repeats
      ensures t.watches[g.watch].state != Armed
    {
      assert Stem(t.watches[g.watch]) == Stem(w.t.watches[g.watch]);
    }
  }

  lemma LogsKept(w: World, f: Firing, t: Tables)
    requires Logs(w) && t.events == w.t.events
    ensures Logs(w.(t := t, fires := w.fires + [f]))
  {
    forall m | m in w.recorded
      ensures HasFired(w.fires + [f], m.watch, m.tick)
    {
      var g :| g in w.fires && g.watch == m.watch && g.tick == m.tick;
      assert g in w.fires + [f];
    }
  }

  lemma AboutToFire(w: World, k: nat, now: int, todo: seq<Instr>, dark: seq<string>, n: Notification)
    requires Inv(w) && k in w.ticks && w.ticks[k] == Frame(now, Running(todo, dark, Nothing))
    requires |todo| > 0 && todo[0].Evaluate? && n.watchId == todo[0].watch.id
    requires MarkFired(w.t, n.watchId, now).Written?
    ensures var f, t := Firing(n.watchId, k, now, w.t.watches[n.watchId]), MarkFired(w.t, n.watchId, now).t;
            && Timely(w, f) && !HasFired(w.fires, n.watchId, k) && OncePerWatch(todo)
            && (forall m :: m in w.recorded ==> HasFired(w.fires, m.watch, m.tick))
            && t.events == w.t.events
            && t.watches[n.watchId].repeats == w.t.watches[n.watchId].repeats
            && (!t.watches[n.watchId].repeats ==> t.watches[n.watchId].state != Armed)
            && FrameOk(w, k, w.ticks[k])
  {
    hide OncePerWatch, HasFired;
    assert FrameOk(w, k, w.ticks[k]);
    assert todo[0] in todo;
  }

  lemma Assembled(mid: World, v: World)
    requires Stored(mid.t, mid.issued) && Fires(mid) && Logs(mid) && Calls(mid)
    requires v == mid.(ticks := v.ticks) && forall k :: k in v.ticks ==> FrameOk(v, k, v.ticks[k])
    ensures Inv(v)
  {
    hide FrameOk, FiresApart;
    assert forall f :: f in v.fires ==> Timely(mid, f) && Timely(v, f);
  }

  lemma TameRows(w: World, t: Tables)
    requires Stored(w.t, w.issued) && Tame(w.t, t)
    ensures Stored(t, w.issued)
  {}

  lemma NewFrameOk(w: World, v: World, k: nat, now: int, todo: seq<Instr>, dark: seq<string>, n: Notification,
                   f: Firing)
    requires FrameOk(w, k, Frame(now, Running(todo, dark, Nothing))) && |todo| > 0 && todo[0].Evaluate?
    requires f.watch == n.watchId == todo[0].watch.id && f.tick == k && OncePerWatch(todo[1..])
    requires forall m :: m in w.recorded ==> HasFired(w.fires, m.watch, m.tick)
    requires forall i :: i in todo[1..] && i.Evaluate? ==> i.watch.id != todo[0].watch.id
    requires v.issued == w.issued && v.fires == w.fires + [f] && v.recorded == w.recorded && v.nextTick == w.nextTick
    ensures FrameOk(v, k, Frame(now, Running(todo[1..], dark, Marked(n))))
  {
    hide OncePerWatch, Snapped;
    assert todo[0] in todo && f in v.fires;
    forall i | i in todo[1..] && i.Evaluate?
      ensures !HasFired(v.fires, i.watch.id, k)
    {
      assert i in todo;
    }
    assert !HasFired(w.fires, n.watchId, k);
  }

  lemma OthersOk(w: World, v: World, k: nat, f: Firing)
    requires Frames(w) && f.tick == k
    requires v.issued == w.issued && v.fires == w.fires + [f] && v.recorded == w.recorded && v.sent == w.sent && v.nextTick == w.nextTick
    requires forall j :: j in v.ticks && j != k ==> j in w.ticks && v.ticks[j] == w.ticks[j]
    ensures forall j :: j in v.ticks && j != k ==> FrameOk(v, j, v.ticks[j])
  {
    hide FrameOk;
    forall j | j in v.ticks && j != k
      ensures FrameOk(v, j, v.ticks[j])
    {
      FireElsewhere(w, v, j, w.ticks[j], f);
    }
  }

  /** A successful `MarkFired`: the row was armed, so the watch had not fired
      before unless it repeats, and this tick had not fired it. */
  lemma FireKeeps(w: World, k: nat, now: int, todo: seq<Instr>, dark: seq<string>, n: Notification)
    requires Inv(w) && k in w.ticks && w.ticks[k] == Frame(now, Running(todo, dark, Nothing))
    requires |todo| > 0 && todo[0].Evaluate? && n.watchId == todo[0].watch.id
    requires MarkFired(w.t, n.watchId, now).Written?
    ensures var f := Firing(n.watchId, k, now, w.t.watches[n.watchId]);
            Inv(Moved(w.(t := MarkFired(w.t, n.watchId, now).t, fires := w.fires + [f]), k, now, Running(todo[1..], dark, Marked(n))))
  {
    var id, t := n.watchId, MarkFired(w.t, n.watchId, now).t;
    var f := Firing(id, k, now, w.t.watches[id]);
    var mid := w.(t := t, fires := w.fires + [f]);
    var v := Moved(mid, k, now, Running(todo[1..], dark, Marked(n)));
    AboutToFire(w, k, now, todo, dark, n);
    MarkFiredIsTame(w.t, id, now);
    hide OncePerWatch, Tame, Snapped, HasFired, TodoOk, PendingOk, Stem, MarkFired, Timely, Frames, FiresApart, FiredIsDisarmed, Stored,
         Logs, Fires;
    FireLogged(w, f, t);
    LogsKept(w, f, t);
    OncePerRest(todo);
    NewFrameOk(w, v, k, now, todo, dark, n, f);
    OthersOk(w, v, k, f);
    TameRows(w, t);
    Assembled(mid, v);
  }

  lemma TodoStays(w: World, v: World, k: nat)
    requires v.issued == w.issued && v.fires == w.fires
    ensures forall now, todo :: TodoOk(w, k, now, todo) ==> TodoOk(v, k, now, todo)
  {
    hide OncePerWatch, Snapped, HasFired;
  }

  /** The event row of a fire. */
  lemma RecordKeeps(w: World, k: nat, now: int, todo: seq<Instr>, dark: seq<string>, n: Notification, t: Tables)
    requires Inv(w) && k in w.ticks && w.ticks[k] == Frame(now, Running(todo, dark, Marked(n)))
    requires t == w.t.(events := w.t.events + [Event(n.watchId, Unix(now), n)])
    ensures Inv(Moved(w.(t := t, recorded := w.recorded + [Mark(n.watchId, k)]), k, now, Running(todo, dark, Recorded(n))))
  {
    hide OncePerWatch, Snapped, HasFired, TodoOk;
    var m := Mark(n.watchId, k);
    var v := Moved(w.(t := t, recorded := w.recorded + [m]), k, now, Running(todo, dark, Recorded(n)));
    assert FrameOk(w, k, w.ticks[k]);
    assert m in v.recorded;
    forall j | j in v.ticks
      ensures FrameOk(v, j, v.ticks[j])
    {
      assert FrameOk(w, j, w.ticks[j]);
      TodoStays(w, v, j);
    }
    assert forall f :: f in v.fires ==> Timely(w, f) && Timely(v, f);
  }

  /** The hand-over to the sink. */
  lemma SendKeeps(w: World, k: nat, now: int, todo: seq<Instr>, dark: seq<string>, n: Notification, sink: bool)
    requires Inv(w) && k in w.ticks && w.ticks[k] == Frame(now, Running(todo, dark, Recorded(n)))
    ensures Inv(Moved(w.(sent := if sink then w.sent + [Mark(n.watchId, k)] else w.sent), k, now, Running(todo, dark, Nothing)))
  {
    hide OncePerWatch, Snapped, HasFired, TodoOk;
    var m := Mark(n.watchId, k);
    var v := Moved(w.(sent := if sink then w.sent + [m] else w.sent), k, now, Running(todo, dark, Nothing));
    assert FrameOk(w, k, w.ticks[k]);
    forall j | j in v.ticks
      ensures FrameOk(v, j, v.ticks[j])
    {
      assert FrameOk(w, j, w.ticks[j]);
      TodoStays(w, v, j);
    }
    assert forall f :: f in v.fires ==> Timely(w, f) && Timely(v, f);
  }

  // ---------------------------------------------------------------------
  // Every run
  // ---------------------------------------------------------------------

  lemma EvaluateKeeps(s: Settings, w: World, k: nat, now: int, todo: seq<Instr>, dark: seq<string>)
    requires Inv(w) && k in w.ticks && w.ticks[k] == Frame(now, Running(todo, dark, Nothing))
    requires |todo| > 0 && todo[0].Evaluate?
    ensures Inv(EvaluateNext(s, w, k, now, todo, dark))
  {
    hide Inv, Judge;
    var i := todo[0];
    EndKeeps(w, k);
    MoveKeeps(w, k, now, todo, todo[1..], dark, dark);
    match Judge(i.watch, i.inside, dark)
    case Hit(hit) =>
      if MarkFired(w.t, i.watch.id, now).Written? {
        FireKeeps(w, k, now, todo, dark, Message(now, i.at, i.watch, i.inside, hit));
      }
    case _ =>
  }

  lemma HistoryKeeps(s: Settings, w: World, k: nat, now: int, todo: seq<Instr>, dark: seq<string>)
    requires Inv(w) && k in w.ticks && w.ticks[k] == Frame(now, Running(todo, dark, Nothing))
    requires |todo| > 0 && !todo[0].Evaluate?
    ensures Inv(Advance(s, w, k, now, todo, dark))
  {
    hide Inv, Exec;
    var p := Exec(s, now, Progress(w.t, map[], dark, NO_REPORT, [], false), todo[0]);
    EndKeeps(w, k);
    HistoryIsTame(s, now, Progress(w.t, map[], dark, NO_REPORT, [], false), todo[0]);
    TameKeeps(w, p.t);
    MoveKeeps(w.(t := p.t), k, now, todo, todo[1..], dark, p.dark);
  }

  lemma StepKeeps(s: Settings, w: World, k: nat)
    requires Inv(w) && k in w.ticks
    ensures Inv(StepTick(s, w, k, w.ticks[k]))
  {
    hide Inv, EvaluateNext;
    EndKeeps(w, k);
    match w.ticks[k]
    case Frame(now, Running(todo, dark, Nothing)) =>
      if |todo| > 0 && todo[0].Evaluate? {
        EvaluateKeeps(s, w, k, now, todo, dark);
      } else if |todo| > 0 {
        HistoryKeeps(s, w, k, now, todo, dark);
      }
    case Frame(now, Running(todo, dark, Marked(n))) =>
      if RecordEvent(w.t, s.fk, n.watchId, now, n).Written? {
        RecordKeeps(w, k, now, todo, dark, n, RecordEvent(w.t, s.fk, n.watchId, now, n).t);
      }
    case Frame(now, Running(todo, dark, Recorded(n))) => SendKeeps(w, k, now, todo, dark, n, s.sink);
    case _ =>
  }

  lemma BeginKeeps(w: World, at: int)
    requires Inv(w)
    ensures Inv(Moved(w.(t := ExpireWatches(w.t, at), nextTick := w.nextTick + 1), w.nextTick, at, Begun))
  {
    hide ExpireWatches, TodoOk, PendingOk, Snapped;
    var t := ExpireWatches(w.t, at);
    var mid := w.(t := t);
    var v := Moved(mid.(nextTick := w.nextTick + 1), w.nextTick, at, Begun);
    ExpireIsTame(w.t, at);
    TameKeeps(w, t);
    forall f | f in w.fires
      ensures f.tick != w.nextTick
    {
      assert Timely(w, f);
    }
    SameButFrames(mid, v);
  }

  lemma NothingPending(w: World, k: nat)
    ensures PendingOk(w, k, Nothing)
  {}

  /** A snapshot taken, or a plan decided from it. */
  lemma SnapshotKeeps(w: World, k: nat, now: int, stage: Stage)
    requires Inv(w) && k in w.ticks && w.ticks[k].now == now
    requires match w.ticks[k].stage
             case Begun => stage.ReadFences?
             case ReadFences(fs) => stage.ReadWatches? && IsArmedList(w.t, now, stage.watches)
             case ReadWatches(fs, ws) => stage.Running? && stage.pending == Nothing && Fits(fs, ws, stage.todo)
             case _ => false
    ensures Inv(Moved(w, k, now, stage))
  {
    hide OncePerWatch, PendingOk, Checked;
    var v := Moved(w, k, now, stage);
    assert FrameOk(w, k, w.ticks[k]);
    match stage
    case ReadWatches(_, ws) =>
      forall x | x in ws
        ensures Snapped(w.issued, now, x)
      {}
      assert FrameOk(v, k, v.ticks[k]);
      SameButFrames(w, v);
    case Running(todo, dark, pending) =>
      assert PendingOk(v, k, Nothing) by { NothingPending(v, k); }
      assert FrameOk(v, k, v.ticks[k]);
      SameButFrames(w, v);
    case ReadFences(_) =>
      assert FrameOk(v, k, v.ticks[k]);
      SameButFrames(w, v);
    case Begun =>
  }

  lemma CallKeeps(w: World, c: nat, call: Call)
    requires Inv(w) && Acceptable(call.req)
    ensures Inv(w.(calls := w.calls[c := call]))
  {
    CallsOnly(w, w.(calls := w.calls[c := call]));
  }

  lemma RemoveKeeps(w: World, id: string, t: Tables)
    requires Inv(w) && Tame(w.t, t)
    ensures Inv(Removed(w, id, t))
  {
    hide Tame, Stored, Frames, Fires, Logs;
    TameKeeps(w, t);
    CallsOnly(w.(t := t), Removed(w, id, t));
  }

  lemma SaveKeeps(w: World, f: Fence)
    requires Inv(w)
    ensures Inv(w.(t := SaveFence(w.t, f)))
  {
    TameKeeps(w, SaveFence(w.t, f));
  }

  lemma FewerCalls(w: World, c: nat)
    requires Inv(w)
    ensures Inv(w.(calls := w.calls - {c}))
  {
    CallsOnly(w, w.(calls := w.calls - {c}));
  }

  lemma NextKeeps(s: Settings, w: World, a: Action)
    requires Inv(w)
    ensures Inv(Next(s, w, a))
  {
    hide Inv, StepTick, Arming, Removed, Moved, DeleteFence, SetState, CancelArmed, ExpireWatches, SaveFence, Acceptable, Fits,
         IsFenceList, IsArmedList, Tame;
    match a
    case Save(f) => SaveKeeps(w, f);
    case Delete(id) =>
      DeleteIsTame(w.t, s.fk, id);
      if DeleteFence(w.t, s.fk, id).Deleted? {
        RemoveKeeps(w, id, DeleteFence(w.t, s.fk, id).t);
      }
    case ResolveNamed(c, r, id) =>
      if c !in w.calls && Acceptable(r) && id in w.t.fences {
        CallKeeps(w, c, Call(r, w.t.fences[id], true));
      }
    case ResolveHere(c, r, f) =>
      if c !in w.calls && Acceptable(r) {
        SaveKeeps(w, f);
        CallKeeps(w.(t := SaveFence(w.t, f)), c, Call(r, f, true));
      }
    case Arm(c, id, baseline, at) => if c in w.calls && id !in w.issued { ArmKeeps(s, w, c, id, baseline, at); }
    case GiveUp(c) => FewerCalls(w, c);
    case Cancel(id) =>
      CancelIsTame(w.t, id);
      if SetState(w.t, id, Cancelled).Written? {
        TameKeeps(w, SetState(w.t, id, Cancelled).t);
      }
    case CancelAll(device) =>
      CancelArmedIsTame(w.t, device);
      TameKeeps(w, CancelArmed(w.t, device));
    case Begin(at) => BeginKeeps(w, at);
    case TakeFences(k, fs) =>
      if k in w.ticks && w.ticks[k].stage.Begun? {
        EndKeeps(w, k);
        SnapshotKeeps(w, k, w.ticks[k].now, ReadFences(fs));
      }
    case TakeWatches(k, ws) =>
      if k in w.ticks && w.ticks[k].stage.ReadFences? && IsArmedList(w.t, w.ticks[k].now, ws) {
        SnapshotKeeps(w, k, w.ticks[k].now, ReadWatches(w.ticks[k].stage.fences, ws));
      }
    case Decide(k, plan) =>
      if k in w.ticks && w.ticks[k].stage.ReadWatches? && Fits(w.ticks[k].stage.fences, w.ticks[k].stage.watches, plan) {
        SnapshotKeeps(w, k, w.ticks[k].now, Running(plan, [], Nothing));
      }
    case Step(k) => if k in w.ticks { StepKeeps(s, w, k); }
  }

  lemma StartIsFine()
    ensures Inv(START)
  {}

  lemma {:induction false} EveryRunKeeps(s: Settings, run: seq<Action>)
    ensures Inv(After(s, run))
  {
    hide Inv, Next;
    if |run| == 0 {
      StartIsFine();
    } else {
      EveryRunKeeps(s, Front(run));
      NextKeeps(s, After(s, Front(run)), Last(run));
    }
  }
}
