/** Exactly when a tick fires a watch (`internal/poll/poll.go`, `evaluate`): one
    evaluation, all the evaluations of a fence after its health check, and the
    whole plan of a fence. */
module Evaluation {
  import opened Base
  import opened Geo
  import opened Entur
  import opened Strings
  import opened Schema
  import opened Poll
  import opened Plan
  import opened Isolation

  // ---------------------------------------------------------------------
  // One evaluation
  // ---------------------------------------------------------------------

  /** From `p` to `q` the watch fired with this notification: an event, a report
      and a dispatch were added, the row was marked, and nothing else changed. */
  ghost predicate FiredWith(s: Settings, now: int, p: Progress, q: Progress, w: Watch, n: Notification) {
    && w.id in p.t.watches && w.id in q.t.watches
    && q == p.(t := q.t, rep := q.rep, sent := q.sent)
    && q.t == p.t.(events := p.t.events + [Event(w.id, Unix(now), n)], watches := p.t.watches[w.id := q.t.watches[w.id]])
    && q.t.watches[w.id] == p.t.watches[w.id].(firedAt := Some(Unix(now)), state := q.t.watches[w.id].state)
    && q.t.watches[w.id].state == (if p.t.watches[w.id].repeats then Armed else Fired)
    && q.rep == p.rep.(fired := p.rep.fired + [w.id])
    && q.sent == (if s.sink then p.sent + [n] else p.sent)
  }

  lemma KindIsKnown(w: Watch, inside: seq<Vehicle>, dark: seq<string>)
    requires w.kind == Appearance
    ensures !Judge(w, inside, dark).BadKind?
  {}

  /** An appearance watch fires in a tick exactly when it is still armed and a
      matching vehicle is not in its baseline, and then reports just those, with
      the number that match; otherwise nothing changes. */
  lemma AppearanceFiresExactly(s: Settings, now: int, p: Progress, f: Fence, w: Watch, inside: seq<Vehicle>)
    requires !p.failed && w.kind == Appearance
    ensures var due :=
              && w.id in p.t.watches && p.t.watches[w.id].state == Armed
              && exists v :: v in inside && Wanted(w)(v).Some? && v.id !in w.baseline;
            var q := Exec(s, now, p, Evaluate(f, w, inside));
            if due then
              exists n ::
                && FiredWith(s, now, p, q, w, n)
                && n == Notification(w.id, Appearance, now, f, |FilterMap(inside, Wanted(w))|, n.vehicles)
                && forall v :: v in n.vehicles <==> v in inside && Wanted(w)(v).Some? && v.id !in w.baseline
            else q == p
  {
    hide FilterMap, Judge;
    AppearanceIsExact(w, inside, p.dark);
    KindIsKnown(w, inside, p.dark);
    if Judge(w, inside, p.dark).Hit? && w.id in p.t.watches && p.t.watches[w.id].state == Armed {
      assert FiredWith(s, now, p, Exec(s, now, p, Evaluate(f, w, inside)), w,
                       Message(now, f, w, inside, Judge(w, inside, p.dark).vehicles));
    }
  }

  /** The feeds a watch depends on, all of them when it names none, are not among
      the dark. */
  ghost predicate NoneDark(w: Watch, dark: set<string>) {
    (|w.operatorKeys| == 0 ==> dark == {}) && forall k :: k in w.operatorKeys ==> k !in dark
  }

  lemma JudgedBySet(w: Watch, inside: seq<Vehicle>, dark: set<string>)
    requires w.kind == Scarcity
    ensures Judge(w, inside, Sorted(dark)).Hit? <==> NoneDark(w, dark) && |FilterMap(inside, Wanted(w))| <= w.threshold
  {
    ScarcityIsExact(w, inside, Sorted(dark));
    hide Judge, FilterMap;
    assert Sorted(dark) == [] <==> dark == {} by {
      if |Sorted(dark)| > 0 { assert Sorted(dark)[0] in dark; }
    }
  }

  lemma HealthFinds(s: Settings, now: int, p: Progress, f: string)
    requires !p.failed
    ensures var q := Exec(s, now, p, Health(f)); q.t == p.t && q.dark == Sorted(DarkOperators(p.t.readings, f, now, 0))
  {
    hide DarkOperators;
  }

  lemma ScarcityFires(s: Settings, now: int, p: Progress, f: Fence, w: Watch, inside: seq<Vehicle>, dark: set<string>)
    requires !p.failed && w.kind == Scarcity && p.dark == Sorted(dark)
    ensures var matching := FilterMap(inside, Wanted(w));
            var q := Exec(s, now, p, Evaluate(f, w, inside));
            if IsArmed(p.t, w.id) && NoneDark(w, dark) && |matching| <= w.threshold
            then FiredWith(s, now, p, q, w, Notification(w.id, w.kind, now, f, |matching|, matching))
            else q == p
  {
    hide FilterMap, NoneDark;
    JudgedBySet(w, inside, dark);
  }

  lemma {:induction false} EvaluationsKeepHealth(s: Settings, now: int, p: Progress, evals: seq<Instr>)
    requires forall i :: i in evals ==> i.Evaluate?
    ensures ExecAll(s, now, p, evals).dark == p.dark && ExecAll(s, now, p, evals).t.readings == p.t.readings
  {
    hide Exec;
    if |evals| > 0 {
      assert Last(evals) in evals;
      EvaluationsKeepHealth(s, now, p, Front(evals));
      EvaluationKeepsHealth(s, now, ExecAll(s, now, p, Front(evals)), Last(evals));
    }
  }

  /** After the health check of its fence, and whatever was evaluated since, a
      scarcity watch fires exactly when it is still armed, no feed it depends on is
      dark by the readings of the fence, and few enough vehicles match; otherwise
      nothing changes. */
  lemma ScarcityFiresExactly(s: Settings, now: int, p: Progress, f: Fence, evals: seq<Instr>, w: Watch, inside: seq<Vehicle>)
    requires (forall i :: i in evals ==> i.Evaluate?) && w.kind == Scarcity
    requires !ExecAll(s, now, Exec(s, now, p, Health(f.id)), evals).failed
    ensures var matching := FilterMap(inside, Wanted(w));
            var r := ExecAll(s, now, Exec(s, now, p, Health(f.id)), evals);
            var q := Exec(s, now, r, Evaluate(f, w, inside));
            var dark := DarkOperators(p.t.readings, f.id, now, 0);
            if IsArmed(r.t, w.id) && NoneDark(w, dark) && |matching| <= w.threshold
            then FiredWith(s, now, r, q, w, Notification(w.id, w.kind, now, f, |matching|, matching))
            else q == r
  {
    hide Exec, ExecAll, FilterMap, DarkOperators, FiredWith, NoneDark, IsArmed;
    var h := Exec(s, now, p, Health(f.id));
    RunFailedStays(s, now, h, evals);
    FailedStays(s, now, p, Health(f.id));
    HealthFinds(s, now, p, f.id);
    EvaluationsKeepHealth(s, now, h, evals);
    ScarcityFires(s, now, ExecAll(s, now, h, evals), f, w, inside, DarkOperators(p.t.readings, f.id, now, 0));
  }

  // ---------------------------------------------------------------------
  // The evaluations of a fence
  // ---------------------------------------------------------------------

  /** Some event from `from` on is of the watch. */
  ghost predicate Reported(events: seq<Event>, from: nat, id: string) {
    exists i :: from <= i < |events| && events[i].watchId == id
  }

  /** Some watch of the list has the id. */
  ghost predicate Named(ws: seq<Watch>, id: string) {
    exists w :: w in ws && w.id == id
  }

  /** What evaluating the watches of a fence did: just the watches that were due
      and armed have a new event, all new events are of this fence, and other rows
      are as they were. */
  ghost predicate Evaluated(p: Progress, q: Progress, f: Fence, inside: seq<Vehicle>, ws: seq<Watch>) {
    && p.t.events <= q.t.events
    && q.dark == p.dark && q.t.readings == p.t.readings
    && (forall w :: w in ws && w.fenceId == f.id ==>
          (Reported(q.t.events, |p.t.events|, w.id) <==> Judge(w, inside, p.dark).Hit? && IsArmed(p.t, w.id)))
    && (forall i :: |p.t.events| <= i < |q.t.events| ==>
          q.t.events[i].payload.fence == f && Named(ws, q.t.events[i].watchId))
    && (forall id :: (forall w :: w in ws ==> w.id != id) ==> (IsArmed(q.t, id) <==> IsArmed(p.t, id)))
  }

  /** One evaluation more. */
  lemma EvaluatedOne(s: Settings, now: int, p: Progress, f: Fence, inside: seq<Vehicle>, w: Watch)
    requires !p.failed && !Exec(s, now, p, Evaluate(f, w, inside)).failed && w.fenceId == f.id
    ensures Evaluated(p, Exec(s, now, p, Evaluate(f, w, inside)), f, inside, [w])
  {
    hide FilterMap, Judge;
    var q := Exec(s, now, p, Evaluate(f, w, inside));
    if Judge(w, inside, p.dark).Hit? && IsArmed(p.t, w.id) {
      assert q.t.events[|p.t.events|].watchId == w.id;
    }
  }

  lemma EvaluatedNone(p: Progress, f: Fence, inside: seq<Vehicle>)
    ensures Evaluated(p, p, f, inside, [])
  {}

  lemma EvaluatedThen(p: Progress, q: Progress, r: Progress, f: Fence, inside: seq<Vehicle>, ws: seq<Watch>, w: Watch)
    requires Evaluated(p, q, f, inside, ws) && Evaluated(q, r, f, inside, [w])
    requires forall x :: x in ws ==> x.id != w.id
    ensures Evaluated(p, r, f, inside, ws + [w])
  {
    hide Judge;
    var all := ws + [w];
    assert forall x :: x in ws ==> x in all;
    assert w in [w] && w in all;
    forall id
      ensures Reported(r.t.events, |p.t.events|, id) <==>
                Reported(q.t.events, |p.t.events|, id) || Reported(r.t.events, |q.t.events|, id)
    {
      if i :| |p.t.events| <= i < |q.t.events| && q.t.events[i].watchId == id {
        assert r.t.events[i] == q.t.events[i];
      }
    }
    forall x | x in ws
      ensures !Reported(r.t.events, |q.t.events|, x.id)
    {
      assert forall i :: |q.t.events| <= i < |r.t.events| ==> r.t.events[i].watchId == w.id by {
        assert forall i :: |q.t.events| <= i < |r.t.events| ==> Named([w], r.t.events[i].watchId);
      }
    }
    assert forall i :: |p.t.events| <= i < |q.t.events| ==> q.t.events[i].watchId != w.id;
  }

  lemma EvaluatedSkip(p: Progress, q: Progress, f: Fence, inside: seq<Vehicle>, ws: seq<Watch>, w: Watch)
    requires Evaluated(p, q, f, inside, ws) && w.fenceId != f.id
    ensures Evaluated(p, q, f, inside, ws + [w])
  {
    hide Judge;
    var all := ws + [w];
    assert forall x :: x in ws ==> x in all;
  }

  lemma {:induction false} LastEvaluation(f: Fence, inside: seq<Vehicle>, ws: seq<Watch>)
    requires |ws| > 0
    ensures ws == Front(ws) + [Last(ws)] && |Front(ws)| == |ws| - 1
    ensures FilterMap(ws, EvaluateFor(f, inside))
            == FilterMap(Front(ws), EvaluateFor(f, inside))
               + if Last(ws).fenceId == f.id then [Evaluate(f, Last(ws), inside)] else []
  {
    hide FilterMap;
    assert ws == Front(ws) + [Last(ws)];
    FilterMapSnoc(Front(ws), Last(ws), EvaluateFor(f, inside));
  }

  lemma DistinctFront(ws: seq<Watch>)
    requires DistinctWatches(ws) && |ws| > 0
    ensures DistinctWatches(Front(ws)) && forall x :: x in Front(ws) ==> x.id != Last(ws).id
  {}

  lemma NoEvaluations(s: Settings, now: int, p: Progress, f: Fence, inside: seq<Vehicle>)
    ensures ExecAll(s, now, p, FilterMap([], EvaluateFor(f, inside))) == p
  {}

  lemma {:induction false} EvaluationsRun(s: Settings, now: int, p: Progress, f: Fence, inside: seq<Vehicle>, ws: seq<Watch>)
    requires DistinctWatches(ws) && !p.failed
    requires !ExecAll(s, now, p, FilterMap(ws, EvaluateFor(f, inside))).failed
    ensures Evaluated(p, ExecAll(s, now, p, FilterMap(ws, EvaluateFor(f, inside))), f, inside, ws)
    decreases |ws|
  {
    hide *;
    if |ws| == 0 {
      assert ws == [];
      NoEvaluations(s, now, p, f, inside);
      EvaluatedNone(p, f, inside);
    } else {
      var before, w := Front(ws), Last(ws);
      var plan := FilterMap(before, EvaluateFor(f, inside));
      var q := ExecAll(s, now, p, plan);
      LastEvaluation(f, inside, ws);
      DistinctFront(ws);
      if w.fenceId != f.id {
        assert plan + [] == plan;
        EvaluationsRun(s, now, p, f, inside, before);
        EvaluatedSkip(p, q, f, inside, before, w);
      } else {
        var i := Evaluate(f, w, inside);
        ExecAllSnoc(s, now, p, plan, i);
        FailedStays(s, now, q, i);
        EvaluationsRun(s, now, p, f, inside, before);
        EvaluatedOne(s, now, q, f, inside, w);
        EvaluatedThen(p, q, Exec(s, now, q, i), f, inside, before, w);
      }
    }
  }

  /** A watch that has just fired: it stays armed only if it repeats. */
  function Marked(w: Watch, now: int): Watch {
    w.(firedAt := Some(Unix(now)), state := if w.repeats then Armed else Fired)
  }

  /** From `p` to `q` just the watches with a new event changed, and were armed. */
  ghost predicate RowsMarked(now: int, p: Progress, q: Progress) {
    && q.t.watches.Keys == p.t.watches.Keys && p.t.events <= q.t.events
    && forall id :: id in p.t.watches ==>
         if Reported(q.t.events, |p.t.events|, id) then IsArmed(p.t, id) && q.t.watches[id] == Marked(p.t.watches[id], now)
         else q.t.watches[id] == p.t.watches[id]
  }

  /** The event says which watch fired, when, where, on how many matches and on what. */
  ghost predicate Tells(now: int, f: Fence, inside: seq<Vehicle>, dark: seq<string>, w: Watch, e: Event) {
    && Judge(w, inside, dark).Hit?
    && e == Event(w.id, Unix(now),
                  Notification(w.id, w.kind, now, f, |FilterMap(inside, Wanted(w))|, Judge(w, inside, dark).vehicles))
  }

  /** The event is of one of the watches, on this fence. */
  ghost predicate ToldOf(now: int, f: Fence, inside: seq<Vehicle>, dark: seq<string>, ws: seq<Watch>, e: Event) {
    exists w :: w in ws && w.fenceId == f.id && Tells(now, f, inside, dark, w, e)
  }

  /** And so is every new event. */
  ghost predicate AllTold(now: int, p: Progress, q: Progress, f: Fence, inside: seq<Vehicle>, dark: seq<string>, ws: seq<Watch>) {
    && p.t.events <= q.t.events
    && forall i :: |p.t.events| <= i < |q.t.events| ==> ToldOf(now, f, inside, dark, ws, q.t.events[i])
  }

  lemma EvaluationDoes(s: Settings, now: int, p: Progress, f: Fence, inside: seq<Vehicle>, w: Watch)
    requires !p.failed && !Exec(s, now, p, Evaluate(f, w, inside)).failed
    ensures var q, verdict := Exec(s, now, p, Evaluate(f, w, inside)), Judge(w, inside, p.dark);
            if verdict.Hit? && IsArmed(p.t, w.id) then
              && q.t.events == p.t.events + [Event(w.id, Unix(now), Message(now, f, w, inside, verdict.vehicles))]
              && q.t.watches == p.t.watches[w.id := Marked(p.t.watches[w.id], now)]
            else q.t == p.t
  {
    hide FilterMap, Judge, Message;
  }

  lemma OneMark(now: int, p: Progress, q: Progress, id: string, e: Event)
    requires IsArmed(p.t, id) && e.watchId == id
    requires q.t.events == p.t.events + [e] && q.t.watches == p.t.watches[id := Marked(p.t.watches[id], now)]
    ensures RowsMarked(now, p, q)
  {
    assert q.t.events[|p.t.events|].watchId == id;
    assert forall i :: |p.t.events| <= i < |q.t.events| ==> q.t.events[i] == e;
    hide Marked;
  }

  lemma NothingMarked(now: int, p: Progress, q: Progress)
    requires q.t.events == p.t.events && q.t.watches == p.t.watches
    ensures RowsMarked(now, p, q)
  {}

  lemma MarkedOne(s: Settings, now: int, p: Progress, f: Fence, inside: seq<Vehicle>, w: Watch)
    requires !p.failed && !Exec(s, now, p, Evaluate(f, w, inside)).failed && w.fenceId == f.id
    ensures var q := Exec(s, now, p, Evaluate(f, w, inside));
            RowsMarked(now, p, q) && AllTold(now, p, q, f, inside, p.dark, [w])
  {
    var q := Exec(s, now, p, Evaluate(f, w, inside));
    EvaluationDoes(s, now, p, f, inside, w);
    hide FilterMap, Judge, RowsMarked, Exec;
    if Judge(w, inside, p.dark).Hit? && IsArmed(p.t, w.id) {
      OneMark(now, p, q, w.id, q.t.events[|p.t.events|]);
      assert w in [w] && Tells(now, f, inside, p.dark, w, q.t.events[|p.t.events|]);
    } else {
      NothingMarked(now, p, q);
    }
  }

  lemma ReportedThen(a: seq<Event>, b: seq<Event>, c: seq<Event>, id: string)
    requires a <= b && b <= c
    ensures Reported(c, |a|, id) <==> Reported(b, |a|, id) || Reported(c, |b|, id)
  {
    assert forall i :: 0 <= i < |b| ==> c[i] == b[i];
    if i :| |a| <= i < |b| && b[i].watchId == id {
      assert c[i].watchId == id;
    }
  }

  lemma RowsMarkedThen(now: int, p: Progress, q: Progress, r: Progress)
    requires RowsMarked(now, p, q) && RowsMarked(now, q, r)
    ensures RowsMarked(now, p, r)
  {
    hide Reported;
    forall id
      ensures Reported(r.t.events, |p.t.events|, id) <==> Reported(q.t.events, |p.t.events|, id) || Reported(r.t.events, |q.t.events|, id)
    {
      ReportedThen(p.t.events, q.t.events, r.t.events, id);
    }
  }

  lemma ToldOfMore(now: int, f: Fence, inside: seq<Vehicle>, dark: seq<string>, some: seq<Watch>, all: seq<Watch>, e: Event)
    requires ToldOf(now, f, inside, dark, some, e) && forall w :: w in some ==> w in all
    ensures ToldOf(now, f, inside, dark, all, e)
  {
    var w :| w in some && w.fenceId == f.id && Tells(now, f, inside, dark, w, e);
    assert w in all;
  }

  lemma AllToldThen(now: int, p: Progress, q: Progress, r: Progress, f: Fence, inside: seq<Vehicle>, dark: seq<string>,
                    ws: seq<Watch>, w: Watch)
    requires AllTold(now, p, q, f, inside, dark, ws) && AllTold(now, q, r, f, inside, dark, [w])
    ensures AllTold(now, p, r, f, inside, dark, ws + [w])
  {
    hide ToldOf;
    forall i | |p.t.events| <= i < |r.t.events|
      ensures ToldOf(now, f, inside, dark, ws + [w], r.t.events[i])
    {
      if i < |q.t.events| {
        assert r.t.events[i] == q.t.events[i];
        ToldOfMore(now, f, inside, dark, ws, ws + [w], q.t.events[i]);
      } else {
        ToldOfMore(now, f, inside, dark, [w], ws + [w], r.t.events[i]);
      }
    }
  }

  lemma AllToldSkip(now: int, p: Progress, q: Progress, f: Fence, inside: seq<Vehicle>, dark: seq<string>, ws: seq<Watch>, w: Watch)
    requires AllTold(now, p, q, f, inside, dark, ws)
    ensures AllTold(now, p, q, f, inside, dark, ws + [w])
  {
    hide ToldOf;
    forall i | |p.t.events| <= i < |q.t.events|
      ensures ToldOf(now, f, inside, dark, ws + [w], q.t.events[i])
    {
      ToldOfMore(now, f, inside, dark, ws, ws + [w], q.t.events[i]);
    }
  }

  lemma NothingTold(now: int, p: Progress, f: Fence, inside: seq<Vehicle>, dark: seq<string>)
    ensures RowsMarked(now, p, p) && AllTold(now, p, p, f, inside, dark, [])
  {}

  lemma {:induction false} EvaluationsMark(s: Settings, now: int, p: Progress, f: Fence, inside: seq<Vehicle>, ws: seq<Watch>)
    requires !p.failed && !ExecAll(s, now, p, FilterMap(ws, EvaluateFor(f, inside))).failed
    ensures var q := ExecAll(s, now, p, FilterMap(ws, EvaluateFor(f, inside)));
            q.dark == p.dark && RowsMarked(now, p, q) && AllTold(now, p, q, f, inside, p.dark, ws)
    decreases |ws|
  {
    hide *;
    if |ws| == 0 {
      assert ws == [];
      NoEvaluations(s, now, p, f, inside);
      NothingTold(now, p, f, inside, p.dark);
    } else {
      var before, w := Front(ws), Last(ws);
      var plan := FilterMap(before, EvaluateFor(f, inside));
      var q := ExecAll(s, now, p, plan);
      LastEvaluation(f, inside, ws);
      if w.fenceId != f.id {
        assert plan + [] == plan;
        EvaluationsMark(s, now, p, f, inside, before);
        AllToldSkip(now, p, q, f, inside, p.dark, before, w);
      } else {
        var i := Evaluate(f, w, inside);
        ExecAllSnoc(s, now, p, plan, i);
        FailedStays(s, now, q, i);
        EvaluationsMark(s, now, p, f, inside, before);
        EvaluationKeepsHealth(s, now, q, i);
        MarkedOne(s, now, q, f, inside, w);
        RowsMarkedThen(now, p, q, Exec(s, now, q, i));
        AllToldThen(now, p, q, Exec(s, now, q, i), f, inside, p.dark, before, w);
      }
    }
  }

  // ---------------------------------------------------------------------
  // The plan of a fence
  // ---------------------------------------------------------------------

  /** Everything before the health check leaves events and watches alone, so the
      plan of a fence fires just the watches judged due by the health of the feeds
      after its own lookup. */
  lemma FencePlanFires(c: Context, p: Progress, f: Fence, vs: seq<Vehicle>, o: Orders)
    requires DistinctWatches(c.watches) && !ExecAll(c.s, c.now, p, FencePlan(c, f, vs, o)).failed
    ensures var q := ExecAll(c.s, c.now, p, FencePlan(c, f, vs, o));
            var inside := FilterMap(vs, Rebase(c.dist, f));
            && p.t.events <= q.t.events
            && (forall i :: |p.t.events| <= i < |q.t.events| ==> q.t.events[i].payload.fence == f)
            && forall w :: w in c.watches && w.fenceId == f.id ==>
                 (Reported(q.t.events, |p.t.events|, w.id) <==>
                    && IsArmed(p.t, w.id)
                    && Judge(w, inside, Sorted(DarkOperators(q.t.readings, f.id, c.now, 0))).Hit?)
  {
    var inside := FilterMap(vs, Rebase(c.dist, f));
    var begin, near := FencePlanStart(f, inside, o.counts), NearestPlan(c, f, inside, o.closest);
    var evals := FilterMap(c.watches, EvaluateFor(f, inside));
    hide Exec, ExecAll, FencePlan, FencePlanStart, NearestPlan, FilterMap, Without, DarkOperators, Judge, DistinctWatches;
    FencePlanRuns(c, f, vs, o, p);
    StartHasNoEvaluation(c, f, inside, o);
    var a := ExecAll(c.s, c.now, p, begin);
    var b := ExecAll(c.s, c.now, a, near);
    var h := Exec(c.s, c.now, b, Health(f.id));
    RunKeepsEvents(c.s, c.now, p, begin);
    RunKeepsEvents(c.s, c.now, a, near);
    RunFailedStays(c.s, c.now, h, evals);
    FailedStays(c.s, c.now, b, Health(f.id));
    HealthFinds(c.s, c.now, b, f.id);
    EvaluationsRun(c.s, c.now, h, f, inside, c.watches);
  }

  lemma HealthKeeps(s: Settings, now: int, p: Progress, f: string)
    ensures Exec(s, now, p, Health(f)).t == p.t
  {
    hide DarkOperators;
  }

  lemma SameStart(now: int, p: Progress, h: Progress, q: Progress, f: Fence, inside: seq<Vehicle>, dark: seq<string>, ws: seq<Watch>)
    requires h.t.events == p.t.events && h.t.watches == p.t.watches
    requires RowsMarked(now, h, q) && AllTold(now, h, q, f, inside, dark, ws)
    ensures RowsMarked(now, p, q) && AllTold(now, p, q, f, inside, dark, ws)
  {
    hide ToldOf, Reported;
  }

  /** The plan of a fence marks just the watches it reports, and every event tells of
      a watch of this fence, judged by the health of the feeds after its lookup. */
  lemma FencePlanMarks(c: Context, p: Progress, f: Fence, vs: seq<Vehicle>, o: Orders)
    requires !ExecAll(c.s, c.now, p, FencePlan(c, f, vs, o)).failed
    ensures var q := ExecAll(c.s, c.now, p, FencePlan(c, f, vs, o));
            && RowsMarked(c.now, p, q)
            && AllTold(c.now, p, q, f, FilterMap(vs, Rebase(c.dist, f)), Sorted(DarkOperators(q.t.readings, f.id, c.now, 0)), c.watches)
  {
    var inside := FilterMap(vs, Rebase(c.dist, f));
    var begin, near := FencePlanStart(f, inside, o.counts), NearestPlan(c, f, inside, o.closest);
    var evals := FilterMap(c.watches, EvaluateFor(f, inside));
    forall i | i in evals
      ensures i.Evaluate?
    {
      FilterMapMember(c.watches, EvaluateFor(f, inside), i);
    }
    hide *;
    FencePlanRuns(c, f, vs, o, p);
    StartHasNoEvaluation(c, f, inside, o);
    var a := ExecAll(c.s, c.now, p, begin);
    var b := ExecAll(c.s, c.now, a, near);
    var h := Exec(c.s, c.now, b, Health(f.id));
    RunKeepsEvents(c.s, c.now, p, begin);
    RunKeepsEvents(c.s, c.now, a, near);
    RunFailedStays(c.s, c.now, h, evals);
    FailedStays(c.s, c.now, b, Health(f.id));
    HealthFinds(c.s, c.now, b, f.id);
    EvaluationsKeepHealth(c.s, c.now, h, evals);
    EvaluationsMark(c.s, c.now, h, f, inside, c.watches);
    HealthKeeps(c.s, c.now, b, f.id);
    SameStart(c.now, p, h, ExecAll(c.s, c.now, h, evals), f, inside, h.dark, c.watches);
  }

  /** In the plan of its fence a scarcity watch fires exactly when it is armed, no
      feed it depends on is dark by the readings of the fence, those of this very
      lookup included, and few enough vehicles match. */
  lemma ScarcityFiresExactlyInPlan(c: Context, p: Progress, f: Fence, vs: seq<Vehicle>, o: Orders, w: Watch)
    requires DistinctWatches(c.watches) && !ExecAll(c.s, c.now, p, FencePlan(c, f, vs, o)).failed
    requires w in c.watches && w.fenceId == f.id && w.kind == Scarcity
    ensures var q := ExecAll(c.s, c.now, p, FencePlan(c, f, vs, o));
            Reported(q.t.events, |p.t.events|, w.id) <==>
              && IsArmed(p.t, w.id)
              && NoneDark(w, DarkOperators(q.t.readings, f.id, c.now, 0))
              && |FilterMap(FilterMap(vs, Rebase(c.dist, f)), Wanted(w))| <= w.threshold
  {
    hide ExecAll, FencePlan, FilterMap, DarkOperators, Judge, NoneDark;
    FencePlanFires(c, p, f, vs, o);
    JudgedBySet(w, FilterMap(vs, Rebase(c.dist, f)),
                DarkOperators(ExecAll(c.s, c.now, p, FencePlan(c, f, vs, o)).t.readings, f.id, c.now, 0));
  }

  /** And an appearance watch exactly when it is armed and a matching vehicle is
      not in its baseline, whatever feeds are dark. */
  lemma AppearanceFiresExactlyInPlan(c: Context, p: Progress, f: Fence, vs: seq<Vehicle>, o: Orders, w: Watch)
    requires DistinctWatches(c.watches) && !ExecAll(c.s, c.now, p, FencePlan(c, f, vs, o)).failed
    requires w in c.watches && w.fenceId == f.id && w.kind == Appearance
    ensures var q := ExecAll(c.s, c.now, p, FencePlan(c, f, vs, o));
            Reported(q.t.events, |p.t.events|, w.id) <==>
              && IsArmed(p.t, w.id)
              && exists v :: v in FilterMap(vs, Rebase(c.dist, f)) && Wanted(w)(v).Some? && v.id !in w.baseline
  {
    hide ExecAll, FencePlan, FilterMap, DarkOperators, Judge;
    FencePlanFires(c, p, f, vs, o);
    AppearanceIsExact(w, FilterMap(vs, Rebase(c.dist, f)),
                      Sorted(DarkOperators(ExecAll(c.s, c.now, p, FencePlan(c, f, vs, o)).t.readings, f.id, c.now, 0)));
  }
}
