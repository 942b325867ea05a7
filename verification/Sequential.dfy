/** The ticks of `Poller` are ticks of `Lifecycle`: their plans are among those a
    snapshot allows, and a tick that nothing interrupts does what its plan does
    in one go. */
module Sequential {
  import opened Base
  import opened Geo
  import opened Entur
  import opened Strings
  import opened Schema
  import opened Poll
  import opened Plan
  import opened Isolation
  import opened Lifecycle

  // ---------------------------------------------------------------------
  // Real plans
  // ---------------------------------------------------------------------

  function EvaluatedId(): Instr -> Option<string> {
    (i: Instr) => if i.Evaluate? then Some(i.watch.id) else None
  }

  function IdAt(f: Fence): Watch -> Option<string> {
    (w: Watch) => if w.fenceId == f.id then Some(w.id) else None
  }

  lemma {:induction false} DistinctIdsOnce(plan: seq<Instr>)
    requires Distinct(FilterMap(plan, EvaluatedId()))
    ensures OncePerWatch(plan)
  {
    if |plan| > 0 {
      var before, i := Front(plan), Last(plan);
      var ids := FilterMap(before, EvaluatedId());
      assert FilterMap(plan, EvaluatedId()) == ids + ToSeq(EvaluatedId()(i));
      assert forall j :: 0 <= j < |ids| ==> ids[j] == FilterMap(plan, EvaluatedId())[j];
      DistinctIdsOnce(before);
      forall j | 0 <= j < |before| && before[j].Evaluate? && i.Evaluate?
        ensures before[j].watch.id != i.watch.id
      {
        FilterMapMember(before, EvaluatedId(), before[j].watch.id);
        assert before[j] in before && EvaluatedId()(before[j]) == Some(before[j].watch.id);
        assert before[j].watch.id in ids;
        assert (ids + [i.watch.id])[|ids|] == i.watch.id;
      }
      assert forall j :: 0 <= j < |before| ==> plan[j] == before[j];
    }
  }

  lemma WithoutHasNoIds(plan: seq<Instr>)
    requires Without(plan, Evaluations())
    ensures FilterMap(plan, EvaluatedId()) == []
  {
    forall i | i in plan
      ensures EvaluatedId()(i).None?
    {
      assert !Evaluations()(i);
    }
    FilterMapNothing(plan, EvaluatedId());
  }

  /** The plan of a fence evaluates the watches on it, in order. */
  lemma FencePlanIds(c: Context, f: Fence, vs: seq<Vehicle>, o: Orders)
    ensures FilterMap(FencePlan(c, f, vs, o), EvaluatedId()) == FilterMap(c.watches, IdAt(f))
  {
    var inside := FilterMap(vs, Rebase(c.dist, f));
    var begin, near := FencePlanStart(f, inside, o.counts), NearestPlan(c, f, inside, o.closest);
    var health, evals := [Health(f.id)], FilterMap(c.watches, EvaluateFor(f, inside));
    assert FencePlan(c, f, vs, o) == begin + (near + (health + evals));
    FilterMapSnoc([], Health(f.id), EvaluatedId());
    assert [] + [Health(f.id)] == health;
    assert FilterMap(health, EvaluatedId()) == [];
    forall w | w in c.watches
      ensures Then(EvaluateFor(f, inside), EvaluatedId())(w) == IdAt(f)(w)
    {}
    StartHasNoEvaluation(c, f, inside, o);
    hide FencePlan, FencePlanStart, NearestPlan, FilterMap, Without;
    WithoutHasNoIds(begin);
    WithoutHasNoIds(near);
    FilterMapConcat(begin, near + (health + evals), EvaluatedId());
    FilterMapConcat(near, health + evals, EvaluatedId());
    FilterMapConcat(health, evals, EvaluatedId());
    FilterMapThen(c.watches, EvaluateFor(f, inside), EvaluatedId());
    FilterMapSame(c.watches, Then(EvaluateFor(f, inside), EvaluatedId()), IdAt(f));
  }

  lemma IdsTogether(a: seq<string>, b: seq<string>)
    requires Distinct(a) && Distinct(b) && forall x :: x in a ==> x !in b
    ensures Distinct(a + b)
  {
    forall i, j | 0 <= i < j < |a + b|
      ensures (a + b)[i] != (a + b)[j]
    {
      if i < |a| <= j {
        assert a[i] in a && b[j - |a|] in b;
      }
    }
  }

  lemma {:induction false} IdsAtAreDistinct(ws: seq<Watch>, f: Fence)
    requires DistinctWatches(ws)
    ensures Distinct(FilterMap(ws, IdAt(f)))
    ensures forall x :: x in FilterMap(ws, IdAt(f)) ==> exists w :: w in ws && w.id == x && w.fenceId == f.id
  {
    if |ws| > 0 {
      var before, w := Front(ws), Last(ws);
      assert ws == before + [w];
      assert forall i :: 0 <= i < |before| ==> before[i] == ws[i];
      IdsAtAreDistinct(before, f);
      assert forall x :: x in before ==> x.id != w.id;
      IdsTogether(FilterMap(before, IdAt(f)), ToSeq(IdAt(f)(w)));
    }
  }

  /** Where the watches a list of visits evaluates may be. */
  ghost predicate OnVisited(ws: seq<Watch>, work: seq<Visit>, ids: seq<string>) {
    forall x :: x in ids ==>
      exists w, k :: w in ws && w.id == x && 0 <= k < |work| && work[k].AtFence? && work[k].fence.id == w.fenceId
  }

  ghost predicate DistinctVisits(work: seq<Visit>) {
    forall i, j :: 0 <= i < j < |work| && work[i].AtFence? && work[j].AtFence? ==> work[i].fence.id != work[j].fence.id
  }

  lemma PieceIds(c: Context, v: Visit, piece: seq<Instr>)
    requires IsPiece(c, v, piece)
    ensures FilterMap(piece, EvaluatedId()) == if v.AtFence? then FilterMap(c.watches, IdAt(v.fence)) else []
  {
    match v
    case OpenGroup(truncated) =>
      FilterMapSnoc([], Open(truncated), EvaluatedId());
      assert [] + [Open(truncated)] == piece;
    case AtFence(f, vs) =>
      var o :| ValidOrders(c, f, vs, o) && piece == FencePlan(c, f, vs, o);
      FencePlanIds(c, f, vs, o);
  }

  lemma SameWatch(ws: seq<Watch>, w: Watch, u: Watch)
    requires DistinctWatches(ws) && w in ws && u in ws && w.id == u.id
    ensures w == u
  {}

  lemma NewIds(ws: seq<Watch>, work: seq<Visit>, a: seq<string>, b: seq<string>)
    requires |work| > 0 && DistinctVisits(work) && DistinctWatches(ws) && OnVisited(ws, Front(work), a)
    requires forall x :: x in b ==> Last(work).AtFence? && exists w :: w in ws && w.id == x && w.fenceId == Last(work).fence.id
    ensures forall x :: x in a ==> x !in b
    ensures OnVisited(ws, work, a + b)
  {
    forall x | x in a
      ensures x !in b
      ensures exists w, k :: w in ws && w.id == x && 0 <= k < |work| && work[k].AtFence? && work[k].fence.id == w.fenceId
    {
      var w, k :| w in ws && w.id == x && 0 <= k < |Front(work)| && Front(work)[k].AtFence? && Front(work)[k].fence.id == w.fenceId;
      assert work[k] == Front(work)[k];
      forall u | u in ws && u.id == x
        ensures u == w
      {
        SameWatch(ws, w, u);
      }
    }
    assert work[|work| - 1] == Last(work);
  }

  lemma {:induction false} PlanIds(c: Context, work: seq<Visit>, pieces: seq<seq<Instr>>)
    requires IsPlan(c, work, pieces) && DistinctVisits(work) && DistinctWatches(c.watches)
    ensures Distinct(FilterMap(Concat(pieces), EvaluatedId()))
    ensures OnVisited(c.watches, work, FilterMap(Concat(pieces), EvaluatedId()))
  {
    if |work| > 0 {
      var before, v, piece := Concat(Front(pieces)), Last(work), Last(pieces);
      PlanIds(c, Front(work), Front(pieces));
      PieceIds(c, v, piece);
      FilterMapConcat(before, piece, EvaluatedId());
      var a, b := FilterMap(before, EvaluatedId()), FilterMap(piece, EvaluatedId());
      if v.AtFence? {
        IdsAtAreDistinct(c.watches, v.fence);
      }
      hide IsPiece, FilterMap;
      NewIds(c.watches, work, a, b);
      IdsTogether(a, b);
    }
  }

  lemma {:induction false} VisitsAt(fs: seq<Fence>, vs: seq<Vehicle>)
    ensures |VisitsOf(fs, vs)| == |fs| && forall k :: 0 <= k < |fs| ==> VisitsOf(fs, vs)[k] == AtFence(fs[k], vs)
  {
    if |fs| > 0 {
      VisitsAt(Front(fs), vs);
    }
  }

  ghost predicate VisitsIn(work: seq<Visit>, fs: seq<Fence>) {
    forall v :: v in work && v.AtFence? ==> v.fence in fs
  }

  lemma VisitsTogether(a: seq<Visit>, fs: seq<Fence>, b: seq<Visit>, gs: seq<Fence>)
    requires DistinctIds(fs + gs) && DistinctVisits(a) && DistinctVisits(b) && VisitsIn(a, fs) && VisitsIn(b, gs)
    ensures DistinctVisits(a + b) && VisitsIn(a + b, fs + gs)
  {
    var all := fs + gs;
    forall i, j | 0 <= i < |a| && 0 <= j < |b| && a[i].AtFence? && b[j].AtFence?
      ensures a[i].fence.id != b[j].fence.id
    {
      assert a[i] in a && b[j] in b;
      var m :| 0 <= m < |fs| && fs[m] == a[i].fence;
      var n :| 0 <= n < |gs| && gs[n] == b[j].fence;
      assert all[m] == fs[m] && all[|fs| + n] == gs[n];
    }
  }

  lemma DistinctParts(fs: seq<Fence>, gs: seq<Fence>)
    requires DistinctIds(fs + gs)
    ensures DistinctIds(fs) && DistinctIds(gs)
  {
    var all := fs + gs;
    assert forall i :: 0 <= i < |fs| ==> fs[i] == all[i];
    assert forall i :: 0 <= i < |gs| ==> gs[i] == all[|fs| + i];
  }

  lemma GroupVisits(g: Group, answer: FetchResult)
    requires DistinctIds(g.fences)
    ensures DistinctVisits(VisitGroup(g, answer)) && VisitsIn(VisitGroup(g, answer), g.fences)
  {
    if answer.Fetched? {
      var rest := VisitsOf(g.fences, answer.vehicles);
      VisitsAt(g.fences, answer.vehicles);
      assert VisitGroup(g, answer) == [OpenGroup(answer.truncated)] + rest;
      hide VisitsOf;
      forall v | v in VisitGroup(g, answer) && v.AtFence?
        ensures v.fence in g.fences
      {
        var k :| 0 <= k < |rest| && rest[k] == v;
      }
    }
  }

  lemma {:induction false} WorkVisits(gs: seq<Group>, answers: seq<FetchResult>)
    requires |gs| == |answers| && DistinctIds(Members(gs))
    ensures DistinctVisits(Work(gs, answers)) && VisitsIn(Work(gs, answers), Members(gs))
  {
    if |gs| > 0 {
      hide DistinctVisits, VisitsIn, DistinctIds, VisitGroup;
      DistinctParts(Members(Front(gs)), Last(gs).fences);
      WorkVisits(Front(gs), Front(answers));
      GroupVisits(Last(gs), Last(answers));
      VisitsTogether(Work(Front(gs), Front(answers)), Members(Front(gs)), VisitGroup(Last(gs), Last(answers)), Last(gs).fences);
    }
  }

  lemma {:induction false} ConcatMember(pieces: seq<seq<Instr>>, i: Instr) returns (k: nat)
    requires i in Concat(pieces)
    ensures k < |pieces| && i in pieces[k]
  {
    if i in Last(pieces) {
      k := |pieces| - 1;
    } else {
      k := ConcatMember(Front(pieces), i);
    }
  }

  lemma PieceEvaluates(c: Context, v: Visit, piece: seq<Instr>, i: Instr)
    requires IsPiece(c, v, piece) && i in piece && i.Evaluate?
    ensures v.AtFence? && i.at == v.fence && i.watch in c.watches && i.watch.fenceId == i.at.id
  {
    if v.AtFence? {
      var f, vs := v.fence, v.vehicles;
      var o :| ValidOrders(c, f, vs, o) && piece == FencePlan(c, f, vs, o);
      var inside := FilterMap(vs, Rebase(c.dist, f));
      var begin, near := FencePlanStart(f, inside, o.counts), NearestPlan(c, f, inside, o.closest);
      var evals := FilterMap(c.watches, EvaluateFor(f, inside));
      StartHasNoEvaluation(c, f, inside, o);
      assert piece == begin + (near + ([Health(f.id)] + evals));
      hide FencePlanStart, NearestPlan, FilterMap, FencePlan, ValidOrders;
      assert Evaluations()(i);
      assert i in evals;
      FilterMapMember(c.watches, EvaluateFor(f, inside), i);
    }
  }

  lemma CheckedTogether(a: seq<Instr>, b: seq<Instr>)
    requires Checked(a) && Checked(b)
    ensures Checked(a + b)
  {
    var all := a + b;
    forall j | 0 <= j < |all| && all[j].Evaluate?
      ensures CheckedAt(all, j)
    {
      if j < |a| {
        assert CheckedAt(a, j);
        var h :| 0 <= h < j && a[h] == Health(a[j].watch.fenceId) && forall m :: h < m < j ==> !a[m].Health?;
        assert all[h] == a[h] && forall m :: h < m < j ==> all[m] == a[m];
      } else {
        assert CheckedAt(b, j - |a|);
        var h :| 0 <= h < j - |a| && b[h] == Health(b[j - |a|].watch.fenceId) && forall m :: h < m < j - |a| ==> !b[m].Health?;
        assert all[|a| + h] == b[h] && forall m :: |a| + h < m < j ==> all[m] == b[m - |a|];
      }
    }
  }

  lemma CheckedFence(f: string, begin: seq<Instr>, evals: seq<Instr>)
    requires Without(begin, Evaluations())
    requires forall i :: i in evals ==> i.Evaluate? && i.watch.fenceId == f
    ensures Checked(begin + ([Health(f)] + evals))
  {
    var all := begin + ([Health(f)] + evals);
    assert all[|begin|] == Health(f);
    forall j | 0 <= j < |begin|
      ensures !all[j].Evaluate?
    {
      assert all[j] in begin && Evaluations()(all[j]) == all[j].Evaluate?;
    }
    forall m | |begin| < m < |all|
      ensures all[m].Evaluate? && all[m].watch.fenceId == f
    {
      assert all[m] == evals[m - |begin| - 1];
    }
    forall j | 0 <= j < |all| && all[j].Evaluate?
      ensures CheckedAt(all, j)
    {}
  }

  lemma WithoutTogether(a: seq<Instr>, b: seq<Instr>)
    requires Without(a, Evaluations()) && Without(b, Evaluations())
    ensures Without(a + b, Evaluations())
  {}

  lemma EvaluationsAreHere(c: Context, f: Fence, inside: seq<Vehicle>, i: Instr)
    requires i in FilterMap(c.watches, EvaluateFor(f, inside))
    ensures i.Evaluate? && i.watch.fenceId == f.id
  {
    FilterMapMember(c.watches, EvaluateFor(f, inside), i);
  }

  lemma FencePlanIsChecked(c: Context, f: Fence, vs: seq<Vehicle>, o: Orders)
    ensures Checked(FencePlan(c, f, vs, o))
  {
    hide FencePlanStart, NearestPlan, FilterMap, Without, Checked;
    var inside := FilterMap(vs, Rebase(c.dist, f));
    var begin, near := FencePlanStart(f, inside, o.counts), NearestPlan(c, f, inside, o.closest);
    var evals := FilterMap(c.watches, EvaluateFor(f, inside));
    assert FencePlan(c, f, vs, o) == (begin + near) + ([Health(f.id)] + evals);
    hide FencePlan;
    StartHasNoEvaluation(c, f, inside, o);
    WithoutTogether(begin, near);
    forall i | i in evals
      ensures i.Evaluate? && i.watch.fenceId == f.id
    {
      EvaluationsAreHere(c, f, inside, i);
    }
    CheckedFence(f.id, begin + near, evals);
  }

  lemma PieceIsChecked(c: Context, v: Visit, piece: seq<Instr>)
    requires IsPiece(c, v, piece)
    ensures Checked(piece)
  {
    hide FencePlan, ValidOrders;
    if v.AtFence? {
      var o :| ValidOrders(c, v.fence, v.vehicles, o) && piece == FencePlan(c, v.fence, v.vehicles, o);
      FencePlanIsChecked(c, v.fence, v.vehicles, o);
    }
  }

  lemma {:induction false} ConcatIsChecked(pieces: seq<seq<Instr>>)
    requires forall k :: 0 <= k < |pieces| ==> Checked(pieces[k])
    ensures Checked(Concat(pieces))
  {
    if |pieces| > 0 {
      ConcatIsChecked(Front(pieces));
      CheckedTogether(Concat(Front(pieces)), Last(pieces));
    }
  }

  /** The plan a tick decides is one its snapshot allows: whatever failed
      upstream, it evaluates each watch of the snapshot at most once, at the
      watch's own fence, right after the health check of that fence. */
  lemma RealPlansFit(c: Context, t: Tables, fs: seq<Fence>, gs: seq<Group>, answers: seq<FetchResult>,
                     pieces: seq<seq<Instr>>)
    requires IsFenceList(t, fs) && IsArmedList(t, c.now, c.watches)
    requires Members(gs) == fs && |gs| == |answers| && IsPlan(c, Work(gs, answers), pieces)
    ensures Fits(fs, c.watches, Concat(pieces))
  {
    var work := Work(gs, answers);
    FenceListHasDistinctIds(t, fs);
    WorkVisits(gs, answers);
    ArmedListHasDistinctIds(t, c.now, c.watches);
    PlanIds(c, work, pieces);
    DistinctIdsOnce(Concat(pieces));
    forall k | 0 <= k < |pieces|
      ensures Checked(pieces[k])
    {
      PieceIsChecked(c, work[k], pieces[k]);
    }
    ConcatIsChecked(pieces);
    forall i | i in Concat(pieces) && i.Evaluate?
      ensures i.at in fs && i.watch in c.watches && i.watch.fenceId == i.at.id
    {
      var k := ConcatMember(pieces, i);
      PieceEvaluates(c, work[k], pieces[k], i);
      assert work[k] in work;
    }
  }

  // ---------------------------------------------------------------------
  // An uninterrupted tick
  // ---------------------------------------------------------------------

  /** `n` steps of one tick in a row. */
  ghost function Steps(s: Settings, w: World, k: nat, n: nat): World
    decreases n
  {
    if n == 0 then w else Steps(s, Next(s, w, Step(k)), k, n - 1)
  }

  lemma {:induction false} StepsThen(s: Settings, w: World, k: nat, m: nat, n: nat)
    ensures Steps(s, w, k, m + n) == Steps(s, Steps(s, w, k, m), k, n)
    decreases m
  {
    hide Next;
    if m > 0 {
      StepsThen(s, Next(s, w, Step(k)), k, m - 1, n);
    }
  }

  /** Tables, dark feeds and failure: all that the next call looks at. */
  ghost predicate Agree(p: Progress, q: Progress) {
    p.t == q.t && p.dark == q.dark && p.failed == q.failed
  }

  lemma ExecAgrees(s: Settings, now: int, p: Progress, q: Progress, i: Instr)
    requires Agree(p, q)
    ensures Agree(Exec(s, now, p, i), Exec(s, now, q, i))
  {
    hide FilterMap, Judge, ObservePresence, Strings.Sorted, DarkOperators;
  }

  lemma ExecAllFirst(s: Settings, now: int, p: Progress, plan: seq<Instr>)
    requires |plan| > 0
    ensures ExecAll(s, now, p, plan) == ExecAll(s, now, Exec(s, now, p, plan[0]), plan[1..])
  {
    hide Exec;
    ExecAllConcat(s, now, p, [plan[0]], plan[1..]);
    assert [plan[0]] + plan[1..] == plan;
    ExecAllSnoc(s, now, p, [], plan[0]);
    assert [] + [plan[0]] == [plan[0]];
  }

  ghost predicate Doing(w: World, k: nat, now: int, todo: seq<Instr>, p: Progress) {
    && w.t == p.t && k in w.ticks && !p.failed
    && w.ticks[k] == Frame(now, Running(todo, p.dark, Nothing))
  }

  lemma OneStep(s: Settings, w: World, k: nat)
    ensures Steps(s, w, k, 1) == Next(s, w, Step(k))
  {
    hide Next;
    assert Steps(s, Next(s, w, Step(k)), k, 0) == Next(s, w, Step(k));
  }

  lemma FailureKeepsTables(s: Settings, now: int, p: Progress, i: Instr)
    requires !i.Evaluate? && Exec(s, now, p, i).failed
    ensures Exec(s, now, p, i).t == p.t
  {
    hide FilterMap, Strings.Sorted, DarkOperators, SightAll, OpenStints;
  }

  lemma HistoryCall(s: Settings, w: World, k: nat, now: int, todo: seq<Instr>, p: Progress)
    requires Doing(w, k, now, todo, p) && |todo| > 0 && !todo[0].Evaluate?
    ensures var q, v := Exec(s, now, p, todo[0]), Next(s, w, Step(k));
            if q.failed then v.t == q.t && k !in v.ticks else Doing(v, k, now, todo[1..], q)
  {
    hide Exec;
    var r := Progress(w.t, map[], p.dark, NO_REPORT, [], false);
    ExecAgrees(s, now, r, p, todo[0]);
    if Exec(s, now, p, todo[0]).failed {
      FailureKeepsTables(s, now, p, todo[0]);
    }
  }

  lemma HeldCall(s: Settings, w: World, k: nat, now: int, todo: seq<Instr>, p: Progress)
    requires Doing(w, k, now, todo, p) && |todo| > 0 && todo[0].Evaluate?
    requires Judge(todo[0].watch, todo[0].inside, p.dark).Hit? ==> MarkFired(p.t, todo[0].watch.id, now).NotFound?
    ensures var q, v := Exec(s, now, p, todo[0]), Next(s, w, Step(k));
            if q.failed then v.t == q.t && k !in v.ticks else Doing(v, k, now, todo[1..], q)
  {
    hide Judge, FilterMap;
  }

  lemma MarkedStays(t: Tables, id: string, now: int)
    requires MarkFired(t, id, now).Written?
    ensures id in MarkFired(t, id, now).t.watches
  {}

  lemma FiredCall(s: Settings, w: World, k: nat, now: int, todo: seq<Instr>, p: Progress)
    requires Doing(w, k, now, todo, p) && |todo| > 0 && todo[0].Evaluate?
    requires Judge(todo[0].watch, todo[0].inside, p.dark).Hit? && MarkFired(p.t, todo[0].watch.id, now).Written?
    ensures var q := Exec(s, now, p, todo[0]);
            var v := Next(s, Next(s, Next(s, w, Step(k)), Step(k)), Step(k));
            !q.failed && Doing(v, k, now, todo[1..], q)
  {
    hide Judge, FilterMap;
    var i := todo[0];
    var n := Message(now, i.at, i.watch, i.inside, Judge(i.watch, i.inside, p.dark).vehicles);
    var marked := MarkFired(p.t, i.watch.id, now).t;
    MarkedStays(p.t, i.watch.id, now);
    hide MarkFired, Message;
    var w1 := Next(s, w, Step(k));
    assert w1.t == marked && k in w1.ticks && w1.ticks[k] == Frame(now, Running(todo[1..], p.dark, Marked(n)));
    var w2 := Next(s, w1, Step(k));
    assert w2.t == RecordEvent(marked, s.fk, n.watchId, now, n).t && w2.ticks[k] == Frame(now, Running(todo[1..], p.dark, Recorded(n)));
  }

  lemma MarkFiredIsNeverRefused(t: Tables, id: string, now: int)
    ensures MarkFired(t, id, now).Written? || MarkFired(t, id, now).NotFound?
  {}

  /** Three steps at most do what one call of the plan does at once; if it fails,
      they end the tick with the tables as the failure left them. */
  lemma OneCall(s: Settings, w: World, k: nat, now: int, todo: seq<Instr>, p: Progress) returns (n: nat)
    requires Doing(w, k, now, todo, p) && |todo| > 0
    ensures var q, v := Exec(s, now, p, todo[0]), Steps(s, w, k, n);
            if q.failed then v.t == q.t && k !in v.ticks else Doing(v, k, now, todo[1..], q)
  {
    MarkFiredIsNeverRefused(p.t, if todo[0].Evaluate? then todo[0].watch.id else "", now);
    hide *;
    OneStep(s, w, k);
    n := 1;
    if !todo[0].Evaluate? {
      HistoryCall(s, w, k, now, todo, p);
    } else if Judge(todo[0].watch, todo[0].inside, p.dark).Hit? && MarkFired(p.t, todo[0].watch.id, now).Written? {
      var w1 := Next(s, w, Step(k));
      var w2 := Next(s, w1, Step(k));
      OneStep(s, w1, k);
      OneStep(s, w2, k);
      StepsThen(s, w, k, 1, 1);
      StepsThen(s, w, k, 2, 1);
      FiredCall(s, w, k, now, todo, p);
      n := 3;
    } else {
      HeldCall(s, w, k, now, todo, p);
    }
  }

  /** A tick that nothing interrupts ends, and leaves the tables that its plan
      leaves when it runs in one go. */
  lemma {:induction false} UninterruptedTickRunsItsPlan(s: Settings, w: World, k: nat, now: int, todo: seq<Instr>,
                                                        p: Progress)
      returns (n: nat)
    requires Doing(w, k, now, todo, p)
    ensures var v := Steps(s, w, k, n);
            k !in v.ticks && v.t == ExecAll(s, now, p, todo).t
    decreases |todo|
  {
    if |todo| == 0 {
      hide Steps;
      n := 1;
      OneStep(s, w, k);
    } else {
      hide Exec, Doing, Next;
      var m := OneCall(s, w, k, now, todo, p);
      var q := Exec(s, now, p, todo[0]);
      ExecAllFirst(s, now, p, todo);
      if q.failed {
        n := m;
        ExecAllFailed(s, now, q, todo[1..]);
      } else {
        var r := UninterruptedTickRunsItsPlan(s, Steps(s, w, k, m), k, now, todo[1..], q);
        n := m + r;
        StepsThen(s, w, k, m, r);
      }
    }
  }
}
