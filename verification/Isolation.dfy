/** What one fence of a tick can and cannot do to another
    (`internal/poll/poll.go`, `Tick`): a tick over fences that exist never stops
    half way, and what it leaves behind for a fence depends on that fence alone. */
module Isolation {
  import opened Base
  import opened Geo
  import opened Entur
  import opened Strings
  import opened Schema
  import opened Poll
  import opened Plan

  /** Every call is for the given fence, and evaluates only watches of the
      snapshot that are on it. */
  ghost predicate Local(c: Context, f: string, plan: seq<Instr>) {
    forall i :: i in plan ==>
      TargetOf(i) == Some(f) && (i.Evaluate? ==> i.watch in c.watches && i.watch.fenceId == f)
  }

  lemma LocalOne(c: Context, f: string, i: Instr)
    requires TargetOf(i) == Some(f) && !i.Evaluate?
    ensures Local(c, f, [i])
  {}

  lemma LocalTogether(c: Context, f: string, a: seq<Instr>, b: seq<Instr>)
    requires Local(c, f, a) && Local(c, f, b)
    ensures Local(c, f, a + b)
  {}

  lemma {:induction false} FilterMapLocal<T>(c: Context, f: string, xs: seq<T>, g: T -> Option<Instr>)
    requires forall x :: x in xs && g(x).Some? ==> Local(c, f, [g(x).value])
    ensures Local(c, f, FilterMap(xs, g))
  {
    if |xs| > 0 {
      FilterMapLocal(c, f, Front(xs), g);
      LocalTogether(c, f, FilterMap(Front(xs), g), ToSeq(g(Last(xs))));
    }
  }

  lemma NearestPlanIsLocal(c: Context, f: Fence, inside: seq<Vehicle>, order: seq<string>)
    ensures Local(c, f.id, NearestPlan(c, f, inside, order))
  {
    var closest := ClosestOf(inside);
    var absent := FilterMap(OPERATORS, Absent(closest));
    FilterMapLocal(c, f.id, order, NearFor(f.id, closest));
    FilterMapLocal(c, f.id, absent, ProbeFor(c, f));
    LocalOne(c, f.id, Stamp(f.id));
    assert Local(c, f.id, []);
    hide Local, FilterMap;
    LocalTogether(c, f.id, [Stamp(f.id)], FilterMap(absent, ProbeFor(c, f)));
    LocalTogether(c, f.id, FilterMap(order, NearFor(f.id, closest)), ProbePlan(c, f, closest));
  }

  lemma FencePlanParts(c: Context, f: Fence, vs: seq<Vehicle>, o: Orders)
    ensures var inside := FilterMap(vs, Rebase(c.dist, f));
            FencePlan(c, f, vs, o)
            == (FilterMap(o.counts, SampleFor(f.id, CountsOf(inside))) + [Observe(f.id, FilterMap(inside, SightingOf()))])
               + (NearestPlan(c, f, inside, o.closest) + ([Health(f.id)] + FilterMap(c.watches, EvaluateFor(f, inside))))
  {
    hide FilterMap, CountsOf, NearestPlan;
  }

  lemma FencePlanIsLocal(c: Context, f: Fence, vs: seq<Vehicle>, o: Orders)
    ensures Local(c, f.id, FencePlan(c, f, vs, o))
  {
    var inside := FilterMap(vs, Rebase(c.dist, f));
    var samples, observe := FilterMap(o.counts, SampleFor(f.id, CountsOf(inside))), Observe(f.id, FilterMap(inside, SightingOf()));
    var near, evals := NearestPlan(c, f, inside, o.closest), FilterMap(c.watches, EvaluateFor(f, inside));
    FilterMapLocal(c, f.id, o.counts, SampleFor(f.id, CountsOf(inside)));
    FilterMapLocal(c, f.id, c.watches, EvaluateFor(f, inside));
    NearestPlanIsLocal(c, f, inside, o.closest);
    LocalOne(c, f.id, observe);
    LocalOne(c, f.id, Health(f.id));
    hide *;
    assert FencePlan(c, f, vs, o) == (samples + [observe]) + (near + ([Health(f.id)] + evals)) by { FencePlanParts(c, f, vs, o); }
    LocalTogether(c, f.id, samples, [observe]);
    LocalTogether(c, f.id, [Health(f.id)], evals);
    LocalTogether(c, f.id, near, [Health(f.id)] + evals);
    LocalTogether(c, f.id, samples + [observe], near + ([Health(f.id)] + evals));
  }

  lemma PieceIsLocal(c: Context, v: Visit, piece: seq<Instr>)
    requires v.AtFence? && IsPiece(c, v, piece)
    ensures Local(c, v.fence.id, piece)
  {
    var o :| ValidOrders(c, v.fence, v.vehicles, o) && piece == FencePlan(c, v.fence, v.vehicles, o);
    FencePlanIsLocal(c, v.fence, v.vehicles, o);
  }

  // ---------------------------------------------------------------------
  // A tick over fences that exist never stops
  // ---------------------------------------------------------------------

  lemma StepNeverStops(s: Settings, now: int, p: Progress, i: Instr)
    requires !p.failed
    requires s.fk && TargetOf(i).Some? ==> TargetOf(i).value in p.t.fences
    requires i.Evaluate? ==> i.watch.kind != OtherKind
    ensures !Exec(s, now, p, i).failed
  {
    hide SightAll, OpenStints, Sorted, FilterMap, DarkOperators;
  }

  lemma {:induction false} PlanNeverStops(c: Context, p: Progress, f: string, plan: seq<Instr>)
    requires !p.failed && (c.s.fk ==> f in p.t.fences)
    requires Local(c, f, plan) && forall w :: w in c.watches ==> w.kind != OtherKind
    ensures !ExecAll(c.s, c.now, p, plan).failed
  {
    hide Exec;
    if |plan| > 0 {
      PlanNeverStops(c, p, f, Front(plan));
      ExecAllKeepsFences(c.s, c.now, p, Front(plan));
      StepNeverStops(c.s, c.now, ExecAll(c.s, c.now, p, Front(plan)), Last(plan));
    }
  }

  /** With every fence in place and every watch of a known kind, no store call
      of a sequential tick fails. */
  lemma {:induction false} TickNeverStops(c: Context, p: Progress, work: seq<Visit>, pieces: seq<seq<Instr>>)
    requires !p.failed && (c.s.fk ==> FencesExist(p, work))
    requires IsPlan(c, work, pieces) && forall w :: w in c.watches ==> w.kind != OtherKind
    ensures !Outcome(c, p, pieces).failed
  {
    hide Exec;
    if |work| > 0 {
      var v, before := Last(work), Outcome(c, p, Front(pieces));
      TickNeverStops(c, p, Front(work), Front(pieces));
      ExecAllKeepsFences(c.s, c.now, p, Concat(Front(pieces)));
      assert pieces == Front(pieces) + [Last(pieces)];
      OutcomeSnoc(c, p, Front(pieces), Last(pieces));
      if v.AtFence? {
        PieceIsLocal(c, v, Last(pieces));
        PlanNeverStops(c, before, v.fence.id, Last(pieces));
      } else {
        ExecAllSnoc(c.s, c.now, before, [], Open(v.truncated));
        assert [] + [Open(v.truncated)] == Last(pieces);
        StepNeverStops(c.s, c.now, before, Open(v.truncated));
      }
    }
  }

  // ---------------------------------------------------------------------
  // What belongs to a fence
  // ---------------------------------------------------------------------

  datatype View = View(
    samples: map<SampleKey, int>,
    stints: Stints,
    readings: Readings,
    due: Option<int>,
    watches: map<string, Watch>,
    events: seq<Event>,
    sent: seq<Notification>)

  function SamplesAt(m: map<SampleKey, int>, f: string): map<SampleKey, int> { map k | k in m && k.fence == f :: m[k] }

  function StintsAt(m: Stints, f: string): Stints { map k | k in m && k.fence == f :: m[k] }

  function ReadingsAt(m: Readings, f: string): Readings { map k | k in m && k.fence == f :: m[k] }

  function WatchesAt(m: map<string, Watch>, f: string): map<string, Watch> {
    map k | k in m && m[k].fenceId == f :: m[k]
  }

  function EventAt(f: string): Event -> Option<Event> {
    (e: Event) => if e.payload.fence.id == f then Some(e) else None
  }

  function SentAt(f: string): Notification -> Option<Notification> {
    (n: Notification) => if n.fence.id == f then Some(n) else None
  }

  /** Everything a tick keeps about a fence. */
  function ViewOf(p: Progress, f: string): View {
    View(SamplesAt(p.t.samples, f), StintsAt(p.t.stints, f), ReadingsAt(p.t.readings, f),
         if f in p.due then Some(p.due[f]) else None,
         WatchesAt(p.t.watches, f), FilterMap(p.t.events, EventAt(f)), FilterMap(p.sent, SentAt(f)))
  }

  /** The snapshot's watches are still there, on the fences they were on. */
  ghost predicate WatchesStay(t: Tables, ws: seq<Watch>) {
    forall w :: w in ws ==> w.id in t.watches && t.watches[w.id].fenceId == w.fenceId
  }

  lemma StepKeepsWatches(s: Settings, now: int, p: Progress, i: Instr, ws: seq<Watch>)
    requires WatchesStay(p.t, ws)
    ensures WatchesStay(Exec(s, now, p, i).t, ws)
  {
    hide SightAll, OpenStints, Sorted, FilterMap, DarkOperators;
  }

  lemma {:induction false} RunKeepsWatches(s: Settings, now: int, p: Progress, plan: seq<Instr>, ws: seq<Watch>)
    requires WatchesStay(p.t, ws)
    ensures WatchesStay(ExecAll(s, now, p, plan).t, ws)
  {
    hide Exec, WatchesStay;
    if |plan| > 0 {
      RunKeepsWatches(s, now, p, Front(plan), ws);
      StepKeepsWatches(s, now, ExecAll(s, now, p, Front(plan)), Last(plan), ws);
    }
  }

  // ---------------------------------------------------------------------
  // Calls for another fence
  // ---------------------------------------------------------------------

  lemma {:induction false} SightAllForeign(rows: Stints, open: map<string, int>, g: string, at: int,
                                           seen: seq<Sighting>, f: string)
    requires f != g
    ensures StintsAt(SightAll(rows, open, g, at, seen), f) == StintsAt(rows, f)
  {
    if |seen| > 0 {
      SightAllForeign(rows, open, g, at, Front(seen), f);
    }
  }

  lemma SampleForeign(m: map<SampleKey, int>, k: SampleKey, n: int, f: string)
    requires k.fence != f
    ensures SamplesAt(m[k := n], f) == SamplesAt(m, f)
  {}

  lemma ReadingForeign(m: Readings, k: ReadingKey, r: Reading, f: string)
    requires k.fence != f
    ensures ReadingsAt(m[k := r], f) == ReadingsAt(m, f)
  {}

  lemma MarkForeign(t: Tables, id: string, now: int, f: string)
    requires id in t.watches && t.watches[id].fenceId != f
    ensures MarkFired(t, id, now).Written? ==> WatchesAt(MarkFired(t, id, now).t.watches, f) == WatchesAt(t.watches, f)
  {}

  lemma FireForeign(s: Settings, now: int, p: Progress, w: Watch, n: Notification, f: string)
    requires w.fenceId != f && n.fence.id != f
    requires w.id in p.t.watches && p.t.watches[w.id].fenceId == w.fenceId
    ensures ViewOf(Fire(s, now, p, w, n), f) == ViewOf(p, f)
  {
    hide FilterMap, WatchesAt;
    FilterMapSnoc(p.t.events, Event(w.id, Unix(now), n), EventAt(f));
    FilterMapSnoc(p.sent, n, SentAt(f));
    assert ToSeq(EventAt(f)(Event(w.id, Unix(now), n))) == [] && ToSeq(SentAt(f)(n)) == [];
    MarkForeign(p.t, w.id, now, f);
  }

  lemma StepForeign(s: Settings, now: int, p: Progress, i: Instr, f: string)
    requires TargetOf(i) != Some(f)
    requires i.Evaluate? ==>
               i.watch.fenceId == i.at.id && i.watch.id in p.t.watches && p.t.watches[i.watch.id].fenceId == i.watch.fenceId
    ensures ViewOf(Exec(s, now, p, i), f) == ViewOf(p, f)
  {
    hide Fire, OpenStints, Sorted, FilterMap, DarkOperators, SightAll, SamplesAt, StintsAt, ReadingsAt, WatchesAt;
    match i
    case Observe(g, seen) =>
      SightAllForeign(p.t.stints, OpenStints(p.t.stints, g, Cutoff(now, s.stale)), g, Unix(now), seen, f);
    case Evaluate(g, w, inside) =>
      if Judge(w, inside, p.dark).Hit? {
        FireForeign(s, now, p, w, Message(now, g, w, inside, Judge(w, inside, p.dark).vehicles), f);
      }
    case Sample(g, o, n) => SampleForeign(p.t.samples, SampleKey(g, Unix(now), o), n, f);
    case Near(g, o, r) => ReadingForeign(p.t.readings, ReadingKey(g, Unix(now), o), r, f);
    case Probe(g, o, r) => if r.Some? { ReadingForeign(p.t.readings, ReadingKey(g, Unix(now), o), r.value, f); }
    case _ =>
  }

  lemma {:induction false} RunForeign(c: Context, p: Progress, g: string, plan: seq<Instr>, f: string)
    requires f != g && Local(c, g, plan) && WatchesStay(p.t, c.watches)
    ensures ViewOf(ExecAll(c.s, c.now, p, plan), f) == ViewOf(p, f)
  {
    hide Exec, ViewOf;
    if |plan| > 0 {
      RunForeign(c, p, g, Front(plan), f);
      RunKeepsWatches(c.s, c.now, p, Front(plan), c.watches);
      StepForeign(c.s, c.now, ExecAll(c.s, c.now, p, Front(plan)), Last(plan), f);
    }
  }

  // ---------------------------------------------------------------------
  // Calls for the fence itself
  // ---------------------------------------------------------------------

  lemma SampleLocal(m: map<SampleKey, int>, k: SampleKey, n: int, f: string)
    requires k.fence == f
    ensures SamplesAt(m[k := n], f) == SamplesAt(m, f)[k := n]
  {}

  lemma ReadingLocal(m: Readings, k: ReadingKey, r: Reading, f: string)
    requires k.fence == f
    ensures ReadingsAt(m[k := r], f) == ReadingsAt(m, f)[k := r]
  {}

  lemma SightLocal(rows: Stints, open: map<string, int>, f: string, at: int, x: Sighting)
    ensures StintsAt(Sight(rows, open, f, at, x), f) == Sight(StintsAt(rows, f), open, f, at, x)
  {}

  lemma {:induction false} SightAllLocal(rows: Stints, open: map<string, int>, f: string, at: int, seen: seq<Sighting>)
    ensures StintsAt(SightAll(rows, open, f, at, seen), f) == SightAll(StintsAt(rows, f), open, f, at, seen)
  {
    hide Sight, StintsAt;
    if |seen| > 0 {
      SightAllLocal(rows, open, f, at, Front(seen));
      SightLocal(SightAll(rows, open, f, at, Front(seen)), open, f, at, Last(seen));
    }
  }

  lemma OpenStintsLocal(rows: Stints, f: string, cutoff: int)
    ensures OpenStints(rows, f, cutoff) == OpenStints(StintsAt(rows, f), f, cutoff)
  {
    hide OpenStints;
    var some, all := OpenStints(StintsAt(rows, f), f, cutoff), OpenStints(rows, f, cutoff);
    OpenStintsIsOpenMap(StintsAt(rows, f), f, cutoff);
    OpenStintsIsOpenMap(rows, f, cutoff);
    OpenMapIsUnique(rows, f, cutoff, some, all);
  }

  lemma LatestIs(rows: Readings, f: string, o: string, k: ReadingKey, newest: int)
    requires k in rows && k.fence == f && k.operator == o
    requires newest in ReadingTimes(rows, f, o) && forall at :: at in ReadingTimes(rows, f, o) ==> at <= newest
    ensures ReadingKey(f, newest, o) in rows
    ensures o in LatestNearest(rows, f) && LatestNearest(rows, f)[o] == rows[ReadingKey(f, newest, o)]
  {
    var x :| x in rows && x.fence == f && x.operator == o && x.at == newest;
    assert x == ReadingKey(f, newest, o);
  }

  lemma LatestLocal(rows: Readings, f: string)
    ensures LatestNearest(rows, f) == LatestNearest(ReadingsAt(rows, f), f)
  {
    var part := ReadingsAt(rows, f);
    var some, all := LatestNearest(part, f), LatestNearest(rows, f);
    assert some.Keys == all.Keys;
    hide LatestNearest;
    forall o | o in some
      ensures some[o] == all[o]
    {
      assert ReadingTimes(rows, f, o) == ReadingTimes(part, f, o);
      var k :| k in part && k.fence == f && k.operator == o;
      assert k.at in ReadingTimes(part, f, o);
      var newest := MaxOf(ReadingTimes(part, f, o), k.at);
      LatestIs(rows, f, o, k, newest);
      LatestIs(part, f, o, k, newest);
    }
  }

  lemma DarkLocal(rows: Readings, f: string, now: int)
    ensures DarkOperators(rows, f, now, 0) == DarkOperators(ReadingsAt(rows, f), f, now, 0)
  {
    hide LatestNearest;
    LatestLocal(rows, f);
    var since := Unix(now - LookbackOf(0));
    assert forall o :: SeenSince(rows, f, o, since) <==> SeenSince(ReadingsAt(rows, f), f, o, since);
    assert HasHealthyPeer(rows, f) <==> HasHealthyPeer(ReadingsAt(rows, f), f);
  }

  /** Two moments that agree about a fence, and have not failed. */
  ghost predicate Alike(p: Progress, q: Progress, f: string) {
    !p.failed && !q.failed && ViewOf(p, f) == ViewOf(q, f)
  }

  lemma ObserveLocal(s: Settings, now: int, p: Progress, q: Progress, f: string, seen: seq<Sighting>)
    requires Alike(p, q, f)
    requires !Exec(s, now, p, Observe(f, seen)).failed && !Exec(s, now, q, Observe(f, seen)).failed
    ensures ViewOf(Exec(s, now, p, Observe(f, seen)), f) == ViewOf(Exec(s, now, q, Observe(f, seen)), f)
  {
    hide SightAll, OpenStints, FilterMap, StintsAt, SamplesAt, ReadingsAt, WatchesAt, Sorted, DarkOperators, Fire, Wrote, Judge;
    forall r | r == p || r == q
      ensures StintsAt(Exec(s, now, r, Observe(f, seen)).t.stints, f)
              == SightAll(StintsAt(r.t.stints, f), OpenStints(StintsAt(r.t.stints, f), f, Cutoff(now, s.stale)), f, Unix(now), seen)
    {
      OpenStintsLocal(r.t.stints, f, Cutoff(now, s.stale));
      SightAllLocal(r.t.stints, OpenStints(r.t.stints, f, Cutoff(now, s.stale)), f, Unix(now), seen);
    }
  }

  lemma MarkLocal(t: Tables, id: string, now: int, f: string)
    requires id in t.watches && t.watches[id].fenceId == f
    ensures id in WatchesAt(t.watches, f) && WatchesAt(t.watches, f)[id] == t.watches[id]
    ensures MarkFired(t, id, now).Written? ==>
              && t.watches[id].state == Armed
              && WatchesAt(MarkFired(t, id, now).t.watches, f)
                 == WatchesAt(t.watches, f)[id := MarkFired(t, id, now).t.watches[id]]
  {}

  lemma FireLocal(s: Settings, now: int, p: Progress, q: Progress, w: Watch, n: Notification, f: string)
    requires Alike(p, q, f) && n.fence.id == f
    requires w.id in p.t.watches && p.t.watches[w.id].fenceId == f
    requires w.id in q.t.watches && q.t.watches[w.id].fenceId == f
    ensures ViewOf(Fire(s, now, p, w, n), f) == ViewOf(Fire(s, now, q, w, n), f)
  {
    hide FilterMap, WatchesAt, SamplesAt, ReadingsAt, StintsAt;
    FilterMapSnoc(p.t.events, Event(w.id, Unix(now), n), EventAt(f));
    FilterMapSnoc(q.t.events, Event(w.id, Unix(now), n), EventAt(f));
    FilterMapSnoc(p.sent, n, SentAt(f));
    FilterMapSnoc(q.sent, n, SentAt(f));
    MarkLocal(p.t, w.id, now, f);
    MarkLocal(q.t, w.id, now, f);
  }

  lemma SampleStepLocal(s: Settings, now: int, p: Progress, q: Progress, f: string, o: string, n: int)
    requires Alike(p, q, f)
    requires !Exec(s, now, p, Sample(f, o, n)).failed && !Exec(s, now, q, Sample(f, o, n)).failed
    ensures ViewOf(Exec(s, now, p, Sample(f, o, n)), f) == ViewOf(Exec(s, now, q, Sample(f, o, n)), f)
  {
    hide FilterMap, SamplesAt, StintsAt, ReadingsAt, WatchesAt;
    SampleLocal(p.t.samples, SampleKey(f, Unix(now), o), n, f);
    SampleLocal(q.t.samples, SampleKey(f, Unix(now), o), n, f);
  }

  lemma NearStepLocal(s: Settings, now: int, p: Progress, q: Progress, f: string, o: string, r: Reading)
    requires Alike(p, q, f)
    requires !Wrote(p, RecordNearest(p.t, s.fk, f, now, o, r)).failed && !Wrote(q, RecordNearest(q.t, s.fk, f, now, o, r)).failed
    ensures ViewOf(Wrote(p, RecordNearest(p.t, s.fk, f, now, o, r)), f) == ViewOf(Wrote(q, RecordNearest(q.t, s.fk, f, now, o, r)), f)
  {
    hide FilterMap, SamplesAt, StintsAt, ReadingsAt, WatchesAt;
    ReadingLocal(p.t.readings, ReadingKey(f, Unix(now), o), r, f);
    ReadingLocal(q.t.readings, ReadingKey(f, Unix(now), o), r, f);
  }

  lemma ProbeStepLocal(s: Settings, now: int, p: Progress, q: Progress, f: string, o: string, found: Option<Reading>)
    requires Alike(p, q, f)
    requires !Exec(s, now, p, Probe(f, o, found)).failed && !Exec(s, now, q, Probe(f, o, found)).failed
    ensures ViewOf(Exec(s, now, p, Probe(f, o, found)), f) == ViewOf(Exec(s, now, q, Probe(f, o, found)), f)
  {
    hide FilterMap, SamplesAt, StintsAt, ReadingsAt, WatchesAt, Wrote, RecordNearest;
    if found.Some? {
      var p1 := p.(rep := p.rep.(probes := p.rep.probes + 1));
      var q1 := q.(rep := q.rep.(probes := q.rep.probes + 1));
      NearStepLocal(s, now, p1, q1, f, o, found.value);
    }
  }

  lemma EvaluateLocal(s: Settings, now: int, p: Progress, q: Progress, g: Fence, w: Watch, inside: seq<Vehicle>)
    requires Alike(p, q, g.id) && p.dark == q.dark
    requires w.id in p.t.watches && p.t.watches[w.id].fenceId == g.id
    requires w.id in q.t.watches && q.t.watches[w.id].fenceId == g.id
    ensures ViewOf(Exec(s, now, p, Evaluate(g, w, inside)), g.id) == ViewOf(Exec(s, now, q, Evaluate(g, w, inside)), g.id)
  {
    hide Fire, FilterMap, SamplesAt, StintsAt, ReadingsAt, WatchesAt, Judge;
    match Judge(w, inside, p.dark)
    case Hit(hit) => FireLocal(s, now, p, q, w, Message(now, g, w, inside, hit), g.id);
    case _ =>
  }

  lemma StepLocal(s: Settings, now: int, p: Progress, q: Progress, i: Instr, f: string)
    requires Alike(p, q, f) && TargetOf(i) == Some(f)
    requires !Exec(s, now, p, i).failed && !Exec(s, now, q, i).failed
    requires i.Evaluate? ==>
               && p.dark == q.dark
               && i.watch.id in p.t.watches && p.t.watches[i.watch.id].fenceId == f
               && i.watch.id in q.t.watches && q.t.watches[i.watch.id].fenceId == f
    ensures ViewOf(Exec(s, now, p, i), f) == ViewOf(Exec(s, now, q, i), f)
  {
    hide Fire, Sorted, FilterMap, DarkOperators, SamplesAt, StintsAt, ReadingsAt, WatchesAt, Judge, ObservePresence, Wrote;
    match i
    case Observe(_, seen) => ObserveLocal(s, now, p, q, f, seen);
    case Evaluate(g, w, inside) => EvaluateLocal(s, now, p, q, g, w, inside);
    case Stamp(_) =>
    case Health(_) =>
    case Sample(_, o, n) => SampleStepLocal(s, now, p, q, f, o, n);
    case Near(_, o, r) => NearStepLocal(s, now, p, q, f, o, r);
    case Probe(_, o, found) => ProbeStepLocal(s, now, p, q, f, o, found);
  }

  lemma EvaluationKeepsHealth(s: Settings, now: int, p: Progress, i: Instr)
    requires i.Evaluate?
    ensures Exec(s, now, p, i).dark == p.dark && Exec(s, now, p, i).t.readings == p.t.readings
  {
    hide Judge, FilterMap;
  }

  /** What `dark` becomes depends on the fence only. */
  lemma DarkStep(s: Settings, now: int, p: Progress, q: Progress, i: Instr, f: string)
    requires Alike(p, q, f) && TargetOf(i) == Some(f)
    requires i == Health(f) || p.dark == q.dark
    ensures Exec(s, now, p, i).dark == Exec(s, now, q, i).dark
  {
    hide Fire, FilterMap, Sorted, DarkOperators, ObservePresence, SamplesAt, StintsAt, ReadingsAt, WatchesAt;
    DarkLocal(p.t.readings, f, now);
    DarkLocal(q.t.readings, f, now);
    if i.Evaluate? {
      EvaluationKeepsHealth(s, now, p, i);
      EvaluationKeepsHealth(s, now, q, i);
    }
  }

  function Evaluations(): Instr -> bool { (i: Instr) => i.Evaluate? }

  ghost predicate Without(plan: seq<Instr>, what: Instr -> bool) {
    forall i :: i in plan ==> !what(i)
  }

  lemma {:induction false} FilterMapWithout<T>(xs: seq<T>, g: T -> Option<Instr>, what: Instr -> bool)
    requires forall x :: x in xs && g(x).Some? ==> !what(g(x).value)
    ensures Without(FilterMap(xs, g), what)
  {
    if |xs| > 0 {
      FilterMapWithout(Front(xs), g, what);
    }
  }

  /** Nothing is evaluated before the health check. */
  lemma StartHasNoEvaluation(c: Context, f: Fence, inside: seq<Vehicle>, o: Orders)
    ensures Without(FencePlanStart(f, inside, o.counts), Evaluations())
    ensures Without(NearestPlan(c, f, inside, o.closest), Evaluations())
  {
    FilterMapWithout(o.counts, SampleFor(f.id, CountsOf(inside)), Evaluations());
    FilterMapWithout(o.closest, NearFor(f.id, ClosestOf(inside)), Evaluations());
    FilterMapWithout(FilterMap(OPERATORS, Absent(ClosestOf(inside))), ProbeFor(c, f), Evaluations());
    hide FilterMap, CountsOf, ClosestOf;
  }

  lemma LocalParts(c: Context, f: string, a: seq<Instr>, b: seq<Instr>)
    requires Local(c, f, a + b)
    ensures Local(c, f, a) && Local(c, f, b)
  {
    forall i | i in a
      ensures i in a + b
    {}
    forall i | i in b
      ensures i in a + b
    {}
  }

  lemma NothingToRun(c: Context, p: Progress)
    ensures ExecAll(c.s, c.now, p, []) == p
  {}

  lemma LastRun(c: Context, p: Progress, plan: seq<Instr>)
    requires |plan| > 0
    ensures ExecAll(c.s, c.now, p, plan) == Exec(c.s, c.now, ExecAll(c.s, c.now, p, Front(plan)), Last(plan))
  {
    hide Exec;
  }

  lemma LastIsLocal(c: Context, f: string, plan: seq<Instr>)
    requires Local(c, f, plan) && |plan| > 0
    ensures Local(c, f, Front(plan)) && TargetOf(Last(plan)) == Some(f)
    ensures Last(plan).Evaluate? ==> Last(plan).watch in c.watches && Last(plan).watch.fenceId == f
    ensures Without(plan, Evaluations()) ==> Without(Front(plan), Evaluations()) && !Last(plan).Evaluate?
  {
    assert Last(plan) in plan;
    assert forall i :: i in Front(plan) ==> i in plan;
    assert Evaluations()(Last(plan)) == Last(plan).Evaluate?;
  }

  lemma RowOf(t: Tables, ws: seq<Watch>, w: Watch)
    requires WatchesStay(t, ws) && w in ws
    ensures w.id in t.watches && t.watches[w.id].fenceId == w.fenceId
  {}

  lemma FailedStays(s: Settings, now: int, p: Progress, i: Instr)
    ensures p.failed ==> Exec(s, now, p, i).failed
  {}

  lemma AreAlike(p: Progress, q: Progress, f: string)
    requires !p.failed && !q.failed && ViewOf(p, f) == ViewOf(q, f)
    ensures Alike(p, q, f)
  {}

  /** The calls of one fence, run from two moments that agree about it, agree
      about it all along. */
  lemma {:induction false} RunLocal(c: Context, p: Progress, q: Progress, f: string, plan: seq<Instr>)
    requires Local(c, f, plan) && Alike(p, q, f) && WatchesStay(p.t, c.watches) && WatchesStay(q.t, c.watches)
    requires Without(plan, Evaluations()) || p.dark == q.dark
    requires !ExecAll(c.s, c.now, p, plan).failed && !ExecAll(c.s, c.now, q, plan).failed
    ensures Alike(ExecAll(c.s, c.now, p, plan), ExecAll(c.s, c.now, q, plan), f)
    ensures p.dark == q.dark ==> ExecAll(c.s, c.now, p, plan).dark == ExecAll(c.s, c.now, q, plan).dark
  {
    assert |plan| > 0 ==> |Front(plan)| < |plan|;
    hide *;
    if |plan| == 0 {
      assert plan == [];
      NothingToRun(c, p);
      NothingToRun(c, q);
    } else {
      var i, before := Last(plan), Front(plan);
      var p1, q1 := ExecAll(c.s, c.now, p, before), ExecAll(c.s, c.now, q, before);
      LastRun(c, p, plan);
      LastRun(c, q, plan);
      LastIsLocal(c, f, plan);
      FailedStays(c.s, c.now, p1, i);
      FailedStays(c.s, c.now, q1, i);
      RunLocal(c, p, q, f, before);
      RunKeepsWatches(c.s, c.now, p, before, c.watches);
      RunKeepsWatches(c.s, c.now, q, before, c.watches);
      if i.Evaluate? {
        RowOf(p1.t, c.watches, i.watch);
        RowOf(q1.t, c.watches, i.watch);
      }
      StepLocal(c.s, c.now, p1, q1, i, f);
      if p.dark == q.dark {
        DarkStep(c.s, c.now, p1, q1, i, f);
      }
      AreAlike(Exec(c.s, c.now, p1, i), Exec(c.s, c.now, q1, i), f);
    }
  }

  lemma {:induction false} RunFailedStays(s: Settings, now: int, p: Progress, plan: seq<Instr>)
    ensures p.failed ==> ExecAll(s, now, p, plan).failed
  {
    if p.failed {
      ExecAllFailed(s, now, p, plan);
    }
  }

  lemma AlikeViews(p: Progress, q: Progress, f: string)
    requires Alike(p, q, f)
    ensures ViewOf(p, f) == ViewOf(q, f)
  {}

  lemma FourParts(c: Context, p: Progress, q: Progress, f: string, begin: seq<Instr>, near: seq<Instr>,
                  evals: seq<Instr>)
    requires Alike(p, q, f) && WatchesStay(p.t, c.watches) && WatchesStay(q.t, c.watches)
    requires Local(c, f, begin) && Local(c, f, near) && Local(c, f, evals) && Without(begin, Evaluations()) && Without(near, Evaluations())
    requires forall r :: r == p || r == q ==>
               !ExecAll(c.s, c.now, Exec(c.s, c.now, ExecAll(c.s, c.now, ExecAll(c.s, c.now, r, begin), near), Health(f)), evals).failed
    ensures ViewOf(ExecAll(c.s, c.now, Exec(c.s, c.now, ExecAll(c.s, c.now, ExecAll(c.s, c.now, p, begin), near), Health(f)), evals), f)
            == ViewOf(ExecAll(c.s, c.now, Exec(c.s, c.now, ExecAll(c.s, c.now, ExecAll(c.s, c.now, q, begin), near), Health(f)), evals), f)
  {
    var p1, q1 := ExecAll(c.s, c.now, p, begin), ExecAll(c.s, c.now, q, begin);
    var p2, q2 := ExecAll(c.s, c.now, p1, near), ExecAll(c.s, c.now, q1, near);
    var p3, q3 := Exec(c.s, c.now, p2, Health(f)), Exec(c.s, c.now, q2, Health(f));
    assert TargetOf(Health(f)) == Some(f);
    hide *;
    RunFailedStays(c.s, c.now, p3, evals);
    RunFailedStays(c.s, c.now, q3, evals);
    FailedStays(c.s, c.now, p2, Health(f));
    FailedStays(c.s, c.now, q2, Health(f));
    RunFailedStays(c.s, c.now, p1, near);
    RunFailedStays(c.s, c.now, q1, near);
    RunLocal(c, p, q, f, begin);
    RunKeepsWatches(c.s, c.now, p, begin, c.watches);
    RunKeepsWatches(c.s, c.now, q, begin, c.watches);
    RunLocal(c, p1, q1, f, near);
    RunKeepsWatches(c.s, c.now, p1, near, c.watches);
    RunKeepsWatches(c.s, c.now, q1, near, c.watches);
    StepLocal(c.s, c.now, p2, q2, Health(f), f);
    DarkStep(c.s, c.now, p2, q2, Health(f), f);
    StepKeepsWatches(c.s, c.now, p2, Health(f), c.watches);
    StepKeepsWatches(c.s, c.now, q2, Health(f), c.watches);
    AreAlike(p3, q3, f);
    RunLocal(c, p3, q3, f, evals);
    AlikeViews(ExecAll(c.s, c.now, p3, evals), ExecAll(c.s, c.now, q3, evals), f);
  }

  lemma FenceLocal(c: Context, p: Progress, q: Progress, f: Fence, vs: seq<Vehicle>, piece: seq<Instr>)
    requires IsPiece(c, AtFence(f, vs), piece)
    requires Alike(p, q, f.id) && WatchesStay(p.t, c.watches) && WatchesStay(q.t, c.watches)
    requires !ExecAll(c.s, c.now, p, piece).failed && !ExecAll(c.s, c.now, q, piece).failed
    ensures ViewOf(ExecAll(c.s, c.now, p, piece), f.id) == ViewOf(ExecAll(c.s, c.now, q, piece), f.id)
  {
    var o :| ValidOrders(c, f, vs, o) && piece == FencePlan(c, f, vs, o);
    var inside := FilterMap(vs, Rebase(c.dist, f));
    var begin, near := FencePlanStart(f, inside, o.counts), NearestPlan(c, f, inside, o.closest);
    var evals := FilterMap(c.watches, EvaluateFor(f, inside));
    assert piece == begin + (near + ([Health(f.id)] + evals));
    hide *;
    FencePlanIsLocal(c, f, vs, o);
    LocalParts(c, f.id, begin, near + ([Health(f.id)] + evals));
    LocalParts(c, f.id, near, [Health(f.id)] + evals);
    LocalParts(c, f.id, [Health(f.id)], evals);
    StartHasNoEvaluation(c, f, inside, o);
    FencePlanRuns(c, f, vs, o, p);
    FencePlanRuns(c, f, vs, o, q);
    FourParts(c, p, q, f.id, begin, near, evals);
  }

  // ---------------------------------------------------------------------
  // What is left alone
  // ---------------------------------------------------------------------

  lemma HistoryKeepsEvents(s: Settings, now: int, p: Progress, i: Instr)
    requires !i.Evaluate?
    ensures Exec(s, now, p, i).t.watches == p.t.watches && Exec(s, now, p, i).t.events == p.t.events
  {
    hide FilterMap, SightAll, OpenStints, Sorted, DarkOperators;
  }

  lemma {:induction false} RunKeepsEvents(s: Settings, now: int, p: Progress, plan: seq<Instr>)
    requires Without(plan, Evaluations())
    ensures ExecAll(s, now, p, plan).t.watches == p.t.watches && ExecAll(s, now, p, plan).t.events == p.t.events
  {
    hide Exec;
    if |plan| > 0 {
      assert Last(plan) in plan && !Evaluations()(Last(plan));
      RunKeepsEvents(s, now, p, Front(plan));
      HistoryKeepsEvents(s, now, ExecAll(s, now, p, Front(plan)), Last(plan));
    }
  }

  /** Rows are written for the second of their tick. */
  lemma CallKeepsTime(s: Settings, now: int, p: Progress, i: Instr, fence: string, clock: int)
    requires now <= clock && NoneLater(p.t.readings, fence, clock)
    ensures NoneLater(Exec(s, now, p, i).t.readings, fence, clock)
  {
    hide FilterMap, Judge, SightAll, OpenStints, Sorted, DarkOperators;
    UnixMonotone(now, clock);
  }

  lemma {:induction false} RunKeepsTime(s: Settings, now: int, p: Progress, plan: seq<Instr>, fence: string, clock: int)
    requires now <= clock && NoneLater(p.t.readings, fence, clock)
    ensures NoneLater(ExecAll(s, now, p, plan).t.readings, fence, clock)
  {
    hide Exec, NoneLater;
    if |plan| > 0 {
      RunKeepsTime(s, now, p, Front(plan), fence, clock);
      CallKeepsTime(s, now, ExecAll(s, now, p, Front(plan)), Last(plan), fence, clock);
    }
  }

  lemma SampleKeepsReadings(s: Settings, now: int, p: Progress, f: string, o: string, n: int)
    ensures Exec(s, now, p, Sample(f, o, n)).t.readings == p.t.readings
  {}

  lemma {:induction false} SamplesKeepReadings(s: Settings, now: int, p: Progress, f: string, counts: map<string, int>,
                                               ks: seq<string>)
    ensures ExecAll(s, now, p, FilterMap(ks, SampleFor(f, counts))).t.readings == p.t.readings
  {
    hide Exec;
    if |ks| > 0 {
      var before := FilterMap(Front(ks), SampleFor(f, counts));
      SamplesKeepReadings(s, now, p, f, counts, Front(ks));
      ExecAllSnoc(s, now, p, before, Sample(f, Last(ks), Get(counts, Last(ks))));
      SampleKeepsReadings(s, now, ExecAll(s, now, p, before), f, Last(ks), Get(counts, Last(ks)));
    }
  }

  lemma ObserveKeepsReadings(s: Settings, now: int, p: Progress, f: string, seen: seq<Sighting>)
    ensures Exec(s, now, p, Observe(f, seen)).t.readings == p.t.readings
  {
    hide SightAll, OpenStints, FilterMap;
  }

  /** The counts and the sightings of a fence touch no reading. */
  lemma StartKeepsReadings(s: Settings, now: int, p: Progress, f: Fence, inside: seq<Vehicle>, order: seq<string>)
    ensures ExecAll(s, now, p, FencePlanStart(f, inside, order)).t.readings == p.t.readings
  {
    hide Exec, ExecAll, FilterMap, CountsOf;
    var samples := FilterMap(order, SampleFor(f.id, CountsOf(inside)));
    SamplesKeepReadings(s, now, p, f.id, CountsOf(inside), order);
    ExecAllSnoc(s, now, p, samples, Observe(f.id, FilterMap(inside, SightingOf())));
    ObserveKeepsReadings(s, now, ExecAll(s, now, p, samples), f.id, FilterMap(inside, SightingOf()));
  }

  // ---------------------------------------------------------------------
  // Whole ticks
  // ---------------------------------------------------------------------

  ghost predicate NeverAt(work: seq<Visit>, f: string) {
    forall i :: 0 <= i < |work| && work[i].AtFence? ==> work[i].fence.id != f
  }

  lemma OpenForeign(c: Context, p: Progress, truncated: bool, f: string)
    ensures ViewOf(ExecAll(c.s, c.now, p, [Open(truncated)]), f) == ViewOf(p, f)
  {
    ExecAllSnoc(c.s, c.now, p, [], Open(truncated));
    assert [] + [Open(truncated)] == [Open(truncated)];
  }

  lemma PieceForeign(c: Context, p: Progress, v: Visit, piece: seq<Instr>, f: string)
    requires IsPiece(c, v, piece) && WatchesStay(p.t, c.watches) && (v.AtFence? ==> v.fence.id != f)
    ensures ViewOf(ExecAll(c.s, c.now, p, piece), f) == ViewOf(p, f)
  {
    if v.AtFence? {
      PieceIsLocal(c, v, piece);
      RunForeign(c, p, v.fence.id, piece, f);
    } else {
      OpenForeign(c, p, v.truncated, f);
    }
  }

  lemma LastPiece(c: Context, p: Progress, work: seq<Visit>, pieces: seq<seq<Instr>>)
    requires IsPlan(c, work, pieces) && |work| > 0
    ensures IsPlan(c, Front(work), Front(pieces)) && IsPiece(c, Last(work), Last(pieces))
    ensures Outcome(c, p, pieces) == ExecAll(c.s, c.now, Outcome(c, p, Front(pieces)), Last(pieces))
  {
    hide ExecAll, IsPiece;
    assert pieces == Front(pieces) + [Last(pieces)];
    OutcomeSnoc(c, p, Front(pieces), Last(pieces));
  }

  lemma NothingDone(c: Context, p: Progress, pieces: seq<seq<Instr>>)
    requires |pieces| == 0
    ensures Outcome(c, p, pieces) == p
  {}

  lemma OutcomeKeepsWatches(c: Context, p: Progress, pieces: seq<seq<Instr>>)
    requires WatchesStay(p.t, c.watches)
    ensures WatchesStay(Outcome(c, p, pieces).t, c.watches)
  {
    RunKeepsWatches(c.s, c.now, p, Concat(pieces), c.watches);
  }

  /** A fence whose query failed is left exactly as it was: no zero counts, no
      absences, no fires. */
  lemma {:induction false} UnansweredFenceIsUntouched(c: Context, p: Progress, work: seq<Visit>,
                                                      pieces: seq<seq<Instr>>, f: string)
    requires IsPlan(c, work, pieces) && NeverAt(work, f) && WatchesStay(p.t, c.watches)
    ensures ViewOf(Outcome(c, p, pieces), f) == ViewOf(p, f)
  {
    if |work| == 0 {
      NothingDone(c, p, pieces);
    } else {
      assert NeverAt(Front(work), f) && (Last(work).AtFence? ==> Last(work).fence.id != f);
      assert |pieces| == |work|;
      hide *;
      LastPiece(c, p, work, pieces);
      UnansweredFenceIsUntouched(c, p, Front(work), Front(pieces), f);
      OutcomeKeepsWatches(c, p, Front(pieces));
      PieceForeign(c, Outcome(c, p, Front(pieces)), Last(work), Last(pieces), f);
    }
  }

  ghost predicate OnceAt(work: seq<Visit>, k: nat) {
    && k < |work| && work[k].AtFence?
    && forall i :: 0 <= i < |work| && i != k && work[i].AtFence? ==> work[i].fence.id != work[k].fence.id
  }

  lemma OnceBefore(work: seq<Visit>, k: nat)
    requires OnceAt(work, k)
    ensures k < |work| - 1 ==>
              OnceAt(Front(work), k) && Front(work)[k] == work[k] && (Last(work).AtFence? ==> Last(work).fence.id != work[k].fence.id)
    ensures k == |work| - 1 ==> NeverAt(Front(work), work[k].fence.id) && Last(work) == work[k]
  {}

  lemma LastStandsAlone(c: Context, p: Progress, before: Progress, v: Visit, piece: seq<Instr>)
    requires v.AtFence? && IsPiece(c, v, piece) && ViewOf(before, v.fence.id) == ViewOf(p, v.fence.id) && !p.failed
    requires WatchesStay(p.t, c.watches) && WatchesStay(before.t, c.watches)
    requires !ExecAll(c.s, c.now, before, piece).failed && !ExecAll(c.s, c.now, p, piece).failed
    ensures ViewOf(ExecAll(c.s, c.now, before, piece), v.fence.id) == ViewOf(ExecAll(c.s, c.now, p, piece), v.fence.id)
  {
    hide *;
    RunFailedStays(c.s, c.now, before, piece);
    AreAlike(before, p, v.fence.id);
    FenceLocal(c, before, p, v.fence, v.vehicles, piece);
  }

  /** What a tick leaves behind for a fence is what the calls for that fence
      leave behind on their own. */
  lemma {:induction false} FenceStandsAlone(c: Context, p: Progress, work: seq<Visit>, pieces: seq<seq<Instr>>, k: nat)
    requires IsPlan(c, work, pieces) && OnceAt(work, k) && WatchesStay(p.t, c.watches) && !p.failed
    requires !Outcome(c, p, pieces).failed && !ExecAll(c.s, c.now, p, pieces[k]).failed
    ensures ViewOf(Outcome(c, p, pieces), work[k].fence.id) == ViewOf(ExecAll(c.s, c.now, p, pieces[k]), work[k].fence.id)
  {
    OnceBefore(work, k);
    assert |pieces| == |work| && work[k].AtFence? && Front(pieces) == pieces[..|pieces| - 1] && Last(pieces) == pieces[|pieces| - 1];
    hide *;
    var before, f := Outcome(c, p, Front(pieces)), work[k].fence;
    LastPiece(c, p, work, pieces);
    OutcomeKeepsWatches(c, p, Front(pieces));
    RunFailedStays(c.s, c.now, before, Last(pieces));
    if k < |work| - 1 {
      FenceStandsAlone(c, p, Front(work), Front(pieces), k);
      PieceForeign(c, before, Last(work), Last(pieces), f.id);
    } else {
      UnansweredFenceIsUntouched(c, p, Front(work), Front(pieces), f.id);
      LastStandsAlone(c, p, before, work[k], pieces[k]);
    }
  }

  /** Two ticks from the same state, with whatever answers and failures for the
      other fences, leave the same behind for a fence that got the same answer. */
  lemma OtherAnswersDoNotMatter(c: Context, p: Progress, work: seq<Visit>, pieces: seq<seq<Instr>>, k: nat,
                                other: seq<Visit>, others: seq<seq<Instr>>, j: nat)
    requires !p.failed && WatchesStay(p.t, c.watches) && forall w :: w in c.watches ==> w.kind != OtherKind
    requires c.s.fk ==> FencesExist(p, work) && FencesExist(p, other)
    requires IsPlan(c, work, pieces) && OnceAt(work, k)
    requires IsPlan(c, other, others) && OnceAt(other, j)
    requires work[k] == other[j]
    ensures ViewOf(Outcome(c, p, pieces), work[k].fence.id) == ViewOf(Outcome(c, p, others), work[k].fence.id)
  {
    hide Exec, ExecAll, ViewOf, IsPiece, WatchesStay, Local;
    TickNeverStops(c, p, work, pieces);
    TickNeverStops(c, p, other, others);
    PieceIsLocal(c, work[k], pieces[k]);
    PlanNeverStops(c, p, work[k].fence.id, pieces[k]);
    PieceInAnyOrder(c, p, work[k], pieces[k], others[j]);
    FenceStandsAlone(c, p, work, pieces, k);
    FenceStandsAlone(c, p, other, others, j);
  }

  // ---------------------------------------------------------------------
  // Failed groups
  // ---------------------------------------------------------------------

  function Answered(gs: seq<Group>, answers: seq<FetchResult>): (r: (seq<Group>, seq<FetchResult>))
    requires |gs| == |answers|
    ensures |r.0| == |r.1|
  {
    if |gs| == 0 then ([], [])
    else
      var r := Answered(Front(gs), Front(answers));
      if Last(answers).Failed? then r else (r.0 + [Last(gs)], r.1 + [Last(answers)])
  }

  /** A tick in which some groups fail does the work of a tick over the groups
      that were answered. */
  lemma {:induction false} FailedGroupsAreSkipped(gs: seq<Group>, answers: seq<FetchResult>)
    requires |gs| == |answers|
    ensures Work(gs, answers) == Work(Answered(gs, answers).0, Answered(gs, answers).1)
  {
    if |gs| > 0 {
      var r := Answered(Front(gs), Front(answers));
      FailedGroupsAreSkipped(Front(gs), Front(answers));
      assert Front(r.0 + [Last(gs)]) == r.0 && Front(r.1 + [Last(answers)]) == r.1;
    }
  }
}
