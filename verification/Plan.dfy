/** A tick as the list of store calls it makes, in order, and what that list does
    to the store, the schedule and the report (`internal/poll/poll.go`). The
    same calls are interleaved with others in `Lifecycle`. */
module Plan {
  import opened Base
  import opened Geo
  import opened Entur
  import opened Strings
  import opened Schema
  import opened Poll

  /** `sink` says whether notifications are delivered anywhere. Times are in
      nanoseconds. */
  datatype Settings = Settings(fk: bool, sink: bool, stale: int, nearestInterval: int, reachM: int)

  datatype Instr =
    | Open(truncated: bool)
    | Sample(fence: string, operator: string, count: int)
    | Observe(fence: string, seen: seq<Sighting>)
    | Near(fence: string, operator: string, reading: Reading)
    | Stamp(fence: string)
    | Probe(fence: string, operator: string, found: Option<Reading>)
    | Health(fence: string)
    | Evaluate(at: Fence, watch: Watch, inside: seq<Vehicle>)

  /** The fence a call is made for. */
  function TargetOf(i: Instr): Option<string> {
    match i
    case Open(_) => None
    case Sample(f, _, _) => Some(f)
    case Observe(f, _) => Some(f)
    case Near(f, _, _) => Some(f)
    case Stamp(f) => Some(f)
    case Probe(f, _, _) => Some(f)
    case Health(f) => Some(f)
    case Evaluate(f, _, _) => Some(f.id)
  }

  datatype Report = Report(
    queries: nat,
    fences: nat,
    arrivals: nat,
    expired: nat,
    fired: seq<string>,
    truncated: bool,
    probes: nat,
    dark: seq<string>)

  const NO_REPORT := Report(0, 0, 0, 0, [], false, 0, [])

  /** Where a tick has got to. `failed` means a store call returned an error and
      the tick has returned. */
  datatype Progress = Progress(
    t: Tables,
    due: map<string, int>,
    dark: seq<string>,
    rep: Report,
    sent: seq<Notification>,
    failed: bool)

  // ---------------------------------------------------------------------
  // Executing
  // ---------------------------------------------------------------------

  function Wrote(p: Progress, w: Write): Progress {
    match w
    case Written(t) => p.(t := t)
    case _ => p.(failed := true)
  }

  function Message(now: int, f: Fence, w: Watch, inside: seq<Vehicle>, hit: seq<Vehicle>): Notification {
    Notification(w.id, w.kind, now, f, |FilterMap(inside, Wanted(w))|, hit)
  }

  /** Fires a watch. Losing the race for it is not an error. */
  function Fire(s: Settings, now: int, p: Progress, w: Watch, n: Notification): Progress {
    match MarkFired(p.t, w.id, now)
    case NotFound => p
    case Constraint => p.(failed := true)
    case Written(marked) =>
      match RecordEvent(marked, s.fk, w.id, now, n)
      case Written(t) =>
        p.(t := t, sent := if s.sink then p.sent + [n] else p.sent, rep := p.rep.(fired := p.rep.fired + [w.id]))
      case _ => p.(t := marked, failed := true)
  }

  ghost function Exec(s: Settings, now: int, p: Progress, i: Instr): Progress {
    if p.failed then p
    else match i
      case Open(truncated) => p.(rep := p.rep.(truncated := p.rep.truncated || truncated))
      case Sample(f, o, n) => Wrote(p, RecordSample(p.t, s.fk, f, now, o, n))
      case Observe(f, seen) =>
        (match ObservePresence(p.t, s.fk, f, now, seen, s.stale)
         case Observed(t, arrivals) => p.(t := t, rep := p.rep.(arrivals := p.rep.arrivals + |arrivals|))
         case ObserveRefused => p.(failed := true))
      case Near(f, o, r) => Wrote(p, RecordNearest(p.t, s.fk, f, now, o, r))
      case Stamp(f) => p.(due := p.due[f := now])
      case Probe(f, o, found) =>
        var q := p.(rep := p.rep.(probes := p.rep.probes + 1));
        if found.None? then q else Wrote(q, RecordNearest(p.t, s.fk, f, now, o, found.value))
      case Health(f) =>
        var dark := Sorted(DarkOperators(p.t.readings, f, now, 0));
        p.(dark := dark, rep := p.rep.(dark := p.rep.dark + dark))
      case Evaluate(f, w, inside) =>
        match Judge(w, inside, p.dark)
        case Hold => p
        case BadKind => p.(failed := true)
        case Hit(hit) => Fire(s, now, p, w, Message(now, f, w, inside, hit))
  }

  ghost function ExecAll(s: Settings, now: int, p: Progress, plan: seq<Instr>): Progress {
    if |plan| == 0 then p else Exec(s, now, ExecAll(s, now, p, Front(plan)), Last(plan))
  }

  lemma ExecAllSnoc(s: Settings, now: int, p: Progress, plan: seq<Instr>, i: Instr)
    ensures ExecAll(s, now, p, plan + [i]) == Exec(s, now, ExecAll(s, now, p, plan), i)
  {
    assert Front(plan + [i]) == plan;
  }

  lemma {:induction false} ExecAllConcat(s: Settings, now: int, p: Progress, a: seq<Instr>, b: seq<Instr>)
    ensures ExecAll(s, now, p, a + b) == ExecAll(s, now, ExecAll(s, now, p, a), b)
  {
    if |b| == 0 {
      assert a + b == a;
    } else {
      assert Front(a + b) == a + Front(b);
      ExecAllConcat(s, now, p, a, Front(b));
    }
  }

  lemma {:induction false} ExecAllFailed(s: Settings, now: int, p: Progress, plan: seq<Instr>)
    requires p.failed
    ensures ExecAll(s, now, p, plan) == p
  {
    if |plan| > 0 {
      ExecAllFailed(s, now, p, Front(plan));
    }
  }

  // ---------------------------------------------------------------------
  // Planning
  // ---------------------------------------------------------------------

  /** The iteration orders Go picked for the two maps of a fence. */
  datatype Orders = Orders(counts: seq<string>, closest: seq<string>)

  ghost predicate Enumerates(ks: seq<string>, s: set<string>) {
    Distinct(ks) && forall k :: k in ks <==> k in s
  }

  /** What every fence of a tick shares. `probe` is the upstream's answer to a
      query made for a fence. */
  datatype Context = Context(
    dist: Metric,
    s: Settings,
    now: int,
    watches: seq<Watch>,
    due: map<string, int>,
    probe: (string, Query) -> FetchResult)

  datatype Visit = OpenGroup(truncated: bool) | AtFence(fence: Fence, vehicles: seq<Vehicle>)

  function VisitsOf(fs: seq<Fence>, vs: seq<Vehicle>): seq<Visit> {
    if |fs| == 0 then [] else VisitsOf(Front(fs), vs) + [AtFence(Last(fs), vs)]
  }

  function VisitGroup(g: Group, answer: FetchResult): seq<Visit> {
    match answer
    case Failed => []
    case Fetched(vs, _, truncated) => [OpenGroup(truncated)] + VisitsOf(g.fences, vs)
  }

  /** The groups that were fetched, in order, and their fences, in order. */
  function Work(gs: seq<Group>, answers: seq<FetchResult>): seq<Visit>
    requires |gs| == |answers|
  {
    if |gs| == 0 then [] else Work(Front(gs), Front(answers)) + VisitGroup(Last(gs), Last(answers))
  }

  function SampleFor(f: string, counts: map<string, int>): string -> Option<Instr> {
    (k: string) => Some(Sample(f, k, Get(counts, k)))
  }

  function ReadingOf(closest: map<string, Vehicle>, k: string): Reading {
    if k in closest then Reading(Some(Metres(closest[k].distanceM)), closest[k].id) else Reading(None, "")
  }

  function NearFor(f: string, closest: map<string, Vehicle>): string -> Option<Instr> {
    (k: string) => Some(Near(f, k, ReadingOf(closest, k)))
  }

  /** What a probe's answer says; nothing when the probe failed. */
  function FoundBy(dist: Metric, f: Fence, res: FetchResult): Option<Reading> {
    match res
    case Failed => None
    case Fetched(vs, _, _) =>
      match NearestOf(dist, vs, f)
      case None => Some(Reading(None, ""))
      case Some(best) => Some(Reading(Some(Metres(dist(f.at, best.at))), best.id))
  }

  function ProbeFor(c: Context, f: Fence): Operator -> Option<Instr> {
    (o: Operator) => Some(Probe(f.id, o.key, FoundBy(c.dist, f, c.probe(f.id, ProbeQuery(f, c.s.reachM, o)))))
  }

  function EvaluateFor(f: Fence, inside: seq<Vehicle>): Watch -> Option<Instr> {
    (w: Watch) => if w.fenceId == f.id then Some(Evaluate(f, w, inside)) else None
  }

  function IntervalOf(s: Settings): int {
    if s.nearestInterval == 0 then DEFAULT_NEAREST_INTERVAL else s.nearestInterval
  }

  /** Whether the wider lookup of a fence is due. */
  predicate IsDue(due: map<string, int>, fence: string, now: int, interval: int) {
    !(fence in due && now - due[fence] < interval)
  }

  /** The wider lookup: one probe for each operator with nothing in the fence. */
  ghost function ProbePlan(c: Context, f: Fence, closest: map<string, Vehicle>): seq<Instr> {
    if IsDue(c.due, f.id, c.now, IntervalOf(c.s))
    then [Stamp(f.id)] + FilterMap(FilterMap(OPERATORS, Absent(closest)), ProbeFor(c, f))
    else []
  }

  ghost function NearestPlan(c: Context, f: Fence, inside: seq<Vehicle>, order: seq<string>): seq<Instr> {
    var closest := ClosestOf(inside);
    if IntervalOf(c.s) < 0 then []
    else FilterMap(order, NearFor(f.id, closest)) + ProbePlan(c, f, closest)
  }

  lemma NearestPlanParts(c: Context, f: Fence, inside: seq<Vehicle>)
    ensures IntervalOf(c.s) < 0 ==> forall order :: NearestPlan(c, f, inside, order) == []
    ensures IntervalOf(c.s) >= 0 ==> forall order ::
              NearestPlan(c, f, inside, order)
              == FilterMap(order, NearFor(f.id, ClosestOf(inside))) + ProbePlan(c, f, ClosestOf(inside))
    ensures IsDue(c.due, f.id, c.now, IntervalOf(c.s)) ==>
              ProbePlan(c, f, ClosestOf(inside))
              == [Stamp(f.id)] + FilterMap(FilterMap(OPERATORS, Absent(ClosestOf(inside))), ProbeFor(c, f))
    ensures !IsDue(c.due, f.id, c.now, IntervalOf(c.s)) ==> ProbePlan(c, f, ClosestOf(inside)) == []
  {
    hide FilterMap, ClosestOf;
  }

  /** The counts, in the order Go walks them, then who is present. */
  ghost function FencePlanStart(f: Fence, inside: seq<Vehicle>, order: seq<string>): seq<Instr> {
    FilterMap(order, SampleFor(f.id, CountsOf(inside))) + [Observe(f.id, FilterMap(inside, SightingOf()))]
  }

  ghost function FencePlan(c: Context, f: Fence, vehicles: seq<Vehicle>, o: Orders): seq<Instr> {
    var inside := FilterMap(vehicles, Rebase(c.dist, f));
    FencePlanStart(f, inside, o.counts)
    + (NearestPlan(c, f, inside, o.closest)
    + ([Health(f.id)]
    + FilterMap(c.watches, EvaluateFor(f, inside))))
  }

  ghost predicate ValidOrders(c: Context, f: Fence, vehicles: seq<Vehicle>, o: Orders) {
    var inside := FilterMap(vehicles, Rebase(c.dist, f));
    Enumerates(o.counts, CountsOf(inside).Keys) && Enumerates(o.closest, ClosestOf(inside).Keys)
  }

  /** The calls one visit may make: any map order gives one. */
  ghost predicate IsPiece(c: Context, v: Visit, piece: seq<Instr>) {
    match v
    case OpenGroup(truncated) => piece == [Open(truncated)]
    case AtFence(f, vs) => exists o :: ValidOrders(c, f, vs, o) && piece == FencePlan(c, f, vs, o)
  }

  ghost predicate IsPlan(c: Context, work: seq<Visit>, pieces: seq<seq<Instr>>) {
    |pieces| == |work| && forall i :: 0 <= i < |work| ==> IsPiece(c, work[i], pieces[i])
  }

  function Concat(pieces: seq<seq<Instr>>): seq<Instr> {
    if |pieces| == 0 then [] else Concat(Front(pieces)) + Last(pieces)
  }

  /** Everything the calls of a tick do, whatever orders it picked. */
  ghost function Outcome(c: Context, p: Progress, pieces: seq<seq<Instr>>): Progress {
    ExecAll(c.s, c.now, p, Concat(pieces))
  }

  lemma OutcomeSnoc(c: Context, p: Progress, pieces: seq<seq<Instr>>, piece: seq<Instr>)
    ensures Outcome(c, p, pieces + [piece]) == ExecAll(c.s, c.now, Outcome(c, p, pieces), piece)
  {
    assert Front(pieces + [piece]) == pieces;
    ExecAllConcat(c.s, c.now, p, Concat(pieces), piece);
  }

  // ---------------------------------------------------------------------
  // Map order does not matter
  // ---------------------------------------------------------------------

  /** Upserts one row for each string, in order. */
  function PutAll<K, V>(m: map<K, V>, key: string -> K, val: string -> V, ks: seq<string>): map<K, V> {
    if |ks| == 0 then m else PutAll(m, key, val, Front(ks))[key(Last(ks)) := val(Last(ks))]
  }

  ghost predicate Hits<K>(key: string -> K, ks: seq<string>, x: K) {
    exists k :: k in ks && key(k) == x
  }

  lemma {:induction false} PutAllAt<K, V>(m: map<K, V>, key: string -> K, val: string -> V, ks: seq<string>, x: K)
    requires forall a, b :: key(a) == key(b) ==> a == b
    ensures x in PutAll(m, key, val, ks) <==> x in m || Hits(key, ks, x)
    ensures forall k :: k in ks && key(k) == x ==> PutAll(m, key, val, ks)[x] == val(k)
    ensures !Hits(key, ks, x) && x in m ==> PutAll(m, key, val, ks)[x] == m[x]
  {
    if |ks| > 0 {
      var before, k := Front(ks), Last(ks);
      PutAllAt(m, key, val, before, x);
      assert ks == before + [k];
      assert Hits(key, ks, x) <==> Hits(key, before, x) || key(k) == x;
    }
  }

  /** Upserts of different rows commute. */
  lemma PutAllInAnyOrder<K(!new), V>(m: map<K, V>, key: string -> K, val: string -> V, ks: seq<string>, ls: seq<string>)
    requires forall a, b :: key(a) == key(b) ==> a == b
    requires forall k :: k in ks <==> k in ls
    ensures PutAll(m, key, val, ks) == PutAll(m, key, val, ls)
  {
    var a, b := PutAll(m, key, val, ks), PutAll(m, key, val, ls);
    forall x
      ensures x in a <==> x in b
      ensures x in a ==> a[x] == b[x]
    {
      PutAllAt(m, key, val, ks, x);
      PutAllAt(m, key, val, ls, x);
      assert Hits(key, ks, x) <==> Hits(key, ls, x);
    }
    assert a == b;
  }

  function SampleKeyFor(f: string, at: int): string -> SampleKey { (k: string) => SampleKey(f, at, k) }

  function CountFor(counts: map<string, int>): string -> int { (k: string) => Get(counts, k) }

  function ReadingKeyFor(f: string, at: int): string -> ReadingKey { (k: string) => ReadingKey(f, at, k) }

  function ReadingFor(closest: map<string, Vehicle>): string -> Reading { (k: string) => ReadingOf(closest, k) }

  lemma SampleStep(s: Settings, now: int, p: Progress, f: string, o: string, n: int)
    requires !p.failed && (s.fk ==> f in p.t.fences)
    ensures Exec(s, now, p, Sample(f, o, n)) == p.(t := p.t.(samples := p.t.samples[SampleKey(f, Unix(now), o) := n]))
  {}

  lemma NearStep(s: Settings, now: int, p: Progress, f: string, o: string, r: Reading)
    requires !p.failed && (s.fk ==> f in p.t.fences)
    ensures Exec(s, now, p, Near(f, o, r)) == p.(t := p.t.(readings := p.t.readings[ReadingKey(f, Unix(now), o) := r]))
  {}

  lemma {:induction false} SamplesArePuts(s: Settings, now: int, p: Progress, f: string, counts: map<string, int>,
                                          ks: seq<string>)
    requires !p.failed && (s.fk ==> f in p.t.fences)
    ensures ExecAll(s, now, p, FilterMap(ks, SampleFor(f, counts)))
            == p.(t := p.t.(samples := PutAll(p.t.samples, SampleKeyFor(f, Unix(now)), CountFor(counts), ks)))
  {
    if |ks| > 0 {
      var plan, i := FilterMap(Front(ks), SampleFor(f, counts)), Sample(f, Last(ks), Get(counts, Last(ks)));
      SamplesArePuts(s, now, p, f, counts, Front(ks));
      SampleStep(s, now, ExecAll(s, now, p, plan), f, Last(ks), Get(counts, Last(ks)));
      ExecAllSnoc(s, now, p, plan, i);
      assert FilterMap(ks, SampleFor(f, counts)) == plan + [i];
    }
  }

  lemma {:induction false} NearestArePuts(s: Settings, now: int, p: Progress, f: string,
                                          closest: map<string, Vehicle>, ks: seq<string>)
    requires !p.failed && (s.fk ==> f in p.t.fences)
    ensures ExecAll(s, now, p, FilterMap(ks, NearFor(f, closest)))
            == p.(t := p.t.(readings := PutAll(p.t.readings, ReadingKeyFor(f, Unix(now)), ReadingFor(closest), ks)))
  {
    if |ks| > 0 {
      var plan, i := FilterMap(Front(ks), NearFor(f, closest)), Near(f, Last(ks), ReadingOf(closest, Last(ks)));
      NearestArePuts(s, now, p, f, closest, Front(ks));
      NearStep(s, now, ExecAll(s, now, p, plan), f, Last(ks), ReadingOf(closest, Last(ks)));
      ExecAllSnoc(s, now, p, plan, i);
      assert FilterMap(ks, NearFor(f, closest)) == plan + [i];
    }
  }

  lemma SamplesInAnyOrder(s: Settings, now: int, p: Progress, f: string, counts: map<string, int>, ks: seq<string>,
                          ls: seq<string>)
    requires !p.failed && (s.fk ==> f in p.t.fences)
    requires forall k :: k in ks <==> k in ls
    ensures ExecAll(s, now, p, FilterMap(ks, SampleFor(f, counts))) == ExecAll(s, now, p, FilterMap(ls, SampleFor(f, counts)))
  {
    SamplesArePuts(s, now, p, f, counts, ks);
    SamplesArePuts(s, now, p, f, counts, ls);
    PutAllInAnyOrder(p.t.samples, SampleKeyFor(f, Unix(now)), CountFor(counts), ks, ls);
  }

  lemma NearestInAnyOrder(s: Settings, now: int, p: Progress, f: string, closest: map<string, Vehicle>,
                          ks: seq<string>, ls: seq<string>)
    requires !p.failed && (s.fk ==> f in p.t.fences)
    requires forall k :: k in ks <==> k in ls
    ensures ExecAll(s, now, p, FilterMap(ks, NearFor(f, closest))) == ExecAll(s, now, p, FilterMap(ls, NearFor(f, closest)))
  {
    NearestArePuts(s, now, p, f, closest, ks);
    NearestArePuts(s, now, p, f, closest, ls);
    PutAllInAnyOrder(p.t.readings, ReadingKeyFor(f, Unix(now)), ReadingFor(closest), ks, ls);
  }

  lemma NearestPlanInAnyOrder(c: Context, p: Progress, f: Fence, inside: seq<Vehicle>, o1: seq<string>, o2: seq<string>)
    requires !p.failed && (c.s.fk ==> f.id in p.t.fences)
    requires Enumerates(o1, ClosestOf(inside).Keys) && Enumerates(o2, ClosestOf(inside).Keys)
    ensures ExecAll(c.s, c.now, p, NearestPlan(c, f, inside, o1)) == ExecAll(c.s, c.now, p, NearestPlan(c, f, inside, o2))
  {
    var closest := ClosestOf(inside);
    if IntervalOf(c.s) >= 0 {
      var rest := ProbePlan(c, f, closest);
      NearestInAnyOrder(c.s, c.now, p, f.id, closest, o1, o2);
      ExecAllConcat(c.s, c.now, p, FilterMap(o1, NearFor(f.id, closest)), rest);
      ExecAllConcat(c.s, c.now, p, FilterMap(o2, NearFor(f.id, closest)), rest);
    }
  }

  /** One call never adds or removes a fence. */
  lemma ExecKeepsFences(s: Settings, now: int, p: Progress, i: Instr)
    ensures Exec(s, now, p, i).t.fences == p.t.fences
  {}

  lemma {:induction false} ExecAllKeepsFences(s: Settings, now: int, p: Progress, plan: seq<Instr>)
    ensures ExecAll(s, now, p, plan).t.fences == p.t.fences
  {
    if |plan| > 0 {
      ExecAllKeepsFences(s, now, p, Front(plan));
      ExecKeepsFences(s, now, ExecAll(s, now, p, Front(plan)), Last(plan));
    }
  }

  /** The four parts of a fence's plan, one after the other. */
  lemma FencePlanRuns(c: Context, f: Fence, vehicles: seq<Vehicle>, o: Orders, p: Progress)
    ensures var inside := FilterMap(vehicles, Rebase(c.dist, f));
            ExecAll(c.s, c.now, p, FencePlan(c, f, vehicles, o))
            == ExecAll(c.s, c.now,
                       Exec(c.s, c.now,
                            ExecAll(c.s, c.now, ExecAll(c.s, c.now, p, FencePlanStart(f, inside, o.counts)),
                                    NearestPlan(c, f, inside, o.closest)),
                            Health(f.id)),
                       FilterMap(c.watches, EvaluateFor(f, inside)))
  {
    hide Exec;
    var inside := FilterMap(vehicles, Rebase(c.dist, f));
    var begin, near := FencePlanStart(f, inside, o.counts), NearestPlan(c, f, inside, o.closest);
    var health, evals := [Health(f.id)], FilterMap(c.watches, EvaluateFor(f, inside));
    var q := ExecAll(c.s, c.now, p, begin);
    var r := ExecAll(c.s, c.now, q, near);
    ExecAllConcat(c.s, c.now, p, begin, near + (health + evals));
    ExecAllConcat(c.s, c.now, q, near, health + evals);
    ExecAllConcat(c.s, c.now, r, health, evals);
    ExecAllSnoc(c.s, c.now, r, [], Health(f.id));
    assert [] + health == health;
  }

  lemma FencePlanInAnyOrder(c: Context, p: Progress, f: Fence, vehicles: seq<Vehicle>, o1: Orders, o2: Orders)
    requires c.s.fk ==> f.id in p.t.fences
    requires ValidOrders(c, f, vehicles, o1) && ValidOrders(c, f, vehicles, o2)
    ensures ExecAll(c.s, c.now, p, FencePlan(c, f, vehicles, o1)) == ExecAll(c.s, c.now, p, FencePlan(c, f, vehicles, o2))
  {
    if p.failed {
      ExecAllFailed(c.s, c.now, p, FencePlan(c, f, vehicles, o1));
      ExecAllFailed(c.s, c.now, p, FencePlan(c, f, vehicles, o2));
    } else {
      var inside := FilterMap(vehicles, Rebase(c.dist, f));
      var counts := CountsOf(inside);
      var observe := [Observe(f.id, FilterMap(inside, SightingOf()))];
      SamplesInAnyOrder(c.s, c.now, p, f.id, counts, o1.counts, o2.counts);
      var q := ExecAll(c.s, c.now, p, FilterMap(o1.counts, SampleFor(f.id, counts)));
      var r := ExecAll(c.s, c.now, q, observe);
      ExecAllKeepsFences(c.s, c.now, p, FilterMap(o1.counts, SampleFor(f.id, counts)));
      ExecAllKeepsFences(c.s, c.now, q, observe);
      if r.failed {
        ExecAllFailed(c.s, c.now, r, NearestPlan(c, f, inside, o1.closest));
        ExecAllFailed(c.s, c.now, r, NearestPlan(c, f, inside, o2.closest));
      } else {
        NearestPlanInAnyOrder(c, r, f, inside, o1.closest, o2.closest);
      }
      assert ExecAll(c.s, c.now, p, FencePlanStart(f, inside, o1.counts)) == r == ExecAll(c.s, c.now, p, FencePlanStart(f, inside, o2.counts)) by {
        ExecAllConcat(c.s, c.now, p, FilterMap(o1.counts, SampleFor(f.id, counts)), observe);
        ExecAllConcat(c.s, c.now, p, FilterMap(o2.counts, SampleFor(f.id, counts)), observe);
      }
      FencePlanRuns(c, f, vehicles, o1, p);
      FencePlanRuns(c, f, vehicles, o2, p);
    }
  }

  ghost predicate FencesExist(p: Progress, work: seq<Visit>) {
    forall i :: 0 <= i < |work| && work[i].AtFence? ==> work[i].fence.id in p.t.fences
  }

  lemma PieceInAnyOrder(c: Context, p: Progress, v: Visit, x: seq<Instr>, y: seq<Instr>)
    requires c.s.fk && v.AtFence? ==> v.fence.id in p.t.fences
    requires IsPiece(c, v, x) && IsPiece(c, v, y)
    ensures ExecAll(c.s, c.now, p, x) == ExecAll(c.s, c.now, p, y)
  {
    match v
    case OpenGroup(_) =>
    case AtFence(f, vs) =>
      var o1 :| ValidOrders(c, f, vs, o1) && x == FencePlan(c, f, vs, o1);
      var o2 :| ValidOrders(c, f, vs, o2) && y == FencePlan(c, f, vs, o2);
      FencePlanInAnyOrder(c, p, f, vs, o1, o2);
  }

  /** The order Go walks its maps in changes nothing a tick leaves behind: not
      the tables, not the probe schedule, not the report, not what is sent. */
  lemma {:induction false} MapOrderIsInvisible(c: Context, p: Progress, work: seq<Visit>, a: seq<seq<Instr>>,
                                               b: seq<seq<Instr>>)
    requires c.s.fk ==> FencesExist(p, work)
    requires IsPlan(c, work, a) && IsPlan(c, work, b)
    ensures Outcome(c, p, a) == Outcome(c, p, b)
  {
    if |work| > 0 {
      var n := |work| - 1;
      MapOrderIsInvisible(c, p, Front(work), Front(a), Front(b));
      ExecAllKeepsFences(c.s, c.now, p, Concat(Front(a)));
      PieceInAnyOrder(c, Outcome(c, p, Front(a)), work[n], a[n], b[n]);
      ExecAllConcat(c.s, c.now, p, Concat(Front(a)), a[n]);
      ExecAllConcat(c.s, c.now, p, Concat(Front(b)), b[n]);
    }
  }
}
