/** How often a fence is probed: over any sequence of ticks of one poller, with
    anything at all happening to the store between them and any call failing
    (`internal/poll/poll.go`, `recordNearest`). */
module Schedule {
  import opened Base
  import opened Geo
  import opened Entur
  import opened Schema
  import opened Poll
  import opened Plan
  import opened Isolation
  import opened Sequential
  import opened Ticks
  import P = Poller

  // ---------------------------------------------------------------------
  // Stamps
  // ---------------------------------------------------------------------

  /** How often a run of calls stamped the fence before it ended or failed. The
      stamp comes before the probes, so a probe that fails does not undo it. */
  ghost function Stamped(s: Settings, now: int, p: Progress, plan: seq<Instr>, f: string): nat {
    if |plan| == 0 then 0
    else Stamped(s, now, p, Front(plan), f)
         + if Last(plan) == Stamp(f) && !ExecAll(s, now, p, Front(plan)).failed then 1 else 0
  }

  lemma CallStamps(s: Settings, now: int, p: Progress, i: Instr, f: string)
    ensures i == Stamp(f) && !p.failed ==> f in Exec(s, now, p, i).due && Exec(s, now, p, i).due[f] == now
    ensures i != Stamp(f) || p.failed ==> P.SameDue(p.due, Exec(s, now, p, i).due, f)
  {
    hide ObservePresence, FilterMap, Judge, DarkOperators;
  }

  /** The schedule holds the time of the tick if the fence was stamped in it, and
      what it held before if not. */
  lemma {:induction false} ScheduleTells(s: Settings, now: int, p: Progress, plan: seq<Instr>, f: string)
    ensures var due := ExecAll(s, now, p, plan).due;
            if Stamped(s, now, p, plan, f) > 0 then f in due && due[f] == now else P.SameDue(p.due, due, f)
  {
    hide Exec;
    if |plan| > 0 {
      ScheduleTells(s, now, p, Front(plan), f);
      CallStamps(s, now, ExecAll(s, now, p, Front(plan)), Last(plan), f);
    }
  }

  function StampAt(f: string): Instr -> Option<Instr> {
    (i: Instr) => if i == Stamp(f) then Some(i) else None
  }

  lemma {:induction false} StampedAtMost(s: Settings, now: int, p: Progress, plan: seq<Instr>, f: string)
    ensures Stamped(s, now, p, plan, f) <= |FilterMap(plan, StampAt(f))|
  {
    hide ExecAll;
    if |plan| > 0 {
      StampedAtMost(s, now, p, Front(plan), f);
    }
  }

  lemma OneStamp(i: Instr, f: string)
    ensures FilterMap([i], StampAt(f)) == if i == Stamp(f) then [i] else []
  {
    assert Front([i]) == [];
  }

  lemma {:induction false} NoStamps<T>(xs: seq<T>, g: T -> Option<Instr>, f: string)
    requires forall x :: x in xs && g(x).Some? ==> !g(x).value.Stamp?
    ensures FilterMap(FilterMap(xs, g), StampAt(f)) == []
  {
    if |xs| > 0 {
      NoStamps(Front(xs), g, f);
      FilterMapConcat(FilterMap(Front(xs), g), ToSeq(g(Last(xs))), StampAt(f));
      if g(Last(xs)).Some? {
        OneStamp(g(Last(xs)).value, f);
      }
    }
  }

  /** Whether a tick makes the wider lookup of a fence. */
  predicate Probes(c: Context, f: string) {
    IntervalOf(c.s) >= 0 && IsDue(c.due, f, c.now, IntervalOf(c.s))
  }

  lemma NoStampIn(f: string)
    ensures FilterMap<Instr, Instr>([], StampAt(f)) == []
  {}

  lemma ProbesHoldNoStamp(c: Context, f: Fence, absent: seq<Operator>, x: string)
    ensures FilterMap(FilterMap(absent, ProbeFor(c, f)), StampAt(x)) == []
  {
    hide FilterMap;
    NoStamps(absent, ProbeFor(c, f), x);
  }

  /** The nearest rows hold no stamp, and the wider lookup holds one. */
  lemma ProbePlanStamps(c: Context, f: Fence, closest: map<string, Vehicle>, x: string)
    ensures FilterMap(ProbePlan(c, f, closest), StampAt(x))
         == if x == f.id && IsDue(c.due, x, c.now, IntervalOf(c.s)) then [Stamp(x)] else []
  {
    hide FilterMap, IsDue, IntervalOf;
    var absent := FilterMap(OPERATORS, Absent(closest));
    NoStampIn(x);
    OneStamp(Stamp(f.id), x);
    ProbesHoldNoStamp(c, f, absent, x);
    FilterMapConcat([Stamp(f.id)], FilterMap(absent, ProbeFor(c, f)), StampAt(x));
  }

  lemma NearStamps(f: string, closest: map<string, Vehicle>, order: seq<string>, x: string)
    ensures FilterMap(FilterMap(order, NearFor(f, closest)), StampAt(x)) == []
  {
    hide FilterMap;
    NoStamps(order, NearFor(f, closest), x);
  }

  lemma LookupStamps(c: Context, f: Fence, inside: seq<Vehicle>, order: seq<string>, x: string)
    ensures FilterMap(NearestPlan(c, f, inside, order), StampAt(x)) == if x == f.id && Probes(c, x) then [Stamp(x)] else []
  {
    hide FilterMap, ProbePlan, ClosestOf, IsDue;
    var closest := ClosestOf(inside);
    NoStampIn(x);
    NearStamps(f.id, closest, order, x);
    ProbePlanStamps(c, f, closest, x);
    FilterMapConcat(FilterMap(order, NearFor(f.id, closest)), ProbePlan(c, f, closest), StampAt(x));
  }

  lemma FencePlanStamps(c: Context, f: Fence, vs: seq<Vehicle>, o: Orders, x: string)
    ensures FilterMap(FencePlan(c, f, vs, o), StampAt(x)) == if x == f.id && Probes(c, x) then [Stamp(x)] else []
  {
    hide FilterMap, NearestPlan, CountsOf;
    var inside := FilterMap(vs, Rebase(c.dist, f));
    var samples, observe := FilterMap(o.counts, SampleFor(f.id, CountsOf(inside))), Observe(f.id, FilterMap(inside, SightingOf()));
    var near, evals := NearestPlan(c, f, inside, o.closest), FilterMap(c.watches, EvaluateFor(f, inside));
    assert FencePlan(c, f, vs, o) == (samples + [observe]) + (near + ([Health(f.id)] + evals));
    NoStamps(o.counts, SampleFor(f.id, CountsOf(inside)), x);
    NoStamps(c.watches, EvaluateFor(f, inside), x);
    OneStamp(observe, x);
    OneStamp(Health(f.id), x);
    LookupStamps(c, f, inside, o.closest, x);
    hide FencePlan;
    FilterMapConcat(samples, [observe], StampAt(x));
    FilterMapConcat([Health(f.id)], evals, StampAt(x));
    FilterMapConcat(near, [Health(f.id)] + evals, StampAt(x));
    FilterMapConcat(samples + [observe], near + ([Health(f.id)] + evals), StampAt(x));
  }

  lemma PieceStamps(c: Context, v: Visit, piece: seq<Instr>, x: string)
    requires IsPiece(c, v, piece)
    ensures FilterMap(piece, StampAt(x)) == if v.AtFence? && v.fence.id == x && Probes(c, x) then [Stamp(x)] else []
  {
    hide FencePlan, ValidOrders, Probes;
    match v
    case OpenGroup(truncated) => OneStamp(Open(truncated), x);
    case AtFence(f, vs) =>
      var o :| ValidOrders(c, f, vs, o) && piece == FencePlan(c, f, vs, o);
      FencePlanStamps(c, f, vs, o, x);
  }

  lemma LastVisit(work: seq<Visit>, x: string)
    requires |work| > 0 && DistinctVisits(work)
    ensures NeverAt(work, x) <==> NeverAt(Front(work), x) && !(Last(work).AtFence? && Last(work).fence.id == x)
    ensures Last(work).AtFence? && Last(work).fence.id == x ==> NeverAt(Front(work), x)
    ensures DistinctVisits(Front(work))
  {}

  /** The plan of a tick stamps a fence at most once, and only when its wider lookup
      is due. */
  lemma {:induction false} PlanStamps(c: Context, work: seq<Visit>, pieces: seq<seq<Instr>>, x: string)
    requires IsPlan(c, work, pieces) && DistinctVisits(work)
    ensures |FilterMap(Concat(pieces), StampAt(x))| <= if Probes(c, x) && !NeverAt(work, x) then 1 else 0
  {
    if |work| > 0 {
      hide IsPiece, FilterMap, Probes;
      assert IsPiece(c, Last(work), Last(pieces));
      PlanStamps(c, Front(work), Front(pieces), x);
      PieceStamps(c, Last(work), Last(pieces), x);
      FilterMapConcat(Concat(Front(pieces)), Last(pieces), StampAt(x));
      LastVisit(work, x);
    } else {
      assert Concat(pieces) == [];
    }
  }

  // ---------------------------------------------------------------------
  // Many ticks
  // ---------------------------------------------------------------------

  /** One tick, with the state it began in and the one it left. */
  datatype Round = Round(before: Progress, now: int, fetch: Fetch, probe: Probe, fences: seq<Fence>, watches: seq<Watch>,
                         pieces: seq<seq<Instr>>, after: Progress, err: P.TickError)

  /** Ticks of one poller, one after the other. Only the schedule is carried from
      one to the next: between them anything may happen to the store. */
  ghost predicate OneAfterTheOther(p: P.Poller, rounds: seq<Round>) {
    |rounds| > 0 ==>
      var r := Last(rounds);
      && OneAfterTheOther(p, Front(rounds))
      && p.Ticked(r.before, r.now, r.fetch, r.probe, r.fences, r.watches, r.pieces, r.after, r.err)
      && (|rounds| > 1 ==> r.before.due == Last(Front(rounds)).after.due)
  }

  function Times(n: nat, t: int): seq<int> {
    if n == 0 then [] else Times(n - 1, t) + [t]
  }

  /** How often the tick stamped the fence. */
  ghost function StampedIn(p: P.Poller, r: Round, f: string): nat {
    Stamped(p.s, r.now, P.StartOf(r.before, r.now, GroupsOf(p.dist, r.fences), r.fences), Concat(r.pieces), f)
  }

  /** The times of every stamp of the fence. */
  ghost function ProbeTimes(p: P.Poller, rounds: seq<Round>, f: string): seq<int> {
    if |rounds| == 0 then []
    else ProbeTimes(p, Front(rounds), f) + Times(StampedIn(p, Last(rounds), f), Last(rounds).now)
  }

  /** One tick: at most one stamp, only when due by the schedule it began with, and
      the schedule it leaves tells. */
  lemma TickStamps(p: P.Poller, r: Round, f: string)
    requires p.Ticked(r.before, r.now, r.fetch, r.probe, r.fences, r.watches, r.pieces, r.after, r.err)
    ensures StampedIn(p, r, f) <= 1
    ensures StampedIn(p, r, f) == 1 ==>
              IsDue(r.before.due, f, r.now, IntervalOf(p.s)) && f in r.after.due && r.after.due[f] == r.now
    ensures StampedIn(p, r, f) == 0 ==> P.SameDue(r.before.due, r.after.due, f)
  {
    var gs := GroupsOf(p.dist, r.fences);
    var answers := P.AnswersOf(r.fetch, gs);
    var c := p.ContextOf(r.now, r.watches, r.before.due, r.probe);
    var start := P.StartOf(r.before, r.now, gs, r.fences);
    hide GroupsOf, Work, IsPlan, IsFenceList, FencesExist, IsArmedList, ExpireWatches, ExecAll, FilterMap, Stamped, Concat,
         DistinctVisits;
    WorkIsSafe(start.t, p.dist, r.fences, answers, start);
    PlanStamps(c, Work(gs, answers), r.pieces, f);
    StampedAtMost(p.s, r.now, start, Concat(r.pieces), f);
    ScheduleTells(p.s, r.now, start, Concat(r.pieces), f);
  }

  lemma LastRound(p: P.Poller, rounds: seq<Round>, f: string)
    requires OneAfterTheOther(p, rounds) && |rounds| > 0
    ensures |Front(rounds)| == |rounds| - 1 && OneAfterTheOther(p, Front(rounds))
    ensures var r := Last(rounds); p.Ticked(r.before, r.now, r.fetch, r.probe, r.fences, r.watches, r.pieces, r.after, r.err)
    ensures |rounds| == 1 ==> ProbeTimes(p, Front(rounds), f) == []
    ensures |rounds| > 1 ==> Last(rounds).before.due == Last(Front(rounds)).after.due
    ensures ProbeTimes(p, rounds, f)
            == ProbeTimes(p, Front(rounds), f) + Times(StampedIn(p, Last(rounds), f), Last(rounds).now)
  {
    hide StampedIn, Times;
  }

  lemma OnceOrNever(n: nat, t: int)
    requires n <= 1
    ensures forall before: seq<int> :: before + Times(n, t) == if n == 0 then before else before + [t]
  {
    assert Times(0, t) == [] && Times(1, t) == [] + [t];
  }

  /** A tick adds its time once, when the wider lookup was due, or not at all. */
  lemma ProbeTimesGrow(p: P.Poller, rounds: seq<Round>, f: string)
    requires OneAfterTheOther(p, rounds) && |rounds| > 0
    ensures var r, before, times := Last(rounds), ProbeTimes(p, Front(rounds), f), ProbeTimes(p, rounds, f);
            || (times == before && P.SameDue(r.before.due, r.after.due, f))
            || (times == before + [r.now] && IsDue(r.before.due, f, r.now, IntervalOf(p.s))
                && f in r.after.due && r.after.due[f] == r.now)
  {
    hide *;
    LastRound(p, rounds, f);
    TickStamps(p, Last(rounds), f);
    OnceOrNever(StampedIn(p, Last(rounds), f), Last(rounds).now);
  }

  lemma {:induction false} ScheduleRemembers(p: P.Poller, rounds: seq<Round>, f: string)
    requires OneAfterTheOther(p, rounds) && |ProbeTimes(p, rounds, f)| > 0
    ensures |rounds| > 0 && f in Last(rounds).after.due && Last(rounds).after.due[f] == Last(ProbeTimes(p, rounds, f))
    decreases |rounds|
  {
    hide OneAfterTheOther, IsDue, IntervalOf, Times, StampedIn, P.Poller.Ticked;
    assert |rounds| > 0;
    hide ProbeTimes;
    LastRound(p, rounds, f);
    ProbeTimesGrow(p, rounds, f);
    if ProbeTimes(p, rounds, f) == ProbeTimes(p, Front(rounds), f) {
      ScheduleRemembers(p, Front(rounds), f);
    }
  }

  /** Two stamps of a fence in a row are at least the interval apart. */
  lemma {:induction false} ProbesAreSpaced(p: P.Poller, rounds: seq<Round>, f: string, k: nat)
    requires OneAfterTheOther(p, rounds) && 0 < k < |ProbeTimes(p, rounds, f)|
    ensures ProbeTimes(p, rounds, f)[k] - ProbeTimes(p, rounds, f)[k - 1] >= IntervalOf(p.s)
    decreases |rounds|
  {
    hide OneAfterTheOther, IntervalOf, Times, StampedIn, P.Poller.Ticked;
    assert |rounds| > 0;
    hide ProbeTimes;
    LastRound(p, rounds, f);
    ProbeTimesGrow(p, rounds, f);
    if k < |ProbeTimes(p, Front(rounds), f)| {
      ProbesAreSpaced(p, Front(rounds), f, k);
    } else {
      ScheduleRemembers(p, Front(rounds), f);
    }
  }

  lemma {:induction false} SpacingAdds(times: seq<int>, n: int, i: nat, j: nat)
    requires forall k :: 0 < k < |times| ==> times[k] - times[k - 1] >= n
    requires i <= j < |times|
    ensures times[j] - times[i] >= (j - i) * n
  {
    if i < j {
      SpacingAdds(times, n, i, j - 1);
      assert (j - i) * n == (j - 1 - i) * n + n;
    }
  }

  lemma DivideBound(w: nat, n: int, d: nat)
    requires n > 0 && d * n <= w
    ensures d <= w / n
  {
    assert w == (w / n) * n + w % n;
    assert (w / n + 1 - d) * n > 0;
  }

  /** Over any ticks of one poller, a fence is probed in any window at most once
      more than the number of whole intervals that fit in it. */
  lemma ProbeBudget(p: P.Poller, rounds: seq<Round>, f: string, from: int, width: nat, i: nat, j: nat)
    requires OneAfterTheOther(p, rounds) && IntervalOf(p.s) > 0
    requires i <= j < |ProbeTimes(p, rounds, f)|
    requires from <= ProbeTimes(p, rounds, f)[i] && ProbeTimes(p, rounds, f)[j] <= from + width
    ensures j - i + 1 <= width / IntervalOf(p.s) + 1
  {
    hide *;
    forall k | 0 < k < |ProbeTimes(p, rounds, f)|
      ensures ProbeTimes(p, rounds, f)[k] - ProbeTimes(p, rounds, f)[k - 1] >= IntervalOf(p.s)
    {
      ProbesAreSpaced(p, rounds, f, k);
    }
    SpacingAdds(ProbeTimes(p, rounds, f), IntervalOf(p.s), i, j);
    DivideBound(width, IntervalOf(p.s), j - i);
  }
}
