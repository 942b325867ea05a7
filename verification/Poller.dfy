/** The poller: the object that runs ticks against the store
    (`internal/poll/poll.go`). Upstream answers arrive in any order, maps are
    walked in any order, and every tick still does what some plan of `Plan`
    says. */
module Poller {
  import opened Base
  import opened Geo
  import opened Entur
  import opened Strings
  import opened Schema
  import opened Poll
  import opened Plan
  import Store

  /** `Stopped` is a store call that failed; `Upstream` names the groups whose
      query failed, in order. */
  datatype TickError = NoError | Stopped | Upstream(groups: seq<nat>)

  /** The answers to the query of each group, by index. */
  function AnswersOf(fetch: (nat, Query) -> FetchResult, gs: seq<Group>): (out: seq<FetchResult>)
    ensures |out| == |gs|
    ensures forall i :: 0 <= i < |gs| ==> out[i] == fetch(i, GroupQuery(gs[i]))
  {
    if |gs| == 0 then [] else AnswersOf(fetch, Front(gs)) + [fetch(|gs| - 1, GroupQuery(Last(gs)))]
  }

  function FailedGroups(answers: seq<FetchResult>): seq<nat> {
    if |answers| == 0 then []
    else FailedGroups(Front(answers)) + if Last(answers).Failed? then [|answers| - 1] else []
  }

  /** The wider lookups of a fence, by index. */
  function ProbesOf(probe: (string, Query) -> FetchResult, f: Fence, reachM: int,
                    absent: seq<Operator>): (out: seq<FetchResult>)
    ensures |out| == |absent|
    ensures forall i :: 0 <= i < |absent| ==> out[i] == probe(f.id, ProbeQuery(f, reachM, absent[i]))
  {
    if |absent| == 0 then []
    else ProbesOf(probe, f, reachM, Front(absent)) + [probe(f.id, ProbeQuery(f, reachM, Last(absent)))]
  }

  function ErrorOf(failed: bool, answers: seq<FetchResult>): TickError {
    if failed then Stopped
    else if FailedGroups(answers) == [] then NoError
    else Upstream(FailedGroups(answers))
  }

  function Indices(n: nat): (s: set<nat>)
    ensures forall i :: i in s <==> 0 <= i < n
  {
    if n == 0 then {} else Indices(n - 1) + {n - 1}
  }

  /** Go walks a map in any order. */
  method MapOrder(keys: set<string>) returns (order: seq<string>)
    ensures Enumerates(order, keys)
  {
    order := [];
    var todo := keys;
    while todo != {}
      invariant todo <= keys
      invariant Enumerates(order, keys - todo)
    {
      var k :| k in todo;
      todo := todo - {k};
      order := order + [k];
    }
  }

  /** Runs one query for each group; they complete in any order, and each fills
      its own place. */
  method FetchAll(fetch: (nat, Query) -> FetchResult, gs: seq<Group>) returns (results: array<FetchResult>)
    ensures results[..] == AnswersOf(fetch, gs)
  {
    results := new FetchResult[|gs|](_ => Failed);
    var running := Indices(|gs|);
    while running != {}
      invariant forall i :: i in running ==> i < |gs|
      invariant forall i: nat :: i < |gs| && i !in running ==> results[i] == fetch(i, GroupQuery(gs[i]))
    {
      var i :| i in running;
      running := running - {i};
      results[i] := fetch(i, GroupQuery(gs[i]));
    }
  }

  method FetchProbes(probe: (string, Query) -> FetchResult, f: Fence, reachM: int, absent: seq<Operator>)
    returns (results: array<FetchResult>)
    ensures results[..] == ProbesOf(probe, f, reachM, absent)
  {
    results := new FetchResult[|absent|](_ => Failed);
    var running := Indices(|absent|);
    while running != {}
      invariant forall i :: i in running ==> i < |absent|
      invariant forall i: nat :: i < |absent| && i !in running ==>
                  results[i] == probe(f.id, ProbeQuery(f, reachM, absent[i]))
    {
      var i :| i in running;
      running := running - {i};
      results[i] := probe(f.id, ProbeQuery(f, reachM, absent[i]));
    }
  }

  // ---------------------------------------------------------------------
  // Plans cut short
  // ---------------------------------------------------------------------

  lemma {:induction false} FilterMapTotal<T, U>(xs: seq<T>, f: T -> Option<U>)
    requires forall x :: x in xs ==> f(x).Some?
    ensures |FilterMap(xs, f)| == |xs|
    ensures forall i :: 0 <= i < |xs| ==> FilterMap(xs, f)[i] == f(xs[i]).value
  {
    if |xs| > 0 {
      FilterMapTotal(Front(xs), f);
    }
  }

  lemma FilterMapPrefix<T, U>(xs: seq<T>, n: nat, f: T -> Option<U>)
    requires n <= |xs|
    ensures FilterMap(xs[..n], f) <= FilterMap(xs, f)
  {
    assert xs == xs[..n] + xs[n..];
    FilterMapConcat(xs[..n], xs[n..], f);
  }

  /** Once a call has failed the rest of the plan does nothing. */
  lemma CutShort(s: Settings, now: int, p: Progress, done: seq<Instr>, plan: seq<Instr>)
    requires done <= plan && ExecAll(s, now, p, done).failed
    ensures ExecAll(s, now, p, plan) == ExecAll(s, now, p, done)
  {
    var rest := plan[|done|..];
    assert plan == done + rest;
    ExecAllConcat(s, now, p, done, rest);
    ExecAllFailed(s, now, ExecAll(s, now, p, done), rest);
  }

  lemma NoStep(s: Settings, now: int, p: Progress)
    ensures ExecAll(s, now, p, []) == p
  {}

  lemma NextStep(s: Settings, now: int, p: Progress, plan: seq<Instr>, i: nat)
    requires i < |plan|
    ensures ExecAll(s, now, p, plan[..i + 1]) == Exec(s, now, ExecAll(s, now, p, plan[..i]), plan[i])
  {
    assert plan[..i + 1] == plan[..i] + [plan[i]];
    ExecAllSnoc(s, now, p, plan[..i], plan[i]);
  }

  lemma TallyGrows(vs: seq<Vehicle>, i: nat)
    requires i < |vs|
    ensures Tally(vs[..i + 1]) == Tally(vs[..i])[CountKey(vs[i]) := Get(Tally(vs[..i]), CountKey(vs[i])) + 1]
  {
    assert Front(vs[..i + 1]) == vs[..i];
  }

  method CountSeen(inside: seq<Vehicle>) returns (counts: map<string, int>, sightings: seq<Sighting>)
    ensures counts == Tally(inside)
    ensures sightings == FilterMap(inside, SightingOf())
  {
    counts, sightings := map[], [];
    assert Tally(inside[..0]) == map[] && FilterMap(inside[..0], SightingOf()) == [];
    hide Tally, FilterMap, Get;
    for i := 0 to |inside|
      invariant counts == Tally(inside[..i])
      invariant sightings == FilterMap(inside[..i], SightingOf())
    {
      TallyGrows(inside, i);
      assert inside[..i + 1] == inside[..i] + [inside[i]];
      FilterMapSnoc(inside[..i], inside[i], SightingOf());
      var key := inside[i].operatorKey;
      if key == "" {
        key := "unknown";
      }
      counts := counts[key := Get(counts, key) + 1];
      sightings := sightings + [Sighting(inside[i].id, key)];
    }
    assert inside[..|inside|] == inside;
  }

  /** A zero for every known operator that is absent. */
  method AddZeros(seen: map<string, int>) returns (counts: map<string, int>)
    ensures counts == WithZeros(seen)
  {
    counts := seen;
    for i := 0 to |OPERATORS|
      invariant forall k :: k in counts <==> k in seen || exists j :: 0 <= j < i && OPERATORS[j].key == k
      invariant forall k :: k in counts ==> counts[k] == Get(seen, k)
    {
      if OPERATORS[i].key !in counts {
        counts := counts[OPERATORS[i].key := 0];
      }
    }
    forall k
      ensures k in OperatorKeys() <==> exists j :: 0 <= j < |OPERATORS| && OPERATORS[j].key == k
    {
      if j :| 0 <= j < |OPERATORS| && OPERATORS[j].key == k {
        assert OPERATORS[j] in OPERATORS;
      }
    }
  }

  /** The counts of a fence and the sightings behind them. */
  method CountInside(inside: seq<Vehicle>) returns (counts: map<string, int>, sightings: seq<Sighting>)
    ensures counts == CountsOf(inside)
    ensures sightings == FilterMap(inside, SightingOf())
  {
    hide Tally, FilterMap, WithZeros;
    counts, sightings := CountSeen(inside);
    counts := AddZeros(counts);
  }

  /** The closest vehicle of each operator. */
  method FindClosest(inside: seq<Vehicle>) returns (closest: map<string, Vehicle>)
    ensures closest == ClosestOf(inside)
  {
    closest := map[];
    for i := 0 to |inside|
      invariant closest == ClosestOf(inside[..i])
    {
      assert Front(inside[..i + 1]) == inside[..i];
      var v := inside[i];
      if v.operatorKey == "" {
        continue;
      }
      if v.operatorKey !in closest || v.distanceM < closest[v.operatorKey].distanceM {
        closest := closest[v.operatorKey := v];
      }
    }
    assert inside[..|inside|] == inside;
  }

  method FindNew(matching: seq<Vehicle>, w: Watch) returns (hit: seq<Vehicle>)
    ensures hit == FilterMap(matching, NotInBaseline(w))
  {
    hit := [];
    var base := set id | id in w.baseline;
    for i := 0 to |matching|
      invariant hit == FilterMap(matching[..i], NotInBaseline(w))
    {
      assert matching[..i + 1] == matching[..i] + [matching[i]];
      FilterMapSnoc(matching[..i], matching[i], NotInBaseline(w));
      if matching[i].id !in base {
        hit := hit + [matching[i]];
      }
    }
    assert matching[..|matching|] == matching;
  }

  /** Where a tick stands once it has read what it needs. */
  ghost function StartOf(before: Progress, now: int, gs: seq<Group>, fences: seq<Fence>): Progress {
    before.(t := ExpireWatches(before.t, now), dark := [], failed := false,
            rep := NO_REPORT.(queries := |gs|, fences := |fences|, expired := |OverdueIds(before.t, now)|))
  }

  ghost predicate SameDue(a: map<string, int>, b: map<string, int>, id: string) {
    (id in a <==> id in b) && (id in a ==> a[id] == b[id])
  }

  /** The two schedules differ at most for the given fences. */
  ghost predicate OnlyDue(a: map<string, int>, b: map<string, int>, ids: set<string>) {
    forall id :: id !in ids ==> SameDue(a, b, id)
  }

  lemma NoneDue(a: map<string, int>, ids: set<string>)
    ensures OnlyDue(a, a, ids)
  {}

  lemma OnlyDueThen(a: map<string, int>, b: map<string, int>, c: map<string, int>, ids: set<string>, more: set<string>)
    requires OnlyDue(a, b, ids) && OnlyDue(b, c, more)
    ensures OnlyDue(a, c, ids + more)
  {}

  lemma OnlyDueWider(a: map<string, int>, b: map<string, int>, ids: set<string>, more: set<string>)
    requires OnlyDue(a, b, ids) && ids <= more
    ensures OnlyDue(a, b, more)
  {}

  lemma SameDueThen(a: map<string, int>, b: map<string, int>, c: map<string, int>, ids: set<string>, id: string)
    requires OnlyDue(a, b, ids) && id !in ids && SameDue(a, c, id)
    ensures SameDue(b, c, id)
  {}

  ghost function IdsIn(fs: seq<Fence>): set<string> {
    set f | f in fs :: f.id
  }

  lemma NextIdIsNew(fs: seq<Fence>, i: nat)
    requires i < |fs| && DistinctIds(fs)
    ensures fs[i].id !in IdsIn(fs[..i])
    ensures IdsIn(fs[..i + 1]) == IdsIn(fs[..i]) + {fs[i].id}
  {
    assert fs[..i + 1] == fs[..i] + [fs[i]];
  }

  lemma IdsPrefix(fs: seq<Fence>, n: nat)
    requires n <= |fs|
    ensures IdsIn(fs[..n]) <= IdsIn(fs)
  {}

  lemma EnumerationExists(keys: set<string>)
    ensures Enumerates(Strings.Sorted(keys), keys)
  {
    var xs := Strings.Sorted(keys);
    forall i, j | 0 <= i < j < |xs|
      ensures xs[i] != xs[j]
    {
      LessIsTotal(xs[i], xs[j]);
    }
  }

  lemma ExecFailed(s: Settings, now: int, p: Progress, i: Instr)
    requires p.failed
    ensures Exec(s, now, p, i) == p
  {}

  lemma Opened(s: Settings, now: int, p: Progress, truncated: bool)
    requires !p.failed
    ensures ExecAll(s, now, p, [Open(truncated)]) == p.(rep := p.rep.(truncated := p.rep.truncated || truncated))
  {
    assert Front([Open(truncated)]) == [];
  }

  // ---------------------------------------------------------------------
  // Plans grow with the work
  // ---------------------------------------------------------------------

  lemma VisitsSnoc(fs: seq<Fence>, i: nat, vs: seq<Vehicle>)
    requires i < |fs|
    ensures VisitsOf(fs[..i + 1], vs) == VisitsOf(fs[..i], vs) + [AtFence(fs[i], vs)]
  {
    assert Front(fs[..i + 1]) == fs[..i];
  }

  lemma {:induction false} VisitsPrefix(fs: seq<Fence>, n: nat, vs: seq<Vehicle>)
    requires n <= |fs|
    ensures VisitsOf(fs[..n], vs) <= VisitsOf(fs, vs)
    decreases |fs|
  {
    if n == |fs| {
      assert fs[..n] == fs;
    } else {
      VisitsPrefix(Front(fs), n, vs);
      assert fs[..n] == Front(fs)[..n];
    }
  }

  lemma PlanSnoc(c: Context, work: seq<Visit>, pieces: seq<seq<Instr>>, v: Visit, piece: seq<Instr>)
    requires IsPlan(c, work, pieces) && IsPiece(c, v, piece)
    ensures IsPlan(c, work + [v], pieces + [piece])
    ensures Concat(pieces + [piece]) == Concat(pieces) + piece
  {
    assert Front(pieces + [piece]) == pieces;
  }

  /** Some calls for a visit that is never reached. */
  ghost function AnyPiece(c: Context, v: Visit): (piece: seq<Instr>)
    ensures IsPiece(c, v, piece)
  {
    match v
    case OpenGroup(truncated) => [Open(truncated)]
    case AtFence(f, vs) =>
      var inside := FilterMap(vs, Rebase(c.dist, f));
      var o := Orders(Strings.Sorted(CountsOf(inside).Keys), Strings.Sorted(ClosestOf(inside).Keys));
      EnumerationExists(CountsOf(inside).Keys);
      EnumerationExists(ClosestOf(inside).Keys);
      assert ValidOrders(c, f, vs, o);
      FencePlan(c, f, vs, o)
  }

  /** A plan for all of the work from one for its beginning; it does the same
      when a call has failed on the way. */
  ghost method PadPlan(c: Context, work: seq<Visit>, pieces: seq<seq<Instr>>, s: Settings, now: int, p: Progress)
    returns (all: seq<seq<Instr>>)
    requires |pieces| <= |work| && IsPlan(c, work[..|pieces|], pieces)
    requires ExecAll(s, now, p, Concat(pieces)).failed
    ensures IsPlan(c, work, all)
    ensures ExecAll(s, now, p, Concat(all)) == ExecAll(s, now, p, Concat(pieces))
  {
    hide Exec, ExecAll, IsPiece;
    all := pieces;
    while |all| < |work|
      invariant |pieces| <= |all| <= |work| && IsPlan(c, work[..|all|], all)
      invariant ExecAll(s, now, p, Concat(all)) == ExecAll(s, now, p, Concat(pieces))
    {
      var v := work[|all|];
      var piece := AnyPiece(c, v);
      assert work[..|all| + 1] == work[..|all|] + [v];
      PlanSnoc(c, work[..|all|], all, v, piece);
      ExecAllConcat(s, now, p, Concat(all), piece);
      ExecAllFailed(s, now, ExecAll(s, now, p, Concat(all)), piece);
      all := all + [piece];
    }
    assert work[..|work|] == work;
  }

  ghost method PadVisits(c: Context, fs: seq<Fence>, vs: seq<Vehicle>, pieces: seq<seq<Instr>>, p: Progress)
    returns (all: seq<seq<Instr>>)
    requires |pieces| <= |fs| && IsPlan(c, VisitsOf(fs[..|pieces|], vs), pieces)
    requires ExecAll(c.s, c.now, p, Concat(pieces)).failed
    ensures IsPlan(c, VisitsOf(fs, vs), all)
    ensures ExecAll(c.s, c.now, p, Concat(all)) == ExecAll(c.s, c.now, p, Concat(pieces))
  {
    hide Exec, ExecAll, IsPiece, Concat, VisitsOf;
    VisitsPrefix(fs, |pieces|, vs);
    all := PadPlan(c, VisitsOf(fs, vs), pieces, c.s, c.now, p);
  }

  lemma VisitStep(c: Context, fs: seq<Fence>, i: nat, vs: seq<Vehicle>, q: Progress, pieces: seq<seq<Instr>>,
                  piece: seq<Instr>)
    requires i < |fs| && IsPlan(c, VisitsOf(fs[..i], vs), pieces) && IsPiece(c, AtFence(fs[i], vs), piece)
    ensures IsPlan(c, VisitsOf(fs[..i + 1], vs), pieces + [piece])
    ensures ExecAll(c.s, c.now, q, Concat(pieces + [piece])) == ExecAll(c.s, c.now, ExecAll(c.s, c.now, q, Concat(pieces)), piece)
  {
    hide *;
    VisitsSnoc(fs, i, vs);
    PlanSnoc(c, VisitsOf(fs[..i], vs), pieces, AtFence(fs[i], vs), piece);
    ExecAllConcat(c.s, c.now, q, Concat(pieces), piece);
  }

  lemma WorkSnoc(gs: seq<Group>, answers: seq<FetchResult>, i: nat)
    requires i < |gs| == |answers|
    ensures Work(gs[..i + 1], answers[..i + 1]) == Work(gs[..i], answers[..i]) + VisitGroup(gs[i], answers[i])
    ensures FailedGroups(answers[..i + 1]) == FailedGroups(answers[..i]) + if answers[i].Failed? then [i] else []
    ensures answers[i].Failed? ==> VisitGroup(gs[i], answers[i]) == []
  {
    assert Front(gs[..i + 1]) == gs[..i] && Front(answers[..i + 1]) == answers[..i];
  }

  lemma {:induction false} WorkPrefix(gs: seq<Group>, answers: seq<FetchResult>, n: nat)
    requires n <= |gs| == |answers|
    ensures Work(gs[..n], answers[..n]) <= Work(gs, answers)
    decreases |gs|
  {
    if n == |gs| {
      assert gs[..n] == gs && answers[..n] == answers;
    } else {
      WorkPrefix(Front(gs), Front(answers), n);
      assert gs[..n] == Front(gs)[..n] && answers[..n] == Front(answers)[..n];
    }
  }

  lemma {:induction false} MembersPrefix(gs: seq<Group>, n: nat)
    requires n <= |gs|
    ensures Members(gs[..n]) <= Members(gs)
    decreases |gs|
  {
    if n == |gs| {
      assert gs[..n] == gs;
    } else {
      MembersPrefix(Front(gs), n);
      assert gs[..n] == Front(gs)[..n];
    }
  }

  lemma PrefixIds(before: seq<Fence>, these: seq<Fence>, all: seq<Fence>, i: nat, j: nat)
    requires before + these <= all && DistinctIds(all) && j < |these|
    ensures i < |before| ==> before[i].id != these[j].id
    ensures i < j ==> these[i].id != these[j].id
  {
    assert all[|before| + j] == (before + these)[|before| + j];
    if i < |before| {
      assert all[i] == (before + these)[i];
    }
    if i < j {
      assert all[|before| + i] == (before + these)[|before| + i];
    }
  }

  lemma IdsTogether(a: seq<Fence>, b: seq<Fence>)
    ensures IdsIn(a + b) == IdsIn(a) + IdsIn(b)
  {}

  lemma AreDistinct(fs: seq<Fence>)
    requires forall j, k :: 0 <= j < k < |fs| ==> fs[j].id != fs[k].id
    ensures DistinctIds(fs)
  {}

  lemma NextGroupIsNew(gs: seq<Group>, i: nat)
    requires i < |gs| && DistinctIds(Members(gs))
    ensures DistinctIds(gs[i].fences)
    ensures forall f :: f in gs[i].fences ==> f.id !in IdsIn(Members(gs[..i]))
    ensures IdsIn(Members(gs[..i + 1])) == IdsIn(Members(gs[..i])) + IdsIn(gs[i].fences)
  {
    hide DistinctIds;
    var before, these := Members(gs[..i]), gs[i].fences;
    assert Front(gs[..i + 1]) == gs[..i];
    MembersPrefix(gs, i + 1);
    IdsTogether(before, these);
    forall j, k | 0 <= j < k < |these|
      ensures these[j].id != these[k].id
    {
      PrefixIds(before, these, Members(gs), j, k);
    }
    AreDistinct(these);
    forall f, g | f in these && g in before
      ensures f.id != g.id
    {
      var j :| 0 <= j < |these| && these[j] == f;
      var k :| 0 <= k < |before| && before[k] == g;
      PrefixIds(before, these, Members(gs), k, j);
    }
  }

  lemma OldDue(a: map<string, int>, b: map<string, int>, ids: set<string>, fs: seq<Fence>)
    requires OnlyDue(a, b, ids) && forall f :: f in fs ==> f.id !in ids
    ensures forall f :: f in fs ==> SameDue(b, a, f.id)
  {}

  lemma {:induction false} ConcatConcat(a: seq<seq<Instr>>, b: seq<seq<Instr>>)
    ensures Concat(a + b) == Concat(a) + Concat(b)
  {
    if |b| == 0 {
      assert a + b == a;
    } else {
      assert Front(a + b) == a + Front(b);
      ConcatConcat(a, Front(b));
    }
  }

  lemma PlanConcat(c: Context, v: seq<Visit>, a: seq<seq<Instr>>, w: seq<Visit>, b: seq<seq<Instr>>)
    requires IsPlan(c, v, a) && IsPlan(c, w, b)
    ensures IsPlan(c, v + w, a + b)
  {}

  lemma OutcomeConcat(c: Context, p: Progress, a: seq<seq<Instr>>, b: seq<seq<Instr>>)
    ensures Outcome(c, p, a + b) == ExecAll(c.s, c.now, Outcome(c, p, a), Concat(b))
  {
    ConcatConcat(a, b);
    ExecAllConcat(c.s, c.now, p, Concat(a), Concat(b));
  }

  lemma GroupPlan(c: Context, g: Group, answer: FetchResult, more: seq<seq<Instr>>)
    requires answer.Fetched? && IsPlan(c, VisitsOf(g.fences, answer.vehicles), more)
    ensures IsPlan(c, VisitGroup(g, answer), [[Open(answer.truncated)]] + more)
    ensures Concat([[Open(answer.truncated)]] + more) == [Open(answer.truncated)] + Concat(more)
  {
    assert IsPlan(c, [OpenGroup(answer.truncated)], [[Open(answer.truncated)]]);
    assert VisitGroup(g, answer) == [OpenGroup(answer.truncated)] + VisitsOf(g.fences, answer.vehicles);
    assert Front([[Open(answer.truncated)]]) == [];
    assert Concat([[Open(answer.truncated)]]) == [Open(answer.truncated)];
    hide *;
    PlanConcat(c, [OpenGroup(answer.truncated)], [[Open(answer.truncated)]], VisitsOf(g.fences, answer.vehicles), more);
    ConcatConcat([[Open(answer.truncated)]], more);
  }

  lemma GroupStep(c: Context, work: seq<Visit>, g: Group, answer: FetchResult, p: Progress, pieces: seq<seq<Instr>>,
                  more: seq<seq<Instr>>)
    requires IsPlan(c, work, pieces)
    requires answer.Fetched? && IsPlan(c, VisitsOf(g.fences, answer.vehicles), more)
    ensures IsPlan(c, work + VisitGroup(g, answer), pieces + ([[Open(answer.truncated)]] + more))
    ensures Outcome(c, p, pieces + ([[Open(answer.truncated)]] + more))
            == ExecAll(c.s, c.now, Outcome(c, p, pieces), [Open(answer.truncated)] + Concat(more))
  {
    hide *;
    GroupPlan(c, g, answer, more);
    PlanConcat(c, work, pieces, VisitGroup(g, answer), [[Open(answer.truncated)]] + more);
    OutcomeConcat(c, p, pieces, [[Open(answer.truncated)]] + more);
  }

  ghost method PadOutcome(c: Context, begun: seq<Visit>, work: seq<Visit>, p: Progress, pieces: seq<seq<Instr>>)
    returns (all: seq<seq<Instr>>)
    requires begun <= work && IsPlan(c, begun, pieces) && Outcome(c, p, pieces).failed
    ensures IsPlan(c, work, all) && Outcome(c, p, all) == Outcome(c, p, pieces)
  {
    hide Exec, ExecAll, IsPiece;
    all := PadPlan(c, work, pieces, c.s, c.now, p);
  }

  lemma StampedOnly(due: map<string, int>, f: string, now: int)
    ensures OnlyDue(due, due[f := now], {f})
  {}

  lemma ProbePlanLength(c: Context, f: Fence, absent: seq<Operator>)
    ensures |FilterMap(absent, ProbeFor(c, f))| == |absent|
  {
    FilterMapTotal(absent, ProbeFor(c, f));
  }

  lemma ProbePlanAt(c: Context, f: Fence, absent: seq<Operator>, i: nat)
    requires i < |absent|
    ensures |FilterMap(absent, ProbeFor(c, f))| == |absent|
    ensures FilterMap(absent, ProbeFor(c, f))[i]
            == Probe(f.id, absent[i].key, FoundBy(c.dist, f, ProbesOf(c.probe, f, c.s.reachM, absent)[i]))
  {
    FilterMapTotal(absent, ProbeFor(c, f));
  }

  /** The operators with nothing inside. */
  method FindAbsent(closest: map<string, Vehicle>) returns (absent: seq<Operator>)
    ensures absent == FilterMap(OPERATORS, Absent(closest))
  {
    absent := [];
    for i := 0 to |OPERATORS|
      invariant absent == FilterMap(OPERATORS[..i], Absent(closest))
    {
      assert OPERATORS[..i + 1] == OPERATORS[..i] + [OPERATORS[i]];
      FilterMapSnoc(OPERATORS[..i], OPERATORS[i], Absent(closest));
      if OPERATORS[i].key in closest {
        continue;
      }
      absent := absent + [OPERATORS[i]];
    }
    assert OPERATORS[..|OPERATORS|] == OPERATORS;
  }

  lemma Stamped(s: Settings, now: int, p: Progress, f: string)
    requires !p.failed
    ensures ExecAll(s, now, p, [Stamp(f)]) == p.(due := p.due[f := now])
  {
    assert Front([Stamp(f)]) == [];
  }

  // ---------------------------------------------------------------------
  // The poller
  // ---------------------------------------------------------------------

  class Poller {
    const store: Store.Store
    const dist: Metric
    const s: Settings

    /** When the wider lookup of each fence last ran. */
    var nearestAt: map<string, int>

    /** Everything handed to a sink, in order. */
    var outbox: seq<Notification>

    constructor (store: Store.Store, dist: Metric, s: Settings)
      requires store.Valid() && store.fk == s.fk
      ensures Valid() && this.store == store && this.dist == dist && this.s == s
      ensures nearestAt == map[] && outbox == []
    {
      this.store, this.dist, this.s := store, dist, s;
      nearestAt, outbox := map[], [];
    }

    ghost predicate Valid()
      reads this, store
    {
      store.Valid() && store.fk == s.fk
    }

    ghost function At(rep: Report, dark: seq<string>, failed: bool): Progress
      reads this, store
    {
      Progress(store.Now(), nearestAt, dark, rep, outbox, failed)
    }

    method Sampled(f: Fence, now: int, k: string, n: int, rep: Report, ghost dark: seq<string>) returns (ok: bool)
      requires Valid()
      modifies store
      ensures Valid()
      ensures At(rep, dark, !ok) == Exec(s, now, old(At(rep, dark, false)), Sample(f.id, k, n))
    {
      var st := store.RecordSample(f.id, now, k, n);
      return st == Store.Ok;
    }

    method Observed(f: Fence, now: int, sightings: seq<Sighting>, rep: Report, ghost dark: seq<string>)
      returns (ok: bool, out: Report)
      requires Valid()
      modifies store
      ensures Valid()
      ensures At(out, dark, !ok) == Exec(s, now, old(At(rep, dark, false)), Observe(f.id, sightings))
    {
      var st, arrivals := store.ObservePresence(f.id, now, sightings, s.stale);
      if st != Store.Ok {
        return false, rep;
      }
      return true, rep.(arrivals := rep.arrivals + |arrivals|);
    }

    method RecordFence(f: Fence, now: int, inside: seq<Vehicle>, rep: Report, ghost dark: seq<string>)
      returns (ok: bool, out: Report, ghost order: seq<string>)
      requires Valid()
      modifies store
      ensures Valid()
      ensures Enumerates(order, CountsOf(inside).Keys)
      ensures At(out, dark, !ok) == ExecAll(s, now, old(At(rep, dark, false)), FencePlanStart(f, inside, order))
    {
      hide Exec, ExecAll, CountsOf;
      ghost var p := At(rep, dark, false);
      var counts, sightings := CountInside(inside);
      var keys := MapOrder(counts.Keys);
      order := keys;
      ghost var samples := FilterMap(order, SampleFor(f.id, counts));
      ghost var plan := FencePlanStart(f, inside, order);
      FilterMapTotal(order, SampleFor(f.id, counts));
      NoStep(s, now, p);
      for i := 0 to |keys|
        invariant Valid()
        invariant At(rep, dark, false) == ExecAll(s, now, p, samples[..i])
      {
        NextStep(s, now, p, samples, i);
        var done := Sampled(f, now, keys[i], Get(counts, keys[i]), rep, dark);
        if !done {
          assert samples[..i + 1] <= plan;
          CutShort(s, now, p, samples[..i + 1], plan);
          return false, rep, order;
        }
      }
      assert samples[..|keys|] == samples;
      ExecAllSnoc(s, now, p, samples, Observe(f.id, sightings));
      ok, out := Observed(f, now, sightings, rep, dark);
    }

    /** What a tick at `now` shares between its fences. */
    function ContextOf(now: int, watches: seq<Watch>, due: map<string, int>,
                       probe: (string, Query) -> FetchResult): Context {
      Context(dist, s, now, watches, due, probe)
    }

    ghost predicate Serves(c: Context) {
      c.dist == dist && c.s == s
    }

    method Found(f: Fence, now: int, k: string, r: Reading, rep: Report, ghost dark: seq<string>) returns (ok: bool)
      requires Valid()
      modifies store
      ensures Valid()
      ensures At(rep, dark, !ok) == Exec(s, now, old(At(rep, dark, false)), Near(f.id, k, r))
    {
      var st := store.RecordNearest(f.id, now, k, r);
      return st == Store.Ok;
    }

    method Probed(f: Fence, now: int, k: string, res: FetchResult, rep: Report, ghost dark: seq<string>)
      returns (ok: bool, out: Report)
      requires Valid()
      modifies store
      ensures Valid()
      ensures At(out, dark, !ok) == Exec(s, now, old(At(rep, dark, false)), Probe(f.id, k, FoundBy(dist, f, res)))
    {
      out := rep.(probes := rep.probes + 1);
      if res.Failed? {
        return true, out;
      }
      var best := FindNearest(dist, res.vehicles, f);
      var r := Reading(None, "");
      if best.Some? {
        r := Reading(Some(Metres(dist(f.at, best.value.at))), best.value.id);
      }
      var st := store.RecordNearest(f.id, now, k, r);
      return st == Store.Ok, out;
    }

    method ProbeAll(c: Context, f: Fence, closest: map<string, Vehicle>, rep: Report, ghost dark: seq<string>)
      returns (ok: bool, out: Report)
      requires Valid() && Serves(c)
      modifies store
      ensures Valid()
      ensures At(out, dark, !ok) == ExecAll(s, c.now, old(At(rep, dark, false)),
                                            FilterMap(FilterMap(OPERATORS, Absent(closest)), ProbeFor(c, f)))
    {
      ghost var p := At(rep, dark, false);
      var absent := FindAbsent(closest);
      var answers := FetchProbes(c.probe, f, s.reachM, absent);
      ghost var plan := FilterMap(absent, ProbeFor(c, f));
      hide Exec, ExecAll, FoundBy, FilterMap, ProbeFor, Absent, Valid, Keyed, ProbesOf;
      NoStep(s, c.now, p);
      ProbePlanLength(c, f, absent);
      ok, out := true, rep;
      for i := 0 to |absent|
        invariant Valid()
        invariant answers[..] == ProbesOf(c.probe, f, s.reachM, absent)
        invariant At(out, dark, false) == ExecAll(s, c.now, p, plan[..i])
      {
        NextStep(s, c.now, p, plan, i);
        ProbePlanAt(c, f, absent, i);
        assert answers[i] == answers[..][i];
        ok, out := Probed(f, c.now, absent[i].key, answers[i], out, dark);
        if !ok {
          CutShort(s, c.now, p, plan[..i + 1], plan);
          return;
        }
      }
      assert plan[..|absent|] == plan;
      ok := true;
    }

    method RecordClosest(c: Context, f: Fence, closest: map<string, Vehicle>, rep: Report, ghost dark: seq<string>)
      returns (ok: bool, ghost order: seq<string>)
      requires Valid() && Serves(c)
      modifies store
      ensures Valid()
      ensures Enumerates(order, closest.Keys)
      ensures At(rep, dark, !ok) == ExecAll(s, c.now, old(At(rep, dark, false)), FilterMap(order, NearFor(f.id, closest)))
    {
      hide Exec, ExecAll;
      ghost var p := At(rep, dark, false);
      NoStep(s, c.now, p);
      var keys := MapOrder(closest.Keys);
      order := keys;
      ghost var near := FilterMap(order, NearFor(f.id, closest));
      FilterMapTotal(order, NearFor(f.id, closest));
      for i := 0 to |keys|
        invariant Valid()
        invariant At(rep, dark, false) == ExecAll(s, c.now, p, near[..i])
      {
        NextStep(s, c.now, p, near, i);
        var v := closest[keys[i]];
        ok := Found(f, c.now, keys[i], Reading(Some(Metres(v.distanceM)), v.id), rep, dark);
        if !ok {
          CutShort(s, c.now, p, near[..i + 1], near);
          return;
        }
      }
      assert near[..|keys|] == near;
      ok := true;
    }

    method RecordNearest(c: Context, f: Fence, inside: seq<Vehicle>, rep: Report, ghost dark: seq<string>)
      returns (ok: bool, out: Report, ghost order: seq<string>)
      requires Valid() && Serves(c)
      requires IsDue(nearestAt, f.id, c.now, IntervalOf(s)) == IsDue(c.due, f.id, c.now, IntervalOf(s))
      modifies `nearestAt, store
      ensures Valid()
      ensures OnlyDue(old(nearestAt), nearestAt, {f.id})
      ensures Enumerates(order, ClosestOf(inside).Keys)
      ensures At(out, dark, !ok) == ExecAll(s, c.now, old(At(rep, dark, false)), NearestPlan(c, f, inside, order))
    {
      ghost var p := At(rep, dark, false);
      NearestPlanParts(c, f, inside);
      hide Exec, ExecAll, NearestPlan, ProbePlan, ClosestOf, FilterMap, Absent, OnlyDue, ProbeFor, NearFor;
      NoStep(s, c.now, p);
      NoneDue(nearestAt, {f.id});
      var closest := FindClosest(inside);
      var interval := if s.nearestInterval == 0 then DEFAULT_NEAREST_INTERVAL else s.nearestInterval;
      if interval < 0 {
        var keys := MapOrder(closest.Keys);
        return true, rep, keys;
      }
      out := rep;
      ok, order := RecordClosest(c, f, closest, rep, dark);
      ghost var near := FilterMap(order, NearFor(f.id, closest));
      ExecAllConcat(s, c.now, p, near, ProbePlan(c, f, closest));
      ghost var q := At(rep, dark, !ok);
      if !ok {
        ExecAllFailed(s, c.now, q, ProbePlan(c, f, closest));
        return;
      }
      if f.id in nearestAt && c.now - nearestAt[f.id] < interval {
        NoStep(s, c.now, q);
        return;
      }
      StampedOnly(nearestAt, f.id, c.now);
      nearestAt := nearestAt[f.id := c.now];
      Stamped(s, c.now, q, f.id);
      ExecAllConcat(s, c.now, q, [Stamp(f.id)], FilterMap(FilterMap(OPERATORS, Absent(closest)), ProbeFor(c, f)));
      ok, out := ProbeAll(c, f, closest, rep, dark);
    }

    /** Returns whether the watch fired. */
    method Evaluate(c: Context, w: Watch, f: Fence, inside: seq<Vehicle>, dark: seq<string>, rep: Report)
      returns (ok: bool, fired: bool)
      requires Valid() && Serves(c)
      modifies `outbox, store
      ensures Valid()
      ensures At(if fired then rep.(fired := rep.fired + [w.id]) else rep, dark, !ok)
              == Exec(s, c.now, old(At(rep, dark, false)), Instr.Evaluate(f, w, inside))
    {
      hide Fire, FilterMap, Valid;
      var matching := Matches(inside, w);
      var hit: seq<Vehicle>;
      match w.kind {
        case Appearance =>
          hit := FindNew(matching, w);
          if |hit| == 0 {
            return true, false;
          }
        case Scarcity =>
          if DarkFor(w, dark) {
            return true, false;
          }
          if |matching| > w.threshold {
            return true, false;
          }
          hit := matching;
        case OtherKind =>
          return false, false;
      }
      ok, fired := FireWatch(c, w, Notification(w.id, w.kind, c.now, f, |matching|, hit), rep, dark);
    }

    method FireWatch(c: Context, w: Watch, n: Notification, rep: Report, ghost dark: seq<string>)
      returns (ok: bool, fired: bool)
      requires Valid() && Serves(c)
      modifies `outbox, store
      ensures Valid()
      ensures At(if fired then rep.(fired := rep.fired + [w.id]) else rep, dark, !ok)
              == Fire(s, c.now, old(At(rep, dark, false)), w, n)
    {
      var st := store.MarkFired(w.id, c.now);
      if st == Store.Missing {
        return true, false;
      }
      if st != Store.Ok {
        return false, false;
      }
      st := store.RecordEvent(w.id, c.now, n);
      if st != Store.Ok {
        return false, false;
      }
      if s.sink {
        outbox := outbox + [n];
      }
      return true, true;
    }

    method EvaluateAll(c: Context, f: Fence, inside: seq<Vehicle>, dark: seq<string>, rep: Report)
      returns (ok: bool, out: Report)
      requires Valid() && Serves(c)
      modifies `outbox, store
      ensures Valid()
      ensures At(out, dark, !ok) == ExecAll(s, c.now, old(At(rep, dark, false)), FilterMap(c.watches, EvaluateFor(f, inside)))
    {
      hide Exec, ExecAll;
      ghost var p := At(rep, dark, false);
      ghost var plan := FilterMap(c.watches, EvaluateFor(f, inside));
      NoStep(s, c.now, p);
      out := rep;
      for i := 0 to |c.watches|
        invariant Valid()
        invariant At(out, dark, false) == ExecAll(s, c.now, p, FilterMap(c.watches[..i], EvaluateFor(f, inside)))
      {
        var w := c.watches[i];
        ghost var done := FilterMap(c.watches[..i], EvaluateFor(f, inside));
        assert c.watches[..i + 1] == c.watches[..i] + [w];
        FilterMapSnoc(c.watches[..i], w, EvaluateFor(f, inside));
        if w.fenceId != f.id {
          assert done == FilterMap(c.watches[..i + 1], EvaluateFor(f, inside));
          continue;
        }
        ExecAllSnoc(s, c.now, p, done, Instr.Evaluate(f, w, inside));
        FilterMapPrefix(c.watches, i + 1, EvaluateFor(f, inside));
        var fired: bool;
        ok, fired := Evaluate(c, w, f, inside, dark, out);
        if !ok {
          CutShort(s, c.now, p, done + [Instr.Evaluate(f, w, inside)], plan);
          if fired {
            out := out.(fired := out.fired + [w.id]);
          }
          return;
        }
        if fired {
          out := out.(fired := out.fired + [w.id]);
        }
      }
      assert c.watches[..|c.watches|] == c.watches;
      ok := true;
    }

    method CheckHealth(c: Context, f: Fence, rep: Report, ghost was: seq<string>) returns (dark: seq<string>,
                       out: Report)
      requires Valid() && Serves(c)
      ensures At(out, dark, false) == Exec(s, c.now, At(rep, was, false), Health(f.id))
    {
      hide DarkOperators, Sorted, Fire, FilterMap, ObservePresence, Valid, Judge;
      dark := store.DarkOperators(f.id, c.now, 0);
      out := rep;
      if |dark| > 0 {
        out := out.(dark := out.dark + dark);
      }
    }

    /** Everything a tick does for one fence, up to the first store call that
        fails. */
    method PollFence(c: Context, f: Fence, vehicles: seq<Vehicle>, rep: Report, ghost was: seq<string>)
      returns (ok: bool, out: Report, ghost dark: seq<string>, ghost piece: seq<Instr>)
      requires Valid() && Serves(c) && SameDue(nearestAt, c.due, f.id)
      modifies `nearestAt, `outbox, store
      ensures Valid()
      ensures OnlyDue(old(nearestAt), nearestAt, {f.id})
      ensures IsPiece(c, AtFence(f, vehicles), piece)
      ensures At(out, dark, !ok) == ExecAll(s, c.now, old(At(rep, was, false)), piece)
    {
      hide Exec, ExecAll, FencePlan, FencePlanStart, NearestPlan, FilterMap, CountsOf, ClosestOf, OnlyDue;
      ghost var p := At(rep, was, false);
      NoneDue(nearestAt, {f.id});
      var inside := Within(dist, vehicles, f);
      ghost var counts, closest;
      dark := was;
      ok, out, counts := RecordFence(f, c.now, inside, rep, was);
      EnumerationExists(ClosestOf(inside).Keys);
      closest := Strings.Sorted(ClosestOf(inside).Keys);
      if ok {
        ok, out, closest := RecordNearest(c, f, inside, out, was);
      } else {
        ExecAllFailed(s, c.now, At(out, was, true), NearestPlan(c, f, inside, closest));
      }
      ghost var o := Orders(counts, closest);
      piece := FencePlan(c, f, vehicles, o);
      assert ValidOrders(c, f, vehicles, o);
      FencePlanRuns(c, f, vehicles, o, p);
      ghost var evals := FilterMap(c.watches, EvaluateFor(f, inside));
      if !ok {
        ExecFailed(s, c.now, At(out, was, true), Health(f.id));
        ExecAllFailed(s, c.now, At(out, was, true), evals);
        return;
      }
      var blind: seq<string>;
      blind, out := CheckHealth(c, f, out, was);
      dark := blind;
      ok, out := EvaluateAll(c, f, inside, blind, out);
    }

    /** The fences of one group, in order, up to the first store call that
        fails. */
    method PollFences(c: Context, fs: seq<Fence>, vehicles: seq<Vehicle>, rep: Report, ghost was: seq<string>)
      returns (ok: bool, out: Report, ghost dark: seq<string>, ghost pieces: seq<seq<Instr>>)
      requires Valid() && Serves(c)
      requires DistinctIds(fs) && forall f :: f in fs ==> SameDue(nearestAt, c.due, f.id)
      modifies `nearestAt, `outbox, store
      ensures Valid()
      ensures |pieces| <= |fs| && (ok ==> |pieces| == |fs|)
      ensures OnlyDue(old(nearestAt), nearestAt, IdsIn(fs[..|pieces|]))
      ensures IsPlan(c, VisitsOf(fs[..|pieces|], vehicles), pieces)
      ensures At(out, dark, !ok) == ExecAll(s, c.now, old(At(rep, was, false)), Concat(pieces))
    {
      ghost var p := At(rep, was, false);
      dark, pieces, out := was, [], rep;
      assert IsPlan(c, VisitsOf(fs[..0], vehicles), pieces) && Concat(pieces) == [];
      hide *;
      NoStep(s, c.now, p);
      NoneDue(nearestAt, IdsIn(fs[..0]));
      for i := 0 to |fs|
        invariant Valid() && |pieces| == i
        invariant OnlyDue(old(nearestAt), nearestAt, IdsIn(fs[..i]))
        invariant IsPlan(c, VisitsOf(fs[..i], vehicles), pieces)
        invariant At(out, dark, false) == ExecAll(s, c.now, p, Concat(pieces))
      {
        var f := fs[i];
        ghost var piece;
        NextIdIsNew(fs, i);
        SameDueThen(old(nearestAt), nearestAt, c.due, IdsIn(fs[..i]), f.id);
        label before:
        ok, out, dark, piece := PollFence(c, f, vehicles, out, dark);
        OnlyDueThen(old(nearestAt), old@before(nearestAt), nearestAt, IdsIn(fs[..i]), {f.id});
        VisitStep(c, fs, i, vehicles, p, pieces, piece);
        pieces := pieces + [piece];
        if !ok {
          return;
        }
      }
      ok := true;
    }

    /** Everything a tick does for one group that was fetched. */
    method PollGroup(c: Context, g: Group, vehicles: seq<Vehicle>, truncated: bool, rep: Report, ghost was: seq<string>)
      returns (ok: bool, out: Report, ghost dark: seq<string>, ghost pieces: seq<seq<Instr>>)
      requires Valid() && Serves(c)
      requires DistinctIds(g.fences) && forall f :: f in g.fences ==> SameDue(nearestAt, c.due, f.id)
      modifies `nearestAt, `outbox, store
      ensures Valid()
      ensures OnlyDue(old(nearestAt), nearestAt, IdsIn(g.fences))
      ensures IsPlan(c, VisitsOf(g.fences, vehicles), pieces)
      ensures At(out, dark, !ok) == ExecAll(s, c.now, old(At(rep, was, false)), [Open(truncated)] + Concat(pieces))
    {
      hide Exec, ExecAll, IsPiece, SameDue, OnlyDue, IsPlan, VisitsOf, Concat, Valid, IdsIn;
      ghost var p := At(rep, was, false);
      out := rep;
      if truncated {
        out := out.(truncated := true);
      }
      Opened(s, c.now, p, truncated);
      ghost var q := At(out, was, false);
      ok, out, dark, pieces := PollFences(c, g.fences, vehicles, out, was);
      IdsPrefix(g.fences, |pieces|);
      OnlyDueWider(old(nearestAt), nearestAt, IdsIn(g.fences[..|pieces|]), IdsIn(g.fences));
      if !ok {
        pieces := PadVisits(c, g.fences, vehicles, pieces, q);
      } else {
        assert g.fences[..|g.fences|] == g.fences;
      }
      ExecAllConcat(s, c.now, p, [Open(truncated)], Concat(pieces));
    }

    /** What `Tick` leaves behind: the outcome of some plan for the fences and
        watches it read after expiring the overdue watches. */
    ghost predicate Ticked(before: Progress, now: int, fetch: (nat, Query) -> FetchResult,
                           probe: (string, Query) -> FetchResult, fences: seq<Fence>, watches: seq<Watch>,
                           pieces: seq<seq<Instr>>, after: Progress, err: TickError)
    {
      var t := ExpireWatches(before.t, now);
      var gs := GroupsOf(dist, fences);
      var answers := AnswersOf(fetch, gs);
      var c := ContextOf(now, watches, before.due, probe);
      && IsFenceList(t, fences)
      && (|fences| > 0 ==> IsArmedList(t, now, watches))
      && IsPlan(c, Work(gs, answers), pieces)
      && after == Outcome(c, StartOf(before, now, gs, fences), pieces)
      && err == ErrorOf(after.failed, answers)
    }

    method Tick(now: int, fetch: (nat, Query) -> FetchResult, probe: (string, Query) -> FetchResult)
      returns (rep: Report, err: TickError, ghost dark: seq<string>, ghost fences: seq<Fence>, ghost watches: seq<Watch>,
               ghost pieces: seq<seq<Instr>>)
      requires Valid()
      modifies `nearestAt, `outbox, store
      ensures Valid()
      ensures Ticked(old(At(NO_REPORT, [], false)), now, fetch, probe, fences, watches, pieces,
                     At(rep, dark, err.Stopped?), err)
    {
      ghost var before := At(NO_REPORT, [], false);
      var expired := store.ExpireWatches(now);
      rep := NO_REPORT.(expired := expired);
      var fs := store.Fences();
      fences, watches, pieces, dark := fs, [], [], [];
      if |fs| == 0 {
        return rep, NoError, dark, fences, watches, pieces;
      }
      var ws := store.ArmedWatches(now);
      watches := ws;
      var gs := GroupFences(dist, fs);
      rep := rep.(fences := |fs|, queries := |gs|);
      GroupsPartitionFences(dist, fs);
      FenceListHasDistinctIds(store.Now(), fs);
      var results := FetchAll(fetch, gs);
      var c := ContextOf(now, ws, nearestAt, probe);
      var ok, failed;
      rep, ok, failed, dark, pieces := PollGroups(c, gs, results[..], rep);
      if !ok {
        return rep, Stopped, dark, fences, watches, pieces;
      }
      err := if |failed| > 0 then Upstream(failed) else NoError;
    }

    method PollGroups(c: Context, gs: seq<Group>, answers: seq<FetchResult>, rep: Report)
      returns (out: Report, ok: bool, failed: seq<nat>, ghost dark: seq<string>, ghost pieces: seq<seq<Instr>>)
      requires Valid() && Serves(c) && c.due == nearestAt
      requires |answers| == |gs| && DistinctIds(Members(gs))
      modifies `nearestAt, `outbox, store
      ensures Valid()
      ensures IsPlan(c, Work(gs, answers), pieces)
      ensures At(out, dark, !ok) == Outcome(c, old(At(rep, [], false)), pieces)
      ensures ok ==> failed == FailedGroups(answers)
    {
      ghost var p := At(rep, [], false);
      NoStep(s, c.now, p);
      NoneDue(nearestAt, IdsIn(Members(gs[..0])));
      out, failed, dark, pieces := rep, [], [], [];
      assert IsPlan(c, Work(gs[..0], answers[..0]), pieces) && Concat(pieces) == [] && FailedGroups(answers[..0]) == [];
      assert Outcome(c, p, pieces) == p;
      hide *;
      for i := 0 to |gs|
        invariant Valid()
        invariant OnlyDue(old(nearestAt), nearestAt, IdsIn(Members(gs[..i])))
        invariant IsPlan(c, Work(gs[..i], answers[..i]), pieces)
        invariant At(out, dark, false) == Outcome(c, p, pieces)
        invariant failed == FailedGroups(answers[..i])
      {
        WorkSnoc(gs, answers, i);
        NextGroupIsNew(gs, i);
        if answers[i].Failed? {
          failed := failed + [i];
          OnlyDueWider(old(nearestAt), nearestAt, IdsIn(Members(gs[..i])), IdsIn(Members(gs[..i + 1])));
          continue;
        }
        OldDue(old(nearestAt), nearestAt, IdsIn(Members(gs[..i])), gs[i].fences);
        label before:
        ghost var more;
        ok, out, dark, more := PollGroup(c, gs[i], answers[i].vehicles, answers[i].truncated, out, dark);
        OnlyDueThen(old(nearestAt), old@before(nearestAt), nearestAt, IdsIn(Members(gs[..i])), IdsIn(gs[i].fences));
        GroupStep(c, Work(gs[..i], answers[..i]), gs[i], answers[i], p, pieces, more);
        pieces := pieces + ([[Open(answers[i].truncated)]] + more);
        if !ok {
          WorkPrefix(gs, answers, i + 1);
          pieces := PadOutcome(c, Work(gs[..i + 1], answers[..i + 1]), Work(gs, answers), p, pieces);
          return;
        }
      }
      assert gs[..|gs|] == gs && answers[..|gs|] == answers;
      ok := true;
    }
  }
}
