/** From the answer an appearance watch was armed on to the silence of every run
    that sees nothing else (`internal/api/api.go`, `createWatch`;
    `internal/poll/poll.go`, `evaluate`). */
module Baseline {
  import opened Base
  import opened Geo
  import opened Entur
  import opened Schema
  import opened Poll
  import opened Coalesce
  import opened Plan
  import opened Api
  import opened Lifecycle
  import opened Safety

  // ---------------------------------------------------------------------
  // What was there is in the baseline
  // ---------------------------------------------------------------------

  lemma KeptEarlier<T, U>(held: seq<T>, feed: seq<T>, f: T -> Option<U>, g: T -> Option<U>, ys: seq<U>, zs: seq<U>, y: U)
    requires multiset(ys) == multiset(FilterMap(held, f)) && multiset(zs) == multiset(FilterMap(feed, g))
    requires forall x :: x in held ==> x in feed
    requires y in ys
    requires forall x :: x in feed && f(x) == Some(y) ==> g(x) == Some(y)
    ensures y in zs
  {
    assert y in multiset(ys);
    FilterMapMember(held, f, y);
    FilterMapMember(feed, g, y);
    assert y in multiset(zs);
  }

  /** A vehicle a tick matches was returned to the call that armed the watch, if
      upstream held it then. */
  lemma OldIsInBaseline(dist: Metric, f: Fence, w: Watch, held: seq<RawVehicle>, feed: seq<RawVehicle>, inside: seq<Vehicle>,
                        armed: seq<Vehicle>, v: Vehicle)
    requires IdsFor(w.operatorKeys).Some? && IdsFor([]).Some?
    requires forall rv :: rv in held ==> rv in feed
    requires multiset(inside) == multiset(FilterMap(held, Pipeline(dist, FenceQuery(f))))
    requires multiset(armed) == multiset(FilterMap(feed, Pipeline(dist, BaselineQuery(f, w))))
    requires v in inside && Wanted(w)(v).Some?
    ensures v.id in FilterMap(armed, IdOfVehicle())
  {
    var own, arm := Pipeline(dist, FenceQuery(f)), Pipeline(dist, BaselineQuery(f, w));
    forall rv | rv in feed && own(rv) == Some(v)
      ensures arm(rv) == Some(v)
    {
      MatchAgrees(dist, f, w, rv);
    }
    hide FilterMap, Pipeline, Wanted;
    KeptEarlier(held, feed, own, arm, inside, armed, v);
    FilterMapMember(armed, IdOfVehicle(), v.id);
  }

  /** The evaluation is at fence `f`, over what an answer to the query of its group
      gave, not truncated, while upstream held vehicles of `feed` only. */
  ghost predicate SawOnly(dist: Metric, feed: seq<RawVehicle>, f: Fence, i: Instr)
    requires i.Evaluate?
  {
    exists fences: seq<Fence>, g: Group, held: seq<RawVehicle>, rows: seq<RawVehicle>, res: FetchResult ::
      && (forall rv :: rv in held ==> rv in feed)
      && g in GroupsOf(dist, fences) && f in g.fences
      && Fetches(dist, held, GroupQuery(g), rows, res) && !res.truncated
      && i.at == f && i.inside == FilterMap(res.vehicles, Rebase(dist, f))
  }

  /** `res` is an untruncated answer to the query that arming `w` on `f` makes,
      while upstream held `feed`. */
  ghost predicate ArmedOn(dist: Metric, feed: seq<RawVehicle>, f: Fence, w: Watch, rows: seq<RawVehicle>, res: FetchResult) {
    Fetches(dist, feed, BaselineQuery(f, w), rows, res) && !res.truncated && w.baseline == BaselineOf(res)
  }

  lemma SawNothingNew(dist: Metric, feed: seq<RawVehicle>, f: Fence, w: Watch, rows: seq<RawVehicle>, res: FetchResult, i: Instr)
    requires IsDistance(dist) && w.kind == Appearance && ArmedOn(dist, feed, f, w, rows, res)
    requires i.Evaluate? && SawOnly(dist, feed, f, i) && Stem(i.watch) == Stem(w)
    ensures WithinBaseline(i)
  {
    var fences, g, held, wide, seen :|
      && (forall rv :: rv in held ==> rv in feed)
      && g in GroupsOf(dist, fences) && f in g.fences
      && Fetches(dist, held, GroupQuery(g), wide, seen) && !seen.truncated
      && i.at == f && i.inside == FilterMap(seen.vehicles, Rebase(dist, f));
    AllIds();
    hide GroupsOf, FilterMap, IdsFor;
    UntruncatedIsWholePipeline(dist, feed, BaselineQuery(f, w), rows, res);
    UntruncatedIsWholePipeline(dist, held, GroupQuery(g), wide, seen);
    TrimmedPipeline(dist, fences, g, f, held, seen.vehicles);
    forall v | v in i.inside && Wanted(i.watch)(v).Some?
      ensures v.id in i.watch.baseline
    {
      assert i.watch.operatorKeys == w.operatorKeys && i.watch.minRangeM == w.minRangeM && i.watch.baseline == w.baseline;
      OldIsInBaseline(dist, f, w, held, feed, i.inside, res.vehicles, v);
    }
    assert i.watch.kind == w.kind;
  }

  // ---------------------------------------------------------------------
  // Runs
  // ---------------------------------------------------------------------

  lemma IssuedStays(s: Settings, w: World, a: Action, id: string)
    requires id in w.issued
    ensures id in Next(s, w, a).issued && Next(s, w, a).issued[id] == w.issued[id]
  {
    hide Exec, Judge, MarkFired, RecordEvent, Fits, IsFenceList, IsArmedList, Acceptable, DeleteFence, SetState, CreateWatch;
  }

  /** Whatever a tick decided about the watch, it saw nothing but vehicles of `feed`. */
  ghost predicate RunSawOnly(dist: Metric, feed: seq<RawVehicle>, f: Fence, id: string, run: seq<Action>) {
    forall a, i :: a in run && a.Decide? && i in a.plan && i.Evaluate? && i.watch.id == id ==> SawOnly(dist, feed, f, i)
  }

  lemma SnapshotIsIssued(w: World, k: nat, x: Watch)
    requires Inv(w) && k in w.ticks && w.ticks[k].stage.ReadWatches? && x in w.ticks[k].stage.watches
    ensures x.id in w.issued && Stem(x) == w.issued[x.id]
  {
    assert FrameOk(w, k, w.ticks[k]);
  }

  /** The decision is one the tick can make now. */
  ghost predicate Enabled(w: World, k: nat, plan: seq<Instr>) {
    k in w.ticks && w.ticks[k].stage.ReadWatches? && Fits(w.ticks[k].stage.fences, w.ticks[k].stage.watches, plan)
  }

  lemma DecisionIsQuiet(dist: Metric, feed: seq<RawVehicle>, f: Fence, row: Watch, rows: seq<RawVehicle>, res: FetchResult,
                        w: World, k: nat, plan: seq<Instr>)
    requires IsDistance(dist) && row.kind == Appearance && ArmedOn(dist, feed, f, row, rows, res)
    requires Inv(w) && (row.id in w.issued ==> w.issued[row.id] == Stem(row))
    requires Enabled(w, k, plan)
    requires forall i :: i in plan && i.Evaluate? && i.watch.id == row.id ==> SawOnly(dist, feed, f, i)
    ensures NothingNewFor(plan, row.id)
  {
    hide SawOnly, ArmedOn, Inv, WithinBaseline;
    forall i | i in plan && i.Evaluate? && i.watch.id == row.id
      ensures WithinBaseline(i)
    {
      SnapshotIsIssued(w, k, i.watch);
      SawNothingNew(dist, feed, f, row, rows, res, i);
    }
  }

  lemma IdleDecision(s: Settings, w: World, k: nat, plan: seq<Instr>)
    requires !Enabled(w, k, plan)
    ensures Next(s, w, Decide(k, plan)) == w
  {
    hide Fits;
  }

  lemma NextStaysQuiet(s: Settings, dist: Metric, feed: seq<RawVehicle>, f: Fence, row: Watch, rows: seq<RawVehicle>,
                       res: FetchResult, w: World, a: Action)
    requires IsDistance(dist) && row.kind == Appearance && ArmedOn(dist, feed, f, row, rows, res)
    requires Inv(w) && (row.id in w.issued ==> w.issued[row.id] == Stem(row))
    requires a.Decide? ==> forall i :: i in a.plan && i.Evaluate? && i.watch.id == row.id ==> SawOnly(dist, feed, f, i)
    requires Hushed(w, row.id)
    ensures Hushed(Next(s, w, a), row.id)
  {
    hide *;
    if a.Decide? && !Enabled(w, a.tick, a.plan) {
      IdleDecision(s, w, a.tick, a.plan);
    } else {
      if a.Decide? {
        DecisionIsQuiet(dist, feed, f, row, rows, res, w, a.tick, a.plan);
      }
      NextHushes(s, w, a, row.id);
    }
  }

  lemma {:induction false} StaysQuiet(s: Settings, dist: Metric, feed: seq<RawVehicle>, f: Fence, row: Watch, rows: seq<RawVehicle>,
                                      res: FetchResult, run: seq<Action>)
    requires IsDistance(dist) && row.kind == Appearance && ArmedOn(dist, feed, f, row, rows, res)
    requires row.id in After(s, run).issued ==> After(s, run).issued[row.id] == Stem(row)
    requires RunSawOnly(dist, feed, f, row.id, run)
    ensures Hushed(After(s, run), row.id)
  {
    hide Next, SawOnly, ArmedOn, Stem, Inv;
    if |run| > 0 {
      var before, a := Front(run), Last(run);
      assert a in run && forall x :: x in before ==> x in run;
      assert After(s, run) == Next(s, After(s, before), a);
      hide After, Hushed, IsDistance;
      if row.id in After(s, before).issued {
        IssuedStays(s, After(s, before), a, row.id);
      }
      StaysQuiet(s, dist, feed, f, row, rows, res, before);
      EveryRunKeeps(s, before);
      NextStaysQuiet(s, dist, feed, f, row, rows, res, After(s, before), a);
    }
  }

  lemma {:induction false} IssuedForGood(s: Settings, run: seq<Action>, rest: seq<Action>, id: string)
    requires id in After(s, run).issued
    ensures id in After(s, run + rest).issued && After(s, run + rest).issued[id] == After(s, run).issued[id]
  {
    hide Next;
    if |rest| == 0 {
      assert run + rest == run;
    } else {
      assert Front(run + rest) == run + Front(rest);
      IssuedForGood(s, run, Front(rest), id);
      IssuedStays(s, After(s, run + Front(rest)), Last(rest), id);
    }
  }

  lemma StoredAsArmed(s: Settings, w: World, c: nat, id: string, baseline: seq<string>, at: int)
    requires c in w.calls && id !in w.issued && id in Next(s, w, Arm(c, id, baseline, at)).issued
    ensures Next(s, w, Arm(c, id, baseline, at)).issued[id] == WatchOf(w.calls[c].req, w.calls[c].fence.id, baseline, id, at)
  {
    hide CreateWatch;
  }

  /** An appearance watch armed with an untruncated answer never fires in any run,
      before or after, whose ticks see nothing at its fence that upstream did not
      hold when it was armed: vehicles may leave and return, other watches may fire,
      and ticks and calls may interleave in any way. */
  lemma ArmedOnWhatWasThere(s: Settings, dist: Metric, feed: seq<RawVehicle>, before: seq<Action>, c: nat, id: string,
                            rows: seq<RawVehicle>, res: FetchResult, at: int, rest: seq<Action>)
    requires IsDistance(dist) && res.Fetched? && !res.truncated
    requires c in After(s, before).calls && id !in After(s, before).issued
    requires var call := After(s, before).calls[c];
             && call.req.kind == Appearance
             && Fetches(dist, feed, BaselineQuery(call.fence, WatchOf(call.req, call.fence.id, BaselineOf(res), id, at)), rows, res)
             && RunSawOnly(dist, feed, call.fence, id, before + [Arm(c, id, BaselineOf(res), at)] + rest)
    requires id in After(s, before + [Arm(c, id, BaselineOf(res), at)]).issued
    ensures forall f :: f in After(s, before + [Arm(c, id, BaselineOf(res), at)] + rest).fires ==> f.watch != id
  {
    var arm, call := Arm(c, id, BaselineOf(res), at), After(s, before).calls[c];
    var row := WatchOf(call.req, call.fence.id, BaselineOf(res), id, at);
    assert ArmedOn(dist, feed, call.fence, row, rows, res);
    assert row == Stem(row) && row.id == id && row.kind == Appearance;
    assert Front(before + [arm]) == before;
    assert After(s, before + [arm]) == Next(s, After(s, before), arm);
    hide After, Next, ArmedOn, RunSawOnly, Fetches, WatchOf, Stem, IsDistance;
    StoredAsArmed(s, After(s, before), c, id, BaselineOf(res), at);
    IssuedForGood(s, before + [arm], rest, id);
    StaysQuiet(s, dist, feed, call.fence, row, rows, res, before + [arm] + rest);
  }
}
