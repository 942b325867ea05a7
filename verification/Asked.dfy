/** What a watch was asked for is what it does: when it is due, whether it stays
    armed and whom it belongs to, in terms of the request that created it
    (`internal/api/api.go`, `createWatch`; `internal/poll/poll.go`, `evaluate`). */
module Asked {
  import opened Base
  import opened Geo
  import opened Entur
  import opened Strings
  import opened Schema
  import opened Poll
  import opened Plan
  import opened Api
  import opened Evaluation
  import opened Lifecycle
  import opened Safety
  import opened Baseline

  // ---------------------------------------------------------------------
  // When a watch is due
  // ---------------------------------------------------------------------

  /** Of an operator asked for, any when none is, and with range enough. */
  ghost predicate Wants(keys: seq<string>, floor: int, v: Vehicle) {
    (keys == [] || v.operatorKey in keys) && v.rangeM >= floor
  }

  /** The places of the vehicles wanted. */
  ghost function WantedPlaces(vs: seq<Vehicle>, keys: seq<string>, floor: int): set<nat> {
    set i: nat | i < |vs| && Wants(keys, floor, vs[i])
  }

  /** No feed asked for is dark, any feed at all when none is asked for. */
  ghost predicate AllLight(keys: seq<string>, dark: set<string>) {
    if keys == [] then dark == {} else forall k :: k in keys ==> k !in dark
  }

  /** What a watch asked for has come about. */
  ghost predicate CameAbout(kind: Kind, keys: seq<string>, floor: int, threshold: int, baseline: seq<string>, inside: seq<Vehicle>,
                            dark: set<string>) {
    match kind
    case Scarcity => AllLight(keys, dark) && |WantedPlaces(inside, keys, floor)| <= threshold
    case Appearance => exists v :: v in inside && Wants(keys, floor, v) && v.id !in baseline
    case OtherKind => false
  }

  lemma WantedIsWants(w: Watch, v: Vehicle)
    ensures Wanted(w)(v) == if Wants(w.operatorKeys, w.minRangeM, v) then Some(v) else None
  {}

  lemma WantedNumber(w: Watch, vs: seq<Vehicle>)
    ensures |FilterMap(vs, Wanted(w))| == |WantedPlaces(vs, w.operatorKeys, w.minRangeM)|
  {
    FilterMapLength(vs, Wanted(w));
    forall i: nat | i < |vs|
      ensures Wanted(w)(vs[i]).Some? <==> Wants(w.operatorKeys, w.minRangeM, vs[i])
    {
      WantedIsWants(w, vs[i]);
    }
    assert Places(vs, Wanted(w)) == WantedPlaces(vs, w.operatorKeys, w.minRangeM);
  }

  lemma NeverDue(w: Watch, inside: seq<Vehicle>, dark: seq<string>)
    requires w.kind == OtherKind
    ensures !Judge(w, inside, dark).Hit?
  {}

  /** A watch is due exactly when what it asks for has come about. */
  lemma DueExactly(w: Watch, inside: seq<Vehicle>, dark: set<string>)
    ensures Judge(w, inside, Sorted(dark)).Hit?
            <==> CameAbout(w.kind, w.operatorKeys, w.minRangeM, w.threshold, w.baseline, inside, dark)
  {
    hide Judge, FilterMap, Wants, WantedPlaces;
    match w.kind
    case Scarcity =>
      JudgedBySet(w, inside, dark);
      WantedNumber(w, inside);
    case Appearance =>
      AppearanceIsExact(w, inside, Sorted(dark));
      forall v
        ensures Wanted(w)(v).Some? <==> Wants(w.operatorKeys, w.minRangeM, v)
      {
        WantedIsWants(w, v);
      }
      hide Wanted;
    case OtherKind => NeverDue(w, inside, Sorted(dark));
  }

  /** What a fire reports: the vehicles wanted, for an appearance watch those of them
      that are not in its baseline. */
  lemma HitTells(w: Watch, inside: seq<Vehicle>, dark: seq<string>, v: Vehicle)
    requires Judge(w, inside, dark).Hit?
    ensures v in Judge(w, inside, dark).vehicles <==>
              v in inside && Wants(w.operatorKeys, w.minRangeM, v) && (w.kind == Appearance ==> v.id !in w.baseline)
  {
    WantedIsWants(w, v);
    if w.kind == Appearance {
      AppearanceIsExact(w, inside, dark);
    } else {
      forall u
        ensures Wanted(w)(u).Some? ==> Wanted(w)(u) == Some(u)
      {
        WantedIsWants(w, u);
      }
      FilterMapMember(inside, Wanted(w), v);
    }
  }

  // ---------------------------------------------------------------------
  // In every run
  // ---------------------------------------------------------------------

  /** Whose watch it is. */
  function DeviceOf(r: Request): string {
    if r.device == "" then "unknown" else r.device
  }

  /** The row asks for what the request asked for. */
  ghost predicate AsksFor(w: Watch, r: Request, fence: string, baseline: seq<string>, at: int) {
    && w.kind == r.kind && w.fenceId == fence && w.operatorKeys == r.operatorKeys && w.minRangeM == r.minRangeM
    && w.threshold == r.threshold && w.baseline == baseline && w.repeats == r.repeats && w.device == DeviceOf(r)
    && w.createdAt == Unix(at)
  }

  lemma StemAsks(w: Watch, r: Request, fence: string, baseline: seq<string>, id: string, at: int)
    requires Stem(w) == WatchOf(r, fence, baseline, id, at)
    ensures AsksFor(w, r, fence, baseline, at)
  {
    hide TtlOf, Unix;
  }

  /** The call stored a watch, and the run went on. */
  ghost predicate ArmedBy(s: Settings, before: seq<Action>, c: nat, id: string, baseline: seq<string>, at: int) {
    && c in After(s, before).calls && id !in After(s, before).issued
    && id in After(s, before + [Arm(c, id, baseline, at)]).issued
  }

  lemma IssuedAsAsked(s: Settings, before: seq<Action>, c: nat, id: string, baseline: seq<string>, at: int, rest: seq<Action>)
    requires ArmedBy(s, before, c, id, baseline, at)
    ensures var call, w := After(s, before).calls[c], After(s, before + [Arm(c, id, baseline, at)] + rest);
            id in w.issued && w.issued[id] == WatchOf(call.req, call.fence.id, baseline, id, at)
  {
    var arm := Arm(c, id, baseline, at);
    assert Front(before + [arm]) == before;
    assert After(s, before + [arm]) == Next(s, After(s, before), arm);
    hide After, Next, WatchOf;
    StoredAsArmed(s, After(s, before), c, id, baseline, at);
    IssuedForGood(s, before + [arm], rest, id);
  }

  lemma RowIsIssued(w: World, id: string)
    requires Inv(w) && id in w.t.watches
    ensures w.t.watches[id].id == id && id in w.issued && Stem(w.t.watches[id]) == w.issued[id]
  {}

  lemma RepeatingStaysArmed(t: Tables, id: string, now: int)
    requires IsArmed(t, id)
    ensures MarkFired(t, id, now).Written? && (IsArmed(MarkFired(t, id, now).t, id) <==> t.watches[id].repeats)
  {}

  lemma OthersStayArmed(t: Tables, device: string, id: string)
    requires IsArmed(t, id)
    ensures IsArmed(CancelArmed(t, device), id) <==> device != "" && device != t.watches[id].device
  {}

  /** In every run the row of a watch asks for what its request did: it is due exactly
      when that has come about, lives as long as was asked within its bounds, stays
      armed after a fire exactly when it was to repeat, and is not cancelled with a
      device exactly when that is another. */
  lemma RowDoesAsAsked(s: Settings, before: seq<Action>, c: nat, id: string, baseline: seq<string>, at: int, rest: seq<Action>,
                       inside: seq<Vehicle>, dark: set<string>, now: int, device: string)
    requires ArmedBy(s, before, c, id, baseline, at)
    requires id in After(s, before + [Arm(c, id, baseline, at)] + rest).t.watches
    ensures var call, t := After(s, before).calls[c], After(s, before + [Arm(c, id, baseline, at)] + rest).t;
            var r, row, due := call.req, t.watches[id], Judge(t.watches[id], inside, Sorted(dark)).Hit?;
            && row.id == id && row.fenceId == call.fence.id && row.createdAt == Unix(at)
            && (due <==> CameAbout(r.kind, r.operatorKeys, r.minRangeM, r.threshold, baseline, inside, dark))
            && (-9_223_372_036 <= r.ttlSeconds <= 9_223_372_036 ==>
                  row.expiresAt == Unix(at) + if r.ttlSeconds <= 0 then 1800 else if r.ttlSeconds > 21600 then 21600 else r.ttlSeconds)
            && (row.state == Armed ==>
                  var stays := IsArmed(CancelArmed(t, device), id);
                  && MarkFired(t, id, now).Written? && (IsArmed(MarkFired(t, id, now).t, id) <==> r.repeats)
                  && (stays <==> device != "" && device != if r.device == "" then "unknown" else r.device))
  {
    var call, run := After(s, before).calls[c], before + [Arm(c, id, baseline, at)] + rest;
    var t := After(s, run).t;
    IssuedAsAsked(s, before, c, id, baseline, at, rest);
    EveryRunKeeps(s, run);
    hide After, Inv, Judge, CameAbout, WatchOf, ArmedBy;
    RowIsIssued(After(s, run), id);
    StemAsks(t.watches[id], call.req, call.fence.id, baseline, id, at);
    LifetimeIsBounded(call.req, call.fence.id, baseline, id, at);
    DueExactly(t.watches[id], inside, dark);
    hide MarkFired, CancelArmed;
    if t.watches[id].state == Armed {
      RepeatingStaysArmed(t, id, now);
      OthersStayArmed(t, device, id);
    }
  }

  lemma TodoIsIssued(w: World, k: nat, now: int, todo: seq<Instr>, dark: seq<string>)
    requires Inv(w) && k in w.ticks && w.ticks[k] == Frame(now, Running(todo, dark, Nothing))
    requires |todo| > 0 && todo[0].Evaluate?
    ensures todo[0].watch.id in w.issued && Stem(todo[0].watch) == w.issued[todo[0].watch.id]
  {
    assert FrameOk(w, k, w.ticks[k]);
    assert todo[0] in todo;
  }

  /** The next step of the tick is to evaluate the watch, over these vehicles. */
  ghost predicate AboutToJudge(w: World, k: nat, id: string, inside: seq<Vehicle>, dark: set<string>) {
    && k in w.ticks && w.ticks[k].stage.Running? && w.ticks[k].stage.pending == Nothing
    && w.ticks[k].stage.dark == Sorted(dark)
    && |w.ticks[k].stage.todo| > 0 && w.ticks[k].stage.todo[0].Evaluate?
    && w.ticks[k].stage.todo[0].watch.id == id && w.ticks[k].stage.todo[0].inside == inside
  }

  lemma StepMarksExactly(s: Settings, w: World, k: nat, id: string, inside: seq<Vehicle>, dark: set<string>)
    requires AboutToJudge(w, k, id, inside, dark)
    ensures (|Next(s, w, Step(k)).fires| == |w.fires| + 1 <==>
               IsArmed(w.t, id) && Judge(w.ticks[k].stage.todo[0].watch, inside, Sorted(dark)).Hit?)
    ensures |Next(s, w, Step(k)).fires| == |w.fires| || |Next(s, w, Step(k)).fires| == |w.fires| + 1
  {
    hide Judge, Message;
  }

  /** However ticks and calls interleave, the step that evaluates a watch fires it
      exactly when it is still armed and what its request asked for has come about. */
  lemma FiresAsAsked(s: Settings, before: seq<Action>, c: nat, id: string, baseline: seq<string>, at: int, rest: seq<Action>,
                     k: nat, inside: seq<Vehicle>, dark: set<string>)
    requires ArmedBy(s, before, c, id, baseline, at)
    requires AboutToJudge(After(s, before + [Arm(c, id, baseline, at)] + rest), k, id, inside, dark)
    ensures var w, r := After(s, before + [Arm(c, id, baseline, at)] + rest), After(s, before).calls[c].req;
            |Next(s, w, Step(k)).fires| == |w.fires| + 1 <==>
              && id in w.t.watches && w.t.watches[id].state == Armed
              && CameAbout(r.kind, r.operatorKeys, r.minRangeM, r.threshold, baseline, inside, dark)
  {
    var call, run := After(s, before).calls[c], before + [Arm(c, id, baseline, at)] + rest;
    var w := After(s, run);
    IssuedAsAsked(s, before, c, id, baseline, at, rest);
    EveryRunKeeps(s, run);
    var fr := w.ticks[k];
    TodoIsIssued(w, k, fr.now, fr.stage.todo, fr.stage.dark);
    StemAsks(fr.stage.todo[0].watch, call.req, call.fence.id, baseline, id, at);
    DueExactly(fr.stage.todo[0].watch, inside, dark);
    StepMarksExactly(s, w, k, id, inside, dark);
    hide After, Inv, Judge, CameAbout, WatchOf, ArmedBy, Next;
  }

  ghost function WatchRow(s: Settings, run: seq<Action>, id: string): Option<Watch> {
    if id in After(s, run).t.watches then Some(After(s, run).t.watches[id]) else None
  }

  /** A watch starts armed and unfired, and asks for nothing else than its request. */
  lemma StartsArmed(s: Settings, before: seq<Action>, c: nat, id: string, baseline: seq<string>, at: int)
    requires ArmedBy(s, before, c, id, baseline, at)
    ensures var row := WatchRow(s, before + [Arm(c, id, baseline, at)], id);
            && row.Some? && row.value.id == id && row.value.state == Armed && row.value.firedAt == None
            && row.value.createdAt == Unix(at)
  {
    var arm := Arm(c, id, baseline, at);
    assert Front(before + [arm]) == before;
    hide After, TtlOf, Unix;
  }

  /** A request is taken exactly when it is of one of the two kinds and every operator
      it names is known, and, for a fence named, when that is there. */
  lemma TakenExactly(s: Settings, w: World, c: nat, r: Request, fence: string, f: Fence)
    requires c !in w.calls
    ensures var sound := r.kind != OtherKind && forall k :: k in r.operatorKeys ==> exists o :: o in OPERATORS && o.key == k;
            && (c in Next(s, w, ResolveNamed(c, r, fence)).calls <==> sound && fence in w.t.fences)
            && (c in Next(s, w, ResolveHere(c, r, f)).calls <==> sound)
  {
    forall k
      ensures Lookup(k).Some? <==> exists o :: o in OPERATORS && o.key == k
    {
      FindKeyFinds(OPERATORS, k);
    }
    hide Lookup;
  }
}
