/** References between tables: what enforcing foreign keys keeps, and what a
    deletion takes with it (`internal/store/fence_delete.go`,
    `internal/store/schema.go`). */
module Integrity {
  import opened Base
  import opened Strings
  import opened Schema
  import opened Poll
  import opened Plan

  /** Every reference leads to a row. */
  ghost predicate Whole(t: Tables) {
    && (forall id :: id in t.watches ==> t.watches[id].fenceId in t.fences)
    && (forall k :: k in t.samples ==> k.fence in t.fences)
    && (forall k :: k in t.stints ==> k.fence in t.fences)
    && (forall k :: k in t.readings ==> k.fence in t.fences)
    && (forall e :: e in t.events ==> e.watchId in t.watches)
  }

  /** Some row is the fence or belongs to it. */
  ghost predicate Mentions(t: Tables, fence: string) {
    || fence in t.fences
    || (exists id :: id in t.watches && t.watches[id].fenceId == fence)
    || (exists k :: k in t.samples && k.fence == fence)
    || (exists k :: k in t.stints && k.fence == fence)
    || (exists k :: k in t.readings && k.fence == fence)
  }

  /** The two agree about everything that does not belong to the fence. */
  ghost predicate SameElsewhere(a: Tables, b: Tables, fence: string) {
    && (forall f :: f != fence ==> (f in a.fences <==> f in b.fences) && (f in a.fences ==> a.fences[f] == b.fences[f]))
    && WatchesElsewhere(a.watches, fence) == WatchesElsewhere(b.watches, fence)
    && SamplesElsewhere(a.samples, fence) == SamplesElsewhere(b.samples, fence)
    && StintsElsewhere(a.stints, fence) == StintsElsewhere(b.stints, fence)
    && ReadingsElsewhere(a.readings, fence) == ReadingsElsewhere(b.readings, fence)
    && a.events == b.events
  }

  /** A deletion takes the fence and all that belongs to it and nothing else, or
      it is refused: while an armed watch is on the fence, or, with foreign keys
      enforced, while an event refers to one of its watches. */
  lemma DeletionIsAllOrNothing(t: Tables, fk: bool, fence: string)
    ensures match DeleteFence(t, fk, fence)
            case Deleted(after, removed) =>
              !Mentions(after, fence) && SameElsewhere(t, after, fence) && (removed <==> fence in t.fences)
            case FenceInUse => exists id :: id in t.watches && t.watches[id].fenceId == fence && t.watches[id].state == Armed
            case Violation =>
              && fk
              && (forall id :: id in t.watches && t.watches[id].fenceId == fence ==> t.watches[id].state != Armed)
              && (exists e :: e in t.events && e.watchId in t.watches && t.watches[e.watchId].fenceId == fence)
    ensures DeleteFence(t, fk, fence).Deleted? <==>
              && (forall id :: id in t.watches && t.watches[id].fenceId == fence ==> t.watches[id].state != Armed)
              && (fk ==> forall e :: e in t.events && e.watchId in t.watches ==> t.watches[e.watchId].fenceId != fence)
  {}

  /** After expiry a watch is armed exactly when it was and is still live; the
      number reported is the number that went. */
  lemma ExpiryLeavesOnlyLive(t: Tables, now: int)
    ensures var after := ExpireWatches(t, now);
            && after.watches.Keys == t.watches.Keys
            && (forall id :: id in t.watches ==>
                  && (after.watches[id].state == Armed <==> IsLive(t.watches[id], now))
                  && after.watches[id] == t.watches[id].(state := after.watches[id].state))
            && OverdueIds(t, now) == set id | id in t.watches && t.watches[id].state == Armed && after.watches[id].state == Expired
            && OverdueIds(after, now) == {}
  {}

  /** After cancelling for a device none of its watches is armed, and nothing else
      has changed; no device means all of them. */
  lemma CancellingLeavesNoneArmed(t: Tables, device: string)
    ensures var after := CancelArmed(t, device);
            && after.watches.Keys == t.watches.Keys
            && (forall id :: id in t.watches ==>
                  && (after.watches[id].state == Armed <==>
                        t.watches[id].state == Armed && device != "" && t.watches[id].device != device)
                  && (after.watches[id] != t.watches[id] ==> after.watches[id] == t.watches[id].(state := Cancelled)))
            && CancellableIds(t, device) == set id | id in t.watches && t.watches[id].state == Armed && after.watches[id].state == Cancelled
            && CancellableIds(after, device) == {}
  {}

  // ---------------------------------------------------------------------
  // Foreign keys
  // ---------------------------------------------------------------------

  lemma SaveFenceKeepsWhole(t: Tables, f: Fence)
    requires Whole(t)
    ensures Whole(SaveFence(t, f))
  {}

  lemma DeleteFenceKeepsWhole(t: Tables, fence: string)
    requires Whole(t)
    ensures DeleteFence(t, true, fence).Deleted? ==> Whole(DeleteFence(t, true, fence).t)
  {}

  lemma CreateWatchKeepsWhole(t: Tables, w: Watch)
    requires Whole(t)
    ensures CreateWatch(t, true, w).Written? ==> Whole(CreateWatch(t, true, w).t)
  {}

  lemma RecordEventKeepsWhole(t: Tables, id: string, at: int, n: Notification)
    requires Whole(t)
    ensures RecordEvent(t, true, id, at, n).Written? ==> Whole(RecordEvent(t, true, id, at, n).t)
  {}

  /** The watches are the same ones, on the same fences. */
  ghost predicate SameIds(a: Tables, b: Tables) {
    && a.watches.Keys == b.watches.Keys
    && (forall id :: id in a.watches ==> a.watches[id].fenceId == b.watches[id].fenceId)
    && b == a.(watches := b.watches)
  }

  lemma SameIdsKeepsWhole(a: Tables, b: Tables)
    requires Whole(a) && SameIds(a, b)
    ensures Whole(b)
  {}

  lemma ExpireKeepsIds(t: Tables, now: int)
    ensures SameIds(t, ExpireWatches(t, now))
  {}

  lemma CancelArmedKeepsIds(t: Tables, device: string)
    ensures SameIds(t, CancelArmed(t, device))
  {}

  lemma SetStateKeepsIds(t: Tables, id: string, s: State)
    ensures SetState(t, id, s).Written? ==> SameIds(t, SetState(t, id, s).t)
  {}

  lemma MarkFiredKeepsIds(t: Tables, id: string, now: int)
    ensures MarkFired(t, id, now).Written? ==> SameIds(t, MarkFired(t, id, now).t)
  {}

  lemma {:induction false} SightAllFences(rows: Stints, open: map<string, int>, f: string, at: int, seen: seq<Sighting>)
    ensures forall k :: k in SightAll(rows, open, f, at, seen) ==> k in rows || k.fence == f
  {
    if |seen| > 0 {
      SightAllFences(rows, open, f, at, Front(seen));
    }
  }

  /** A history row is written only for a fence that is there. */
  lemma HistoryKeepsWhole(s: Settings, now: int, p: Progress, i: Instr)
    requires s.fk && Whole(p.t) && !i.Evaluate?
    ensures Whole(Exec(s, now, p, i).t)
  {
    hide FilterMap, SightAll, OpenStints, Sorted, DarkOperators;
    match i
    case Observe(f, seen) =>
      SightAllFences(p.t.stints, OpenStints(p.t.stints, f, Cutoff(now, s.stale)), f, Unix(now), seen);
    case _ =>
  }

  // ---------------------------------------------------------------------
  // Without foreign keys
  // ---------------------------------------------------------------------

  /** Whether a call writes a history row. */
  predicate Writes(i: Instr) {
    i.Sample? || i.Near? || (i.Probe? && i.found.Some?) || (i.Observe? && |i.seen| > 0)
  }

  lemma {:induction false} SightAllKeeps(rows: Stints, open: map<string, int>, f: string, at: int, seen: seq<Sighting>)
    ensures rows.Keys <= SightAll(rows, open, f, at, seen).Keys
  {
    if |seen| > 0 {
      SightAllKeeps(rows, open, f, at, Front(seen));
    }
  }

  lemma SightingLeavesRow(rows: Stints, open: map<string, int>, f: string, at: int, seen: seq<Sighting>)
    requires |seen| > 0 && forall v :: v in open ==> StintKey(f, v, open[v]) in rows
    ensures exists k :: k in SightAll(rows, open, f, at, seen) && k.fence == f
  {
    var before, x := SightAll(rows, open, f, at, Front(seen)), Last(seen);
    SightAllKeeps(rows, open, f, at, Front(seen));
    if x.vehicle in open {
      assert StintKey(f, x.vehicle, open[x.vehicle]) in SightAll(rows, open, f, at, seen);
    } else {
      assert StintKey(f, x.vehicle, at) in SightAll(rows, open, f, at, seen);
    }
  }

  lemma ObserveKeepsWholeExactly(s: Settings, now: int, p: Progress, f: string, seen: seq<Sighting>)
    requires !s.fk && !p.failed && Whole(p.t) && |seen| > 0
    ensures Whole(Exec(s, now, p, Observe(f, seen)).t) <==> f in p.t.fences
  {
    var open := OpenStints(p.t.stints, f, Cutoff(now, s.stale));
    OpenStintsIsOpenMap(p.t.stints, f, Cutoff(now, s.stale));
    hide SightAll, OpenStints, FilterMap;
    SightAllFences(p.t.stints, open, f, Unix(now), seen);
    SightingLeavesRow(p.t.stints, open, f, Unix(now), seen);
  }

  lemma SampleKeepsWholeExactly(t: Tables, k: SampleKey, n: int)
    requires Whole(t)
    ensures Whole(t.(samples := t.samples[k := n])) <==> k.fence in t.fences
  {
    assert k in t.samples[k := n];
  }

  lemma ReadingKeepsWholeExactly(t: Tables, k: ReadingKey, r: Reading)
    requires Whole(t)
    ensures Whole(t.(readings := t.readings[k := r])) <==> k.fence in t.fences
  {
    assert k in t.readings[k := r];
  }

  /** Without foreign keys a call that writes a row keeps references exactly when its
      fence is there. */
  lemma WriteKeepsWholeExactly(s: Settings, now: int, p: Progress, i: Instr)
    requires !s.fk && !p.failed && Whole(p.t) && Writes(i)
    ensures Whole(Exec(s, now, p, i).t) <==> TargetOf(i).value in p.t.fences
  {
    match i
    case Observe(f, seen) => ObserveKeepsWholeExactly(s, now, p, f, seen);
    case Sample(f, o, n) => SampleKeepsWholeExactly(p.t, SampleKey(f, Unix(now), o), n);
    case Near(f, o, r) => ReadingKeepsWholeExactly(p.t, ReadingKey(f, Unix(now), o), r);
    case Probe(f, o, Some(r)) => ReadingKeepsWholeExactly(p.t, ReadingKey(f, Unix(now), o), r);
  }
}
