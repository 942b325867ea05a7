/** The store as the object the poller and the API share. Each method is one
    statement or transaction on the rows, and leaves the tables that the
    matching function of `Schema` describes. */
module Store {
  import opened Base
  import opened Strings
  import opened Schema

  /** `Missing` is the not-found error callers test for, `InUse` the refusal to delete
      a fence with armed watches, `Refused` any other error. */
  datatype Status = Ok | Missing | InUse | Refused

  ghost predicate Does(w: Write, before: Tables, after: Tables, st: Status) {
    match w
    case Written(t) => st == Ok && after == t
    case NotFound => st == Missing && after == before
    case Constraint => st == Refused && after == before
  }

  lemma DarkMembers(rows: Readings, fence: string, now: int, lookback: int)
    ensures forall o :: o in Schema.DarkOperators(rows, fence, now, lookback) <==>
              HasHealthyPeer(rows, fence) && IsQuiet(rows, fence, o)
              && SeenSince(rows, fence, o, Unix(now - LookbackOf(lookback)))
  {}

  /** Splits the latest readings: the operators with nothing in reach, and
      whether any other operator has something. */
  method Quiet(latest: map<string, Reading>) returns (candidates: seq<string>, healthy: bool)
    ensures Distinct(candidates)
    ensures forall o :: o in candidates <==> o in latest && latest[o].distanceM.None?
    ensures healthy <==> exists o :: o in latest && latest[o].distanceM.Some?
  {
    candidates, healthy := [], false;
    var todo := latest.Keys;
    while todo != {}
      invariant todo <= latest.Keys
      invariant Distinct(candidates)
      invariant forall o :: o in candidates <==> o in latest.Keys - todo && latest[o].distanceM.None?
      invariant healthy <==> exists o :: o in latest.Keys - todo && latest[o].distanceM.Some?
    {
      var o :| o in todo;
      todo := todo - {o};
      if latest[o].distanceM.Some? {
        healthy := true;
      } else {
        candidates := candidates + [o];
      }
    }
  }

  predicate WasSeen(rows: Readings, fence: string, operator: string, since: int)
    ensures WasSeen(rows, fence, operator, since) == SeenSince(rows, fence, operator, since)
  {
    exists k :: k in rows && k.fence == fence && k.operator == operator && rows[k].distanceM.Some? && k.at >= since
  }

  /** Groups the rows seen since the cutoff by vehicle, in any order. */
  method ScanOpen(rows: Stints, fence: string, cutoff: int) returns (open: map<string, int>)
    ensures open == OpenStints(rows, fence, cutoff)
  {
    open := map[];
    var todo := rows.Keys;
    while todo != {}
      invariant todo <= rows.Keys
      invariant forall k :: k in rows.Keys - todo && k.fence == fence && rows[k].last >= cutoff ==>
                  k.vehicle in open && k.first <= open[k.vehicle]
      invariant forall v :: v in open ==>
                  StintKey(fence, v, open[v]) in rows && rows[StintKey(fence, v, open[v])].last >= cutoff
    {
      var k :| k in todo;
      todo := todo - {k};
      if k.fence == fence && rows[k].last >= cutoff && (k.vehicle !in open || open[k.vehicle] < k.first) {
        open := open[k.vehicle := k.first];
      }
    }
    assert IsOpenMap(rows, fence, cutoff, open);
    OpenStintsIsOpenMap(rows, fence, cutoff);
    OpenMapIsUnique(rows, fence, cutoff, open, OpenStints(rows, fence, cutoff));
  }

  lemma SightAllSnoc(rows: Stints, open: map<string, int>, fence: string, at: int, seen: seq<Sighting>, s: Sighting)
    ensures SightAll(rows, open, fence, at, seen + [s]) == Sight(SightAll(rows, open, fence, at, seen), open, fence, at, s)
  {
    assert Front(seen + [s]) == seen;
  }

  /** A row inserted on the way is still there at the end. */
  lemma {:induction false} SightAllGrows(rows: Stints, open: map<string, int>, fence: string, at: int,
                                         seen: seq<Sighting>, i: nat, k: StintKey)
    requires i < |seen| && seen[i].vehicle !in open && k == StintKey(fence, seen[i].vehicle, at)
    ensures k in SightAll(rows, open, fence, at, seen)
  {
    if i < |seen| - 1 {
      SightAllGrows(rows, open, fence, at, Front(seen), i, k);
    }
  }

  /** The statements inside the presence transaction. An orphan insert, into a
      fence that is missing while foreign keys are enforced, ends it. */
  method SightEach(before: Stints, orphan: bool, open: map<string, int>, fence: string, at: int, seen: seq<Sighting>)
    returns (done: bool, rows: Stints, arrivals: seq<Sighting>)
    ensures done <==> !orphan || SightAll(before, open, fence, at, seen).Keys <= before.Keys
    ensures done ==> rows == SightAll(before, open, fence, at, seen)
    ensures done ==> arrivals == FilterMap(seen, IfNew(open))
  {
    rows := before;
    arrivals := [];
    for i := 0 to |seen|
      invariant rows == SightAll(before, open, fence, at, seen[..i])
      invariant arrivals == FilterMap(seen[..i], IfNew(open))
      invariant orphan ==> rows.Keys == before.Keys
    {
      var s := seen[i];
      assert seen[..i + 1] == seen[..i] + [s];
      SightAllSnoc(before, open, fence, at, seen[..i], s);
      FilterMapSnoc(seen[..i], s, IfNew(open));
      if s.vehicle in open {
        rows := Update(rows, StintKey(fence, s.vehicle, open[s.vehicle]), at);
      } else {
        var k := StintKey(fence, s.vehicle, at);
        if k !in rows && orphan {
          SightAllGrows(before, open, fence, at, seen, i, k);
          return false, before, [];
        }
        rows := Upsert(rows, k, s.operator, at);
        arrivals := arrivals + [s];
      }
    }
    assert seen[..|seen|] == seen;
    done := true;
  }

  class Store {
    /** Whether the connection enforces foreign keys. */
    const fk: bool

    var fences: map<string, Fence>
    var watches: map<string, Watch>
    var events: seq<Event>
    var samples: map<SampleKey, int>
    var stints: Stints
    var readings: Readings

    ghost function Now(): Tables
      reads this
    {
      Tables(fences, watches, events, samples, stints, readings)
    }

    ghost predicate Valid()
      reads this
    {
      Keyed(Now())
    }

    constructor (fk: bool)
      ensures Valid() && Now() == EMPTY && this.fk == fk
    {
      this.fk := fk;
      fences, watches, events, samples, stints, readings := map[], map[], [], map[], map[], map[];
    }

    method SaveFence(f: Fence)
      requires Valid()
      modifies this
      ensures Valid() && Now() == Schema.SaveFence(old(Now()), f)
    {
      fences := fences[f.id := f];
    }

    method Fences() returns (out: seq<Fence>)
      requires Valid()
      ensures IsFenceList(Now(), out)
    {
      out := [];
      var todo := fences.Keys;
      while todo != {}
        invariant todo <= fences.Keys
        invariant Distinct(out) && ByName(out)
        invariant forall f :: f in out <==> f.id in fences.Keys - todo && fences[f.id] == f
      {
        var id :| id in todo;
        todo := todo - {id};
        InsertByNameKeeps(fences[id], out);
        out := InsertByName(fences[id], out);
      }
    }

    /** One statement of a deletion, checked against the references that are left. */
    method Drop(fence: string, statement: Statement) returns (st: Status)
      requires Valid()
      modifies this
      ensures Valid() && Does(RunStatement(old(Now()), fk, fence, statement), old(Now()), Now(), st)
    {
      hide Dangles;
      var t := Tables(fences, watches, events, samples, stints, readings);
      var after := Dropped(t, fence, statement);
      if fk && Dangles(t, after) {
        return Refused;
      }
      match statement {
        case DropWatches => watches := WatchesElsewhere(watches, fence);
        case DropSamples => samples := SamplesElsewhere(samples, fence);
        case DropStints => stints := StintsElsewhere(stints, fence);
        case DropReadings => readings := ReadingsElsewhere(readings, fence);
        case DropFence => fences := fences - {fence};
      }
      return Ok;
    }

    /** Undoes a transaction. */
    method Rollback(was: Tables)
      requires Keyed(was)
      modifies this
      ensures Valid() && Now() == was
    {
      fences, watches, events, samples, stints, readings :=
        was.fences, was.watches, was.events, was.samples, was.stints, was.readings;
    }

    method DeleteFence(id: string) returns (st: Status, removed: bool)
      requires Valid()
      modifies this
      ensures Valid()
      ensures match Schema.DeleteFence(old(Now()), fk, id)
              case Deleted(t, r) => st == Ok && removed == r && Now() == t
              case FenceInUse => st == InUse && !removed && Now() == old(Now())
              case Violation => st == Refused && !removed && Now() == old(Now())
    {
      hide WatchesElsewhere, SamplesElsewhere, StintsElsewhere, ReadingsElsewhere, RunStatement, HasArmed, HasEvents, Keyed;
      var was := Tables(fences, watches, events, samples, stints, readings);
      if HasArmed(was, id) {
        return InUse, false;
      }
      DroppedIs(was, id, |DELETION|);
      removed := id in fences;
      for i := 0 to |DELETION|
        invariant Valid() && Now() == DroppedSoFar(was, id, i)
        invariant i > 0 ==> !(fk && HasEvents(was, id))
      {
        OnlyWatchesAreHeldBack(was, fk, id, i);
        st := Drop(id, DELETION[i]);
        if st != Ok {
          Rollback(was);
          return Refused, false;
        }
      }
      st := Ok;
    }

    method CreateWatch(w: Watch) returns (st: Status)
      requires Valid()
      modifies this
      ensures Valid() && Does(Schema.CreateWatch(old(Now()), fk, w), old(Now()), Now(), st)
    {
      if w.id in watches || (fk && w.fenceId !in fences) {
        return Refused;
      }
      watches := watches[w.id := w.(firedAt := None)];
      return Ok;
    }

    method ArmedWatches(now: int) returns (out: seq<Watch>)
      requires Valid()
      ensures IsArmedList(Now(), now, out)
    {
      var found: seq<Watch> := [];
      var todo := watches.Keys;
      while todo != {}
        invariant todo <= watches.Keys
        invariant Distinct(found)
        invariant forall w :: w in found <==> w.id in watches.Keys - todo && watches[w.id] == w && IsLive(w, now)
      {
        var id :| id in todo;
        todo := todo - {id};
        if IsLive(watches[id], now) {
          found := found + [watches[id]];
        }
      }
      SortByPermutes(found, ByCreation());
      SortByOrders(found, ByCreation());
      out := SortBy(found, ByCreation());
      DistinctPermuted(found, out);
    }

    method MarkFired(id: string, at: int) returns (st: Status)
      requires Valid()
      modifies this
      ensures Valid() && Does(Schema.MarkFired(old(Now()), id, at), old(Now()), Now(), st)
    {
      if id !in watches || watches[id].state != Armed {
        return Missing;
      }
      var w := watches[id];
      watches := watches[id := w.(firedAt := Some(Unix(at)), state := if w.repeats then w.state else Fired)];
      return Ok;
    }

    method SetState(id: string, s: State) returns (st: Status)
      requires Valid()
      modifies this
      ensures Valid() && Does(Schema.SetState(old(Now()), id, s), old(Now()), Now(), st)
    {
      if id !in watches {
        return Missing;
      }
      watches := watches[id := watches[id].(state := s)];
      return Ok;
    }

    method ExpireWatches(now: int) returns (n: nat)
      requires Valid()
      modifies this
      ensures Valid() && Now() == Schema.ExpireWatches(old(Now()), now)
      ensures n == |OverdueIds(old(Now()), now)|
    {
      n := |OverdueIds(Tables(fences, watches, events, samples, stints, readings), now)|;
      watches := map id | id in watches ::
        if IsOverdue(watches[id], now) then watches[id].(state := Expired) else watches[id];
    }

    method CancelArmed(device: string) returns (n: nat)
      requires Valid()
      modifies this
      ensures Valid() && Now() == Schema.CancelArmed(old(Now()), device)
      ensures n == |CancellableIds(old(Now()), device)|
    {
      n := |CancellableIds(Tables(fences, watches, events, samples, stints, readings), device)|;
      watches := map id | id in watches ::
        if IsCancellable(watches[id], device) then watches[id].(state := Cancelled) else watches[id];
    }

    method RecordEvent(id: string, at: int, n: Notification) returns (st: Status)
      requires Valid()
      modifies this
      ensures Valid() && Does(Schema.RecordEvent(old(Now()), fk, id, at, n), old(Now()), Now(), st)
    {
      if fk && id !in watches {
        return Refused;
      }
      events := events + [Event(id, Unix(at), n)];
      return Ok;
    }

    method RecordSample(fence: string, at: int, operator: string, count: int) returns (st: Status)
      requires Valid()
      modifies this
      ensures Valid() && Does(Schema.RecordSample(old(Now()), fk, fence, at, operator, count), old(Now()), Now(), st)
    {
      var k := SampleKey(fence, Unix(at), operator);
      if fk && fence !in fences && k !in samples {
        return Refused;
      }
      samples := samples[k := count];
      return Ok;
    }

    method RecordNearest(fence: string, at: int, operator: string, r: Reading) returns (st: Status)
      requires Valid()
      modifies this
      ensures Valid() && Does(Schema.RecordNearest(old(Now()), fk, fence, at, operator, r), old(Now()), Now(), st)
    {
      var k := ReadingKey(fence, Unix(at), operator);
      if fk && fence !in fences && k !in readings {
        return Refused;
      }
      readings := readings[k := r];
      return Ok;
    }

    /** One transaction: all rows change, or none do. */
    method ObservePresence(fence: string, at: int, seen: seq<Sighting>, stale: int)
      returns (st: Status, arrivals: seq<Sighting>)
      requires Valid()
      modifies this
      ensures Valid()
      ensures match Schema.ObservePresence(old(Now()), fk, fence, at, seen, stale)
              case Observed(t, a) => st == Ok && arrivals == a && Now() == t
              case ObserveRefused => st == Refused && Now() == old(Now())
    {
      var open := ScanOpen(stints, fence, Cutoff(at, stale));
      var done, rows, arrived := SightEach(stints, fk && fence !in fences, open, fence, Unix(at), seen);
      if !done {
        return Refused, [];
      }
      stints := rows;
      return Ok, arrived;
    }

    method PresentIds(fence: string, at: int, stale: int) returns (out: seq<string>)
      ensures Distinct(out)
      ensures forall v :: v in out <==> v in Schema.PresentIds(Now(), fence, at, stale)
    {
      out := [];
      var todo := stints.Keys;
      while todo != {}
        invariant todo <= stints.Keys
        invariant Distinct(out)
        invariant forall v :: v in out <==>
          (exists k :: k in stints.Keys - todo && k.fence == fence && stints[k].last >= Cutoff(at, stale) && k.vehicle == v)
      {
        var k :| k in todo;
        todo := todo - {k};
        if k.fence == fence && stints[k].last >= Cutoff(at, stale) && k.vehicle !in out {
          out := out + [k.vehicle];
        }
      }
    }

    method Arrivals(fence: string, from: int, to: int) returns (out: seq<StintKey>)
      ensures Distinct(out)
      ensures forall k :: k in out <==> k in RowsIn(stints, fence, Unix(from), Unix(to))
      ensures SortedBy(out, ByFirst())
    {
      var found: seq<StintKey> := [];
      var todo := stints.Keys;
      while todo != {}
        invariant todo <= stints.Keys
        invariant Distinct(found)
        invariant forall k :: k in found <==> k in stints.Keys - todo && k.fence == fence && Unix(from) <= k.first < Unix(to)
      {
        var k :| k in todo;
        todo := todo - {k};
        if k.fence == fence && Unix(from) <= k.first < Unix(to) {
          found := found + [k];
        }
      }
      SortByPermutes(found, ByFirst());
      SortByOrders(found, ByFirst());
      out := SortBy(found, ByFirst());
      DistinctPermuted(found, out);
    }

    method LatestNearest(fence: string) returns (out: map<string, Reading>)
      ensures out == Schema.LatestNearest(readings, fence)
    {
      out := map[];
      var newest: map<string, int> := map[];
      var todo := readings.Keys;
      while todo != {}
        invariant todo <= readings.Keys
        invariant out.Keys == newest.Keys
        invariant forall o :: o in newest ==>
                    ReadingKey(fence, newest[o], o) in readings && out[o] == readings[ReadingKey(fence, newest[o], o)]
        invariant forall k :: k in readings.Keys - todo && k.fence == fence ==>
                    k.operator in newest && k.at <= newest[k.operator]
      {
        var k :| k in todo;
        todo := todo - {k};
        if k.fence == fence && (k.operator !in newest || newest[k.operator] < k.at) {
          newest := newest[k.operator := k.at];
          out := out[k.operator := readings[k]];
        }
      }
      LatestNearestIsUnique(readings, fence, newest, out);
    }

    method LatestCounts(fence: string) returns (out: map<string, int>, at: int)
      ensures at == NewestSample(samples, fence)
      ensures out == Schema.LatestCounts(samples, fence)
    {
      var any := false;
      at := 0;
      var todo := samples.Keys;
      while todo != {}
        invariant todo <= samples.Keys
        invariant any ==> at in SampleTimes(samples, fence)
        invariant !any ==> at == 0
        invariant forall k :: k in samples.Keys - todo && k.fence == fence ==> any && k.at <= at
      {
        var k :| k in todo;
        todo := todo - {k};
        if k.fence == fence && (!any || at < k.at) {
          any, at := true, k.at;
        }
      }
      if at == 0 {
        return map[], 0;
      }
      out := map k | k in samples && k.fence == fence && k.at == at :: k.operator := samples[k];
    }

    method DarkOperators(fence: string, now: int, lookback: int) returns (out: seq<string>)
      ensures out == Sorted(Schema.DarkOperators(readings, fence, now, lookback))
    {
      var latest := LatestNearest(fence);
      var candidates, healthy := Quiet(latest);
      assert healthy == HasHealthyPeer(readings, fence);
      var dark: seq<string> := [];
      if healthy && |candidates| > 0 {
        for i := 0 to |candidates|
          invariant Distinct(dark)
          invariant forall o :: o in dark <==>
            (o in candidates[..i] && SeenSince(readings, fence, o, Unix(now - LookbackOf(lookback))))
        {
          assert candidates[..i + 1] == candidates[..i] + [candidates[i]];
          assert candidates[i] !in candidates[..i];
          var seen := WasSeen(readings, fence, candidates[i], Unix(now - LookbackOf(lookback)));
          if seen {
            dark := dark + [candidates[i]];
          }
        }
        assert candidates[..|candidates|] == candidates;
      }
      DarkMembers(readings, fence, now, lookback);
      out := Sort(dark);
      assert (set o | o in dark) == Schema.DarkOperators(readings, fence, now, lookback);
    }
  }
}
