/** The store as a value: one map per table, keyed by its primary key, and one
    function per SQL statement or transaction (`internal/store`). Every function
    is one atomic step, because the database has a single connection. */
module Schema {
  import opened Base
  import opened Geo
  import opened Entur
  import opened Strings

  datatype Fence = Fence(id: string, name: string, at: Point, radiusM: int)

  /** `OtherKind` stands for any text the kind column may hold besides the two
      the API accepts. */
  datatype Kind = Appearance | Scarcity | OtherKind

  datatype State = Armed | Fired | Expired | Cancelled

  datatype Watch = Watch(
    id: string,
    device: string,
    kind: Kind,
    fenceId: string,
    operatorKeys: seq<string>,
    minRangeM: int,
    threshold: int,
    baseline: seq<string>,
    repeats: bool,
    state: State,
    createdAt: int,
    expiresAt: int,
    firedAt: Option<int>)

  datatype Notification = Notification(
    watchId: string,
    kind: Kind,
    firedAt: int,
    fence: Fence,
    count: nat,
    vehicles: seq<Vehicle>)

  datatype Event = Event(watchId: string, at: int, payload: Notification)

  datatype Sighting = Sighting(vehicle: string, operator: string)

  datatype SampleKey = SampleKey(fence: string, at: int, operator: string)

  datatype StintKey = StintKey(fence: string, vehicle: string, first: int)

  datatype Stint = Stint(operator: string, last: int)

  datatype ReadingKey = ReadingKey(fence: string, at: int, operator: string)

  /** How far the nearest vehicle is; no distance means none within reach. */
  datatype Reading = Reading(distanceM: Option<int>, vehicle: string)

  type Stints = map<StintKey, Stint>

  type Readings = map<ReadingKey, Reading>

  datatype Tables = Tables(
    fences: map<string, Fence>,
    watches: map<string, Watch>,
    events: seq<Event>,
    samples: map<SampleKey, int>,
    stints: Stints,
    readings: Readings)

  datatype Write = Written(t: Tables) | NotFound | Constraint

  const EMPTY := Tables(map[], map[], [], map[], map[], map[])

  /** Rows carry the key they are stored under. */
  ghost predicate Keyed(t: Tables) {
    && (forall id :: id in t.fences ==> t.fences[id].id == id)
    && (forall id :: id in t.watches ==> t.watches[id].id == id)
  }

  // ---------------------------------------------------------------------
  // Fences
  // ---------------------------------------------------------------------

  function SaveFence(t: Tables, f: Fence): Tables {
    t.(fences := t.fences[f.id := f])
  }

  datatype Deletion = Deleted(t: Tables, removed: bool) | FenceInUse | Violation

  predicate HasArmed(t: Tables, fence: string) {
    exists id :: id in t.watches && t.watches[id].fenceId == fence && t.watches[id].state == Armed
  }

  /** An event row still points at a watch on this fence. */
  predicate HasEvents(t: Tables, fence: string) {
    exists e :: e in t.events && e.watchId in t.watches && t.watches[e.watchId].fenceId == fence
  }

  function WatchesElsewhere(watches: map<string, Watch>, fence: string): map<string, Watch> {
    map w | w in watches && watches[w].fenceId != fence :: watches[w]
  }

  function SamplesElsewhere(samples: map<SampleKey, int>, fence: string): map<SampleKey, int> {
    map k | k in samples && k.fence != fence :: samples[k]
  }

  function StintsElsewhere(stints: Stints, fence: string): Stints {
    map k | k in stints && k.fence != fence :: stints[k]
  }

  function ReadingsElsewhere(readings: Readings, fence: string): Readings {
    map k | k in readings && k.fence != fence :: readings[k]
  }

  /** The statements of a deletion, in the order they run. */
  datatype Statement = DropWatches | DropSamples | DropStints | DropReadings | DropFence

  const DELETION: seq<Statement> := [DropWatches, DropSamples, DropStints, DropReadings, DropFence]

  function Dropped(t: Tables, fence: string, st: Statement): Tables {
    match st
    case DropWatches => t.(watches := WatchesElsewhere(t.watches, fence))
    case DropSamples => t.(samples := SamplesElsewhere(t.samples, fence))
    case DropStints => t.(stints := StintsElsewhere(t.stints, fence))
    case DropReadings => t.(readings := ReadingsElsewhere(t.readings, fence))
    case DropFence => t.(fences := t.fences - {fence})
  }

  /** Something that is left refers to a row that is gone. */
  predicate Dangles(t: Tables, after: Tables) {
    || (exists e :: e in after.events && e.watchId in t.watches && e.watchId !in after.watches)
    || (exists id :: id in after.watches && after.watches[id].fenceId in t.fences && after.watches[id].fenceId !in after.fences)
    || (exists k :: k in after.samples && k.fence in t.fences && k.fence !in after.fences)
    || (exists k :: k in after.stints && k.fence in t.fences && k.fence !in after.fences)
    || (exists k :: k in after.readings && k.fence in t.fences && k.fence !in after.fences)
  }

  /** With foreign keys enforced, a statement is refused when it leaves a reference
      to a row it deletes. */
  function RunStatement(t: Tables, fk: bool, fence: string, st: Statement): Write {
    if fk && Dangles(t, Dropped(t, fence, st)) then Constraint else Written(Dropped(t, fence, st))
  }

  /** The tables after the first `n` statements. */
  function DroppedSoFar(t: Tables, fence: string, n: nat): Tables
    requires n <= |DELETION|
  {
    if n == 0 then t else Dropped(DroppedSoFar(t, fence, n - 1), fence, DELETION[n - 1])
  }

  /** With foreign keys enforced, deleting the watches of a fence fails while an
      event refers to one of them, and the transaction rolls back. */
  function DeleteFence(t: Tables, fk: bool, id: string): Deletion {
    if HasArmed(t, id) then FenceInUse
    else if fk && HasEvents(t, id) then Violation
    else Deleted(Tables(
      t.fences - {id}, WatchesElsewhere(t.watches, id), t.events, SamplesElsewhere(t.samples, id),
      StintsElsewhere(t.stints, id), ReadingsElsewhere(t.readings, id)), id in t.fences)
  }

  lemma DroppedWatches(t: Tables, fence: string)
    ensures Dangles(t, Dropped(t, fence, DropWatches)) <==> HasEvents(t, fence)
  {}

  lemma DroppedHistory(t: Tables, fence: string, st: Statement)
    requires st == DropSamples || st == DropStints || st == DropReadings
    ensures !Dangles(t, Dropped(t, fence, st))
  {}

  lemma DroppedFence(t: Tables, fence: string)
    requires forall id :: id in t.watches ==> t.watches[id].fenceId != fence
    requires forall k :: k in t.samples ==> k.fence != fence
    requires forall k :: k in t.stints ==> k.fence != fence
    requires forall k :: k in t.readings ==> k.fence != fence
    ensures !Dangles(t, Dropped(t, fence, DropFence))
  {}

  /** What is left after the first `n` statements. */
  lemma {:induction false} DroppedIs(t: Tables, fence: string, n: nat)
    requires n <= |DELETION|
    ensures DroppedSoFar(t, fence, n)
            == Tables(if n >= 5 then t.fences - {fence} else t.fences,
                      if n >= 1 then WatchesElsewhere(t.watches, fence) else t.watches,
                      t.events,
                      if n >= 2 then SamplesElsewhere(t.samples, fence) else t.samples,
                      if n >= 3 then StintsElsewhere(t.stints, fence) else t.stints,
                      if n >= 4 then ReadingsElsewhere(t.readings, fence) else t.readings)
  {
    hide WatchesElsewhere, SamplesElsewhere, StintsElsewhere, ReadingsElsewhere;
    if n > 0 {
      DroppedIs(t, fence, n - 1);
    }
  }

  /** Of the five statements only the first, which deletes the watches, can be
      refused, and it is exactly when an event refers to one of them. */
  lemma OnlyWatchesAreHeldBack(t: Tables, fk: bool, fence: string, n: nat)
    requires n < |DELETION|
    ensures RunStatement(DroppedSoFar(t, fence, n), fk, fence, DELETION[n])
            == if n == 0 && fk && HasEvents(t, fence) then Constraint else Written(DroppedSoFar(t, fence, n + 1))
  {
    DroppedIs(t, fence, n);
    DroppedIs(t, fence, n + 1);
    var before := DroppedSoFar(t, fence, n);
    if n == 0 {
      DroppedWatches(t, fence);
    } else if n < 4 {
      DroppedHistory(before, fence, DELETION[n]);
    } else {
      DroppedFence(before, fence);
    }
    hide Dangles, WatchesElsewhere, SamplesElsewhere, StintsElsewhere, ReadingsElsewhere, HasEvents;
  }

  // ---------------------------------------------------------------------
  // Watches and events
  // ---------------------------------------------------------------------

  function CreateWatch(t: Tables, fk: bool, w: Watch): Write {
    if w.id in t.watches || (fk && w.fenceId !in t.fences) then Constraint
    else Written(t.(watches := t.watches[w.id := w.(firedAt := None)]))
  }

  predicate IsLive(w: Watch, now: int) {
    w.state == Armed && w.expiresAt > Unix(now)
  }

  predicate IsArmed(t: Tables, id: string) {
    id in t.watches && t.watches[id].state == Armed
  }

  function ByCreation(): Watch -> real { (w: Watch) => w.createdAt as real }

  /** Any list `ArmedWatches` may return: each live watch once, oldest first. */
  ghost predicate IsArmedList(t: Tables, now: int, ws: seq<Watch>) {
    && Distinct(ws)
    && (forall w :: w in ws <==> w.id in t.watches && t.watches[w.id] == w && IsLive(w, now))
    && SortedBy(ws, ByCreation())
  }

  /** So a snapshot holds each watch that is armed and expires later once, the oldest
      first. */
  lemma ArmedListIsOldestFirst(t: Tables, now: int, ws: seq<Watch>, i: nat, j: nat)
    requires IsArmedList(t, now, ws) && i < j < |ws|
    ensures ws[i] != ws[j] && ws[i].createdAt <= ws[j].createdAt
    ensures ws[i].state == Armed && ws[i].expiresAt > Unix(now)
  {
    assert ByCreation()(ws[i]) <= ByCreation()(ws[j]);
    assert ws[i] in ws;
  }

  /** By name, in byte order; fences of one name in any order. */
  ghost predicate ByName(fs: seq<Fence>) {
    forall i, j :: 0 <= i < j < |fs| ==> !Less(fs[j].name, fs[i].name)
  }

  /** Any list `Fences` may return: each fence once, by name. */
  ghost predicate IsFenceList(t: Tables, fs: seq<Fence>) {
    && Distinct(fs)
    && (forall f :: f in fs <==> f.id in t.fences && t.fences[f.id] == f)
    && ByName(fs)
  }

  /** A saved fence is listed as it was saved, once, in place of any it had the id of;
      the others are listed as before. */
  lemma SavedIsListed(t: Tables, f: Fence, fs: seq<Fence>, g: Fence)
    requires IsFenceList(SaveFence(t, f), fs)
    ensures g in fs <==> g == f || (g.id != f.id && g.id in t.fences && t.fences[g.id] == g)
  {
    hide ByName;
  }

  /** Puts a fence before the first that comes after it by name. */
  function InsertByName(f: Fence, fs: seq<Fence>): seq<Fence> {
    if |fs| == 0 || Less(f.name, fs[0].name) then [f] + fs else [fs[0]] + InsertByName(f, fs[1..])
  }

  lemma NotLessIsTransitive(a: string, b: string, c: string)
    requires !Less(b, a) && !Less(c, b)
    ensures !Less(c, a)
  {
    LessIsTotal(a, b);
    if Less(c, a) && a != b {
      LessIsTransitive(c, a, b);
    }
  }

  lemma PrependByName(f: Fence, fs: seq<Fence>)
    requires Distinct(fs) && ByName(fs) && forall g :: g in fs ==> g != f && !Less(g.name, f.name)
    ensures Distinct([f] + fs) && ByName([f] + fs)
  {
    var all := [f] + fs;
    assert forall i :: 1 <= i < |all| ==> all[i] == fs[i - 1] && all[i] in fs;
  }

  lemma FirstByName(f: Fence, fs: seq<Fence>)
    requires |fs| > 0 && f !in fs && Distinct(fs) && ByName(fs) && Less(f.name, fs[0].name)
    ensures Distinct([f] + fs) && ByName([f] + fs)
  {
    LessIsTotal(f.name, fs[0].name);
    forall g | g in fs
      ensures !Less(g.name, f.name)
    {
      var j :| 0 <= j < |fs| && fs[j] == g;
      if j > 0 {
        NotLessIsTransitive(f.name, fs[0].name, g.name);
      }
    }
    PrependByName(f, fs);
  }

  lemma {:induction false} InsertByNameKeeps(f: Fence, fs: seq<Fence>)
    requires f !in fs && Distinct(fs) && ByName(fs)
    ensures Distinct(InsertByName(f, fs)) && ByName(InsertByName(f, fs))
    ensures forall g :: g in InsertByName(f, fs) <==> g == f || g in fs
  {
    if |fs| > 0 {
      assert fs == [fs[0]] + fs[1..];
      if Less(f.name, fs[0].name) {
        FirstByName(f, fs);
      } else {
        var rest := InsertByName(f, fs[1..]);
        InsertByNameKeeps(f, fs[1..]);
        forall g | g in rest
          ensures g != fs[0] && !Less(g.name, fs[0].name)
        {
          if g != f {
            var j :| 0 <= j < |fs[1..]| && fs[1..][j] == g;
            assert fs[j + 1] == g;
          }
        }
        PrependByName(fs[0], rest);
      }
    }
  }

  function MarkFired(t: Tables, id: string, at: int): Write {
    if id !in t.watches || t.watches[id].state != Armed then NotFound
    else
      var w := t.watches[id];
      Written(t.(watches := t.watches[id := w.(firedAt := Some(Unix(at)), state := if w.repeats then w.state else Fired)]))
  }

  function SetState(t: Tables, id: string, s: State): Write {
    if id !in t.watches then NotFound
    else Written(t.(watches := t.watches[id := t.watches[id].(state := s)]))
  }

  predicate IsOverdue(w: Watch, now: int) {
    w.state == Armed && w.expiresAt <= Unix(now)
  }

  function ExpireWatches(t: Tables, now: int): Tables {
    t.(watches := map id | id in t.watches ::
      if IsOverdue(t.watches[id], now) then t.watches[id].(state := Expired) else t.watches[id])
  }

  function OverdueIds(t: Tables, now: int): set<string> {
    set id | id in t.watches && IsOverdue(t.watches[id], now)
  }

  predicate IsCancellable(w: Watch, device: string) {
    w.state == Armed && (device == "" || w.device == device)
  }

  function CancelArmed(t: Tables, device: string): Tables {
    t.(watches := map id | id in t.watches ::
      if IsCancellable(t.watches[id], device) then t.watches[id].(state := Cancelled) else t.watches[id])
  }

  function CancellableIds(t: Tables, device: string): set<string> {
    set id | id in t.watches && IsCancellable(t.watches[id], device)
  }

  function RecordEvent(t: Tables, fk: bool, id: string, at: int, n: Notification): Write {
    if fk && id !in t.watches then Constraint
    else Written(t.(events := t.events + [Event(id, Unix(at), n)]))
  }

  // ---------------------------------------------------------------------
  // History
  // ---------------------------------------------------------------------

  /** An upsert on a row that exists changes no key, so the foreign key is only
      checked on a new row. */
  function RecordSample(t: Tables, fk: bool, fence: string, at: int, operator: string, count: int): Write {
    var k := SampleKey(fence, Unix(at), operator);
    if fk && fence !in t.fences && k !in t.samples then Constraint
    else Written(t.(samples := t.samples[k := count]))
  }

  function RecordNearest(t: Tables, fk: bool, fence: string, at: int, operator: string, r: Reading): Write {
    var k := ReadingKey(fence, Unix(at), operator);
    if fk && fence !in t.fences && k !in t.readings then Constraint
    else Written(t.(readings := t.readings[k := r]))
  }

  // ---------------------------------------------------------------------
  // Presence
  // ---------------------------------------------------------------------

  const DEFAULT_STALE: int := 180_000_000_000

  function StaleOf(stale: int): int {
    if stale <= 0 then DEFAULT_STALE else stale
  }

  function Cutoff(at: int, stale: int): int {
    Unix(at - StaleOf(stale))
  }

  /** The largest element of `s`, found by climbing from the element `x`. */
  ghost function MaxOf(s: set<int>, x: int): (m: int)
    requires x in s
    ensures m in s
    ensures forall y :: y in s ==> y <= m
    decreases |set y | y in s && y > x|
  {
    if y :| y in s && y > x then
      var above, beyond := set z | z in s && z > x, set z | z in s && z > y;
      assert above == beyond + (above - beyond) && y in above - beyond;
      MaxOf(s, y)
    else x
  }

  /** The first seconds of a vehicle's stints seen at or after the cutoff. */
  ghost function OpenFirsts(rows: Stints, fence: string, vehicle: string, cutoff: int): set<int> {
    set k | k in rows && k.fence == fence && k.vehicle == vehicle && rows[k].last >= cutoff :: k.first
  }

  /** For every vehicle seen at or after the cutoff, its latest such stint. */
  ghost function OpenStints(rows: Stints, fence: string, cutoff: int): map<string, int> {
    map v | v in (set k | k in rows && k.fence == fence && rows[k].last >= cutoff :: k.vehicle) ::
      var k :| k in rows && k.fence == fence && k.vehicle == v && rows[k].last >= cutoff;
      assert k.first in OpenFirsts(rows, fence, v, cutoff);
      MaxOf(OpenFirsts(rows, fence, v, cutoff), k.first)
  }

  /** `open` gives every vehicle with a stint seen since the cutoff the first
      second of the latest such stint. */
  ghost predicate IsOpenMap(rows: Stints, fence: string, cutoff: int, open: map<string, int>) {
    && (forall k :: k in rows && k.fence == fence && rows[k].last >= cutoff ==>
          k.vehicle in open && k.first <= open[k.vehicle])
    && (forall v :: v in open ==>
          StintKey(fence, v, open[v]) in rows && rows[StintKey(fence, v, open[v])].last >= cutoff)
  }

  lemma OpenStintsIsOpenMap(rows: Stints, fence: string, cutoff: int)
    ensures IsOpenMap(rows, fence, cutoff, OpenStints(rows, fence, cutoff))
  {
    var open := OpenStints(rows, fence, cutoff);
    forall k | k in rows && k.fence == fence && rows[k].last >= cutoff
      ensures k.vehicle in open && k.first <= open[k.vehicle]
    {
      assert k.first in OpenFirsts(rows, fence, k.vehicle, cutoff);
    }
    forall v | v in open
      ensures StintKey(fence, v, open[v]) in rows && rows[StintKey(fence, v, open[v])].last >= cutoff
    {
      assert open[v] in OpenFirsts(rows, fence, v, cutoff);
      var k :| k in rows && k.fence == fence && k.vehicle == v && rows[k].last >= cutoff && k.first == open[v];
      assert k == StintKey(fence, v, open[v]);
    }
  }

  lemma OpenMapIsUnique(rows: Stints, fence: string, cutoff: int, a: map<string, int>, b: map<string, int>)
    requires IsOpenMap(rows, fence, cutoff, a) && IsOpenMap(rows, fence, cutoff, b)
    ensures a == b
  {
    forall v
      ensures v in a <==> v in b
      ensures v in a ==> a[v] == b[v]
    {
      if v in a { assert StintKey(fence, v, a[v]) in rows; }
      if v in b { assert StintKey(fence, v, b[v]) in rows; }
    }
  }

  /** The UPDATE that extends a stint. */
  function Update(rows: Stints, k: StintKey, at: int): Stints {
    if k in rows then rows[k := rows[k].(last := at)] else rows
  }

  /** The INSERT that opens a stint, or moves one of the same second. */
  function Upsert(rows: Stints, k: StintKey, operator: string, at: int): Stints {
    if k in rows then rows[k := rows[k].(last := at)] else rows[k := Stint(operator, at)]
  }

  function Sight(rows: Stints, open: map<string, int>, fence: string, at: int, s: Sighting): Stints {
    if s.vehicle in open then Update(rows, StintKey(fence, s.vehicle, open[s.vehicle]), at)
    else Upsert(rows, StintKey(fence, s.vehicle, at), s.operator, at)
  }

  function SightAll(rows: Stints, open: map<string, int>, fence: string, at: int, seen: seq<Sighting>): Stints {
    if |seen| == 0 then rows
    else Sight(SightAll(rows, open, fence, at, Front(seen)), open, fence, at, Last(seen))
  }

  function IfNew(open: map<string, int>): Sighting -> Option<Sighting> {
    (s: Sighting) => if s.vehicle in open then None else Some(s)
  }

  datatype Observation = Observed(t: Tables, arrivals: seq<Sighting>) | ObserveRefused

  /** The whole presence transaction. A new row needs its fence when foreign
      keys are enforced; a refused row rolls everything back. */
  ghost function ObservePresence(t: Tables, fk: bool, fence: string, at: int, seen: seq<Sighting>,
                                 stale: int): Observation {
    var open := OpenStints(t.stints, fence, Cutoff(at, stale));
    var arrivals := FilterMap(seen, IfNew(open));
    var rows := SightAll(t.stints, open, fence, Unix(at), seen);
    if fk && fence !in t.fences && !(rows.Keys <= t.stints.Keys) then ObserveRefused
    else Observed(t.(stints := rows), arrivals)
  }

  ghost function PresentIds(t: Tables, fence: string, at: int, stale: int): set<string> {
    set k | k in t.stints && k.fence == fence && t.stints[k].last >= Cutoff(at, stale) :: k.vehicle
  }

  function ByFirst(): StintKey -> real { (k: StintKey) => k.first as real }

  /** The rows `Arrivals` selects: stints that began in a window. */
  ghost function RowsIn(rows: Stints, fence: string, from: int, to: int): set<StintKey> {
    set k | k in rows && k.fence == fence && from <= k.first < to
  }

  // ---------------------------------------------------------------------
  // Latest counts
  // ---------------------------------------------------------------------

  ghost function SampleTimes(samples: map<SampleKey, int>, fence: string): set<int> {
    set k | k in samples && k.fence == fence :: k.at
  }

  /** The newest second that has a sample; zero stands for none. */
  ghost function NewestSample(samples: map<SampleKey, int>, fence: string): int {
    if k :| k in samples && k.fence == fence then
      assert k.at in SampleTimes(samples, fence);
      MaxOf(SampleTimes(samples, fence), k.at)
    else 0
  }

  ghost function LatestCounts(samples: map<SampleKey, int>, fence: string): map<string, int> {
    var at := NewestSample(samples, fence);
    if at == 0 then map[]
    else map o | o in (set k | k in samples && k.fence == fence && k.at == at :: k.operator) :: samples[SampleKey(fence, at, o)]
  }

  // ---------------------------------------------------------------------
  // Nearest readings
  // ---------------------------------------------------------------------

  ghost function ReadingTimes(rows: Readings, fence: string, operator: string): set<int> {
    set k | k in rows && k.fence == fence && k.operator == operator :: k.at
  }

  /** The latest reading of every operator that has one. */
  ghost function LatestNearest(rows: Readings, fence: string): map<string, Reading> {
    map o | o in (set k | k in rows && k.fence == fence :: k.operator) ::
      var k :| k in rows && k.fence == fence && k.operator == o;
      assert k.at in ReadingTimes(rows, fence, o);
      rows[ReadingKey(fence, MaxOf(ReadingTimes(rows, fence, o), k.at), o)]
  }

  /** `LatestNearest` is the only map with its properties. */
  lemma LatestNearestIsUnique(rows: Readings, fence: string, newest: map<string, int>, out: map<string, Reading>)
    requires out.Keys == newest.Keys
    requires forall k :: k in rows && k.fence == fence ==> k.operator in newest && k.at <= newest[k.operator]
    requires forall o :: o in newest ==>
               ReadingKey(fence, newest[o], o) in rows && out[o] == rows[ReadingKey(fence, newest[o], o)]
    ensures out == LatestNearest(rows, fence)
  {
    var spec := LatestNearest(rows, fence);
    forall o
      ensures o in out <==> o in spec
      ensures o in out ==> out[o] == spec[o]
    {
      if o in out {
        var k := ReadingKey(fence, newest[o], o);
        assert k.operator == o && k.at in ReadingTimes(rows, fence, o);
      }
    }
  }

  /** No row of the fence is later than now. */
  ghost predicate NoneLater(rows: Readings, fence: string, now: int) {
    forall x :: x in rows && x.fence == fence ==> x.at <= Unix(now)
  }

  const DEFAULT_LOOKBACK: int := 21_600_000_000_000

  function LookbackOf(lookback: int): int {
    if lookback <= 0 then DEFAULT_LOOKBACK else lookback
  }

  ghost predicate SeenSince(rows: Readings, fence: string, operator: string, since: int) {
    exists k :: k in rows && k.fence == fence && k.operator == operator && rows[k].distanceM.Some? && k.at >= since
  }

  ghost predicate HasHealthyPeer(rows: Readings, fence: string) {
    exists o :: o in LatestNearest(rows, fence) && LatestNearest(rows, fence)[o].distanceM.Some?
  }

  ghost predicate IsQuiet(rows: Readings, fence: string, operator: string) {
    operator in LatestNearest(rows, fence) && LatestNearest(rows, fence)[operator].distanceM.None?
  }

  /** Operators whose feed seems to have stopped: quiet now, seen within the
      lookback, and with a peer that is still publishing. */
  ghost function DarkOperators(rows: Readings, fence: string, now: int, lookback: int): set<string> {
    set k | k in rows && k.fence == fence && HasHealthyPeer(rows, fence) && IsQuiet(rows, fence, k.operator)
            && SeenSince(rows, fence, k.operator, Unix(now - LookbackOf(lookback))) :: k.operator
  }
}
