/** Following vehicles poll by poll, and what the printed events tell
    (`cmd/scootless-track/main.go`). */
module Track {
  import opened Base
  import opened Geo
  import opened Poll

  const MOVE_M := 15.0

  /** What is remembered about one vehicle; times are left out. */
  datatype State = State(seen: bool, at: Point, start: Point, hasStart: bool)

  const UNKNOWN := State(false, Point(0.0, 0.0), Point(0.0, 0.0), false)

  datatype Event =
    | Parked(at: Point)
    | Reappeared(at: Point, movedM: int)
    | Moved(at: Point, byM: int)
    | Vanished

  /** One line of output. */
  datatype Line = Line(vehicle: string, event: Event)

  function Follow(dist: Metric, s: State, o: Option<Point>): (State, Option<Event>) {
    match o
    case Some(p) =>
      if !s.seen then
        if !s.hasStart then (State(true, p, p, true), Some(Parked(p)))
        else (State(true, p, p, true), Some(Reappeared(p, Metres(dist(s.start, p)))))
      else
        var moved := dist(s.at, p);
        if moved > MOVE_M then (s.(at := p), Some(Moved(p, Metres(moved)))) else (s, None)
    case None =>
      if s.seen then (s.(seen := false), Some(Vanished)) else (s, None)
  }

  function Look(found: map<string, Point>, id: string): Option<Point> {
    if id in found then Some(found[id]) else None
  }

  function StateAt(states: map<string, State>, id: string): State {
    if id in states then states[id] else UNKNOWN
  }

  function LinesOf(id: string, e: Option<Event>): seq<Line> {
    match e case None => [] case Some(e) => [Line(id, e)]
  }

  /** One successful lookup, vehicle after vehicle. */
  function Sweep(dist: Metric, states: map<string, State>, ids: seq<string>, found: map<string, Point>):
    (map<string, State>, seq<Line>)
  {
    if |ids| == 0 then (states, [])
    else
      var (before, lines) := Sweep(dist, states, Front(ids), found);
      var id := Last(ids);
      var (s, e) := Follow(dist, StateAt(before, id), Look(found, id));
      (before[id := s], lines + LinesOf(id, e))
  }

  class Tracker {
    const ids: seq<string>
    const dist: Metric
    var states: map<string, State>
    var log: seq<Line>

    ghost predicate Valid()
      reads this
    {
      forall id :: id in ids ==> id in states
    }

    constructor (ids: seq<string>, dist: Metric)
      ensures Valid() && this.ids == ids && this.dist == dist && log == []
      ensures forall id :: StateAt(states, id) == UNKNOWN
    {
      this.ids, this.dist, log := ids, dist, [];
      states := map id | id in ids :: UNKNOWN;
    }

    /** A lookup that fails changes nothing. */
    method Poll(answer: Option<map<string, Point>>)
      requires Valid()
      modifies this
      ensures Valid()
      ensures answer.None? ==> states == old(states) && log == old(log)
      ensures answer.Some? ==>
                var (after, lines) := Sweep(dist, old(states), ids, answer.value);
                states == after && log == old(log) + lines
    {
      if answer.None? {
        return;
      }
      var found := answer.value;
      assert old(log) + [] == old(log);
      for i := 0 to |ids|
        invariant Valid()
        invariant states == Sweep(dist, old(states), ids[..i], found).0
        invariant log == old(log) + Sweep(dist, old(states), ids[..i], found).1
      {
        var id := ids[i];
        assert Front(ids[..i + 1]) == ids[..i];
        var s := states[id];
        if id in found && !s.seen {
          var p := found[id];
          if !s.hasStart {
            s := s.(start := p, hasStart := true);
            log := log + [Line(id, Parked(p))];
          } else {
            log := log + [Line(id, Reappeared(p, Metres(dist(s.start, p))))];
            s := s.(start := p);
          }
          s := s.(seen := true, at := p);
        } else if id in found && s.seen {
          var p := found[id];
          var moved := dist(s.at, p);
          if moved > MOVE_M {
            log := log + [Line(id, Moved(p, Metres(moved)))];
            s := s.(at := p);
          }
        } else if id !in found && s.seen {
          s := s.(seen := false);
          log := log + [Line(id, Vanished)];
        }
        states := states[id := s];
      }
      assert ids[..|ids|] == ids;
    }
  }

  // ---------------------------------------------------------------------
  // One vehicle
  // ---------------------------------------------------------------------

  function Run(dist: Metric, obs: seq<Option<Point>>): (State, seq<Event>) {
    if |obs| == 0 then (UNKNOWN, [])
    else
      var (s, events) := Run(dist, Front(obs));
      var (t, e) := Follow(dist, s, Last(obs));
      (t, events + ToSeq(e))
  }

  /** Where the events say the vehicle is. */
  function Replay(events: seq<Event>): Option<Point> {
    if |events| == 0 then None
    else
      match Last(events)
      case Parked(p) => Some(p)
      case Reappeared(p, _) => Some(p)
      case Moved(p, _) => Some(p)
      case Vanished => None
  }

  /** Parked comes first and once, a vehicle moves or vanishes only while it is
      there, and reappears only after it vanished. */
  predicate Legal(events: seq<Event>) {
    if |events| == 0 then true
    else
      var before := Front(events);
      && Legal(before)
      && match Last(events)
         case Parked(_) => |before| == 0
         case Reappeared(_, _) => |before| > 0 && Last(before) == Vanished
         case Moved(_, _) => |before| > 0 && Last(before) != Vanished
         case Vanished => |before| > 0 && Last(before) != Vanished
  }

  /** Where the last stay began: what a trip is measured from. */
  function LastStart(events: seq<Event>): Option<Point> {
    if |events| == 0 then None
    else
      match Last(events)
      case Parked(p) => Some(p)
      case Reappeared(p, _) => Some(p)
      case _ => LastStart(Front(events))
  }

  /** The events tell what is remembered. */
  ghost predicate Tells(events: seq<Event>, s: State) {
    && Legal(events)
    && (s.seen <==> Replay(events).Some?) && (s.seen ==> Replay(events) == Some(s.at))
    && (s.hasStart <==> |events| > 0) && (s.hasStart ==> LastStart(events) == Some(s.start))
  }

  lemma TellsNext(dist: Metric, events: seq<Event>, s: State, o: Option<Point>)
    requires IsDistance(dist) && Tells(events, s)
    ensures var (t, e) := Follow(dist, s, o);
            && Tells(events + ToSeq(e), t)
            && (t.seen <==> o.Some?) && (o.Some? ==> dist(t.at, o.value) <= MOVE_M)
  {
    var (t, e) := Follow(dist, s, o);
    match e
    case None => assert events + [] == events;
    case Some(x) =>
      assert Front(events + [x]) == events;
      hide Metres;
  }

  /** The events of any sequence of observations, replayed, say exactly whether
      the vehicle is there after the last of them, and when it is, where to
      within 15 m of the position observed: the error does not add up. */
  lemma {:induction false} ReplayIsFaithful(dist: Metric, obs: seq<Option<Point>>)
    requires IsDistance(dist)
    ensures var (s, events) := Run(dist, obs);
            && Tells(events, s)
            && (|obs| > 0 ==>
                  && (Replay(events).Some? <==> Last(obs).Some?)
                  && (Last(obs).Some? ==> dist(Replay(events).value, Last(obs).value) <= MOVE_M))
  {
    if |obs| > 0 {
      hide Follow, Legal, LastStart, IsDistance, Replay;
      ReplayIsFaithful(dist, Front(obs));
      TellsNext(dist, Run(dist, Front(obs)).1, Run(dist, Front(obs)).0, Last(obs));
    }
  }

  lemma EventMeasures(dist: Metric, before: seq<Event>, s: State, o: Option<Point>)
    requires Tells(before, s)
    ensures var e := Follow(dist, s, o).1;
            && (before + ToSeq(e) == if e.None? then before else before + [e.value])
            && (e.Some? && e.value.Moved? ==>
                  && Replay(before).Some? && o == Some(e.value.at)
                  && dist(Replay(before).value, e.value.at) > MOVE_M
                  && e.value.byM == Metres(dist(Replay(before).value, e.value.at)))
            && (e.Some? && e.value.Reappeared? ==>
                  && LastStart(before).Some? && o == Some(e.value.at)
                  && e.value.movedM == Metres(dist(LastStart(before).value, e.value.at)))
  {
    hide Legal, Replay, LastStart, Metres;
    assert before + [] == before;
  }

  /** A move is reported only when it is farther than 15 m from the last position
      reported, and a trip is measured from where the last stay began. */
  lemma {:induction false} EventsMeasureTruly(dist: Metric, obs: seq<Option<Point>>)
    requires IsDistance(dist) && |obs| > 0
    ensures var before, after := Run(dist, Front(obs)).1, Run(dist, obs).1;
            && (after == before || after == before + [Last(after)])
            && (|after| > |before| && Last(after).Moved? ==>
                  && Replay(before).Some? && Last(obs) == Some(Last(after).at)
                  && dist(Replay(before).value, Last(after).at) > MOVE_M
                  && Last(after).byM == Metres(dist(Replay(before).value, Last(after).at)))
            && (|after| > |before| && Last(after).Reappeared? ==>
                  && LastStart(before).Some? && Last(obs) == Some(Last(after).at)
                  && Last(after).movedM == Metres(dist(LastStart(before).value, Last(after).at)))
  {
    var (s, before) := Run(dist, Front(obs));
    ReplayIsFaithful(dist, Front(obs));
    EventMeasures(dist, before, s, Last(obs));
    hide Follow, Legal, Replay, LastStart, Tells, IsDistance, Metres;
  }

  // ---------------------------------------------------------------------
  // All vehicles
  // ---------------------------------------------------------------------

  function Of(id: string): Line -> Option<Event> {
    (l: Line) => if l.vehicle == id then Some(l.event) else None
  }

  /** One vehicle was followed from `states` to `after`, if it was named. */
  ghost predicate Followed(dist: Metric, states: map<string, State>, after: map<string, State>, lines: seq<Line>,
                           o: Option<Point>, id: string, named: bool)
  {
    var (s, e) := Follow(dist, StateAt(states, id), o);
    if named then StateAt(after, id) == s && FilterMap(lines, Of(id)) == ToSeq(e)
    else StateAt(after, id) == StateAt(states, id) && FilterMap(lines, Of(id)) == []
  }

  lemma AddedLines(lines: seq<Line>, x: string, e: Option<Event>, id: string)
    ensures FilterMap(lines + LinesOf(x, e), Of(id)) == FilterMap(lines, Of(id)) + if x == id then ToSeq(e) else []
    ensures ToSeq(e) + ToSeq<Event>(None) == ToSeq(e)
  {
    if e.Some? {
      FilterMapSnoc(lines, Line(x, e.value), Of(id));
    } else {
      assert lines + [] == lines;
    }
  }

  lemma FollowTwice(dist: Metric, s: State, o: Option<Point>)
    requires IsDistance(dist)
    ensures Follow(dist, Follow(dist, s, o).0, o) == (Follow(dist, s, o).0, None)
  {}

  lemma FollowedNext(dist: Metric, states: map<string, State>, before: map<string, State>, lines: seq<Line>,
                     o: Option<Point>, id: string, named: bool, x: string, p: Option<Point>)
    requires IsDistance(dist) && Followed(dist, states, before, lines, o, id, named) && (x == id ==> p == o)
    ensures var (s, e) := Follow(dist, StateAt(before, x), p);
            Followed(dist, states, before[x := s], lines + LinesOf(x, e), o, id, named || x == id)
  {
    var (s, e) := Follow(dist, StateAt(before, x), p);
    FollowTwice(dist, StateAt(states, id), o);
    hide Follow, FilterMap, LinesOf;
    AddedLines(lines, x, e, id);
  }

  lemma NoneFollowed(dist: Metric, states: map<string, State>, o: Option<Point>, id: string)
    ensures Followed(dist, states, states, [], o, id, false)
  {}

  /** Each vehicle followed gets its own events, whatever else is followed, and
      once even if it was named twice. */
  lemma {:induction false} SweepFollowsEach(dist: Metric, states: map<string, State>, ids: seq<string>,
                                            found: map<string, Point>, id: string)
    requires IsDistance(dist)
    ensures var (after, lines) := Sweep(dist, states, ids, found);
            Followed(dist, states, after, lines, Look(found, id), id, id in ids)
  {
    hide Followed, Follow, Look, StateAt, LinesOf, IsDistance;
    if |ids| == 0 {
      NoneFollowed(dist, states, Look(found, id), id);
    } else {
      var (before, lines) := Sweep(dist, states, Front(ids), found);
      assert ids == Front(ids) + [Last(ids)];
      SweepFollowsEach(dist, states, Front(ids), found, id);
      FollowedNext(dist, states, before, lines, Look(found, id), id, id in Front(ids), Last(ids), Look(found, Last(ids)));
    }
  }

  // ---------------------------------------------------------------------
  // The whole log
  // ---------------------------------------------------------------------

  /** What a tracker remembers and has printed after these successful lookups. */
  function Tracked(dist: Metric, start: map<string, State>, ids: seq<string>, founds: seq<map<string, Point>>):
    (map<string, State>, seq<Line>)
  {
    if |founds| == 0 then (start, [])
    else
      var (before, lines) := Tracked(dist, start, ids, Front(founds));
      var (after, more) := Sweep(dist, before, ids, Last(founds));
      (after, lines + more)
  }

  /** Where the lookups found a vehicle. */
  function Sights(founds: seq<map<string, Point>>, id: string): seq<Option<Point>> {
    seq(|founds|, i requires 0 <= i < |founds| => if id in founds[i] then Some(founds[i][id]) else None)
  }

  lemma LookIsSight(found: map<string, Point>, id: string)
    ensures Look(found, id) == if id in found then Some(found[id]) else None
  {}

  lemma {:induction false} TrackedIsRun(dist: Metric, start: map<string, State>, ids: seq<string>, founds: seq<map<string, Point>>,
                                        id: string)
    requires IsDistance(dist) && StateAt(start, id) == UNKNOWN
    ensures var (after, lines) := Tracked(dist, start, ids, founds);
            if id in ids then StateAt(after, id) == Run(dist, Sights(founds, id)).0 && FilterMap(lines, Of(id)) == Run(dist, Sights(founds, id)).1
            else StateAt(after, id) == UNKNOWN && FilterMap(lines, Of(id)) == []
  {
    hide Follow, Sweep, StateAt, Look, IsDistance;
    if |founds| > 0 {
      var (before, lines) := Tracked(dist, start, ids, Front(founds));
      var (after, more) := Sweep(dist, before, ids, Last(founds));
      TrackedIsRun(dist, start, ids, Front(founds), id);
      SweepFollowsEach(dist, before, ids, Last(founds), id);
      FilterMapConcat(lines, more, Of(id));
      LookIsSight(Last(founds), id);
      assert Front(Sights(founds, id)) == Sights(Front(founds), id);
      assert Last(Sights(founds, id)) == Look(Last(founds), id);
      hide FilterMap;
    }
  }

  /** However many vehicles are followed and lookups made, the lines printed about one
      that is followed say, replayed, whether the last lookup found it, and when it did,
      where to within 15 m; about one that is not they say nothing. */
  lemma LogIsFaithful(dist: Metric, start: map<string, State>, ids: seq<string>, founds: seq<map<string, Point>>, id: string)
    requires IsDistance(dist) && |founds| > 0 && StateAt(start, id) == UNKNOWN
    ensures var events := FilterMap(Tracked(dist, start, ids, founds).1, Of(id));
            if id in ids then
              && Legal(events) && (Replay(events).Some? <==> id in Last(founds))
              && (id in Last(founds) ==> dist(Replay(events).value, Last(founds)[id]) <= 15.0)
            else events == []
  {
    TrackedIsRun(dist, start, ids, founds, id);
    ReplayIsFaithful(dist, Sights(founds, id));
    hide Run, Tracked, FilterMap, IsDistance, Replay, Legal;
  }
}
