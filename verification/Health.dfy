/** Dark-feed detection over recorded history (`internal/store/nearest.go`). */
module Health {
  import opened Base
  import opened Schema

  /** One `RecordNearest` call. */
  datatype Record = Record(fence: string, at: int, operator: string, reading: Reading)

  function Apply(log: seq<Record>): Readings {
    if |log| == 0 then map[]
    else var r := Last(log); Apply(Front(log))[ReadingKey(r.fence, Unix(r.at), r.operator) := r.reading]
  }

  ghost predicate InOrder(log: seq<Record>) {
    forall i, j :: 0 <= i < j < |log| ==> log[i].at <= log[j].at
  }

  /** What was last recorded about an operator at a fence. */
  function LastReading(log: seq<Record>, fence: string, operator: string): Option<Record> {
    if |log| == 0 then None
    else if Last(log).fence == fence && Last(log).operator == operator then Some(Last(log))
    else LastReading(Front(log), fence, operator)
  }

  predicate SameRow(a: Record, b: Record) {
    a.fence == b.fence && a.operator == b.operator && Unix(a.at) == Unix(b.at)
  }

  /** Record `i` was not overwritten by a later one of the same second. */
  ghost predicate Stands(log: seq<Record>, i: int) {
    0 <= i < |log| && forall j :: i < j < |log| ==> !SameRow(log[i], log[j])
  }

  function KeyOf(r: Record): ReadingKey {
    ReadingKey(r.fence, Unix(r.at), r.operator)
  }

  lemma StandsBefore(log: seq<Record>, i: int)
    requires 0 <= i < |log| - 1
    ensures Stands(log, i) <==> Stands(Front(log), i) && !SameRow(log[i], Last(log))
  {
    var before := Front(log);
    assert forall j :: 0 <= j < |before| ==> log[j] == before[j];
    if Stands(before, i) && !SameRow(log[i], Last(log)) {
      forall j | i < j < |log|
        ensures !SameRow(log[i], log[j])
      {
        if j < |before| { assert log[j] == before[j]; }
      }
    }
  }

  lemma {:induction false} StandingIsRow(log: seq<Record>, i: int)
    requires Stands(log, i)
    ensures KeyOf(log[i]) in Apply(log) && Apply(log)[KeyOf(log[i])] == log[i].reading
  {
    if i < |log| - 1 {
      StandsBefore(log, i);
      StandingIsRow(Front(log), i);
    }
  }

  lemma {:induction false} RowIsStanding(log: seq<Record>, k: ReadingKey) returns (i: int)
    requires k in Apply(log)
    ensures Stands(log, i) && k == KeyOf(log[i])
  {
    if k == KeyOf(Last(log)) {
      i := |log| - 1;
    } else {
      i := RowIsStanding(Front(log), k);
      StandsBefore(log, i);
    }
  }

  lemma {:induction false} LastReadingIsLatest(log: seq<Record>, fence: string, operator: string)
    requires InOrder(log)
    ensures var r := LastReading(log, fence, operator);
            if r.None? then forall i :: 0 <= i < |log| ==> !(log[i].fence == fence && log[i].operator == operator)
            else
              && r.value.fence == fence && r.value.operator == operator
              && (exists i :: Stands(log, i) && log[i] == r.value)
              && (forall i :: 0 <= i < |log| && log[i].fence == fence && log[i].operator == operator
                    ==> Unix(log[i].at) <= Unix(r.value.at))
  {
    if |log| > 0 {
      var before, n := Front(log), |log| - 1;
      assert forall j :: 0 <= j < n ==> log[j] == before[j];
      if Last(log).fence == fence && Last(log).operator == operator {
        assert Stands(log, n);
        forall i | 0 <= i < n
          ensures Unix(log[i].at) <= Unix(log[n].at)
        {
          UnixMonotone(log[i].at, log[n].at);
        }
      } else {
        LastReadingIsLatest(before, fence, operator);
        var r := LastReading(before, fence, operator);
        if r.Some? {
          var i :| Stands(before, i) && before[i] == r.value;
          assert Stands(log, i);
        }
      }
    }
  }

  /** With a clock that does not go back, the table's latest reading is what was
      last recorded. */
  lemma LatestIsLast(log: seq<Record>, fence: string, operator: string)
    requires InOrder(log)
    ensures var r := LastReading(log, fence, operator);
            var latest := LatestNearest(Apply(log), fence);
            && (operator in latest <==> r.Some?)
            && (operator in latest ==> latest[operator] == r.value.reading)
  {
    var rows, r := Apply(log), LastReading(log, fence, operator);
    LastReadingIsLatest(log, fence, operator);
    forall k | k in rows && k.fence == fence && k.operator == operator
      ensures r.Some? && k.at <= Unix(r.value.at)
    {
      var i := RowIsStanding(log, k);
      assert log[i].fence == fence;
    }
    if r.Some? {
      var i :| Stands(log, i) && log[i] == r.value;
      StandingIsRow(log, i);
      var k := KeyOf(r.value);
      assert k.operator == operator && k.at in ReadingTimes(rows, fence, operator);
    }
  }

  /** The last thing recorded about an operator is a vehicle. */
  ghost predicate Publishes(log: seq<Record>, fence: string, operator: string) {
    LastReading(log, fence, operator).Some? && LastReading(log, fence, operator).value.reading.distanceM.Some?
  }

  /** The last thing recorded about an operator is that it has nothing in reach. */
  ghost predicate Silent(log: seq<Record>, fence: string, operator: string) {
    LastReading(log, fence, operator).Some? && LastReading(log, fence, operator).value.reading.distanceM.None?
  }

  /** A vehicle of the operator was recorded at or after `since`, and still stands. */
  ghost predicate PublishedSince(log: seq<Record>, fence: string, operator: string, since: int) {
    exists i :: Stands(log, i) && log[i].fence == fence && log[i].operator == operator
                && log[i].reading.distanceM.Some? && Unix(log[i].at) >= since
  }

  lemma HealthyPeerPublishes(log: seq<Record>, fence: string)
    requires InOrder(log)
    ensures HasHealthyPeer(Apply(log), fence) <==> exists o :: Publishes(log, fence, o)
  {
    var latest := LatestNearest(Apply(log), fence);
    if o :| o in latest && latest[o].distanceM.Some? {
      LatestIsLast(log, fence, o);
      assert Publishes(log, fence, o);
    }
    if o :| Publishes(log, fence, o) {
      LatestIsLast(log, fence, o);
    }
  }

  lemma SeenSinceIsRecorded(log: seq<Record>, fence: string, operator: string, since: int)
    ensures SeenSince(Apply(log), fence, operator, since) <==> PublishedSince(log, fence, operator, since)
  {
    var rows := Apply(log);
    if k :| k in rows && k.fence == fence && k.operator == operator && rows[k].distanceM.Some? && k.at >= since {
      var i := RowIsStanding(log, k);
      StandingIsRow(log, i);
    }
    if i :| Stands(log, i) && log[i].fence == fence && log[i].operator == operator
            && log[i].reading.distanceM.Some? && Unix(log[i].at) >= since {
      StandingIsRow(log, i);
      assert KeyOf(log[i]).operator == operator;
    }
  }

  /** An operator is dark exactly when the last thing recorded about it is that
      it has nothing in reach, it had something within the lookback, and the last
      thing recorded about some operator is a vehicle. */
  lemma DarkExactly(log: seq<Record>, fence: string, now: int, lookback: int, operator: string)
    requires InOrder(log)
    ensures operator in DarkOperators(Apply(log), fence, now, lookback) <==>
              && Silent(log, fence, operator)
              && PublishedSince(log, fence, operator, Unix(now - LookbackOf(lookback)))
              && exists o :: Publishes(log, fence, o)
  {
    LatestIsLast(log, fence, operator);
    SeenSinceIsRecorded(log, fence, operator, Unix(now - LookbackOf(lookback)));
    HealthyPeerPublishes(log, fence);
  }

  /** With no lookback given, six hours are looked back on, in whole seconds. */
  lemma DarkByDefault(log: seq<Record>, fence: string, now: int, operator: string)
    requires InOrder(log)
    ensures operator in DarkOperators(Apply(log), fence, now, 0) <==>
              && Silent(log, fence, operator)
              && PublishedSince(log, fence, operator, Unix(now - 6 * 3600 * 1_000_000_000))
              && exists o :: Publishes(log, fence, o)
  {
    DarkExactly(log, fence, now, 0, operator);
  }
}
