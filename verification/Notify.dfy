/** Fan-out to several sinks, and deliveries that outlive their tick
    (`internal/notify/ntfy.go`, `internal/poll/poll.go`). */
module Notify {
  import opened Base

  datatype Joined = Nil | One(error: string) | Several(errors: seq<string>)

  function JoinErrors(errs: seq<string>): Joined {
    if |errs| == 0 then Nil else if |errs| == 1 then One(errs[0]) else Several(errs)
  }

  /** The errors of the sinks that are there, in sink order. */
  function Failures(sinks: seq<bool>, answer: nat -> Option<string>): seq<string> {
    if |sinks| == 0 then []
    else Failures(Front(sinks), answer) + if Last(sinks) then ToSeq(answer(|sinks| - 1)) else []
  }

  /** The errors of what is returned. */
  function ErrorsIn(j: Joined): seq<string> {
    match j
    case Nil => []
    case One(e) => [e]
    case Several(es) => es
  }

  /** Nothing is returned when nothing failed, the error itself when one sink did, and
      several together only when several did; no failure is lost or made up. */
  lemma JoiningKeepsAll(errs: seq<string>)
    ensures ErrorsIn(JoinErrors(errs)) == errs
    ensures JoinErrors(errs).Nil? <==> |errs| == 0
    ensures JoinErrors(errs).One? <==> |errs| == 1
  {}

  /** The failures are those of the sinks that are set and failed, one each, in the
      order of the sinks. */
  lemma {:induction false} FailuresInOrder(sinks: seq<bool>, answer: nat -> Option<string>) returns (at: seq<nat>)
    ensures |at| == |Failures(sinks, answer)|
    ensures forall i, j :: 0 <= i < j < |at| ==> at[i] < at[j]
    ensures forall k: nat :: k in at <==> k < |sinks| && sinks[k] && answer(k).Some?
    ensures forall i :: 0 <= i < |at| ==> answer(at[i]) == Some(Failures(sinks, answer)[i])
  {
    at := [];
    if |sinks| > 0 {
      var n := |sinks| - 1;
      at := FailuresInOrder(Front(sinks), answer);
      assert forall i :: 0 <= i < |at| ==> at[i] in at;
      assert forall k: nat :: k < n ==> Front(sinks)[k] == sinks[k];
      if sinks[n] && answer(n).Some? {
        assert Failures(sinks, answer) == Failures(Front(sinks), answer) + [answer(n).value];
        at := at + [n];
      } else {
        assert Failures(sinks, answer) == Failures(Front(sinks), answer);
      }
    }
  }

  function Collected(errs: seq<Option<string>>): seq<string> {
    if |errs| == 0 then [] else Collected(Front(errs)) + ToSeq(Last(errs))
  }

  lemma {:induction false} CollectedAreFailures(sinks: seq<bool>, answer: nat -> Option<string>,
                                                errs: seq<Option<string>>)
    requires |errs| == |sinks|
    requires forall i :: 0 <= i < |errs| ==> errs[i] == if sinks[i] then answer(i) else None
    ensures Collected(errs) == Failures(sinks, answer)
  {
    if |sinks| > 0 {
      CollectedAreFailures(Front(sinks), answer, Front(errs));
    }
  }

  /** `sinks` says which of the sinks are set, and `answer` what each returns.
      They finish in any order; whatever it is, each one set is called exactly
      once, and the result is every failure in sink order. */
  method Publish(sinks: seq<bool>, answer: nat -> Option<string>) returns (result: Joined, calls: seq<nat>)
    ensures result == JoinErrors(Failures(sinks, answer))
    ensures Distinct(calls)
    ensures forall i: nat :: i in calls <==> i < |sinks| && sinks[i]
  {
    var errs := new Option<string>[|sinks|](_ => None);
    var running: set<nat> := {};
    for i := 0 to |sinks|
      invariant forall j :: j in running <==> 0 <= j < i && sinks[j]
    {
      if !sinks[i] {
        continue;
      }
      running := running + {i};
    }
    ghost var started := running;
    calls := [];
    while running != {}
      invariant running <= started && Distinct(calls)
      invariant forall j :: j in calls <==> j in started - running
      invariant forall j :: 0 <= j < |sinks| ==> errs[j] == if j in started - running then answer(j) else None
    {
      var i :| i in running;
      running := running - {i};
      calls := calls + [i];
      errs[i] := answer(i);
    }
    var failed: seq<string> := [];
    for i := 0 to |sinks|
      invariant failed == Collected(errs[..i])
    {
      assert errs[..i + 1] == errs[..i] + [errs[i]];
      assert Front(errs[..i + 1]) == errs[..i];
      if errs[i].Some? {
        failed := failed + [errs[i].value];
      }
    }
    CollectedAreFailures(sinks, answer, errs[..]);
    assert errs[..|sinks|] == errs[..];
    result := JoinErrors(failed);
  }

  // ---------------------------------------------------------------------
  // Waiting
  // ---------------------------------------------------------------------

  /** The wait group of the poller, and the deliveries behind it. */
  datatype Deliveries = Deliveries(counter: int, started: nat, running: set<nat>)

  datatype Happening = Dispatch | Finish(delivery: nat)

  function Happen(d: Deliveries, h: Happening): Deliveries {
    match h
    case Dispatch => Deliveries(d.counter + 1, d.started + 1, d.running + {d.started})
    case Finish(i) => if i in d.running then Deliveries(d.counter - 1, d.started, d.running - {i}) else d
  }

  function After(run: seq<Happening>): Deliveries {
    if |run| == 0 then Deliveries(0, 0, {}) else Happen(After(Front(run)), Last(run))
  }

  function Dispatched(run: seq<Happening>): nat {
    if |run| == 0 then 0 else Dispatched(Front(run)) + if Last(run).Dispatch? then 1 else 0
  }

  ghost predicate Consistent(d: Deliveries, run: seq<Happening>) {
    && d.counter == |d.running|
    && d.started == Dispatched(run)
    && (forall i :: i in d.running ==> i < d.started)
    && (forall i: nat :: i < d.started && i !in d.running ==> Finish(i) in run)
  }

  lemma ConsistentNext(d: Deliveries, run: seq<Happening>, h: Happening)
    requires Consistent(d, run)
    ensures Consistent(Happen(d, h), run + [h])
  {
    assert Front(run + [h]) == run;
    assert h in run + [h];
    assert Dispatched(run + [h]) == Dispatched(run) + if h.Dispatch? then 1 else 0;
    hide Dispatched;
  }

  lemma {:induction false} EveryRunIsConsistent(run: seq<Happening>)
    ensures Consistent(After(run), run)
  {
    if |run| > 0 {
      hide Consistent, Happen;
      EveryRunIsConsistent(Front(run));
      ConsistentNext(After(Front(run)), Front(run), Last(run));
      assert run == Front(run) + [Last(run)];
    }
  }

  /** `Wait` returns at a moment when the counter is zero; then, however dispatches
      and completions interleaved, everything dispatched before has finished. */
  lemma WaitMeansFinished(run: seq<Happening>, i: nat)
    requires After(run).counter == 0 && i < Dispatched(run)
    ensures Finish(i) in run && i !in After(run).running
  {
    EveryRunIsConsistent(run);
    hide After, Dispatched;
    assert |After(run).running| == 0;
  }
}
