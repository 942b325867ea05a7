/** The upstream client: the operator table, the per-vehicle filter, and the
    shape of an answer (`internal/entur/entur.go`, `internal/entur/client.go`). */
module Entur {
  import opened Base
  import opened Geo

  const MAX_RESULTS: nat := 500
  const SCOOTER_STANDING := "SCOOTER_STANDING"

  datatype Operator = Operator(key: string, id: string)

  const OPERATORS: seq<Operator> := [
    Operator("ryde", "YRY:Operator:Ryde"),
    Operator("voi", "YVO:Operator:voi"),
    Operator("bolt", "YBO:Operator:bolt"),
    Operator("dott", "YDT:Operator:dott")
  ]

  function FindKey(ops: seq<Operator>, key: string): Option<Operator> {
    if ops == [] then None else if ops[0].key == key then Some(ops[0]) else FindKey(ops[1..], key)
  }

  function FindId(ops: seq<Operator>, id: string): Option<Operator> {
    if ops == [] then None else if ops[0].id == id then Some(ops[0]) else FindId(ops[1..], id)
  }

  function Lookup(key: string): Option<Operator> { FindKey(OPERATORS, key) }

  function ById(id: string): Option<Operator> { FindId(OPERATORS, id) }

  lemma OperatorsDiffer()
    ensures forall i, j :: 0 <= i < j < |OPERATORS| ==> OPERATORS[i].key != OPERATORS[j].key
    ensures forall i, j :: 0 <= i < j < |OPERATORS| ==> OPERATORS[i].id != OPERATORS[j].id
    ensures forall o :: o in OPERATORS ==> o.key != "" && o.key != "unknown"
  {
    assert OPERATORS[0].key[0] == 'r' && OPERATORS[1].key[0] == 'v' && OPERATORS[2].key[0] == 'b' && OPERATORS[3].key[0] == 'd';
    assert OPERATORS[0].id[1] == 'R' && OPERATORS[1].id[1] == 'V' && OPERATORS[2].id[1] == 'B' && OPERATORS[3].id[1] == 'D';
    assert "unknown"[0] == 'u';
  }

  lemma {:induction false} FindKeyFinds(ops: seq<Operator>, key: string)
    ensures FindKey(ops, key).Some? ==> FindKey(ops, key).value in ops && FindKey(ops, key).value.key == key
    ensures FindKey(ops, key).None? ==> forall o :: o in ops ==> o.key != key
  {
    if ops != [] {
      FindKeyFinds(ops[1..], key);
      assert ops == [ops[0]] + ops[1..];
    }
  }

  lemma {:induction false} FindIdFinds(ops: seq<Operator>, id: string)
    ensures FindId(ops, id).Some? ==> FindId(ops, id).value in ops && FindId(ops, id).value.id == id
    ensures FindId(ops, id).None? ==> forall o :: o in ops ==> o.id != id
  {
    if ops != [] {
      FindIdFinds(ops[1..], id);
      assert ops == [ops[0]] + ops[1..];
    }
  }

  /** Short keys and upstream ids name the same operators, one to one. */
  lemma KeysAndIdsAreOneToOne(o: Operator)
    ensures Lookup(o.key) == Some(o) <==> o in OPERATORS
    ensures ById(o.id) == Some(o) <==> o in OPERATORS
  {
    OperatorsDiffer();
    FindKeyFinds(OPERATORS, o.key);
    FindIdFinds(OPERATORS, o.id);
  }

  function IdOf(key: string): Option<string> {
    match Lookup(key) case None => None case Some(o) => Some(o.id)
  }

  /** The ids a query sends: all of them for no keys, nothing at all when any
      key is unknown. */
  function IdsFor(keys: seq<string>): Option<seq<string>> {
    if keys == [] then Some(seq(|OPERATORS|, i requires 0 <= i < |OPERATORS| => OPERATORS[i].id))
    else if exists k :: k in keys && Lookup(k).None? then None
    else Some(FilterMap(keys, IdOf))
  }

  method OperatorIds(keys: seq<string>) returns (ids: Option<seq<string>>)
    ensures ids == IdsFor(keys)
  {
    var out: seq<string> := [];
    if |keys| == 0 {
      for i := 0 to |OPERATORS|
        invariant out == seq(i, j requires 0 <= j < i => OPERATORS[j].id)
      {
        out := out + [OPERATORS[i].id];
      }
      return Some(out);
    }
    for i := 0 to |keys|
      invariant forall j :: 0 <= j < i ==> Lookup(keys[j]).Some?
      invariant out == FilterMap(keys[..i], IdOf)
    {
      if Lookup(keys[i]).None? {
        return None;
      }
      out := out + [Lookup(keys[i]).value.id];
      assert keys[..i + 1] == keys[..i] + [keys[i]];
      FilterMapSnoc(keys[..i], keys[i], IdOf);
    }
    assert keys[..|keys|] == keys;
    return Some(out);
  }

  /** A vehicle belongs to a requested operator exactly when its short key was asked for. */
  lemma IdRequestedIffKeyWanted(keys: seq<string>, o: Operator)
    requires IdsFor(keys).Some? && o in OPERATORS
    ensures o.id in IdsFor(keys).value <==> keys == [] || o.key in keys
  {
    OperatorsDiffer();
    KeysAndIdsAreOneToOne(o);
    if keys == [] {
      var ids := IdsFor(keys).value;
      var i :| 0 <= i < |OPERATORS| && OPERATORS[i] == o;
      assert ids[i] == o.id;
    } else {
      FilterMapMember(keys, IdOf, o.id);
      forall k | k in keys && IdOf(k) == Some(o.id)
        ensures k == o.key
      {
        FindKeyFinds(OPERATORS, k);
      }
    }
  }

  /** One vehicle as the upstream publishes it. */
  datatype RawVehicle = RawVehicle(
    id: string,
    at: Point,
    reserved: bool,
    disabled: bool,
    rangeM: Option<real>,
    formFactor: Option<string>,
    operatorId: Option<string>)

  datatype Vehicle = Vehicle(
    id: string,
    at: Point,
    distanceM: real,
    operatorKey: string,
    formFactor: string,
    rangeM: int,
    disabled: bool,
    reserved: bool)

  datatype Query = Query(
    at: Point,
    radiusM: int,
    operatorKeys: seq<string>,
    minRangeM: int,
    formFactors: seq<string>,
    includeUnrentable: bool,
    limit: int)

  /** What a caller gets: an error, or vehicles with a flag saying whether the
      upstream hit its own cap. */
  datatype FetchResult =
    | Failed
    | Fetched(vehicles: seq<Vehicle>, returned: nat, truncated: bool)

  /** What the wire delivered. */
  datatype Reply = NoReply | Rows(rows: seq<RawVehicle>)

  function AllowedForm(f: string, allowed: seq<string>): bool {
    if |allowed| == 0 then f == SCOOTER_STANDING else f in allowed
  }

  function OperatorKeyOf(rv: RawVehicle): string {
    if rv.operatorId.None? then ""
    else match ById(rv.operatorId.value) case None => "" case Some(o) => o.key
  }

  function FormOf(rv: RawVehicle): string {
    if rv.formFactor.None? then "" else rv.formFactor.value
  }

  function RangeOf(rv: RawVehicle): int {
    if rv.rangeM.None? then 0 else Truncate(rv.rangeM.value)
  }

  function Convert(dist: Metric, q: Query, rv: RawVehicle): Option<Vehicle> {
    if !q.includeUnrentable && (rv.disabled || rv.reserved) then None
    else if !AllowedForm(FormOf(rv), q.formFactors) then None
    else if RangeOf(rv) < q.minRangeM then None
    else
      var d := dist(q.at, rv.at);
      if q.radiusM > 0 && d > q.radiusM as real then None
      else Some(Vehicle(rv.id, rv.at, d, OperatorKeyOf(rv), FormOf(rv), RangeOf(rv), rv.disabled, rv.reserved))
  }

  function Converter(dist: Metric, q: Query): RawVehicle -> Option<Vehicle> {
    rv => Convert(dist, q, rv)
  }

  function LimitOf(q: Query): nat {
    if q.limit <= 0 || q.limit > MAX_RESULTS then MAX_RESULTS else q.limit
  }

  function ByDistance(): Vehicle -> real { (v: Vehicle) => v.distanceM }

  /** Every answer `Vehicles` may give: the survivors of the filter in some
      order of increasing distance. The sort is not stable, so ties may come
      out either way. */
  ghost predicate IsAnswer(dist: Metric, q: Query, reply: Reply, res: FetchResult) {
    if q.radiusM <= 0 || IdsFor(q.operatorKeys).None? || reply.NoReply? then res.Failed?
    else
      && res.Fetched?
      && res.returned == |reply.rows|
      && res.truncated == (|reply.rows| >= LimitOf(q) && LimitOf(q) == MAX_RESULTS)
      && multiset(res.vehicles) == multiset(FilterMap(reply.rows, Converter(dist, q)))
      && SortedBy(res.vehicles, ByDistance())
  }

  method Vehicles(dist: Metric, q: Query, reply: Reply) returns (res: FetchResult)
    ensures IsAnswer(dist, q, reply, res)
  {
    if q.radiusM <= 0 {
      return Failed;
    }
    var ids := OperatorIds(q.operatorKeys);
    if ids.None? {
      return Failed;
    }
    var limit := q.limit;
    if limit <= 0 || limit > MAX_RESULTS {
      limit := MAX_RESULTS;
    }
    if reply.NoReply? {
      return Failed;
    }
    var raw := reply.rows;
    var kept: seq<Vehicle> := [];
    for i := 0 to |raw|
      invariant kept == FilterMap(raw[..i], Converter(dist, q))
    {
      assert raw[..i + 1] == raw[..i] + [raw[i]];
      FilterMapSnoc(raw[..i], raw[i], Converter(dist, q));
      var v := Convert(dist, q, raw[i]);
      if v.Some? {
        kept := kept + [v.value];
      }
    }
    assert raw[..|raw|] == raw;
    SortByPermutes(kept, ByDistance());
    SortByOrders(kept, ByDistance());
    return Fetched(SortBy(kept, ByDistance()), |raw|, |raw| >= limit && limit == MAX_RESULTS);
  }

  // ---------------------------------------------------------------------
  // The upstream
  // ---------------------------------------------------------------------

  /** In the area and of an operator asked for. */
  function InArea(dist: Metric, at: Point, radiusM: int, ids: seq<string>): RawVehicle -> Option<RawVehicle> {
    (rv: RawVehicle) =>
      if dist(at, rv.at) <= radiusM as real && rv.operatorId.Some? && rv.operatorId.value in ids then Some(rv) else None
  }

  function AreaOf(dist: Metric, q: Query): RawVehicle -> Option<RawVehicle>
    requires IdsFor(q.operatorKeys).Some?
  {
    InArea(dist, q.at, q.radiusM, IdsFor(q.operatorKeys).value)
  }

  /** The selection rule assumed of the upstream: `count` picks the nearest
      vehicles of those in the area, in no particular order. */
  ghost predicate SelectsNearest(dist: Metric, feed: seq<RawVehicle>, q: Query, rows: seq<RawVehicle>)
    requires IdsFor(q.operatorKeys).Some?
  {
    var all := FilterMap(feed, AreaOf(dist, q));
    && multiset(rows) <= multiset(all)
    && |rows| == (if |all| <= LimitOf(q) then |all| else LimitOf(q))
    && forall x, y :: x in multiset(rows) && y in multiset(all) - multiset(rows) ==> dist(q.at, x.at) <= dist(q.at, y.at)
  }

  /** Fewer rows than asked for means nothing was withheld. */
  lemma UncappedIsComplete(dist: Metric, feed: seq<RawVehicle>, q: Query, rows: seq<RawVehicle>)
    requires IdsFor(q.operatorKeys).Some? && SelectsNearest(dist, feed, q, rows)
    requires |rows| < LimitOf(q)
    ensures multiset(rows) == multiset(FilterMap(feed, AreaOf(dist, q)))
  {
    var all := FilterMap(feed, AreaOf(dist, q));
    var rest := multiset(all) - multiset(rows);
    assert |rest| == 0;
    assert multiset(all) == multiset(rows) + rest;
  }
}
