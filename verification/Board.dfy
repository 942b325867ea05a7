/** The ranked board: scores, their rounding, and the one scooter recommended
    (`internal/board/board.go`). */
module Board {
  import opened Base
  import opened Geo
  import opened Entur
  import opened Poll

  datatype Prefs = Prefs(bonus: map<string, real>, comfortKM: real, lowPenalty: real, floorKM: real)

  const DEFAULT_PREFS := Prefs(map["ryde" := 1000.0, "voi" := 250.0, "bolt" := 0.0, "dott" := -1000.0], 10.0, 250.0, 4.0)

  /** One scooter on offer. `vehicle` stands for the fields copied for display. */
  datatype Choice = Choice(vehicle: Vehicle, distanceM: int, rangeKM: real, score: real)

  datatype Summary = Summary(count: nat, nearestM: Option<int>, bestRangeKM: Option<real>)

  datatype Assembled = Assembled(recommendation: Option<Choice>, options: seq<Choice>, byOperator: map<string, Summary>)

  function RangeKM(v: Vehicle): real {
    v.rangeM as real / 1000.0
  }

  function LowBatteryPenalty(rangeKM: real, comfortKM: real, floorKM: real, maxPenalty: real): real {
    if rangeKM >= comfortKM || comfortKM <= floorKM then 0.0
    else
      var frac := (comfortKM - rangeKM) / (comfortKM - floorKM);
      maxPenalty * if frac > 1.0 then 1.0 else frac
  }

  function BonusOf(p: Prefs, key: string): real {
    if key in p.bonus then p.bonus[key] else 0.0
  }

  /** Nothing for a vehicle below the floor. */
  function ScoreOf(p: Prefs, v: Vehicle): Option<real> {
    if p.floorKM > 0.0 && RangeKM(v) < p.floorKM then None
    else Some(BonusOf(p, v.operatorKey) - v.distanceM - LowBatteryPenalty(RangeKM(v), p.comfortKM, p.floorKM, p.lowPenalty))
  }

  function Round1(f: real): real {
    Truncate(f * 10.0 + 0.5) as real / 10.0
  }

  function ToChoice(p: Prefs): Vehicle -> Option<Choice> {
    (v: Vehicle) =>
      match ScoreOf(p, v)
      case None => None
      case Some(s) => Some(Choice(v, Metres(v.distanceM), Round1(RangeKM(v)), Round1(s)))
  }

  function ByScore(): Choice -> real { (c: Choice) => -c.score }

  /** All choices, best first; equal scores keep the order they came in. */
  function Ranked(vehicles: seq<Vehicle>, p: Prefs): seq<Choice> {
    SortBy(FilterMap(vehicles, ToChoice(p)), ByScore())
  }

  function Bump(sum: Summary, v: Vehicle): Summary {
    var d, rk := Metres(v.distanceM), RangeKM(v);
    Summary(sum.count + 1,
            if sum.nearestM.None? || d < sum.nearestM.value then Some(d) else sum.nearestM,
            if sum.bestRangeKM.None? || rk > sum.bestRangeKM.value then Some(rk) else sum.bestRangeKM)
  }

  function Summarise(vehicles: seq<Vehicle>): map<string, Summary> {
    if |vehicles| == 0 then map[]
    else
      var m, v := Summarise(Front(vehicles)), Last(vehicles);
      m[v.operatorKey := Bump(if v.operatorKey in m then m[v.operatorKey] else Summary(0, None, None), v)]
  }

  /** What `Assemble` returns: the limit caps the options listed, never the
      recommendation. */
  function BoardOf(vehicles: seq<Vehicle>, p: Prefs, limit: int): Assembled {
    var ranked := Ranked(vehicles, p);
    Assembled(if |ranked| > 0 then Some(ranked[0]) else None,
              if 0 < limit < |ranked| then ranked[..limit] else ranked,
              Summarise(vehicles))
  }

  lemma SummariseNext(vehicles: seq<Vehicle>, i: nat)
    requires i < |vehicles|
    ensures var m, v := Summarise(vehicles[..i]), vehicles[i];
            Summarise(vehicles[..i + 1])
            == m[v.operatorKey := Bump(if v.operatorKey in m then m[v.operatorKey] else Summary(0, None, None), v)]
  {
    hide Bump;
    assert Front(vehicles[..i + 1]) == vehicles[..i];
  }

  lemma BumpIs(sum: Summary, v: Vehicle, d: int, rk: real)
    requires d == Metres(v.distanceM) && rk == v.rangeM as real / 1000.0
    ensures Bump(sum, v)
            == Summary(sum.count + 1,
                       if sum.nearestM.None? || d < sum.nearestM.value then Some(d) else sum.nearestM,
                       if sum.bestRangeKM.None? || rk > sum.bestRangeKM.value then Some(rk) else sum.bestRangeKM)
  {}

  lemma ToChoiceIs(p: Prefs, v: Vehicle)
    ensures ToSeq(ToChoice(p)(v))
            == match ScoreOf(p, v)
               case None => []
               case Some(s) => [Choice(v, Metres(v.distanceM), Round1(v.rangeM as real / 1000.0), Round1(s))]
  {}

  lemma NothingYet(vehicles: seq<Vehicle>, p: Prefs)
    ensures Summarise(vehicles[..0]) == map[] && FilterMap(vehicles[..0], ToChoice(p)) == []
  {}

  lemma BoardIs(vehicles: seq<Vehicle>, p: Prefs, limit: int)
    ensures var ranked := SortBy(FilterMap(vehicles, ToChoice(p)), ByScore());
            BoardOf(vehicles, p, limit)
            == Assembled(if |ranked| > 0 then Some(ranked[0]) else None,
                         if 0 < limit < |ranked| then ranked[..limit] else ranked,
                         Summarise(vehicles))
  {
    hide Summarise, FilterMap, SortBy;
  }

  method Assemble(vehicles: seq<Vehicle>, p: Prefs, limit: int) returns (b: Assembled)
    ensures b == BoardOf(vehicles, p, limit)
  {
    hide *;
    var byOperator: map<string, Summary>, options: seq<Choice> := map[], [];
    NothingYet(vehicles, p);
    for i := 0 to |vehicles|
      invariant byOperator == Summarise(vehicles[..i])
      invariant options == FilterMap(vehicles[..i], ToChoice(p))
    {
      var v := vehicles[i];
      assert vehicles[..i + 1] == vehicles[..i] + [v];
      SummariseNext(vehicles, i);
      FilterMapSnoc(vehicles[..i], v, ToChoice(p));
      ToChoiceIs(p, v);
      var sum := if v.operatorKey in byOperator then byOperator[v.operatorKey] else Summary(0, None, None);
      var d, rk := Metres(v.distanceM), v.rangeM as real / 1000.0;
      BumpIs(sum, v, d, rk);
      sum := sum.(count := sum.count + 1);
      if sum.nearestM.None? || d < sum.nearestM.value {
        sum := sum.(nearestM := Some(d));
      }
      if sum.bestRangeKM.None? || rk > sum.bestRangeKM.value {
        sum := sum.(bestRangeKM := Some(rk));
      }
      byOperator := byOperator[v.operatorKey := sum];
      var s := ScoreOf(p, v);
      if s.None? {
        continue;
      }
      options := options + [Choice(v, d, Round1(rk), Round1(s.value))];
    }
    assert vehicles[..|vehicles|] == vehicles;
    BoardIs(vehicles, p, limit);
    options := SortBy(options, ByScore());
    var best := None;
    if |options| > 0 {
      best := Some(options[0]);
    }
    if limit > 0 && |options| > limit {
      options := options[..limit];
    }
    b := Assembled(best, options, byOperator);
  }

  // ---------------------------------------------------------------------
  // Ranking
  // ---------------------------------------------------------------------

  /** The ranking holds every vehicle above the floor exactly once, in
      non-increasing rounded score, with ties in the order they came in. */
  lemma RankedIsRanking(vehicles: seq<Vehicle>, p: Prefs, k: real)
    ensures var all, ranked := FilterMap(vehicles, ToChoice(p)), Ranked(vehicles, p);
            && multiset(ranked) == multiset(all)
            && (forall i, j :: 0 <= i < j < |ranked| ==> ranked[i].score >= ranked[j].score)
            && FilterMap(ranked, WithKey(ByScore(), k)) == FilterMap(all, WithKey(ByScore(), k))
  {
    var all := FilterMap(vehicles, ToChoice(p));
    SortByPermutes(all, ByScore());
    SortByOrders(all, ByScore());
    SortByIsStable(all, ByScore(), k);
    var ranked := Ranked(vehicles, p);
    forall i, j | 0 <= i < j < |ranked|
      ensures ranked[i].score >= ranked[j].score
    {
      assert ByScore()(ranked[i]) <= ByScore()(ranked[j]);
    }
  }

  lemma TruncateIsClose(z: real)
    ensures z >= 0.0 ==> z - 1.0 < Truncate(z) as real <= z
    ensures z <= 0.0 ==> z <= Truncate(z) as real < z + 1.0
  {}

  lemma TruncateIsMonotone(y: real, z: real)
    requires y <= z
    ensures Truncate(y) <= Truncate(z)
  {
    TruncateIsClose(y);
    TruncateIsClose(z);
  }

  /** Rounding moves a score down by less than 0.05 or up by less than 0.15: it
      truncates towards zero, so a negative score may go up by more. */
  lemma RoundingIsClose(x: real)
    ensures -0.05 < Round1(x) - x < 0.15
    ensures x >= -0.05 ==> Round1(x) - x <= 0.05
  {
    hide Truncate;
    TruncateIsClose(x * 10.0 + 0.5);
  }

  lemma RoundingIsMonotone(x: real, y: real)
    requires x <= y
    ensures Round1(x) <= Round1(y)
  {
    hide Truncate;
    TruncateIsMonotone(x * 10.0 + 0.5, y * 10.0 + 0.5);
  }

  lemma ChoiceOf(vehicles: seq<Vehicle>, p: Prefs, c: Choice) returns (v: Vehicle)
    requires c in Ranked(vehicles, p)
    ensures v in vehicles && ScoreOf(p, v).Some? && c.vehicle == v && c.score == Round1(ScoreOf(p, v).value)
  {
    var all := FilterMap(vehicles, ToChoice(p));
    SortByPermutes(all, ByScore());
    assert c in multiset(Ranked(vehicles, p));
    FilterMapMember(vehicles, ToChoice(p), c);
    v :| v in vehicles && ToChoice(p)(v) == Some(c);
  }

  lemma VehicleIsRanked(vehicles: seq<Vehicle>, p: Prefs, v: Vehicle) returns (i: nat)
    requires v in vehicles && ScoreOf(p, v).Some?
    ensures i < |Ranked(vehicles, p)| && Ranked(vehicles, p)[i].vehicle == v
    ensures Ranked(vehicles, p)[i].score == Round1(ScoreOf(p, v).value)
  {
    var all, c := FilterMap(vehicles, ToChoice(p)), ToChoice(p)(v).value;
    FilterMapMember(vehicles, ToChoice(p), c);
    SortByPermutes(all, ByScore());
    assert c in multiset(Ranked(vehicles, p));
    i :| 0 <= i < |Ranked(vehicles, p)| && Ranked(vehicles, p)[i] == c;
  }

  /** Something is recommended exactly when some vehicle is above the floor, and
      its true score is less than 0.2 below the best there is. */
  lemma RecommendationIsNearlyBest(vehicles: seq<Vehicle>, p: Prefs, limit: int)
    ensures BoardOf(vehicles, p, limit).recommendation.Some? <==> exists v :: v in vehicles && ScoreOf(p, v).Some?
    ensures BoardOf(vehicles, p, limit).recommendation.Some? ==>
              var best := BoardOf(vehicles, p, limit).recommendation.value.vehicle;
              && best in vehicles && ScoreOf(p, best).Some?
              && forall v :: v in vehicles && ScoreOf(p, v).Some? ==> ScoreOf(p, best).value > ScoreOf(p, v).value - 0.2
  {
    hide Ranked, ScoreOf, Round1, Summarise;
    var ranked := Ranked(vehicles, p);
    RankedIsRanking(vehicles, p, 0.0);
    if |ranked| > 0 {
      var best := ChoiceOf(vehicles, p, ranked[0]);
      RoundingIsClose(ScoreOf(p, best).value);
    }
    forall v | v in vehicles && ScoreOf(p, v).Some?
      ensures |ranked| > 0 && ScoreOf(p, ranked[0].vehicle).Some?
              && ScoreOf(p, ranked[0].vehicle).value > ScoreOf(p, v).value - 0.2
    {
      var i := VehicleIsRanked(vehicles, p, v);
      RoundingIsClose(ScoreOf(p, v).value);
    }
  }

  // ---------------------------------------------------------------------
  // Which vehicle is recommended
  // ---------------------------------------------------------------------

  lemma {:induction false} InsertByHead<T>(xs: seq<T>, x: T, key: T -> real)
    ensures |InsertBy(xs, x, key)| > 0
    ensures (forall y :: y in xs ==> key(y) > key(x)) ==> InsertBy(xs, x, key)[0] == x
    ensures |xs| > 0 && key(xs[0]) <= key(x) ==> InsertBy(xs, x, key)[0] == xs[0]
  {
    if |xs| > 0 {
      assert Last(xs) in xs && forall y :: y in Front(xs) ==> y in xs;
      InsertByHead(Front(xs), x, key);
    }
  }

  /** A stable sort puts the first of the least elements first. */
  lemma {:induction false} SortByHead<T>(before: seq<T>, x: T, after: seq<T>, key: T -> real)
    requires forall y :: y in before ==> key(y) > key(x)
    requires forall y :: y in after ==> key(y) >= key(x)
    ensures |SortBy(before + [x] + after, key)| > 0 && SortBy(before + [x] + after, key)[0] == x
  {
    var all := before + [x] + after;
    if |after| == 0 {
      assert all == before + [x] && Front(all) == before;
      SortByPermutes(before, key);
      forall y | y in SortBy(before, key)
        ensures key(y) > key(x)
      {
        assert y in multiset(SortBy(before, key));
      }
      InsertByHead(SortBy(before, key), x, key);
    } else {
      assert Front(all) == before + [x] + Front(after) && Last(all) == Last(after) && Last(after) in after;
      SortByHead(before, x, Front(after), key);
      InsertByHead(SortBy(Front(all), key), Last(all), key);
    }
  }

  /** Of the vehicles above the floor, the one at `i` is the first with the greatest
      rounded score. */
  ghost predicate FirstOfTheBest(vehicles: seq<Vehicle>, p: Prefs, i: nat) {
    && i < |vehicles| && ScoreOf(p, vehicles[i]).Some?
    && forall j :: 0 <= j < |vehicles| && ScoreOf(p, vehicles[j]).Some? ==>
         && Round1(ScoreOf(p, vehicles[j]).value) <= Round1(ScoreOf(p, vehicles[i]).value)
         && (j < i ==> Round1(ScoreOf(p, vehicles[j]).value) < Round1(ScoreOf(p, vehicles[i]).value))
  }

  /** There is one as soon as any vehicle is above the floor. */
  lemma {:induction false} SomeIsFirstOfTheBest(vehicles: seq<Vehicle>, p: Prefs) returns (i: nat)
    requires exists v :: v in vehicles && ScoreOf(p, v).Some?
    ensures FirstOfTheBest(vehicles, p, i)
  {
    hide ScoreOf, Round1;
    var before, v := Front(vehicles), Last(vehicles);
    assert vehicles == before + [v];
    if exists u :: u in before && ScoreOf(p, u).Some? {
      i := SomeIsFirstOfTheBest(before, p);
      if ScoreOf(p, v).Some? && Round1(ScoreOf(p, v).value) > Round1(ScoreOf(p, vehicles[i]).value) {
        i := |vehicles| - 1;
      }
    } else {
      assert forall j :: 0 <= j < |before| ==> vehicles[j] in before;
      i := |vehicles| - 1;
    }
  }

  lemma ChoicesAround(vehicles: seq<Vehicle>, p: Prefs, i: nat) returns (before: seq<Choice>, after: seq<Choice>)
    requires FirstOfTheBest(vehicles, p, i)
    ensures FilterMap(vehicles, ToChoice(p)) == before + [ToChoice(p)(vehicles[i]).value] + after
    ensures forall c :: c in before ==> c.score < Round1(ScoreOf(p, vehicles[i]).value)
    ensures forall c :: c in after ==> c.score <= Round1(ScoreOf(p, vehicles[i]).value)
  {
    hide ScoreOf, Round1, Metres, RangeKM;
    var left, v, right := vehicles[..i], vehicles[i], vehicles[i + 1..];
    before, after := FilterMap(left, ToChoice(p)), FilterMap(right, ToChoice(p));
    assert vehicles == (left + [v]) + right;
    FilterMapConcat(left + [v], right, ToChoice(p));
    FilterMapSnoc(left, v, ToChoice(p));
    forall c | c in before
      ensures c.score < Round1(ScoreOf(p, vehicles[i]).value)
    {
      FilterMapMember(left, ToChoice(p), c);
    }
    forall c | c in after
      ensures c.score <= Round1(ScoreOf(p, vehicles[i]).value)
    {
      FilterMapMember(right, ToChoice(p), c);
      var u :| u in right && ToChoice(p)(u) == Some(c);
      assert u in vehicles;
    }
  }

  /** The first with the greatest rounded score is the one recommended, for every
      limit; and it truly is the best exactly when nothing that rounds to its score
      has a better one. */
  lemma RecommendationIsBestExactly(vehicles: seq<Vehicle>, p: Prefs, limit: int, i: nat)
    requires FirstOfTheBest(vehicles, p, i)
    ensures BoardOf(vehicles, p, limit).recommendation.Some?
    ensures BoardOf(vehicles, p, limit).recommendation.value.vehicle == vehicles[i]
    ensures var best := ScoreOf(p, vehicles[i]).value;
            (forall v :: v in vehicles && ScoreOf(p, v).Some? ==> ScoreOf(p, v).value <= best) <==>
              forall v :: v in vehicles && ScoreOf(p, v).Some? && Round1(ScoreOf(p, v).value) == Round1(best) ==>
                ScoreOf(p, v).value <= best
  {
    hide ScoreOf, Round1, Metres, RangeKM, Summarise, FilterMap, SortBy;
    var before, after := ChoicesAround(vehicles, p, i);
    var c := ToChoice(p)(vehicles[i]).value;
    SortByHead(before, c, after, ByScore());
    var best := ScoreOf(p, vehicles[i]).value;
    forall v | v in vehicles && ScoreOf(p, v).Some? && ScoreOf(p, v).value > best
      ensures Round1(ScoreOf(p, v).value) == Round1(best)
    {
      var j :| 0 <= j < |vehicles| && vehicles[j] == v;
      RoundingIsMonotone(best, ScoreOf(p, v).value);
    }
  }

  /** A vehicle at least 0.2 ahead of all others that do not equal it is recommended,
      or one that equals it. */
  lemma ClearBestIsRecommended(vehicles: seq<Vehicle>, p: Prefs, limit: int, best: Vehicle)
    requires best in vehicles && ScoreOf(p, best).Some?
    requires forall v :: v in vehicles && ScoreOf(p, v).Some? ==>
               ScoreOf(p, v).value == ScoreOf(p, best).value || ScoreOf(p, v).value <= ScoreOf(p, best).value - 0.2
    ensures BoardOf(vehicles, p, limit).recommendation.Some?
    ensures ScoreOf(p, BoardOf(vehicles, p, limit).recommendation.value.vehicle) == ScoreOf(p, best)
  {
    hide BoardOf, ScoreOf;
    RecommendationIsNearlyBest(vehicles, p, limit);
  }

  lemma BonusesDiffer()
    ensures BonusOf(DEFAULT_PREFS, "ryde") == 1000.0 && BonusOf(DEFAULT_PREFS, "voi") == 250.0
    ensures BonusOf(DEFAULT_PREFS, "bolt") == 0.0 && BonusOf(DEFAULT_PREFS, "dott") == -1000.0
  {
    assert "ryde"[0] == 'r' && "voi"[0] == 'v' && "bolt"[0] == 'b' && "dott"[0] == 'd';
  }

  lemma TieScores(bolt: Vehicle, voi: Vehicle, e: real)
    requires bolt.operatorKey == "bolt" && voi.operatorKey == "voi" && bolt.rangeM == voi.rangeM == 20_000
    requires bolt.distanceM == 0.15 - e / 2.0 && voi.distanceM == 249.95 + e / 2.0
    ensures ScoreOf(DEFAULT_PREFS, bolt) == Some(-0.15 + e / 2.0)
    ensures ScoreOf(DEFAULT_PREFS, voi) == Some(0.05 - e / 2.0)
  {
    hide BonusOf;
    BonusesDiffer();
    assert RangeKM(bolt) == RangeKM(voi) == 20.0;
  }

  lemma FilterMapPair<T, U>(a: T, b: T, f: T -> Option<U>)
    requires f(a).Some? && f(b).Some?
    ensures FilterMap([a, b], f) == [f(a).value, f(b).value]
  {
    assert Front([a, b]) == [a] && Front([a]) == [];
    assert FilterMap([a], f) == [f(a).value];
  }

  lemma SortPair<T>(a: T, b: T, key: T -> real)
    requires key(a) <= key(b)
    ensures SortBy([a, b], key) == [a, b]
  {
    assert Front([a, b]) == [a] && Front([a]) == [];
    assert SortBy([a], key) == [a];
  }

  lemma FirstOfEqualsWins(p: Prefs, a: Vehicle, b: Vehicle, limit: int)
    requires ScoreOf(p, a).Some? && ScoreOf(p, b).Some?
    requires Round1(ScoreOf(p, a).value) == Round1(ScoreOf(p, b).value)
    ensures BoardOf([a, b], p, limit).recommendation.Some?
    ensures BoardOf([a, b], p, limit).recommendation.value.vehicle == a
  {
    hide ScoreOf, Round1, Metres, Summarise, RangeKM, FilterMap, SortBy;
    FilterMapPair(a, b, ToChoice(p));
    SortPair(ToChoice(p)(a).value, ToChoice(p)(b).value, ByScore());
  }

  lemma TieRounds(e: real)
    requires 0.0 < e < 0.2
    ensures Round1(-0.15 + e / 2.0) == 0.0 && Round1(0.05 - e / 2.0) == 0.0
  {}

  /** The bound is sharp: for every smaller gap there are two scooters of which
      the worse by that gap is recommended. */
  lemma RecommendationMayTrail(gap: real) returns (vehicles: seq<Vehicle>)
    requires 0.0 < gap < 0.2
    ensures |vehicles| == 2
    ensures ScoreOf(DEFAULT_PREFS, vehicles[0]).Some? && ScoreOf(DEFAULT_PREFS, vehicles[1]).Some?
    ensures ScoreOf(DEFAULT_PREFS, vehicles[1]).value - ScoreOf(DEFAULT_PREFS, vehicles[0]).value == gap
    ensures BoardOf(vehicles, DEFAULT_PREFS, 0).recommendation.Some?
    ensures BoardOf(vehicles, DEFAULT_PREFS, 0).recommendation.value.vehicle == vehicles[0]
  {
    var e := 0.2 - gap;
    var at := Point(0.0, 0.0);
    var bolt := Vehicle("b", at, 0.15 - e / 2.0, "bolt", SCOOTER_STANDING, 20_000, false, false);
    var voi := Vehicle("v", at, 249.95 + e / 2.0, "voi", SCOOTER_STANDING, 20_000, false, false);
    vehicles := [bolt, voi];
    TieScores(bolt, voi, e);
    TieRounds(e);
    hide *;
    FirstOfEqualsWins(DEFAULT_PREFS, bolt, voi, 0);
  }

  lemma Scale(m: real, f: real)
    requires m >= 0.0 && 0.0 <= f <= 1.0
    ensures 0.0 <= m * f <= m
  {}

  /** The battery costs nothing to the full and at most the whole penalty to the
      lowest on offer. */
  lemma PenaltyIsBounded(rangeKM: real, comfortKM: real, floorKM: real, maxPenalty: real)
    requires maxPenalty >= 0.0
    ensures 0.0 <= LowBatteryPenalty(rangeKM, comfortKM, floorKM, maxPenalty) <= maxPenalty
  {
    if rangeKM < comfortKM && floorKM < comfortKM {
      var frac := (comfortKM - rangeKM) / (comfortKM - floorKM);
      assert frac > 0.0;
      Scale(maxPenalty, if frac > 1.0 then 1.0 else frac);
    }
  }

  lemma ScoreBounds(v: Vehicle)
    requires ScoreOf(DEFAULT_PREFS, v).Some?
    ensures v.operatorKey == "ryde" ==> ScoreOf(DEFAULT_PREFS, v).value >= 750.0 - v.distanceM
    ensures v.operatorKey == "voi" ==> ScoreOf(DEFAULT_PREFS, v).value <= 250.0 - v.distanceM
  {
    var p := DEFAULT_PREFS;
    hide LowBatteryPenalty, BonusOf;
    BonusesDiffer();
    PenaltyIsBounded(RangeKM(v), p.comfortKM, p.floorKM, p.lowPenalty);
  }

  /** By default any Ryde above the floor and less than 499.8 m farther away than
      a Voi ranks above it. */
  lemma RydeBeatsVoi(vehicles: seq<Vehicle>, i: nat, j: nat)
    requires i < |Ranked(vehicles, DEFAULT_PREFS)| && j < |Ranked(vehicles, DEFAULT_PREFS)|
    requires var r, v := Ranked(vehicles, DEFAULT_PREFS)[i].vehicle, Ranked(vehicles, DEFAULT_PREFS)[j].vehicle;
             r.operatorKey == "ryde" && v.operatorKey == "voi" && r.distanceM < v.distanceM + 499.8
    ensures i < j
  {
    var p := DEFAULT_PREFS;
    var ranked := Ranked(vehicles, p);
    var r := ChoiceOf(vehicles, p, ranked[i]);
    var v := ChoiceOf(vehicles, p, ranked[j]);
    hide *;
    ScoreBounds(r);
    ScoreBounds(v);
    RoundingIsClose(ScoreOf(p, r).value);
    RoundingIsClose(ScoreOf(p, v).value);
    RankedIsRanking(vehicles, p, 0.0);
  }

  // ---------------------------------------------------------------------
  // Battery
  // ---------------------------------------------------------------------

  /** Below the floor, when there is one. */
  ghost predicate TooLow(p: Prefs, v: Vehicle) {
    p.floorKM > 0.0 && v.rangeM as real < 1000.0 * p.floorKM
  }

  lemma ScoredUnlessTooLow(p: Prefs, v: Vehicle)
    ensures ScoreOf(p, v).None? <==> TooLow(p, v)
  {
    hide LowBatteryPenalty;
  }

  /** A vehicle below the floor is never listed or recommended, and every other is
      ranked. */
  lemma RankedUnlessTooLow(vehicles: seq<Vehicle>, p: Prefs, limit: int, v: Vehicle)
    ensures var b := BoardOf(vehicles, p, limit);
            TooLow(p, v) ==>
              && (forall c :: c in b.options ==> c.vehicle != v)
              && (b.recommendation.Some? ==> b.recommendation.value.vehicle != v)
    ensures v in vehicles && !TooLow(p, v) ==> exists c :: c in BoardOf(vehicles, p, 0).options && c.vehicle == v
  {
    hide ScoreOf, TooLow, Round1, Summarise, Ranked;
    ScoredUnlessTooLow(p, v);
    var ranked := Ranked(vehicles, p);
    forall c | c in ranked
      ensures TooLow(p, v) ==> c.vehicle != v
    {
      var u := ChoiceOf(vehicles, p, c);
    }
    if v in vehicles && !TooLow(p, v) {
      var i := VehicleIsRanked(vehicles, p, v);
      assert ranked[i] in BoardOf(vehicles, p, 0).options;
    }
  }

  lemma FractionAtMostOne(a: real, b: real)
    requires b > 0.0 && a <= b
    ensures a / b <= 1.0
  {}

  lemma FractionOverOne(a: real, b: real)
    requires b > 0.0 && a > b
    ensures a / b > 1.0
  {}

  lemma TimesThousand(m: real, f: real, b: real, a: real)
    requires f * b == a
    ensures m * f * (1000.0 * b) == m * (1000.0 * a)
  {
    assert m * f * (1000.0 * b) == m * (f * b) * 1000.0;
  }

  lemma PenaltyIsLinear(range: real, comfort: real, floor: real, most: real)
    requires floor < comfort && range < comfort
    ensures range >= floor ==>
              LowBatteryPenalty(range, comfort, floor, most) * (1000.0 * comfort - 1000.0 * floor) == most * (1000.0 * comfort - 1000.0 * range)
    ensures range <= floor ==> LowBatteryPenalty(range, comfort, floor, most) == most
  {
    var room, short := comfort - floor, comfort - range;
    var frac := short / room;
    assert frac * room == short;
    if range >= floor {
      FractionAtMostOne(short, room);
      assert LowBatteryPenalty(range, comfort, floor, most) == most * frac;
      TimesThousand(most, frac, room, short);
    } else {
      FractionOverOne(short, room);
      assert LowBatteryPenalty(range, comfort, floor, most) == most * 1.0;
    }
  }

  /** Between the floor and comfort the score falls in a straight line, by nothing at
      comfort and by the whole penalty at the floor; above comfort, or without room
      between the two, it does not depend on the range; and below the floor, if it
      counts at all, the whole penalty is lost. */
  lemma ScoreIsLinear(p: Prefs, v: Vehicle)
    requires !TooLow(p, v)
    ensures ScoreOf(p, v).Some?
    ensures var full := (if v.operatorKey in p.bonus then p.bonus[v.operatorKey] else 0.0) - v.distanceM;
            var lost := full - ScoreOf(p, v).value;
            && (p.comfortKM <= p.floorKM || v.rangeM as real >= 1000.0 * p.comfortKM ==> lost == 0.0)
            && (p.floorKM < p.comfortKM && 1000.0 * p.floorKM <= v.rangeM as real <= 1000.0 * p.comfortKM ==>
                  lost * (1000.0 * p.comfortKM - 1000.0 * p.floorKM) == p.lowPenalty * (1000.0 * p.comfortKM - v.rangeM as real))
            && (p.floorKM < p.comfortKM && v.rangeM as real <= 1000.0 * p.floorKM ==> lost == p.lowPenalty)
  {
    var range := RangeKM(v);
    assert v.rangeM as real == 1000.0 * range;
    if p.floorKM < p.comfortKM && range < p.comfortKM {
      PenaltyIsLinear(range, p.comfortKM, p.floorKM, p.lowPenalty);
    }
    hide LowBatteryPenalty;
  }

  lemma QuotientsOrder(a: real, b: real, c: real)
    requires c > 0.0 && a <= b
    ensures a / c <= b / c
  {}

  lemma ProductsOrder(m: real, a: real, b: real)
    requires m >= 0.0 && a <= b
    ensures m * a <= m * b
  {}

  lemma PenaltyIsMonotone(more: real, less: real, comfort: real, floor: real, most: real)
    requires more >= less && most >= 0.0
    ensures LowBatteryPenalty(more, comfort, floor, most) <= LowBatteryPenalty(less, comfort, floor, most)
  {
    PenaltyIsBounded(more, comfort, floor, most);
    PenaltyIsBounded(less, comfort, floor, most);
    if more < comfort && floor < comfort {
      var x, y := (comfort - more) / (comfort - floor), (comfort - less) / (comfort - floor);
      QuotientsOrder(comfort - more, comfort - less, comfort - floor);
      ProductsOrder(most, if x > 1.0 then 1.0 else x, if y > 1.0 then 1.0 else y);
    }
  }

  /** More range never costs. */
  lemma LostIsMonotone(p: Prefs, u: Vehicle, v: Vehicle)
    requires ScoreOf(p, u).Some? && ScoreOf(p, v).Some? && u.operatorKey == v.operatorKey && u.distanceM == v.distanceM
    requires u.rangeM >= v.rangeM && p.lowPenalty >= 0.0
    ensures ScoreOf(p, u).value >= ScoreOf(p, v).value
  {
    PenaltyIsMonotone(RangeKM(u), RangeKM(v), p.comfortKM, p.floorKM, p.lowPenalty);
    hide LowBatteryPenalty;
  }

  /** Of two vehicles of one operator at one distance, the one with more range never
      ranks strictly below, when the penalty is not negative. */
  lemma MoreRangeNeverLoses(vehicles: seq<Vehicle>, p: Prefs, c: Choice, d: Choice)
    requires c in BoardOf(vehicles, p, 0).options && d in BoardOf(vehicles, p, 0).options && p.lowPenalty >= 0.0
    requires c.vehicle.operatorKey == d.vehicle.operatorKey && c.vehicle.distanceM == d.vehicle.distanceM
    requires c.vehicle.rangeM >= d.vehicle.rangeM
    ensures c.score >= d.score
  {
    hide ScoreOf, Round1, Summarise, Ranked;
    var u := ChoiceOf(vehicles, p, c);
    var v := ChoiceOf(vehicles, p, d);
    LostIsMonotone(p, u, v);
    RoundingIsMonotone(ScoreOf(p, v).value, ScoreOf(p, u).value);
  }

  /** By default it ranks strictly above as soon as it has five metres more of the ten
      kilometres that count. */
  lemma MoreRangeWins(vehicles: seq<Vehicle>, i: nat, j: nat)
    requires i < |BoardOf(vehicles, DEFAULT_PREFS, 0).options| && j < |BoardOf(vehicles, DEFAULT_PREFS, 0).options|
    requires var u, v := BoardOf(vehicles, DEFAULT_PREFS, 0).options[i].vehicle, BoardOf(vehicles, DEFAULT_PREFS, 0).options[j].vehicle;
             && u.operatorKey == v.operatorKey && u.distanceM == v.distanceM
             && v.rangeM + 5 <= (if u.rangeM > 10_000 then 10_000 else u.rangeM)
    ensures i < j
  {
    var p, ranked := DEFAULT_PREFS, Ranked(vehicles, DEFAULT_PREFS);
    var u := ChoiceOf(vehicles, p, ranked[i]);
    var v := ChoiceOf(vehicles, p, ranked[j]);
    hide ScoreOf, Round1, Summarise, Ranked, BonusOf, FilterMap, SortBy;
    ScoredUnlessTooLow(p, u);
    ScoredUnlessTooLow(p, v);
    ScoreIsLinear(p, u);
    ScoreIsLinear(p, v);
    RoundingIsClose(ScoreOf(p, u).value);
    RoundingIsClose(ScoreOf(p, v).value);
    RankedIsRanking(vehicles, p, 0.0);
  }

  lemma RankedAsChosen(vehicles: seq<Vehicle>, p: Prefs, c: Choice)
    requires c in Ranked(vehicles, p)
    ensures c.distanceM == Metres(c.vehicle.distanceM) && c.rangeKM == Round1(RangeKM(c.vehicle))
  {
    hide ScoreOf, Round1, Metres, RangeKM;
    var all := FilterMap(vehicles, ToChoice(p));
    SortByPermutes(all, ByScore());
    assert c in multiset(Ranked(vehicles, p));
    FilterMapMember(vehicles, ToChoice(p), c);
  }

  /** What is listed of a vehicle: its distance to the nearest metre, its range to
      the nearest hundred metres, and a score that its true one rounds to. */
  lemma OptionTells(vehicles: seq<Vehicle>, p: Prefs, limit: int, c: Choice)
    requires c in BoardOf(vehicles, p, limit).options || BoardOf(vehicles, p, limit).recommendation == Some(c)
    ensures c.vehicle in vehicles && ScoreOf(p, c.vehicle).Some?
    ensures -0.05 < c.score - ScoreOf(p, c.vehicle).value < 0.15
    ensures c.vehicle.distanceM >= 0.0 ==> Rounds(c.distanceM, c.vehicle.distanceM)
    ensures c.vehicle.rangeM >= 0 ==> -0.05 < c.rangeKM - c.vehicle.rangeM as real / 1000.0 <= 0.05
  {
    var v := ChoiceOf(vehicles, p, c);
    RoundingIsClose(ScoreOf(p, v).value);
    RoundingIsClose(RangeKM(v));
    RankedAsChosen(vehicles, p, c);
    if v.distanceM >= 0.0 {
      MetresRound(v.distanceM, c.distanceM);
    }
    hide ScoreOf, Round1, Summarise, Ranked, Metres;
  }

  /** A limit lists the first of the ranking, no limit all of it, and neither changes
      the recommendation. */
  lemma LimitListsFirst(vehicles: seq<Vehicle>, p: Prefs, limit: int)
    ensures var all, some := BoardOf(vehicles, p, 0), BoardOf(vehicles, p, limit);
            && some.options <= all.options
            && |some.options| == (if 0 < limit < |all.options| then limit else |all.options|)
            && some.recommendation == all.recommendation && some.byOperator == all.byOperator
            && (all.recommendation.Some? <==> |all.options| > 0)
            && (|all.options| > 0 ==> all.recommendation.value == all.options[0])
  {
    hide Ranked, Summarise;
  }

  // ---------------------------------------------------------------------
  // Summaries
  // ---------------------------------------------------------------------

  function OfKey(k: string): Vehicle -> Option<Vehicle> {
    (v: Vehicle) => if v.operatorKey == k then Some(v) else None
  }

  /** The summary's figures are those of some vehicle, and none has better. */
  ghost predicate Describes(sum: Summary, vs: seq<Vehicle>) {
    && sum.count == |vs| && sum.nearestM.Some? && sum.bestRangeKM.Some?
    && (exists v :: v in vs && Metres(v.distanceM) == sum.nearestM.value)
    && (exists v :: v in vs && RangeKM(v) == sum.bestRangeKM.value)
    && forall v :: v in vs ==> sum.nearestM.value <= Metres(v.distanceM) && RangeKM(v) <= sum.bestRangeKM.value
  }

  lemma BumpDescribes(sum: Summary, vs: seq<Vehicle>, v: Vehicle)
    requires if |vs| == 0 then sum == Summary(0, None, None) else Describes(sum, vs)
    ensures Describes(Bump(sum, v), vs + [v])
  {
    hide Metres, RangeKM;
    var all := vs + [v];
    assert v in all && forall u :: u in vs ==> u in all;
    if |vs| > 0 {
      var a :| a in vs && Metres(a.distanceM) == sum.nearestM.value;
      var b :| b in vs && RangeKM(b) == sum.bestRangeKM.value;
      assert a in all && b in all;
    }
  }

  /** Each summary counts every vehicle of its operator, below the floor or not,
      and gives the least rounded distance and the longest range among them. */
  lemma {:induction false} SummariesAreExact(vehicles: seq<Vehicle>, k: string)
    ensures k in Summarise(vehicles) <==> |FilterMap(vehicles, OfKey(k))| > 0
    ensures k in Summarise(vehicles) ==> Describes(Summarise(vehicles)[k], FilterMap(vehicles, OfKey(k)))
  {
    hide Bump, Describes;
    if |vehicles| > 0 {
      var before, v := Front(vehicles), Last(vehicles);
      SummariesAreExact(before, k);
      assert FilterMap(before, OfKey(k)) + [] == FilterMap(before, OfKey(k));
      assert FilterMap(vehicles, OfKey(k)) == FilterMap(before, OfKey(k)) + if v.operatorKey == k then [v] else [];
      BumpDescribes(if k in Summarise(before) then Summarise(before)[k] else Summary(0, None, None),
                    FilterMap(before, OfKey(k)), v);
    }
  }
}
