/** Points, an abstract great-circle distance, and the circle that covers
    several circles (`internal/geo/geo.go`). */
module Geo {

  datatype Point = Point(lat: real, lon: real)

  type Metric = (Point, Point) -> real

  /** The laws of distance the coalescing argument rests on. */
  ghost predicate IsDistance(dist: Metric) {
    && (forall p :: dist(p, p) == 0.0)
    && (forall p, q :: dist(p, q) >= 0.0)
    && (forall p, q :: dist(p, q) == dist(q, p))
    && (forall p, q, r :: dist(p, r) <= dist(p, q) + dist(q, r))
  }

  function SumLat(ps: seq<Point>): real {
    if ps == [] then 0.0 else SumLat(ps[..|ps| - 1]) + ps[|ps| - 1].lat
  }

  function SumLon(ps: seq<Point>): real {
    if ps == [] then 0.0 else SumLon(ps[..|ps| - 1]) + ps[|ps| - 1].lon
  }

  function Centroid(ps: seq<Point>): Point
    requires ps != []
  {
    Point(SumLat(ps) / |ps| as real, SumLon(ps) / |ps| as real)
  }

  lemma TimesDivided(a: real, b: real)
    requires b > 0.0
    ensures a / b * b == a
  {}

  /** The centroid is the mean: of one point itself, and one point more moves it by its
      share. */
  lemma CentroidIsMean(ps: seq<Point>, p: Point)
    ensures Centroid([p]) == p
    ensures ps != [] ==>
              var n, was, now := |ps| as real, Centroid(ps), Centroid(ps + [p]);
              now.lat * (n + 1.0) == was.lat * n + p.lat && now.lon * (n + 1.0) == was.lon * n + p.lon
  {
    assert [p][..|[p]| - 1] == [];
    assert SumLat([p]) == SumLat([]) + p.lat && SumLon([p]) == SumLon([]) + p.lon;
    var more := ps + [p];
    assert more[..|more| - 1] == ps && more[|more| - 1] == p;
    assert SumLat(more) == SumLat(ps) + p.lat && SumLon(more) == SumLon(ps) + p.lon;
    if ps != [] {
      TimesDivided(SumLat(ps), |ps| as real);
      TimesDivided(SumLon(ps), |ps| as real);
      TimesDivided(SumLat(more), |more| as real);
      TimesDivided(SumLon(more), |more| as real);
    }
  }

  function RadiusAt(radii: seq<real>, i: nat): real {
    if i < |radii| then radii[i] else 0.0
  }

  function Max(a: real, b: real): real {
    if a > b then a else b
  }

  /** How far from `mid` the furthest of the first `n` circles reaches. */
  function Reach(dist: Metric, mid: Point, ps: seq<Point>, radii: seq<real>, n: nat): real
    requires n <= |ps|
  {
    if n == 0 then 0.0
    else Max(dist(mid, ps[n - 1]) + RadiusAt(radii, n - 1), Reach(dist, mid, ps, radii, n - 1))
  }

  function Bounding(dist: Metric, ps: seq<Point>, radii: seq<real>): (Point, real) {
    if ps == [] then (Point(0.0, 0.0), 0.0)
    else (Centroid(ps), Reach(dist, Centroid(ps), ps, radii, |ps|))
  }

  ghost predicate Covers(dist: Metric, mid: Point, ps: seq<Point>, radii: seq<real>, n: nat, r: real)
    requires n <= |ps|
  {
    r >= 0.0 && forall i :: 0 <= i < n ==> dist(mid, ps[i]) + RadiusAt(radii, i) <= r
  }

  /** The reach is the least radius that covers every circle. */
  lemma {:induction false} ReachIsLeastCover(dist: Metric, mid: Point, ps: seq<Point>, radii: seq<real>, n: nat)
    requires n <= |ps|
    ensures Covers(dist, mid, ps, radii, n, Reach(dist, mid, ps, radii, n))
    ensures forall r :: Covers(dist, mid, ps, radii, n, r) ==> Reach(dist, mid, ps, radii, n) <= r
  {
    if n > 0 {
      ReachIsLeastCover(dist, mid, ps, radii, n - 1);
      forall r | Covers(dist, mid, ps, radii, n, r)
        ensures Reach(dist, mid, ps, radii, n) <= r
      {
        assert Covers(dist, mid, ps, radii, n - 1, r);
      }
    }
  }

  method BoundingRadius(dist: Metric, centres: seq<Point>, radii: seq<real>) returns (mid: Point, max: real)
    ensures (mid, max) == Bounding(dist, centres, radii)
  {
    if |centres| == 0 {
      return Point(0.0, 0.0), 0.0;
    }
    var sumLat, sumLon := 0.0, 0.0;
    for i := 0 to |centres|
      invariant sumLat == SumLat(centres[..i])
      invariant sumLon == SumLon(centres[..i])
    {
      assert centres[..i + 1][..i] == centres[..i];
      sumLat := sumLat + centres[i].lat;
      sumLon := sumLon + centres[i].lon;
    }
    assert centres[..|centres|] == centres;
    var n := |centres| as real;
    mid := Point(sumLat / n, sumLon / n);
    max := 0.0;
    for i := 0 to |centres|
      invariant max == Reach(dist, mid, centres, radii, i)
    {
      var r := 0.0;
      if i < |radii| {
        r := radii[i];
      }
      var d := dist(mid, centres[i]) + r;
      if d > max {
        max := d;
      }
    }
  }

  /** Everything inside one of the circles is inside the bounding circle. */
  lemma BoundingCovers(dist: Metric, ps: seq<Point>, radii: seq<real>, i: nat, p: Point)
    requires IsDistance(dist) && i < |ps|
    requires dist(ps[i], p) <= RadiusAt(radii, i)
    ensures var (mid, r) := Bounding(dist, ps, radii); dist(mid, p) <= r
  {
    var mid := Centroid(ps);
    ReachIsLeastCover(dist, mid, ps, radii, |ps|);
    assert dist(mid, p) <= dist(mid, ps[i]) + dist(ps[i], p);
  }
}
