/**
  The route-metrics engine: the length of a closed delivery loop over an
  ordered list of stops, and the time a vehicle needs to drive it.

  Each leg uses the flat-earth approximation: the Euclidean length of the
  latitude/longitude difference, in degrees, times 111.1 km per degree.
  Reals are exact here; the square root is a parameter (see Root).
*/
module Metrics {
  import Config

  datatype Category = Warehouse | DeliveryPoint

  /** A registered node of the network. */
  datatype Stop = Stop(name: string, lat: real, lon: real, category: Category)

  type NonNegReal = x: real | 0.0 <= x

  /** The square root the leg formula uses. Any total function on the reals
      that is never negative and sends 0 to 0 may stand for it; nothing below
      relies on more than that. */
  type Root = f: real -> NonNegReal | f(0.0) == 0.0
    witness (x: real) => 0.0

  const KmPerDegree: real := 111.1

  function Square(x: real): real
  {
    x * x
  }

  /** Length in km of the leg from `a` to `b`. */
  function Edge(root: Root, a: Stop, b: Stop): (d: real)
    ensures 0.0 <= d
    ensures a.lat == b.lat && a.lon == b.lon ==> d == 0.0
  {
    root(Square(a.lat - b.lat) + Square(a.lon - b.lon)) * KmPerDegree
  }

  /** A leg is as long in one direction as in the other. */
  lemma EdgeSymmetric(root: Root, a: Stop, b: Stop)
    ensures Edge(root, a, b) == Edge(root, b, a)
  {
    assert Square(a.lat - b.lat) == Square(b.lat - a.lat);
    assert Square(a.lon - b.lon) == Square(b.lon - a.lon);
  }

  /** Sum of the legs between consecutive stops, accumulated from the front,
      without the leg that closes the loop. */
  function PathLength(root: Root, route: seq<Stop>): (len: real)
    ensures 0.0 <= len
    decreases |route|
  {
    if |route| < 2 then 0.0
    else PathLength(root, route[..|route| - 1]) + Edge(root, route[|route| - 2], route[|route| - 1])
  }

  /** Round-trip distance in km: every consecutive leg, then the leg from the
      last stop back to the first. Fewer than two stops make no route. */
  function RouteDistance(root: Root, route: seq<Stop>): (dist: real)
    ensures 0.0 <= dist
    ensures |route| < 2 ==> dist == 0.0
  {
    if |route| < 2 then 0.0
    else PathLength(root, route) + Edge(root, route[|route| - 1], route[0])
  }

  /** Travel time in minutes for `dist` km: hours at cruise speed, stretched
      by the vehicle's effective traffic multiplier. */
  function TravelTime(dist: real, v: Config.Vehicle, t: Config.Traffic): (minutes: real)
    ensures 0.0 <= dist ==> 0.0 <= minutes
    ensures dist == 0.0 ==> minutes == 0.0
  {
    var p := Config.ProfileOf(v);
    (dist / p.speed) * Config.Multiplier(v, t) * 60.0
  }

  /** Read back in hours, a travel time driven at cruise speed covers the
      distance stretched by the traffic multiplier; in clear traffic it
      covers exactly the distance. */
  lemma TravelTimeCoversDistance(dist: real, v: Config.Vehicle, t: Config.Traffic)
    ensures (TravelTime(dist, v, t) / 60.0) * Config.ProfileOf(v).speed == dist * Config.Multiplier(v, t)
    ensures t == Config.Clear ==> (TravelTime(dist, v, t) / 60.0) * Config.ProfileOf(v).speed == dist
  {
    var speed := Config.ProfileOf(v).speed;
    var m := Config.Multiplier(v, t);
    HoursBack(dist, speed, m, TravelTime(dist, v, t));
  }

  lemma HoursBack(dist: real, speed: real, m: real, minutes: real)
    requires 0.0 < speed
    requires minutes == (dist / speed) * m * 60.0
    ensures (minutes / 60.0) * speed == dist * m
  {
    var hours := dist / speed;
    assert hours * speed == dist;
    assert minutes / 60.0 == hours * m;
    assert (hours * m) * speed == (hours * speed) * m;
  }

  /** Conversely, the only number of minutes that covers the stretched
      distance at cruise speed is the travel time. */
  lemma TravelTimeFromHours(dist: real, v: Config.Vehicle, t: Config.Traffic, minutes: real)
    requires (minutes / 60.0) * Config.ProfileOf(v).speed == dist * Config.Multiplier(v, t)
    ensures minutes == TravelTime(dist, v, t)
  {
    var speed := Config.ProfileOf(v).speed;
    var m := Config.Multiplier(v, t);
    HoursDetermineMinutes(dist, speed, m, minutes);
    assert TravelTime(dist, v, t) == (dist / speed) * m * 60.0;
  }

  lemma HoursDetermineMinutes(dist: real, speed: real, m: real, minutes: real)
    requires 0.0 < speed
    requires (minutes / 60.0) * speed == dist * m
    ensures minutes == (dist / speed) * m * 60.0
  {
    var hours := minutes / 60.0;
    assert hours == (dist * m) / speed;
    assert (dist * m) / speed == (dist / speed) * m;
  }

  /** The metrics pair computed for a route: distance and travel time. */
  datatype RouteMetrics = RouteMetrics(dist: real, time: real)

  /** Distance and time of a route, zero for a route of fewer than two stops. */
  function MetricsOf(root: Root, route: seq<Stop>, v: Config.Vehicle, t: Config.Traffic): (m: RouteMetrics)
    ensures |route| < 2 ==> m == RouteMetrics(0.0, 0.0)
    ensures 0.0 <= m.dist && 0.0 <= m.time
  {
    var dist := RouteDistance(root, route);
    RouteMetrics(dist, TravelTime(dist, v, t))
  }

  /** The metric computation the way the engine runs it: a running sum over
      the consecutive legs, then the closing leg, then the time. */
  method CalculateMetrics(root: Root, route: seq<Stop>, v: Config.Vehicle, t: Config.Traffic)
    returns (dist: real, time: real)
    ensures RouteMetrics(dist, time) == MetricsOf(root, route, v, t)
    ensures dist == CycleLength(root, route)
  {
    if |route| < 2 {
      RouteDistanceIsCycleLength(root, route);
      return 0.0, 0.0;
    }
    dist := 0.0;
    var i := 0;
    while i < |route| - 1
      invariant 0 <= i <= |route| - 1
      invariant dist == PathLength(root, route[..i + 1])
    {
      assert route[..i + 2][..i + 1] == route[..i + 1];
      dist := dist + Edge(root, route[i], route[i + 1]);
      i := i + 1;
    }
    assert route[..i + 1] == route;
    dist := dist + Edge(root, route[|route| - 1], route[0]);
    assert dist == RouteDistance(root, route);
    time := TimeFor(dist, v, t);
    TravelTimeFromHours(dist, v, t, time);
    RouteDistanceIsCycleLength(root, route);
  }

  /** The time step of the engine: hours at cruise speed, stretched by the
      effective multiplier, then converted to minutes. Read back in hours and
      driven at cruise speed, the result covers the distance stretched by
      the traffic multiplier. */
  method TimeFor(dist: real, v: Config.Vehicle, t: Config.Traffic) returns (time: real)
    ensures (time / 60.0) * Config.ProfileOf(v).speed == dist * Config.Multiplier(v, t)
  {
    var profile := Config.ProfileOf(v);
    var multiplier := Config.EffectiveMultiplier(Config.Level(t), profile.trafficImpact);
    var hours := (dist / profile.speed) * multiplier;
    time := hours * 60.0;
    HoursBack(dist, profile.speed, multiplier, time);
  }

  // ---------------------------------------------------------------------
  // An independent description of the loop: every stop is left once,
  // towards its cyclic successor.
  // ---------------------------------------------------------------------

  /** Position of the stop that follows position `i` on the closed loop. */
  function Next(n: nat, i: nat): (j: nat)
    requires i < n
    ensures j < n
    ensures i + 1 < n ==> j == i + 1
    ensures i + 1 == n ==> j == 0
  {
    if i + 1 < n then i + 1 else 0
  }

  /** Sum of the legs leaving the first `k` stops, each towards the stop
      after it on the loop. */
  function CycleSum(root: Root, route: seq<Stop>, k: nat): real
    requires k <= |route|
  {
    if k == 0 then 0.0
    else CycleSum(root, route, k - 1) + Edge(root, route[k - 1], route[Next(|route|, k - 1)])
  }

  /** Length of the closed loop through all stops in order. */
  function CycleLength(root: Root, route: seq<Stop>): real
  {
    CycleSum(root, route, |route|)
  }

  /** Before the wrap-around, the cyclic sum is the open path sum. */
  lemma {:induction false} CycleSumIsPathLength(root: Root, route: seq<Stop>, k: nat)
    requires k < |route|
    ensures CycleSum(root, route, k) == PathLength(root, route[..k + 1])
    decreases k
  {
    if k > 0 {
      CycleSumIsPathLength(root, route, k - 1);
      assert route[..k + 1][..k] == route[..k];
    }
  }

  /** The engine's distance is exactly the length of the closed loop: the
      n - 1 consecutive legs plus the closing leg are the n legs that leave
      each stop towards its successor. */
  lemma RouteDistanceIsCycleLength(root: Root, route: seq<Stop>)
    ensures RouteDistance(root, route) == CycleLength(root, route)
  {
    var n := |route|;
    if n == 1 {
      SingleStopCycle(root, route);
    } else if n >= 2 {
      CycleSumIsPathLength(root, route, n - 1);
      assert route[..n] == route;
      CycleSumLastLeg(root, route);
    }
  }

  lemma SingleStopCycle(root: Root, route: seq<Stop>)
    requires |route| == 1
    ensures CycleLength(root, route) == 0.0
  {
    var e := Edge(root, route[0], route[0]);
    assert CycleSum(root, route, 1) == CycleSum(root, route, 0) + e;
  }

  lemma CycleSumLastLeg(root: Root, route: seq<Stop>)
    requires 2 <= |route|
    ensures CycleLength(root, route)
         == CycleSum(root, route, |route| - 1) + Edge(root, route[|route| - 1], route[0])
  {
  }

  // ---------------------------------------------------------------------
  // Loop symmetries.
  // ---------------------------------------------------------------------

  /** The stops in the opposite order. */
  function Reversed(route: seq<Stop>): (r: seq<Stop>)
    ensures |r| == |route|
    ensures forall i :: 0 <= i < |route| ==> r[i] == route[|route| - 1 - i]
  {
    if route == [] then [] else Reversed(route[1..]) + [route[0]]
  }

  /** The path sum can also be taken from the back: first leg plus the rest. */
  lemma {:induction false} PathLengthFront(root: Root, route: seq<Stop>)
    requires 2 <= |route|
    ensures PathLength(root, route) == Edge(root, route[0], route[1]) + PathLength(root, route[1..])
    decreases |route|
  {
    var n := |route|;
    if n > 2 {
      var init := route[..n - 1];
      PathLengthFront(root, init);
      assert init[1..] == route[1..][..n - 2];
    } else {
      assert route[..1] == [route[0]];
    }
  }

  /** Walking the open path backwards covers the same legs. */
  lemma {:induction false} PathLengthReversed(root: Root, route: seq<Stop>)
    ensures PathLength(root, Reversed(route)) == PathLength(root, route)
    decreases |route|
  {
    var n := |route|;
    if n >= 2 {
      var r := Reversed(route);
      PathLengthReversed(root, route[1..]);
      assert r[..n - 1] == Reversed(route[1..]);
      PathLengthFront(root, route);
      EdgeSymmetric(root, route[0], route[1]);
    }
  }

  /** Driving the loop in the opposite direction covers the same distance. */
  lemma RouteDistanceReversed(root: Root, route: seq<Stop>)
    ensures RouteDistance(root, Reversed(route)) == RouteDistance(root, route)
  {
    if |route| >= 2 {
      PathLengthReversed(root, route);
      EdgeSymmetric(root, route[0], route[|route| - 1]);
    }
  }

  /** Starting the loop at the second stop instead of the first covers the
      same distance. */
  lemma RouteDistanceRotated(root: Root, route: seq<Stop>)
    requires 1 <= |route|
    ensures RouteDistance(root, route[1..] + [route[0]]) == RouteDistance(root, route)
  {
    var n := |route|;
    if n >= 2 {
      var r := route[1..] + [route[0]];
      assert r[..n - 1] == route[1..];
      PathLengthFront(root, route);
    }
  }

  /** Starting the loop at any stop covers the same distance. */
  lemma {:induction false} RouteDistanceRotatedBy(root: Root, route: seq<Stop>, k: nat)
    requires k <= |route|
    ensures RouteDistance(root, route[k..] + route[..k]) == RouteDistance(root, route)
    decreases k
  {
    if k == 0 {
      assert route[0..] + route[..0] == route;
    } else {
      var prev := route[k - 1..] + route[..k - 1];
      RouteDistanceRotatedBy(root, route, k - 1);
      RouteDistanceRotated(root, prev);
      assert prev[1..] + [prev[0]] == route[k..] + route[..k];
    }
  }

  /** The same route driven in heavier traffic never takes less time. */
  lemma TravelTimeMonotone(dist: real, v: Config.Vehicle, t1: Config.Traffic, t2: Config.Traffic)
    requires 0.0 <= dist
    requires Config.Level(t1) <= Config.Level(t2)
    ensures TravelTime(dist, v, t1) <= TravelTime(dist, v, t2)
  {
    Config.MultiplierMonotone(v, t1, t2);
    var hours := dist / Config.ProfileOf(v).speed;
    assert 0.0 <= hours;
    assert hours * Config.Multiplier(v, t1) <= hours * Config.Multiplier(v, t2);
  }

  // ---------------------------------------------------------------------
  // Worked example: two stops near Vijayawada and Eluru.
  // ---------------------------------------------------------------------

  const StopA: Stop := Stop("A", 16.50, 80.64, Warehouse)
  const StopB: Stop := Stop("B", 17.00, 81.00, DeliveryPoint)

  /** Both legs measure 111.1 * sqrt(0.5^2 + 0.36^2); a drone in clear
      traffic covers the loop at 120 km/h, so minutes are half the km. */
  lemma DroneInClearTraffic(root: Root)
    ensures MetricsOf(root, [StopA, StopB], Config.Drone, Config.Clear)
         == RouteMetrics(222.2 * root(0.3796), 111.1 * root(0.3796))
  {
    var e := Edge(root, StopA, StopB);
    assert e == root(0.3796) * 111.1;
    EdgeSymmetric(root, StopA, StopB);
    var route := [StopA, StopB];
    assert route[..1] == [StopA];
    assert PathLength(root, route) == e;
    assert RouteDistance(root, route) == e + e;
  }

  /** A military truck in gridlock suffers 1 + 1.5 * 1.2 = 2.8 times the
      free-flow time, at 60 km/h: 2.8 minutes per km. */
  lemma TruckInGridlock(root: Root)
    ensures Config.Multiplier(Config.MilitaryTruck, Config.Gridlock) == 2.8
    ensures MetricsOf(root, [StopA, StopB], Config.MilitaryTruck, Config.Gridlock)
         == RouteMetrics(222.2 * root(0.3796), 2.8 * 222.2 * root(0.3796))
  {
    var e := Edge(root, StopA, StopB);
    assert e == root(0.3796) * 111.1;
    EdgeSymmetric(root, StopA, StopB);
    var route := [StopA, StopB];
    assert route[..1] == [StopA];
    assert PathLength(root, route) == e;
    assert RouteDistance(root, route) == e + e;
  }
}
