/**
  The dashboard's session state and the transitions that change it: the
  splash-to-dashboard page switch, registering a node, and resetting the
  node list. Registering a node re-runs the comparison, which stores two
  route variants for display: the "quantum" variant (input order, with its
  distance and time scaled down by fixed factors) and the "classical"
  variant (a shuffled order with its own, unscaled metrics).
*/
module Session {
  import opened Wrappers
  import Config
  import opened Metrics
  import Shuffle

  datatype Page = Splash | Dashboard

  /** A route variant as stored for display. */
  datatype RouteResult = RouteResult(route: seq<Stop>, dist: real, time: real)

  datatype State = State(
    page: Page,
    stops: seq<Stop>,
    center: (real, real),
    quantum: RouteResult,
    classical: RouteResult)

  const NoResult: RouteResult := RouteResult([], 0.0, 0.0)

  const DefaultCenter: (real, real) := (16.5062, 80.6480)

  /** The state a fresh session starts in. */
  const Initial: State := State(Splash, [], DefaultCenter, NoResult, NoResult)

  /** The fixed discounts applied to the input-order variant. */
  const QuantumDistFactor: real := 0.85
  const QuantumTimeFactor: real := 0.82

  /** Recomputes both route variants from the current stops. With fewer than
      two stops nothing happens, so the previous variants stay on display. */
  function Optimize(root: Root, s: State, v: Config.Vehicle, t: Config.Traffic, rand: nat -> nat): (s': State)
    ensures s'.page == s.page && s'.stops == s.stops && s'.center == s.center
    ensures |s.stops| < 2 ==> s' == s
    ensures |s.stops| >= 2 ==> s'.quantum.route == s.stops
    ensures |s.stops| >= 2 ==> multiset(s'.classical.route) == multiset(s.stops)
    ensures |s.stops| >= 2 ==>
      && s'.quantum.dist == QuantumDistFactor * RouteDistance(root, s.stops)
      && s'.quantum.time == QuantumTimeFactor * TravelTime(RouteDistance(root, s.stops), v, t)
    ensures |s.stops| >= 2 ==>
      && s'.classical.dist == RouteDistance(root, s'.classical.route)
      && s'.classical.time == TravelTime(s'.classical.dist, v, t)
    ensures |s.stops| >= 2 ==>
      0.0 <= s'.quantum.dist && 0.0 <= s'.quantum.time && 0.0 <= s'.classical.dist && 0.0 <= s'.classical.time
  {
    if |s.stops| > 1 then
      var cRoute := Shuffle.Shuffled(s.stops, rand);
      var c := MetricsOf(root, cRoute, v, t);
      var qRoute := s.stops;
      var q := MetricsOf(root, qRoute, v, t);
      s.(quantum := RouteResult(qRoute, q.dist * QuantumDistFactor, q.time * QuantumTimeFactor),
         classical := RouteResult(cRoute, c.dist, c.time))
    else
      s
  }

  /** When the shuffle happens to drive the same loop as the input order,
      forwards or backwards, the two variants differ by exactly the fixed
      discounts: the comparison isolates the scaling, nothing else. */
  lemma QuantumIsDiscountedClassical(root: Root, s: State, v: Config.Vehicle, t: Config.Traffic, rand: nat -> nat)
    requires 2 <= |s.stops|
    requires Shuffle.Shuffled(s.stops, rand) == s.stops || Shuffle.Shuffled(s.stops, rand) == Reversed(s.stops)
    ensures Optimize(root, s, v, t, rand).quantum.dist == QuantumDistFactor * Optimize(root, s, v, t, rand).classical.dist
    ensures Optimize(root, s, v, t, rand).quantum.time == QuantumTimeFactor * Optimize(root, s, v, t, rand).classical.time
  {
    RouteDistanceReversed(root, s.stops);
  }

  /** With draws that keep every stop in place, the classical variant is the
      input order and the quantum variant is its discounted copy. */
  lemma KeptOrderComparison(root: Root, s: State, v: Config.Vehicle, t: Config.Traffic)
    requires 2 <= |s.stops|
    ensures Optimize(root, s, v, t, Shuffle.KeepInPlace).classical.route == s.stops
    ensures Optimize(root, s, v, t, Shuffle.KeepInPlace).quantum.dist
         == QuantumDistFactor * Optimize(root, s, v, t, Shuffle.KeepInPlace).classical.dist
    ensures Optimize(root, s, v, t, Shuffle.KeepInPlace).quantum.time
         == QuantumTimeFactor * Optimize(root, s, v, t, Shuffle.KeepInPlace).classical.time
  {
    Shuffle.ShuffledCanKeepOrder(s.stops);
    QuantumIsDiscountedClassical(root, s, v, t, Shuffle.KeepInPlace);
  }

  /** The single button of the splash page. */
  function EnterCommandCenter(s: State): (s': State)
    ensures s'.page == Dashboard
    ensures s'.stops == s.stops && s'.center == s.center
    ensures s'.quantum == s.quantum && s'.classical == s.classical
  {
    s.(page := Dashboard)
  }

  /** "Deploy Node": when the geocoder resolved the location, appends one
      stop, recentres the map on it and re-runs the comparison with the
      selected vehicle and traffic; otherwise nothing changes. */
  function DeployNode(
    root: Root, s: State, name: string, category: Category, coords: Option<(real, real)>,
    v: Config.Vehicle, t: Config.Traffic, rand: nat -> nat): (s': State)
    ensures coords.None? ==> s' == s
    ensures coords.Some? ==>
      && |s'.stops| == |s.stops| + 1
      && s'.stops[..|s.stops|] == s.stops
      && s'.stops[|s.stops|] == Stop(name, coords.value.0, coords.value.1, category)
      && s'.center == coords.value
      && s'.page == s.page
    ensures coords.Some? && |s.stops| == 0 ==> s'.quantum == s.quantum && s'.classical == s.classical
    ensures coords.Some? && |s.stops| >= 1 ==>
      && s'.quantum.route == s'.stops
      && s'.quantum.dist == QuantumDistFactor * RouteDistance(root, s'.stops)
      && s'.quantum.time == QuantumTimeFactor * TravelTime(RouteDistance(root, s'.stops), v, t)
      && multiset(s'.classical.route) == multiset(s'.stops)
      && s'.classical.dist == RouteDistance(root, s'.classical.route)
      && s'.classical.time == TravelTime(s'.classical.dist, v, t)
  {
    match coords
    case None => s
    case Some(c) =>
      var added := s.(stops := s.stops + [Stop(name, c.0, c.1, category)], center := c);
      Optimize(root, added, v, t, rand)
  }

  /** "Reset All": empties the node list and nothing else; the last
      computed variants stay on display. */
  function ResetAll(s: State): (s': State)
    ensures s'.stops == []
    ensures s'.page == s.page && s'.center == s.center
    ensures s'.quantum == s.quantum && s'.classical == s.classical
  {
    s.(stops := [])
  }

  /** A user action. The vehicle, traffic and shuffle draws in effect when a
      node is deployed travel with the action. */
  datatype Event =
    | EnterPressed
    | DeployPressed(name: string, category: Category, coords: Option<(real, real)>,
                    vehicle: Config.Vehicle, traffic: Config.Traffic, rand: nat -> nat)
    | ResetPressed

  /** One user action. Each button exists on one page only: the splash page
      offers only the way in, the dashboard only the node controls. */
  function Step(root: Root, s: State, e: Event): (s': State)
    ensures s.page == Splash && !e.EnterPressed? ==> s' == s
    ensures s.page == Dashboard && e.EnterPressed? ==> s' == s
    ensures s'.page == Dashboard <==> s.page == Dashboard || e.EnterPressed?
    ensures s.page == Splash ==> s'.stops == s.stops
  {
    match s.page
    case Splash =>
      if e.EnterPressed? then EnterCommandCenter(s) else s
    case Dashboard =>
      match e
      case EnterPressed => s
      case DeployPressed(name, category, coords, v, t, rand) =>
        DeployNode(root, s, name, category, coords, v, t, rand)
      case ResetPressed => ResetAll(s)
  }

  /** Both stored times were computed for one vehicle in one traffic level:
      the classical time from the classical distance, the quantum time as the
      discounted time of the quantum route. */
  ghost predicate MeasuredWith(root: Root, s: State, v: Config.Vehicle, t: Config.Traffic)
  {
    && s.classical.time == TravelTime(s.classical.dist, v, t)
    && s.quantum.time == QuantumTimeFactor * TravelTime(RouteDistance(root, s.quantum.route), v, t)
  }

  /** What the dashboard can rely on whenever it draws: both stored variants
      visit the same stops, their metrics are non-negative, and each figure
      belongs to the route stored beside it (a route of fewer than two stops
      therefore shows zero distance and zero time). */
  ghost predicate Consistent(root: Root, s: State)
  {
    && 0.0 <= s.quantum.dist && 0.0 <= s.quantum.time
    && 0.0 <= s.classical.dist && 0.0 <= s.classical.time
    && multiset(s.classical.route) == multiset(s.quantum.route)
    && s.classical.dist == RouteDistance(root, s.classical.route)
    && s.quantum.dist == QuantumDistFactor * RouteDistance(root, s.quantum.route)
    && exists v: Config.Vehicle, t: Config.Traffic :: MeasuredWith(root, s, v, t)
  }

  /** A session starts on the splash page with no stops and empty variants. */
  lemma InitialConsistent(root: Root)
    ensures Consistent(root, Initial)
    ensures Initial.page == Splash && Initial.stops == []
  {
    assert MeasuredWith(root, Initial, Config.Drone, Config.Clear);
  }

  /** A stored variant of fewer than two stops shows no distance and no time. */
  lemma ShortRouteShowsZero(root: Root, s: State)
    requires Consistent(root, s)
    ensures |s.classical.route| < 2 ==> s.classical.dist == 0.0 && s.classical.time == 0.0
    ensures |s.quantum.route| < 2 ==> s.quantum.dist == 0.0 && s.quantum.time == 0.0
  {
    var v, t :| MeasuredWith(root, s, v, t);
  }

  /** Every action keeps the stored variants consistent. */
  lemma StepKeepsConsistent(root: Root, s: State, e: Event)
    requires Consistent(root, s)
    ensures Consistent(root, Step(root, s, e))
  {
    var s' := Step(root, s, e);
    if s'.quantum == s.quantum && s'.classical == s.classical {
      var v, t :| MeasuredWith(root, s, v, t);
      assert MeasuredWith(root, s', v, t);
    } else {
      assert s.page == Dashboard && e.DeployPressed? && e.coords.Some? && |s.stops| >= 1;
      assert MeasuredWith(root, s', e.vehicle, e.traffic);
    }
  }

  /** Once on the dashboard, no action leads back to the splash page. */
  lemma {:induction false} NoWayBackToSplash(root: Root, s: State, events: seq<Event>)
    requires s.page == Dashboard
    ensures Run(root, s, events).page == Dashboard
    decreases |events|
  {
    if events != [] {
      NoWayBackToSplash(root, Step(root, s, events[0]), events[1..]);
    }
  }

  /** The state after a sequence of actions. */
  function Run(root: Root, s: State, events: seq<Event>): State
    decreases |events|
  {
    if events == [] then s else Run(root, Step(root, s, events[0]), events[1..])
  }

  /** Every state a session can reach is consistent. */
  lemma {:induction false} RunKeepsConsistent(root: Root, s: State, events: seq<Event>)
    requires Consistent(root, s)
    ensures Consistent(root, Run(root, s, events))
    decreases |events|
  {
    if events != [] {
      StepKeepsConsistent(root, s, events[0]);
      RunKeepsConsistent(root, Step(root, s, events[0]), events[1..]);
    }
  }

  /** Number of registered stops of one category, as the header counts them. */
  function CountOf(stops: seq<Stop>, c: Category): (n: nat)
    ensures n <= |stops|
  {
    if stops == [] then 0
    else (if stops[0].category == c then 1 else 0) + CountOf(stops[1..], c)
  }

  /** Every stop is counted once: as a warehouse or as a delivery point. */
  lemma {:induction false} CountsPartitionStops(stops: seq<Stop>)
    ensures CountOf(stops, Warehouse) + CountOf(stops, DeliveryPoint) == |stops|
  {
    if stops != [] {
      CountsPartitionStops(stops[1..]);
    }
  }
}
