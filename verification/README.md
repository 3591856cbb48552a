# Fleet route metrics — a Dafny model

This project models the engine behind a route-comparison dashboard for
delivery and relief logistics. Users register stops (warehouses and delivery
points) by place name. The dashboard then computes a closed delivery loop
through the stops and shows two variants:

- a "quantum" variant, which keeps the input order and scales its distance
  by 0.85 and its time by 0.82;
- a "classical" variant, which is a shuffled order with its own unscaled
  metrics.

The model covers:

- the vehicle and traffic tables;
- the round-trip distance and travel-time formula;
- the comparison step;
- the three session transitions: entering the dashboard, registering a
  node, and resetting the node list.

Modules:

- `Wrappers` (wrappers.dfy): `Option`, used for the geocoder's answer and
  for lookups by label.
- `Config` (config.dfy): the vehicle table (speed in km/h, traffic
  sensitivity), the traffic table (multiplier), lookups by display label,
  and the effective multiplier `1 + (level − 1) × sensitivity`.
- `Metrics` (metrics.dfy): stops, leg length `sqrt(Δlat² + Δlon²) × 111.1`,
  open path sum, round-trip distance, travel time in minutes, and the
  engine's running-sum computation as a method. It also gives an
  independent "each stop to its cyclic successor" definition of the loop,
  proves the two agree, and proves that reversal, and rotation to any
  starting stop, leave the loop length unchanged. It ends with the two worked examples.
- `Shuffle` (shuffle.dfy): the library shuffle's swap loop, with the random
  draws as a parameter.
- `Session` (session.dfy): the session state, `Optimize`, the transitions,
  a dispatcher over user actions, and the invariant every reachable state
  keeps.

Modelling decisions:

- Python floats are exact `real`s.
- The square root is a parameter `root` of type `Root`. This is any total
  function whose results are non-negative and which maps 0 to 0. The
  model never relies on more than that, so every result holds for the
  true square root.
- The vehicle and traffic dictionaries are keyed by label strings. They
  become enumerations. Lookup by label is an explicit partial function,
  and a lemma shows that every offered label finds its row. The sidebar
  offers only the tables' own keys, so indexing cannot fail.
- `random.shuffle` is modelled as the loop it runs: for i from n − 1 down
  to 1, swap position i with a position drawn from 0..i. The draw for
  position i is `rand(i) % (i + 1)`. The shuffle result is proved to be a
  permutation of the input. A lemma shows the input order is one of its
  outcomes.
- The geocoder is an `Option<(real, real)>` input to `DeployNode`.
- "Reset All" empties the stop list but keeps the last computed variants,
  as the source does. Adding one stop after a reset does not recompute
  them either, because the comparison needs at least two stops. The
  `Consistent` invariant still holds in those states: both stored variants
  visit the same stops, and every stored distance and time is the one
  computed from the route stored beside it, for one vehicle and one traffic
  level.

## Model

| member | source | states |
|---|---|---|
| Config.ProfileOf | app.py:21-26 | every vehicle in the table has a positive cruise speed (so the time division is defined) and a positive traffic sensitivity |
| Config.LevelsAtLeastOne | app.py:28-33 | every traffic multiplier in the table is at least 1, and it is exactly 1 only for "Clear" |
| Config.VehicleByLabel | app.py:58 | a vehicle found by label carries that label; unknown labels find nothing |
| Config.TrafficByLabel | app.py:59 | a traffic level found by label carries that label; unknown labels find nothing |
| Config.LabelsRoundTrip | app.py:86-87 | every label the sidebar offers looks up its own row, so the table lookups never fail |
| Config.EffectiveMultiplier | app.py:59 | the multiplier is 1 when the level is 1, whatever the sensitivity; it is at least 1 for levels ≥ 1 and sensitivity ≥ 0 |
| Config.Multiplier | app.py:58-59 | for every vehicle and traffic pair in the tables the effective multiplier is ≥ 1, and it is exactly 1 in clear traffic |
| Config.MultiplierMonotone | app.py:59 | heavier traffic never lowers a vehicle's effective multiplier |
| Metrics.Edge | app.py:56-57 | every leg is non-negative, and a leg between two stops at the same coordinates is zero |
| Metrics.EdgeSymmetric | app.py:56-57 | a leg depends only on squared coordinate differences, so it has the same length in both directions |
| Metrics.PathLength | app.py:56 | the sum of the consecutive legs is non-negative |
| Metrics.RouteDistance | app.py:55-57 | the round-trip distance is non-negative, and it is 0 for fewer than two stops |
| Metrics.TravelTime | app.py:58-61 | the time is non-negative for a non-negative distance, and 0 for a zero distance |
| Metrics.TravelTimeCoversDistance | app.py:58-61 | converted back to hours and multiplied by the cruise speed, the time gives distance × effective multiplier; in clear traffic it gives exactly the distance |
| Metrics.TimeFor | app.py:58-61 | the minutes the engine's steps produce, read back in hours and multiplied by the cruise speed, give distance × effective multiplier |
| Metrics.TravelTimeFromHours | app.py:58-61 | conversely, any number of minutes that covers distance × multiplier at cruise speed is the travel time, so the engine's steps compute exactly that time |
| Metrics.MetricsOf | app.py:54-61 | returns exactly (0, 0) for fewer than two stops, and a non-negative distance and time for every route |
| Metrics.CalculateMetrics | app.py:54-61 | the engine's running sum over the n − 1 consecutive legs plus the closing leg equals the functional metrics and the length of the closed loop |
| Metrics.CycleSumIsPathLength | app.py:56 | before the wrap-around, summing each stop's leg to its successor is the open path sum |
| Metrics.RouteDistanceIsCycleLength | app.py:55-57 | for every list of stops, the distance is exactly the sum of the legs from each stop to its cyclic successor, with the last stop's successor being the first |
| Metrics.PathLengthFront | app.py:56 | the open path sum also splits as first leg plus the rest of the path |
| Metrics.PathLengthReversed | app.py:56 | walking the open path backwards gives the same sum |
| Metrics.RouteDistanceReversed | app.py:56-57 | reversing the stop list leaves the round-trip distance unchanged |
| Metrics.RouteDistanceRotated | app.py:56-57 | starting the loop at the second stop leaves the round-trip distance unchanged |
| Metrics.RouteDistanceRotatedBy | app.py:56-57 | starting the loop at any stop k leaves the round-trip distance unchanged |
| Metrics.TravelTimeMonotone | app.py:59-61 | for a fixed distance and vehicle, heavier traffic never gives a shorter time |
| Metrics.DroneInClearTraffic | app.py:54-61 | stops (16.50, 80.64) and (17.00, 81.00), drone, clear traffic: distance 222.2·√0.3796 km and time half that in minutes |
| Metrics.TruckInGridlock | app.py:54-61 | the same stops, military truck, gridlock: the multiplier is 2.8 and the time is 2.8 minutes per km |
| Shuffle.Swap | app.py:66 | one shuffle step keeps the length and the multiset of elements |
| Shuffle.SwapMovesTwo | app.py:66 | a swap exchanges exactly the two named positions and leaves every other position alone |
| Shuffle.Draw | app.py:66 | the position drawn at step i is in 0..i |
| Shuffle.ShuffleFrom | app.py:66 | the remaining swap steps keep the length of the list and exactly its multiset of elements |
| Shuffle.Shuffled | app.py:65-66 | the shuffled copy is a permutation of the stops: none added, dropped or changed |
| Shuffle.ShuffleFromKeepsOrder | app.py:66 | draws that pick each position itself leave the remaining steps without effect |
| Shuffle.ShuffledCanKeepOrder | app.py:66 | the input order is among the shuffle's outcomes |
| Session.Optimize | app.py:63-73 | with fewer than two stops the state is unchanged. Otherwise: the quantum route is the stops in order, with 0.85 × distance and 0.82 × time; the classical route is a permutation of the stops, with its own metrics; all metrics are non-negative; page, stops and center are unchanged |
| Session.QuantumIsDiscountedClassical | app.py:65-73 | when the shuffle yields the same loop, forwards or backwards, the quantum metrics are exactly 0.85 × and 0.82 × the classical ones |
| Session.KeptOrderComparison | app.py:65-73 | with draws that move nothing, the classical route is the input order and the quantum distance and time are 0.85 × and 0.82 × the classical ones |
| Session.EnterCommandCenter | app.py:76-79 | the splash button switches to the dashboard and changes nothing else |
| Session.DeployNode | app.py:93-98 | without a geocode the state is unchanged. With one: exactly one stop is appended, earlier stops are kept, and the map recentres on it. Once the new list has two or more stops, the quantum variant is the new list with 0.85 × its distance and 0.82 × its time, and the classical variant is a permutation of it with its own distance and time for the selected vehicle and traffic; with fewer, the variants are kept as they were |
| Session.ResetAll | app.py:105-106 | the stop list becomes empty; page, center and both stored variants are untouched |
| Session.Step | app.py:76-106 | on the splash page only the way in does anything; on the dashboard the way-in button is absent; the dashboard is reached exactly by being there or by entering; splash-page actions never touch the stops |
| Session.InitialConsistent | app.py:36-40 | a fresh session starts on the splash page with no stops and consistent (empty, zero) variants |
| Session.ShortRouteShowsZero | app.py:39-40 | in a consistent state, a stored variant of fewer than two stops shows zero distance and zero time |
| Session.StepKeepsConsistent | app.py:63-106 | every action keeps the stored variants over the same stops with non-negative metrics, keeps each stored distance the (for quantum, 0.85-scaled) distance of the route stored beside it, and keeps both stored times computed for one vehicle and traffic level from those routes |
| Session.RunKeepsConsistent | app.py:63-106 | every state reachable by any sequence of actions is consistent, so the figures on display belong to the routes drawn |
| Session.NoWayBackToSplash | app.py:76-81 | once on the dashboard, no sequence of actions returns to the splash page |
| Session.CountOf | app.py:111-112 | a category count never exceeds the number of stops |
| Session.CountsPartitionStops | app.py:111-112 | warehouses plus delivery points counts every stop exactly once |

## Left out

- Page styling, CSS and widget layout (app.py:42-51 and the rendering in app.py:76-155). These are presentation; only the three state transitions are modelled.
- Folium maps, the animated path and the Plotly chart (app.py:116-155). These are display-only calls to external libraries.
- The Nominatim geocoder (app.py:11-18). It is network I/O, and its answer (including the swallowed exception) is the `Option` input of `DeployNode`.
- The distribution of `random.shuffle`. Only the swap structure and the permutation property are modelled; uniformity is not.
- Floating-point rounding and the real `math.sqrt`. Reals are exact, and the root is any non-negative function that maps 0 to 0.
- The ETA delta and fuel-gain figures (app.py:113-114). They are display formatting.
- The `icon` field of the vehicle table. It only chooses a map icon.
- Streamlit's rerun after each button is not modelled. Each transition's result is the next state.
