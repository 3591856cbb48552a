/**
  The two static configuration tables of the dashboard: the vehicle table
  (cruise speed in km/h and traffic sensitivity) and the traffic table
  (congestion multiplier). The source keys both tables by display label;
  the model names each row by a datatype constructor and keeps the label
  as data, so that a lookup by label is an explicit, partial operation.
*/
module Config {
  import opened Wrappers

  datatype Vehicle = Drone | Ambulance | MilitaryTruck | ReliefVan

  datatype Traffic = Clear | Moderate | Heavy | Gridlock

  /** One row of the vehicle table. */
  datatype Profile = Profile(speed: real, trafficImpact: real)

  /** The display label under which the vehicle table keys a vehicle. */
  function VehicleLabel(v: Vehicle): string
  {
    match v
    case Drone => "Drone"
    case Ambulance => "Ambulance"
    case MilitaryTruck => "Military Truck"
    case ReliefVan => "Relief Van"
  }

  /** The display label under which the traffic table keys a level. */
  function TrafficLabel(t: Traffic): string
  {
    match t
    case Clear => "Clear (1.0x)"
    case Moderate => "Moderate (1.3x)"
    case Heavy => "Heavy (1.8x)"
    case Gridlock => "Gridlock (2.5x)"
  }

  /** The vehicle table. Every row has a positive speed, so the travel-time
      division is always defined, and a positive traffic sensitivity. */
  function ProfileOf(v: Vehicle): (p: Profile)
    ensures 0.0 < p.speed
    ensures 0.0 < p.trafficImpact
  {
    match v
    case Drone => Profile(120.0, 0.1)
    case Ambulance => Profile(100.0, 0.5)
    case MilitaryTruck => Profile(60.0, 1.2)
    case ReliefVan => Profile(70.0, 1.0)
  }

  /** The traffic table. */
  function Level(t: Traffic): real
  {
    match t
    case Clear => 1.0
    case Moderate => 1.3
    case Heavy => 1.8
    case Gridlock => 2.5
  }

  /** No traffic level speeds traffic up, and only "Clear" is neutral. */
  lemma LevelsAtLeastOne(t: Traffic)
    ensures 1.0 <= Level(t)
    ensures Level(t) == 1.0 <==> t == Clear
  {
  }

  /** Looking a vehicle up by its label, as indexing the vehicle table does;
      an unknown label has no row. */
  function VehicleByLabel(key: string): (r: Option<Vehicle>)
    ensures r.Some? ==> VehicleLabel(r.value) == key
  {
    if key == "Drone" then Some(Drone)
    else if key == "Ambulance" then Some(Ambulance)
    else if key == "Military Truck" then Some(MilitaryTruck)
    else if key == "Relief Van" then Some(ReliefVan)
    else None
  }

  /** Looking a traffic level up by its label; an unknown label has no row. */
  function TrafficByLabel(key: string): (r: Option<Traffic>)
    ensures r.Some? ==> TrafficLabel(r.value) == key
  {
    if key == "Clear (1.0x)" then Some(Clear)
    else if key == "Moderate (1.3x)" then Some(Moderate)
    else if key == "Heavy (1.8x)" then Some(Heavy)
    else if key == "Gridlock (2.5x)" then Some(Gridlock)
    else None
  }

  /** Every label the tables offer finds its own row again: the sidebar,
      which only offers the tables' own keys, never selects a missing row. */
  lemma LabelsRoundTrip(v: Vehicle, t: Traffic)
    ensures VehicleByLabel(VehicleLabel(v)) == Some(v)
    ensures TrafficByLabel(TrafficLabel(t)) == Some(t)
  {
    match v
    case Drone =>
    case Ambulance =>
    case MilitaryTruck =>
    case ReliefVan =>
  }

  /** The congestion multiplier a vehicle actually suffers: the traffic
      level's excess over 1 is weighted by the vehicle's sensitivity. */
  function EffectiveMultiplier(level: real, impact: real): (m: real)
    ensures level == 1.0 ==> m == 1.0
    ensures 1.0 <= level && 0.0 <= impact ==> 1.0 <= m
  {
    1.0 + (level - 1.0) * impact
  }

  /** The effective multiplier of one vehicle in one traffic level. */
  function Multiplier(v: Vehicle, t: Traffic): (m: real)
    ensures 1.0 <= m
    ensures t == Clear ==> m == 1.0
  {
    EffectiveMultiplier(Level(t), ProfileOf(v).trafficImpact)
  }

  /** Heavier traffic never lowers a vehicle's multiplier. */
  lemma MultiplierMonotone(v: Vehicle, t1: Traffic, t2: Traffic)
    requires Level(t1) <= Level(t2)
    ensures Multiplier(v, t1) <= Multiplier(v, t2)
  {
    var k := ProfileOf(v).trafficImpact;
    assert (Level(t2) - Level(t1)) * k >= 0.0;
  }
}
