/**
 Zone heat balance of apps/sim/app/engine.py with the fan curve of apps/sim/app/fans.py,
 for one zone and over the reals. Zones do not exchange heat, so the vectorised engine is
 one such zone per array element.
 */
module ZoneEngine {
  import opened Products

  function Max(x: real, y: real): real { if x >= y then x else y }

  function Clip(x: real, lo: real, hi: real): real {
    if x < lo then lo else if x > hi then hi else x
  }

  // ----- fans -----

  const C0 := 0.0013
  const C1 := 0.1470
  const C2 := 0.9506
  const C3 := -0.0998
  const MIN_FLOW := 0.30
  const HEAT_TO_AIRSTREAM := 1.0

  function Cubic(f: real): real { C0 + C1 * f + C2 * (f * f) + C3 * (f * f * f) }

  function PartLoadPowerFraction(flow: real): real { Cubic(Clip(flow, 0.0, 1.0)) }

  function FlowFraction(load: real, capacity: real, running: bool): real {
    var share := if capacity > 0.0 then load / capacity else 0.0;
    if running then Clip(share, MIN_FLOW, 1.0) else 0.0
  }

  function FanPower(flow: real, design: real): real {
    if flow > 0.0 then Mul(design, PartLoadPowerFraction(flow)) else 0.0
  }

  function CubicSlope(a: real, b: real): real { C1 + C2 * (a + b) + C3 * (a * a + a * b + b * b) }

  lemma CubicDifference(a: real, b: real)
    ensures Cubic(b) - Cubic(a) == Mul(b - a, CubicSlope(a, b))
  {
    var q := a * a + a * b + b * b;
    assert (b - a) * q == b * b * b - a * a * a;
    assert (b - a) * (a + b) == b * b - a * a;
  }

  lemma UnitProduct(a: real, b: real)
    requires 0.0 <= a <= 1.0 && 0.0 <= b <= 1.0
    ensures 0.0 <= a * b <= b
  {}

  lemma CubicSlopeIsPositive(a: real, b: real)
    requires 0.0 <= a <= 1.0 && 0.0 <= b <= 1.0
    ensures CubicSlope(a, b) > 0.0
  {
    UnitProduct(a, a);
    UnitProduct(a, b);
    UnitProduct(b, b);
  }

  lemma CubicRises(a: real, b: real)
    requires 0.0 <= a < b <= 1.0
    ensures Cubic(a) < Cubic(b)
  {
    hide Cubic;
    hide CubicSlope;
    hide Mul;
    CubicSlopeIsPositive(a, b);
    CubicDifference(a, b);
    MulIsPositive(b - a, CubicSlope(a, b));
  }

  /** The power curve rises over the whole working range, from just above nothing to just below design power. */
  lemma PartLoadPowerRises(a: real, b: real)
    requires a <= b
    ensures 0.0 < PartLoadPowerFraction(a) <= PartLoadPowerFraction(b) < 1.0
    ensures 0.0 <= a < b <= 1.0 ==> PartLoadPowerFraction(a) < PartLoadPowerFraction(b)
  {
    hide Cubic;
    var x, y := Clip(a, 0.0, 1.0), Clip(b, 0.0, 1.0);
    CubicEnds();
    if 0.0 < x { CubicRises(0.0, x); }
    if x < y { CubicRises(x, y); }
    if y < 1.0 { CubicRises(y, 1.0); }
  }

  lemma CubicEnds()
    ensures Cubic(0.0) == 0.0013 && Cubic(1.0) == 0.9991
  {}

  /** What a fan moving only ventilation air draws. */
  function FanFloor(ventilating: bool, design: real): real {
    FanPower(if ventilating then MIN_FLOW else 0.0, design)
  }

  /** A running fan never draws less than the ventilation floor, and never more than its design power. */
  lemma FanStaysAboveItsFloor(load: real, capacity: real, running: bool, ventilating: bool, design: real)
    requires design >= 0.0 && (ventilating ==> running)
    ensures 0.0 <= FanFloor(ventilating, design) <= FanPower(FlowFraction(load, capacity, running), design) <= design
  {
    hide PartLoadPowerFraction;
    hide Mul;
    var flow := FlowFraction(load, capacity, running);
    if running {
      PartLoadPowerRises(MIN_FLOW, flow);
      MulRises(design, 0.0, PartLoadPowerFraction(MIN_FLOW));
      MulRises(design, PartLoadPowerFraction(MIN_FLOW), PartLoadPowerFraction(flow));
      MulRises(design, PartLoadPowerFraction(flow), 1.0);
      MulUnits(design);
    }
  }

  // ----- one substep -----

  const AIR_DENSITY := 1.2
  const AIR_CP := 1005.0
  const J_PER_KWH := 3600000.0
  const UNMET_TOLERANCE := 0.5
  const MIN_LIGHTING := 0.05
  const PLUG_STANDBY := 0.3
  const LATENT_HEAT := 2450000.0

  /** A zone's column of the zone arrays; `thermalMass` is in J/K, `plant` the installed capacity in W. */
  datatype Zone = Zone(
    thermalMass: real, setpoint: real, deadband: real, plant: real, fanDesign: real,
    windowArea: real, shgc: real, lighting: real, equipment: real,
    designOccupancy: real, occupancyGain: real, occupancyLatent: real, ventilationPerPerson: real,
    uaEnvelope: real, uaInfiltration: real, cop: real, heatingCop: real)

  /** The signs the schema and the plant sizing guarantee. */
  predicate Physical(z: Zone) {
    && z.thermalMass > 0.0 && z.deadband >= 0.0 && z.plant >= 0.0 && z.fanDesign >= 0.0
    && z.windowArea >= 0.0 && z.shgc >= 0.0 && z.lighting >= 0.0 && z.equipment >= 0.0
    && z.designOccupancy >= 0.0 && z.occupancyGain >= 0.0 && z.occupancyLatent >= 0.0
    && z.ventilationPerPerson >= 0.0 && z.uaEnvelope >= 0.0 && z.uaInfiltration >= 0.0
    && z.cop > 0.0 && z.heatingCop > 0.0
  }

  /**
   What one timestep reads from the weather series and the occupancy table; `excessHumidity` is outdoor minus
   indoor.
   */
  datatype Weather = Weather(tOut: real, irradiance: real, occupancy: real, excessHumidity: real)

  function Lower(z: Zone): real { z.setpoint - z.deadband / 2.0 }

  function Upper(z: Zone): real { z.setpoint + z.deadband / 2.0 }

  function OccupancyFraction(w: Weather): real { Clip(w.occupancy, 0.0, 1.0) }

  function Occupants(z: Zone, w: Weather): real { Mul(z.designOccupancy, OccupancyFraction(w)) }

  function Solar(z: Zone, w: Weather): real { Mul(Mul(z.windowArea, z.shgc), w.irradiance) }

  function Light(z: Zone, w: Weather): real { Mul(z.lighting, Max(OccupancyFraction(w), MIN_LIGHTING)) }

  function Equip(z: Zone, w: Weather): real {
    Mul(z.equipment, PLUG_STANDBY + (1.0 - PLUG_STANDBY) * OccupancyFraction(w))
  }

  function People(z: Zone, w: Weather): real { Mul(Occupants(z, w), z.occupancyGain) }

  function UaVentilation(z: Zone, w: Weather): real {
    Mul(Occupants(z, w), z.ventilationPerPerson) * AIR_DENSITY * AIR_CP
  }

  function Ventilating(z: Zone, w: Weather): bool { Occupants(z, w) > 0.0 }

  function Envelope(z: Zone, w: Weather, t: real): real { Mul(z.uaEnvelope, w.tOut - t) }

  function AirExchange(z: Zone, w: Weather, t: real): real {
    Mul(z.uaInfiltration, w.tOut - t) + Mul(UaVentilation(z, w), w.tOut - t)
  }

  /** Net sensible gain before the plant acts. */
  function NetGain(z: Zone, w: Weather, t: real): real {
    Solar(z, w) + Light(z, w) + Equip(z, w) + People(z, w) + Envelope(z, w, t) + AirExchange(z, w, t)
    + HEAT_TO_AIRSTREAM * FanFloor(Ventilating(z, w), z.fanDesign)
  }

  function Latent(z: Zone, w: Weather): real {
    Mul((UaVentilation(z, w) + z.uaInfiltration) / AIR_CP, Max(w.excessHumidity, 0.0)) * LATENT_HEAT
    + Mul(Occupants(z, w), z.occupancyLatent)
  }

  /** Kelvin gained from `q` watts over `dt` seconds, and the watts that gain `k` kelvin. */
  function Kelvin(z: Zone, q: real, dt: real): real
    requires Physical(z)
  {
    q * dt / z.thermalMass
  }

  function Watts(z: Zone, k: real, dt: real): real
    requires dt > 0.0
  {
    k * (z.thermalMass / dt)
  }

  function FreeFloat(z: Zone, w: Weather, t: real, dt: real): real
    requires Physical(z)
  {
    t + Kelvin(z, NetGain(z, w, t), dt)
  }

  function Cooling(z: Zone, free: real, dt: real): real
    requires dt > 0.0
  {
    Clip(if free > Upper(z) then Watts(z, free - Upper(z), dt) else 0.0, 0.0, z.plant)
  }

  function Heating(z: Zone, free: real, dt: real): real
    requires dt > 0.0
  {
    Clip(if free < Lower(z) then Watts(z, Lower(z) - free, dt) else 0.0, 0.0, z.plant)
  }

  datatype StepResult = StepResult(
    temperature: real, cooling: real, heating: real, latentMet: real, fan: real, coil: real, heatingNet: real,
    netGain: real, solar: real, light: real, equip: real, people: real, envelope: real, ventilation: real, occupants: real)

  function Fan(z: Zone, w: Weather, cooling: real, heating: real): real {
    var running := Ventilating(z, w) || cooling > 0.0 || heating > 0.0;
    FanPower(FlowFraction(cooling, z.plant, running), z.fanDesign)
  }

  function IntegrateSubstep(z: Zone, w: Weather, t: real, dt: real): StepResult
    requires Physical(z) && dt > 0.0
  {
    var free := FreeFloat(z, w, t, dt);
    var cooling, heating := Cooling(z, free, dt), Heating(z, free, dt);
    var latentMet := if cooling > 0.0 then Latent(z, w) else 0.0;
    var fan := Fan(z, w, cooling, heating);
    var fanHeatExtra := HEAT_TO_AIRSTREAM * (fan - FanFloor(Ventilating(z, w), z.fanDesign));
    var coil := cooling + latentMet + (if cooling > 0.0 then fanHeatExtra else 0.0);
    var heatingNet := Max(heating - (if heating > 0.0 then fanHeatExtra else 0.0), 0.0);
    StepResult(free + Kelvin(z, heating - cooling, dt), cooling, heating, latentMet, fan, coil, heatingNet,
      NetGain(z, w, t), Solar(z, w), Light(z, w), Equip(z, w), People(z, w), Envelope(z, w, t), AirExchange(z, w, t), Occupants(z, w))
  }

  // ----- what one substep keeps -----

  lemma KelvinOfWatts(z: Zone, k: real, dt: real)
    requires Physical(z) && dt > 0.0
    ensures Kelvin(z, Watts(z, k, dt), dt) == k
  {}

  lemma KelvinAdds(z: Zone, p: real, q: real, dt: real)
    requires Physical(z)
    ensures Kelvin(z, p + q, dt) == Kelvin(z, p, dt) + Kelvin(z, q, dt)
  {}

  lemma KelvinRises(z: Zone, p: real, q: real, dt: real)
    requires Physical(z) && dt > 0.0 && p < q
    ensures Kelvin(z, p, dt) < Kelvin(z, q, dt)
  {
    KelvinAdds(z, p, q - p, dt);
    assert (q - p) * dt > 0.0;
    assert (q - p) * dt / z.thermalMass > 0.0;
  }

  lemma KelvinOfNothing(z: Zone, dt: real)
    requires Physical(z)
    ensures Kelvin(z, 0.0, dt) == 0.0
  {}

  lemma MassTimesKelvin(z: Zone, q: real, dt: real)
    requires Physical(z)
    ensures Mul(z.thermalMass, Kelvin(z, q, dt)) == Mul(q, dt)
  {}

  /** Heat stored by the step is exactly net gain plus heating minus cooling, over its duration. */
  lemma StepStoresItsHeat(z: Zone, w: Weather, t: real, dt: real)
    requires Physical(z) && dt > 0.0
    ensures var s := IntegrateSubstep(z, w, t, dt);
            Mul(z.thermalMass, s.temperature - t) == Mul(s.netGain + s.heating - s.cooling, dt)
  {
    hide NetGain;
    hide Fan;
    hide Cooling;
    hide Heating;
    hide Mul;
    hide Kelvin;
    var s := IntegrateSubstep(z, w, t, dt);
    KelvinAdds(z, s.netGain, s.heating - s.cooling, dt);
    MassTimesKelvin(z, s.netGain + s.heating - s.cooling, dt);
  }

  /** Everything the zone loses or gains per kelvin of difference to outdoors. */
  function Conductance(z: Zone, w: Weather): real { z.uaEnvelope + z.uaInfiltration + UaVentilation(z, w) }

  /** The outdoor difference at which losses balance the gains; the zone at `Equilibrium` has no net gain. */
  function Equilibrium(z: Zone, w: Weather): real
    requires Conductance(z, w) > 0.0
  {
    w.tOut + NetGain(z, w, w.tOut) / Conductance(z, w)
  }

  lemma NetGainIsLinear(z: Zone, w: Weather, t: real)
    ensures NetGain(z, w, t) == NetGain(z, w, w.tOut) - Mul(Conductance(z, w), t - w.tOut)
  {
    hide UaVentilation;
    hide Solar;
    hide Light;
    hide Equip;
    hide People;
    hide FanFloor;
    hide Ventilating;
    var d := w.tOut - t;
    assert (z.uaEnvelope + z.uaInfiltration + UaVentilation(z, w)) * d
           == z.uaEnvelope * d + z.uaInfiltration * d + UaVentilation(z, w) * d;
  }

  lemma NetGainToEquilibrium(z: Zone, w: Weather, t: real)
    requires Conductance(z, w) > 0.0
    ensures NetGain(z, w, t) == Mul(Conductance(z, w), Equilibrium(z, w) - t)
  {
    hide NetGain;
    NetGainIsLinear(z, w, t);
    var g, u := NetGain(z, w, w.tOut), Conductance(z, w);
    assert u * (g / u) == g;
    assert u * (w.tOut + g / u - t) == u * (g / u) - u * (t - w.tOut);
  }

  /**
   A free-floating zone moves towards the temperature at which its losses balance its gains, and inside the
   stability limit it never passes it.
   */
  lemma FreeFloatRelaxes(z: Zone, w: Weather, t: real, dt: real)
    requires Physical(z) && dt > 0.0 && Conductance(z, w) > 0.0
    ensures var goal, r := Equilibrium(z, w), Kelvin(z, Conductance(z, w), dt);
            && FreeFloat(z, w, t, dt) == t + Mul(r, goal - t) && r > 0.0
            && (r <= 1.0 && t <= goal ==> t <= FreeFloat(z, w, t, dt) <= goal)
            && (r <= 1.0 && goal <= t ==> goal <= FreeFloat(z, w, t, dt) <= t)
  {
    hide NetGain;
    hide Equilibrium;
    hide Conductance;
    var goal, u := Equilibrium(z, w), Conductance(z, w);
    var r := Kelvin(z, u, dt);
    NetGainToEquilibrium(z, w, t);
    KelvinScales(z, u, goal - t, dt);
    KelvinOfNothing(z, dt);
    KelvinRises(z, 0.0, u, dt);
    if r <= 1.0 { ShareOf(r, goal - t); }
  }

  lemma KelvinScales(z: Zone, u: real, d: real, dt: real)
    requires Physical(z)
    ensures Kelvin(z, Mul(u, d), dt) == Mul(Kelvin(z, u, dt), d)
  {}

  lemma ShareOf(r: real, d: real)
    requires 0.0 < r <= 1.0
    ensures d >= 0.0 ==> 0.0 <= Mul(r, d) <= d
    ensures d <= 0.0 ==> d <= Mul(r, d) <= 0.0
  {}

  /** Distance from the band the plant works to hold. */
  function Discomfort(z: Zone, t: real): real {
    if t > Upper(z) then t - Upper(z) else if t < Lower(z) then Lower(z) - t else 0.0
  }

  /** Power that would bring the floating temperature exactly to the band, positive for heating. */
  function Needed(z: Zone, free: real, dt: real): real
    requires dt > 0.0
  {
    if free > Upper(z) then -Watts(z, free - Upper(z), dt)
    else if free < Lower(z) then Watts(z, Lower(z) - free, dt)
    else 0.0
  }

  lemma WattsSign(z: Zone, k: real, dt: real)
    requires Physical(z) && dt > 0.0
    ensures Watts(z, -k, dt) == -Watts(z, k, dt)
    ensures k > 0.0 ==> Watts(z, k, dt) > 0.0
  {
    var p := z.thermalMass / dt;
    assert p > 0.0;
    if k > 0.0 { assert k * p > 0.0; }
  }

  /** The plant applies the needed power, cut off at capacity; so heating and cooling never act together. */
  lemma PlantPower(z: Zone, free: real, dt: real)
    requires Physical(z) && dt > 0.0
    ensures Heating(z, free, dt) - Cooling(z, free, dt) == Clip(Needed(z, free, dt), -z.plant, z.plant)
    ensures Heating(z, free, dt) == 0.0 || Cooling(z, free, dt) == 0.0
    ensures Heating(z, free, dt) >= 0.0 && Cooling(z, free, dt) >= 0.0
  {
    hide Watts;
    WattsSign(z, free - Upper(z), dt);
    WattsSign(z, Lower(z) - free, dt);
  }

  /** Where the step would have ended had the plant applied `q` watts instead. */
  function Reached(z: Zone, free: real, q: real, dt: real): real
    requires Physical(z)
  {
    free + Kelvin(z, q, dt)
  }

  lemma NeededReachesTheBand(z: Zone, free: real, dt: real)
    requires Physical(z) && dt > 0.0
    ensures var n := Needed(z, free, dt);
            && Reached(z, free, n, dt) == Clip(free, Lower(z), Upper(z))
            && (n < 0.0 <==> free > Upper(z)) && (n > 0.0 <==> free < Lower(z))
  {
    hide Watts;
    hide Kelvin;
    WattsSign(z, free - Upper(z), dt);
    WattsSign(z, Lower(z) - free, dt);
    KelvinOfWatts(z, -(free - Upper(z)), dt);
    WattsSign(z, -(free - Upper(z)), dt);
    KelvinOfWatts(z, Lower(z) - free, dt);
    KelvinOfNothing(z, dt);
  }

  /**
   The step never crosses the band edge it aims for, and it ends in the band exactly when the needed power is
   within capacity.
   */
  lemma StepNeverOvershoots(z: Zone, w: Weather, t: real, dt: real)
    requires Physical(z) && dt > 0.0
    ensures var free, end := FreeFloat(z, w, t, dt), IntegrateSubstep(z, w, t, dt).temperature;
            && (free > Upper(z) ==> Upper(z) <= end <= free)
            && (free < Lower(z) ==> free <= end <= Lower(z))
            && (Lower(z) <= free <= Upper(z) ==> end == free)
            && (Lower(z) <= end <= Upper(z) <==> -z.plant <= Needed(z, free, dt) <= z.plant)
            && (-z.plant <= Needed(z, free, dt) <= z.plant ==> end == Clip(free, Lower(z), Upper(z)))
  {
    hide FreeFloat;
    hide NetGain;
    hide Fan;
    hide Kelvin;
    hide Watts;
    var free := FreeFloat(z, w, t, dt);
    var n := Needed(z, free, dt);
    PlantPower(z, free, dt);
    NeededReachesTheBand(z, free, dt);
    KelvinOfNothing(z, dt);
    if n > z.plant {
      KelvinRises(z, z.plant, n, dt);
      if z.plant > 0.0 { KelvinRises(z, 0.0, z.plant, dt); }
    } else if n < -z.plant {
      KelvinRises(z, n, -z.plant, dt);
      if z.plant > 0.0 { KelvinRises(z, -z.plant, 0.0, dt); }
    }
  }

  /**
   Ideal loads: no power within capacity ends closer to the band than the plant's, and none that ends as close is
   smaller.
   */
  lemma PlantIsIdeal(z: Zone, w: Weather, t: real, dt: real, q: real)
    requires Physical(z) && dt > 0.0 && -z.plant <= q <= z.plant
    ensures var free, s := FreeFloat(z, w, t, dt), IntegrateSubstep(z, w, t, dt);
            && Discomfort(z, s.temperature) <= Discomfort(z, Reached(z, free, q, dt))
            && (Discomfort(z, s.temperature) == Discomfort(z, Reached(z, free, q, dt)) ==>
                  s.heating + s.cooling <= Max(q, -q))
  {
    hide FreeFloat;
    hide NetGain;
    hide Fan;
    hide Kelvin;
    hide Watts;
    var free := FreeFloat(z, w, t, dt);
    var n := Needed(z, free, dt);
    var p := Clip(n, -z.plant, z.plant);
    PlantPower(z, free, dt);
    NeededReachesTheBand(z, free, dt);
    KelvinOfNothing(z, dt);
    assert IntegrateSubstep(z, w, t, dt).temperature == Reached(z, free, p, dt);
    if n != 0.0 {
      if q < p { KelvinRises(z, q, p, dt); } else if p < q { KelvinRises(z, p, q, dt); }
      if p < n { KelvinRises(z, p, n, dt); } else if n < p { KelvinRises(z, n, p, dt); }
    }
  }

  // ----- energy -----

  function Per(x: real, cop: real): real
    requires cop > 0.0
  {
    x / cop
  }

  lemma PerIsMonotone(x: real, y: real, cop: real)
    requires cop > 0.0 && 0.0 <= x <= y
    ensures 0.0 <= Per(x, cop) <= Per(y, cop)
  {}

  lemma LatentIsNonNegative(z: Zone, w: Weather)
    requires Physical(z)
    ensures Latent(z, w) >= 0.0
  {
    hide Mul;
    MulIsNonNegative(z.designOccupancy, OccupancyFraction(w));
    MulIsNonNegative(Occupants(z, w), z.ventilationPerPerson);
    MulIsNonNegative(Occupants(z, w), z.occupancyLatent);
    MulIsNonNegative((UaVentilation(z, w) + z.uaInfiltration) / AIR_CP, Max(w.excessHumidity, 0.0));
  }

  /**
   Loads put on the coil and the heater, and the fan's draw, are never negative; the coil carries at least the
   latent load.
   */
  lemma LoadsAreNonNegative(z: Zone, w: Weather, t: real, dt: real)
    requires Physical(z) && dt > 0.0
    ensures var s := IntegrateSubstep(z, w, t, dt);
            && 0.0 <= s.latentMet && s.cooling + s.latentMet <= s.coil && 0.0 <= s.cooling
            && 0.0 <= s.heatingNet <= s.heating && 0.0 <= s.fan <= z.fanDesign
            && (s.cooling == 0.0 ==> s.coil == 0.0)
  {
    hide Latent;
    hide FreeFloat;
    hide Cooling;
    hide Heating;
    hide FanPower;
    hide FlowFraction;
    var s := IntegrateSubstep(z, w, t, dt);
    var free := FreeFloat(z, w, t, dt);
    PlantPower(z, free, dt);
    LatentIsNonNegative(z, w);
    var running := Ventilating(z, w) || s.cooling > 0.0 || s.heating > 0.0;
    FanStaysAboveItsFloor(s.cooling, z.plant, running, Ventilating(z, w), z.fanDesign);
  }

  // ----- a run -----

  /** The accumulators of one interval. */
  datatype Totals = Totals(hvac: real, light: real, plug: real, solar: real, internal: real, envelope: real,
    ventilation: real, unmet: real, occupants: real, temp: real, latent: real, fan: real)

  const ZERO := Totals(0.0, 0.0, 0.0, 0.0, 0.0, 0.0, 0.0, 0.0, 0.0, 0.0, 0.0, 0.0)

  predicate Unmet(z: Zone, w: Weather, t: real) {
    OccupancyFraction(w) > 0.05 && (t > Upper(z) + UNMET_TOLERANCE || t < Lower(z) - UNMET_TOLERANCE)
  }

  function HvacWatts(z: Zone, s: StepResult): real
    requires Physical(z)
  {
    Per(s.coil, z.cop) + Per(s.heatingNet, z.heatingCop) + s.fan
  }

  function Add(a: Totals, z: Zone, w: Weather, s: StepResult, dt: real): Totals
    requires Physical(z)
  {
    var kwh := dt / J_PER_KWH;
    Totals(
      a.hvac + Mul(HvacWatts(z, s), kwh), a.light + Mul(s.light, kwh), a.plug + Mul(s.equip, kwh),
      a.solar + Mul(s.solar, kwh), a.internal + Mul(s.light + s.equip + s.people, kwh),
      a.envelope + Mul(s.envelope, kwh), a.ventilation + Mul(s.ventilation, kwh),
      a.unmet + (if Unmet(z, w, s.temperature) then dt / 3600.0 else 0.0),
      a.occupants + s.occupants, a.temp + s.temperature,
      a.latent + Mul(Per(s.latentMet, z.cop), kwh), a.fan + Mul(s.fan, kwh))
  }

  function TempAfter(z: Zone, t0: real, ws: seq<Weather>, dt: real): real
    requires Physical(z) && dt > 0.0
  {
    if ws == [] then t0
    else
      var n := |ws| - 1;
      IntegrateSubstep(z, ws[n], TempAfter(z, t0, ws[..n], dt), dt).temperature
  }

  function StepAt(z: Zone, t0: real, ws: seq<Weather>, dt: real, i: nat): StepResult
    requires Physical(z) && dt > 0.0 && i < |ws|
  {
    IntegrateSubstep(z, ws[i], TempAfter(z, t0, ws[..i], dt), dt)
  }

  /** Accumulated over the substeps from `first` up to, not including, `last`. */
  function Accumulated(z: Zone, t0: real, ws: seq<Weather>, dt: real, first: nat, last: nat): Totals
    requires Physical(z) && dt > 0.0 && first <= last <= |ws|
    decreases last
  {
    if first == last then ZERO
    else Add(Accumulated(z, t0, ws, dt, first, last - 1), z, ws[last - 1], StepAt(z, t0, ws, dt, last - 1), dt)
  }

  /** One result row. */
  datatype Row = Row(
    hvac: real, light: real, plug: real, total: real, carbon: real, demand: real, meanTemp: real, solar: real,
    internal: real, envelope: real, ventilation: real, meanOccupants: real, unmet: real, latent: real, fan: real)

  function RowOf(a: Totals, steps: nat, carbonFactor: real, intervalHours: real): Row
    requires steps > 0 && intervalHours > 0.0
  {
    var total := a.hvac + a.light + a.plug;
    Row(a.hvac, a.light, a.plug, total, Mul(total, carbonFactor), total / intervalHours, a.temp / steps as real, a.solar,
      a.internal, a.envelope, a.ventilation, a.occupants / steps as real, a.unmet, a.latent, a.fan)
  }

  /** Substeps consumed once `intervals` intervals of `k` substeps are done. */
  function Consumed(intervals: nat, k: nat, steps: nat): nat {
    if intervals * k < steps then intervals * k else steps
  }

  lemma NoneConsumed(k: nat, steps: nat)
    ensures Consumed(0, k, steps) == 0
  {}

  lemma ConsumedNext(intervals: nat, k: nat, steps: nat)
    ensures Consumed(intervals, k, steps) <= Consumed(intervals + 1, k, steps) <= steps
    ensures Consumed(intervals + 1, k, steps) == (if Consumed(intervals, k, steps) + k < steps then Consumed(intervals, k, steps) + k else steps)
  {
    assert (intervals + 1) * k == intervals * k + k;
  }

  datatype Setup = Setup(z: Zone, dt: real, carbonFactor: real, intervalHours: real)

  predicate Valid(c: Setup) { Physical(c.z) && c.dt > 0.0 && c.intervalHours > 0.0 }

  function Rows(c: Setup, ws: seq<Weather>, intervals: nat, k: nat): seq<Row>
    requires Valid(c)
  {
    if intervals == 0 then []
    else
      var first, last := Consumed(intervals - 1, k, |ws|), Consumed(intervals, k, |ws|);
      ConsumedNext(intervals - 1, k, |ws|);
      var a := Accumulated(c.z, c.z.setpoint, ws, c.dt, first, last);
      Rows(c, ws, intervals - 1, k)
      + (if first == last then [] else [RowOf(a, last - first, c.carbonFactor, c.intervalHours)])
  }

  /** The accumulation loop: one row per interval that still had a timestep left, starting at the setpoint. */
  method Run(c: Setup, ws: seq<Weather>, intervals: nat, k: nat) returns (rows: seq<Row>, temperature: real)
    requires Valid(c) && k > 0
    ensures rows == Rows(c, ws, intervals, k)
    ensures temperature == TempAfter(c.z, c.z.setpoint, ws[..Consumed(intervals, k, |ws|)], c.dt)
  {
    hide IntegrateSubstep;
    hide Add;
    hide RowOf;
    hide Consumed;
    NoneConsumed(k, |ws|);
    temperature, rows := c.z.setpoint, [];
    var stepIndex := 0;
    ghost var t0 := c.z.setpoint;
    var interval := 0;
    while interval < intervals
      invariant interval <= intervals && stepIndex == Consumed(interval, k, |ws|) <= |ws|
      invariant rows == Rows(c, ws, interval, k)
      invariant temperature == TempAfter(c.z, t0, ws[..stepIndex], c.dt)
    {
      ConsumedNext(interval, k, |ws|);
      var acc, stepsDone := ZERO, 0;
      ghost var first := stepIndex;
      while stepsDone < k && stepIndex < |ws|
        invariant stepsDone <= k && stepIndex == first + stepsDone <= |ws|
        invariant acc == Accumulated(c.z, t0, ws, c.dt, first, stepIndex)
        invariant temperature == TempAfter(c.z, t0, ws[..stepIndex], c.dt)
      {
        assert ws[..stepIndex + 1][..stepIndex] == ws[..stepIndex];
        var step := IntegrateSubstep(c.z, ws[stepIndex], temperature, c.dt);
        temperature := step.temperature;
        acc := Add(acc, c.z, ws[stepIndex], step, c.dt);
        stepIndex, stepsDone := stepIndex + 1, stepsDone + 1;
      }
      assert stepIndex == Consumed(interval + 1, k, |ws|);
      if stepsDone == 0 {
        NothingLeft(c, ws, interval, intervals, k);
        return;
      }
      rows := rows + [RowOf(acc, stepsDone, c.carbonFactor, c.intervalHours)];
      interval := interval + 1;
    }
  }

  lemma {:induction false} NothingLeft(c: Setup, ws: seq<Weather>, done: nat, intervals: nat, k: nat)
    requires Valid(c) && k > 0 && done <= intervals && Consumed(done, k, |ws|) == |ws|
    ensures Rows(c, ws, done, k) == Rows(c, ws, intervals, k) && Consumed(intervals, k, |ws|) == |ws|
  {
    hide Accumulated;
    hide RowOf;
    hide Consumed;
    if done < intervals {
      NothingLeft(c, ws, done, intervals - 1, k);
      ConsumedNext(intervals - 1, k, |ws|);
    }
  }

  // ----- what a whole run keeps -----

  function HeatFlow(z: Zone, t0: real, ws: seq<Weather>, dt: real): real
    requires Physical(z) && dt > 0.0
  {
    if ws == [] then 0.0
    else
      var n := |ws| - 1;
      var s := IntegrateSubstep(z, ws[n], TempAfter(z, t0, ws[..n], dt), dt);
      HeatFlow(z, t0, ws[..n], dt) + Mul(s.netGain + s.heating - s.cooling, dt)
  }

  /** Over any run the heat stored in the zone is all the heat that flowed in. */
  lemma {:induction false} RunStoresItsHeat(z: Zone, t0: real, ws: seq<Weather>, dt: real)
    requires Physical(z) && dt > 0.0
    ensures Mul(z.thermalMass, TempAfter(z, t0, ws, dt) - t0) == HeatFlow(z, t0, ws, dt)
  {
    hide Mul;
    hide IntegrateSubstep;
    if ws == [] {
      MulUnits(z.thermalMass);
    } else {
      var n := |ws| - 1;
      var t := TempAfter(z, t0, ws[..n], dt);
      RunStoresItsHeat(z, t0, ws[..n], dt);
      StepStoresItsHeat(z, ws[n], t, dt);
      Distribute(z.thermalMass, t - t0, TempAfter(z, t0, ws, dt) - t);
    }
  }

  /** Latent and fan energy are parts of HVAC energy, and nothing is negative. */
  predicate Nested(a: Totals) {
    && 0.0 <= a.latent && 0.0 <= a.fan && a.latent + a.fan <= a.hvac
    && 0.0 <= a.light && 0.0 <= a.plug && 0.0 <= a.unmet
  }

  lemma LightAndPlugAreNonNegative(z: Zone, w: Weather)
    requires Physical(z)
    ensures Light(z, w) >= 0.0 && Equip(z, w) >= 0.0
  {
    hide Mul;
    MulIsNonNegative(z.lighting, Max(OccupancyFraction(w), MIN_LIGHTING));
    MulIsNonNegative(z.equipment, PLUG_STANDBY + (1.0 - PLUG_STANDBY) * OccupancyFraction(w));
  }

  lemma StepIsNested(z: Zone, w: Weather, t: real, dt: real)
    requires Physical(z) && dt > 0.0
    ensures var s := IntegrateSubstep(z, w, t, dt);
            0.0 <= Per(s.latentMet, z.cop) && 0.0 <= s.fan && Per(s.latentMet, z.cop) + s.fan <= HvacWatts(z, s)
  {
    hide Per;
    hide IntegrateSubstep;
    var s := IntegrateSubstep(z, w, t, dt);
    LoadsAreNonNegative(z, w, t, dt);
    PerIsMonotone(s.latentMet, s.coil, z.cop);
    PerIsMonotone(0.0, s.heatingNet, z.heatingCop);
  }

  lemma AddIsNested(a: Totals, z: Zone, w: Weather, t: real, dt: real)
    requires Physical(z) && dt > 0.0 && Nested(a)
    ensures Nested(Add(a, z, w, IntegrateSubstep(z, w, t, dt), dt))
  {
    hide Mul;
    hide Per;
    hide Unmet;
    hide HvacWatts;
    var s := IntegrateSubstep(z, w, t, dt);
    var kwh := dt / J_PER_KWH;
    StepIsNested(z, w, t, dt);
    LightAndPlugAreNonNegative(z, w);
    var latent := Per(s.latentMet, z.cop);
    MulIsNonNegative(latent, kwh);
    MulIsNonNegative(s.fan, kwh);
    MulIsNonNegative(s.light, kwh);
    MulIsNonNegative(s.equip, kwh);
    MulIsNonNegative(HvacWatts(z, s) - latent - s.fan, kwh);
    SplitLeft(HvacWatts(z, s) - latent - s.fan, latent, s.fan, kwh);
  }

  lemma SplitLeft(x: real, y: real, z: real, k: real)
    ensures Mul(x + y + z, k) == Mul(x, k) + Mul(y, k) + Mul(z, k)
  {}

  lemma {:induction false} AccumulatedIsNested(z: Zone, t0: real, ws: seq<Weather>, dt: real, first: nat, last: nat)
    requires Physical(z) && dt > 0.0 && first <= last <= |ws|
    ensures Nested(Accumulated(z, t0, ws, dt, first, last))
    decreases last
  {
    hide IntegrateSubstep;
    hide Add;
    if first < last {
      AccumulatedIsNested(z, t0, ws, dt, first, last - 1);
      AddIsNested(Accumulated(z, t0, ws, dt, first, last - 1), z, ws[last - 1], TempAfter(z, t0, ws[..last - 1], dt), dt);
    }
  }

  /** In every row of every run: 0 <= latent + fan <= hvac <= total. */
  lemma {:induction false} RowsAreNested(c: Setup, ws: seq<Weather>, intervals: nat, k: nat)
    requires Valid(c)
    ensures forall r :: r in Rows(c, ws, intervals, k) ==>
              0.0 <= r.latent && 0.0 <= r.fan && r.latent + r.fan <= r.hvac <= r.total && 0.0 <= r.unmet
  {
    hide Accumulated;
    if intervals > 0 {
      RowsAreNested(c, ws, intervals - 1, k);
      var first, last := Consumed(intervals - 1, k, |ws|), Consumed(intervals, k, |ws|);
      ConsumedNext(intervals - 1, k, |ws|);
      AccumulatedIsNested(c.z, c.z.setpoint, ws, c.dt, first, last);
    }
  }

  /** The plant could hold the band in step `i` of the run. */
  predicate WithinCapacity(z: Zone, t0: real, ws: seq<Weather>, dt: real, i: nat)
    requires Physical(z) && dt > 0.0 && i < |ws|
  {
    -z.plant <= Needed(z, FreeFloat(z, ws[i], TempAfter(z, t0, ws[..i], dt), dt), dt) <= z.plant
  }

  /**
   An interval in which the plant always could hold the band has no unmet time, and every temperature summed lies
   in the band.
   */
  lemma {:induction false} NoUnmetWithinCapacity(z: Zone, t0: real, ws: seq<Weather>, dt: real, first: nat, last: nat)
    requires Physical(z) && dt > 0.0 && first <= last <= |ws|
    requires forall i :: first <= i < last ==> WithinCapacity(z, t0, ws, dt, i)
    ensures var a := Accumulated(z, t0, ws, dt, first, last);
            && a.unmet == 0.0
            && Mul((last - first) as real, Lower(z)) <= a.temp <= Mul((last - first) as real, Upper(z))
    decreases last
  {
    hide IntegrateSubstep;
    hide Mul;
    hide FreeFloat;
    hide Needed;
    if first == last {
      MulUnits(Lower(z));
      MulUnits(Upper(z));
    } else {
      NoUnmetWithinCapacity(z, t0, ws, dt, first, last - 1);
      assert WithinCapacity(z, t0, ws, dt, last - 1);
      StepNeverOvershoots(z, ws[last - 1], TempAfter(z, t0, ws[..last - 1], dt), dt);
      OneMore((last - 1 - first) as real, Lower(z));
      OneMore((last - 1 - first) as real, Upper(z));
    }
  }

  lemma MeanWithin(sum: real, n: real, lo: real, hi: real)
    requires n > 0.0 && Mul(n, lo) <= sum <= Mul(n, hi)
    ensures lo <= sum / n <= hi
  {
    var m := sum / n;
    assert sum == n * m;
    NonNegativeFactor(n, m - lo);
    NonNegativeFactor(n, hi - m);
  }

  lemma NonNegativeFactor(n: real, x: real)
    requires n > 0.0 && n * x >= 0.0
    ensures x >= 0.0
  {}

  /**
   If every step's required power is within capacity, no row shows unmet time and every row's mean temperature is
   in the band.
   */
  lemma {:induction false} AdequatePlantMeetsTheBand(c: Setup, ws: seq<Weather>, intervals: nat, k: nat)
    requires Valid(c)
    requires forall i :: 0 <= i < |ws| ==> WithinCapacity(c.z, c.z.setpoint, ws, c.dt, i)
    ensures forall r :: r in Rows(c, ws, intervals, k) ==> r.unmet == 0.0 && Lower(c.z) <= r.meanTemp <= Upper(c.z)
  {
    hide Accumulated;
    hide WithinCapacity;
    hide Mul;
    if intervals > 0 {
      AdequatePlantMeetsTheBand(c, ws, intervals - 1, k);
      var first, last := Consumed(intervals - 1, k, |ws|), Consumed(intervals, k, |ws|);
      ConsumedNext(intervals - 1, k, |ws|);
      NoUnmetWithinCapacity(c.z, c.z.setpoint, ws, c.dt, first, last);
      if first < last {
        var a := Accumulated(c.z, c.z.setpoint, ws, c.dt, first, last);
        MeanWithin(a.temp, (last - first) as real, Lower(c.z), Upper(c.z));
      }
    }
  }

  // ----- nothing is counted twice or lost between intervals -----

  function Plus(a: Totals, b: Totals): Totals {
    Totals(a.hvac + b.hvac, a.light + b.light, a.plug + b.plug, a.solar + b.solar, a.internal + b.internal,
      a.envelope + b.envelope, a.ventilation + b.ventilation, a.unmet + b.unmet, a.occupants + b.occupants,
      a.temp + b.temp, a.latent + b.latent, a.fan + b.fan)
  }

  lemma {:induction false} AccumulatedJoins(z: Zone, t0: real, ws: seq<Weather>, dt: real, first: nat, mid: nat, last: nat)
    requires Physical(z) && dt > 0.0 && first <= mid <= last <= |ws|
    ensures Accumulated(z, t0, ws, dt, first, last)
            == Plus(Accumulated(z, t0, ws, dt, first, mid), Accumulated(z, t0, ws, dt, mid, last))
    decreases last
  {
    hide IntegrateSubstep;
    hide Mul;
    hide Unmet;
    hide HvacWatts;
    if mid < last {
      AccumulatedJoins(z, t0, ws, dt, first, mid, last - 1);
    }
  }

  function SumRows(rows: seq<Row>): (t: Totals) {
    if rows == [] then ZERO
    else
      var r := rows[|rows| - 1];
      Plus(SumRows(rows[..|rows| - 1]),
        Totals(r.hvac, r.light, r.plug, r.solar, r.internal, r.envelope, r.ventilation, r.unmet, 0.0, 0.0, r.latent, r.fan))
  }

  /** Occupants and temperature are reported as means, so they do not add up over rows. */
  function Additive(t: Totals): Totals { t.(occupants := 0.0, temp := 0.0) }

  /** The rows add up to everything accumulated over the timesteps consumed. */
  lemma {:induction false} RowsAddUp(c: Setup, ws: seq<Weather>, intervals: nat, k: nat)
    requires Valid(c)
    ensures SumRows(Rows(c, ws, intervals, k))
            == Additive(Accumulated(c.z, c.z.setpoint, ws, c.dt, 0, Consumed(intervals, k, |ws|)))
  {
    NoneConsumed(k, |ws|);
    if intervals > 0 {
      RowsAddUp(c, ws, intervals - 1, k);
      ConsumedNext(intervals - 1, k, |ws|);
      RowsAddUpStep(c, ws, intervals, k);
    }
  }

  lemma RowsAddUpStep(c: Setup, ws: seq<Weather>, intervals: nat, k: nat)
    requires Valid(c) && intervals > 0
    requires SumRows(Rows(c, ws, intervals - 1, k))
             == Additive(Accumulated(c.z, c.z.setpoint, ws, c.dt, 0, Consumed(intervals - 1, k, |ws|)))
    requires Consumed(intervals - 1, k, |ws|) <= Consumed(intervals, k, |ws|) <= |ws|
    ensures SumRows(Rows(c, ws, intervals, k))
            == Additive(Accumulated(c.z, c.z.setpoint, ws, c.dt, 0, Consumed(intervals, k, |ws|)))
  {
    hide Accumulated;
    hide Consumed;
    hide Mul;
    var first, last := Consumed(intervals - 1, k, |ws|), Consumed(intervals, k, |ws|);
    AccumulatedJoins(c.z, c.z.setpoint, ws, c.dt, 0, first, last);
    var before := Rows(c, ws, intervals - 1, k);
    if first < last {
      var row := RowOf(Accumulated(c.z, c.z.setpoint, ws, c.dt, first, last), last - first, c.carbonFactor, c.intervalHours);
      assert Rows(c, ws, intervals, k) == before + [row];
      assert (before + [row])[..|before|] == before;
    } else {
      assert Rows(c, ws, intervals, k) == before;
    }
  }

  /** The start times of a run's intervals, or of its timesteps. */
  function Timeline(start: int, end: int, step: int): (stamps: seq<int>)
    requires step > 0
    decreases end - start
  {
    if start < end then [start] + Timeline(start + step, end, step) else []
  }

  method BuildTimeline(start: int, end: int, step: int) returns (stamps: seq<int>)
    requires step > 0
    ensures stamps == Timeline(start, end, step)
  {
    stamps := [];
    var cursor := start;
    while cursor < end
      invariant stamps + Timeline(cursor, end, step) == Timeline(start, end, step)
      decreases end - cursor
    {
      stamps := stamps + [cursor];
      cursor := cursor + step;
    }
  }

  lemma {:induction false} TimelineLength(start: int, end: int, step: int)
    requires step > 0 && start <= end
    ensures var n := |Timeline(start, end, step)|;
            (n - 1) * step < end - start <= n * step
    decreases end - start
  {
    if start < end {
      if start + step <= end {
        TimelineLength(start + step, end, step);
      } else {
        assert Timeline(start + step, end, step) == [];
      }
    }
  }

  /** Timesteps per interval, as the run computes them. */
  function PerInterval(intervalS: int, substepS: int): nat
    requires 0 < substepS <= intervalS
  {
    var k := intervalS / substepS;
    if k < 1 then 1 else k
  }

  ghost predicate AllConsumed(start: int, end: int, intervalS: int, substepS: int)
    requires 0 < substepS <= intervalS && start <= end
  {
    var steps := |Timeline(start, end, substepS)|;
    Consumed(|Timeline(start, end, intervalS)|, PerInterval(intervalS, substepS), steps) == steps
  }

  /**
   Every timestep of every period ends up in a row exactly when the substep divides the interval. Otherwise the
   last timesteps are never simulated.
   */
  lemma TimestepsAreAllConsumedExactly(intervalS: int, substepS: int)
    requires 0 < substepS <= intervalS
    ensures (forall start, end :: start <= end ==> AllConsumed(start, end, intervalS, substepS)) <==> intervalS % substepS == 0
  {
    if intervalS % substepS == 0 {
      forall start, end | start <= end ensures AllConsumed(start, end, intervalS, substepS) {
        DivisorConsumesAll(start, end, intervalS, substepS);
      }
    } else {
      OneIntervalLosesATimestep(intervalS, substepS);
      assert !AllConsumed(0, intervalS, intervalS, substepS);
    }
  }

  lemma DivisorConsumesAll(start: int, end: int, intervalS: int, substepS: int)
    requires 0 < substepS <= intervalS && start <= end && intervalS % substepS == 0
    ensures AllConsumed(start, end, intervalS, substepS)
  {
    var steps, intervals, k := |Timeline(start, end, substepS)|, |Timeline(start, end, intervalS)|, intervalS / substepS;
    TimelineLength(start, end, substepS);
    TimelineLength(start, end, intervalS);
    Regroup(intervals, k, substepS);
    SmallerFactor(steps - 1, intervals * k, substepS);
  }

  lemma Regroup(intervals: int, k: int, substepS: int)
    ensures intervals * (k * substepS) == (intervals * k) * substepS
  {}

  lemma SmallerFactor(a: int, b: int, s: int)
    requires s > 0 && a * s < b * s
    ensures a < b
  {
    assert (b - a) * s > 0;
  }

  lemma OneIntervalLosesATimestep(intervalS: int, substepS: int)
    requires 0 < substepS <= intervalS && intervalS % substepS != 0
    ensures !AllConsumed(0, intervalS, intervalS, substepS)
  {
    var steps, k := |Timeline(0, intervalS, substepS)|, intervalS / substepS;
    TimelineLength(0, intervalS, substepS);
    assert Timeline(0, intervalS, intervalS) == [0] + Timeline(intervalS, intervalS, intervalS) == [0];
    SmallerFactor(k, steps, substepS);
  }
}
