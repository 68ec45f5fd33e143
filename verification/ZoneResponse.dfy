/**
 How a zone answers its inputs: the balance with every term written out, the comparison of two
 zones under two weathers, and what the energy figures of a run are sums of.
 */
module ZoneResponse {
  import opened Products
  import opened ZoneEngine

  // ----- the balance written out -----

  /** Everything that warms the zone at temperature `t` before its plant acts, in watts. */
  ghost function Gain(z: Zone, w: Weather, t: real): real {
    var occupied := if w.occupancy < 0.0 then 0.0 else if w.occupancy > 1.0 then 1.0 else w.occupancy;
    var people := z.designOccupancy * occupied;
    var difference := w.tOut - t;
    z.windowArea * z.shgc * w.irradiance
    + z.lighting * (if occupied > 0.05 then occupied else 0.05)
    + z.equipment * (0.3 + 0.7 * occupied)
    + people * z.occupancyGain
    + z.uaEnvelope * difference
    + z.uaInfiltration * difference
    + people * z.ventilationPerPerson * 1.2 * 1005.0 * difference
    + (if people > 0.0 then z.fanDesign * FanShare(0.3) else 0.0)
  }

  /** The share of its design power a fan draws at a share of its design flow. */
  function FanShare(flow: real): real { 0.0013 + 0.1470 * flow + 0.9506 * flow * flow - 0.0998 * flow * flow * flow }

  lemma FanShareIsTheCurve(flow: real)
    requires 0.0 <= flow <= 1.0
    ensures PartLoadPowerFraction(flow) == FanShare(flow)
  {}

  /** The model's net gain is this sum: sun, lights, equipment, people, walls, leaks, ventilation and the running fan. */
  lemma GainIsEveryTerm(z: Zone, w: Weather, t: real)
    ensures NetGain(z, w, t) == Gain(z, w, t)
  {
    FanShareIsTheCurve(0.3);
    hide PartLoadPowerFraction;
    hide FanShare;
    var occ := OccupancyFraction(w);
    assert Light(z, w) == z.lighting * (if occ > 0.05 then occ else 0.05);
    assert Equip(z, w) == z.equipment * (0.3 + 0.7 * occ);
  }

  /**
   One substep: heat capacity times the change in temperature is the time times all that warmed the zone, and what the plant
   added or took away.
   */
  lemma StepBalances(z: Zone, w: Weather, t: real, dt: real)
    requires Physical(z) && dt > 0.0
    ensures var s := IntegrateSubstep(z, w, t, dt);
            z.thermalMass * (s.temperature - t) == (Gain(z, w, t) + s.heating - s.cooling) * dt
  {
    hide Gain;
    hide NetGain;
    hide Kelvin;
    hide FreeFloat;
    hide Fan;
    hide Cooling;
    hide Heating;
    GainIsEveryTerm(z, w, t);
    StepStoresItsHeat(z, w, t, dt);
  }

  // ----- loads written out -----

  ghost function Share(load: real, capacity: real): real {
    var share := if capacity > 0.0 then load / capacity else 0.0;
    if share < 0.3 then 0.3 else if share > 1.0 then 1.0 else share
  }

  /**
   What the step puts on fan, coil and heater. A fan runs while people are present or the plant acts, at the flow of its sensible
   cooling load and at least at 30 %; all heat it adds beyond the ventilation floor goes to the coil, or spares the heater.
   */
  lemma LoadsWrittenOut(z: Zone, w: Weather, t: real, dt: real)
    requires Physical(z) && dt > 0.0
    ensures var s := IntegrateSubstep(z, w, t, dt);
            var people := s.occupants;
            var floor := if people > 0.0 then z.fanDesign * FanShare(0.3) else 0.0;
            && (s.fan == if people > 0.0 || s.cooling > 0.0 || s.heating > 0.0 then z.fanDesign * FanShare(Share(s.cooling, z.plant)) else 0.0)
            && (s.cooling > 0.0 ==> s.coil == s.cooling + s.latentMet + (s.fan - floor) && s.heatingNet == 0.0)
            && (s.cooling == 0.0 ==> s.coil == 0.0 && s.latentMet == 0.0)
            && (s.heating > 0.0 ==> s.heatingNet == if s.heating >= s.fan - floor then s.heating - (s.fan - floor) else 0.0)
            && (s.heating == 0.0 ==> s.heatingNet == 0.0)
  {
    hide FreeFloat;
    hide NetGain;
    hide Latent;
    hide Watts;
    hide Kelvin;
    var free := FreeFloat(z, w, t, dt);
    PlantPower(z, free, dt);
    hide Cooling;
    hide Heating;
    var s := IntegrateSubstep(z, w, t, dt);
    FanShareIsTheCurve(0.3);
    FanShareIsTheCurve(Share(s.cooling, z.plant));
    hide PartLoadPowerFraction;
    hide FanShare;
  }

  /** Moisture from outdoor air and from people, taken out only while the coil runs. */
  lemma LatentWrittenOut(z: Zone, w: Weather, t: real, dt: real)
    requires Physical(z) && dt > 0.0
    ensures var s := IntegrateSubstep(z, w, t, dt);
            var people := s.occupants;
            var air := (people * z.ventilationPerPerson * 1.2 * 1005.0 + z.uaInfiltration) / 1005.0;
            && people == z.designOccupancy * (if w.occupancy < 0.0 then 0.0 else if w.occupancy > 1.0 then 1.0 else w.occupancy)
            && (s.cooling > 0.0 ==>
                  s.latentMet == air * (if w.excessHumidity > 0.0 then w.excessHumidity else 0.0) * 2450000.0 + people * z.occupancyLatent)
  {
    hide FreeFloat;
    hide NetGain;
    hide Cooling;
    hide Heating;
    hide Fan;
    hide Kelvin;
    hide FanFloor;
  }

  // ----- comparing two zones -----

  /** At least as warm and as sunny, and otherwise the same. */
  predicate NoColder(v: Weather, w: Weather) {
    v.tOut <= w.tOut && v.irradiance <= w.irradiance && v.occupancy == w.occupancy
  }

  /** The substep is short enough for the zone not to overshoot its equilibrium. */
  predicate Stable(z: Zone, w: Weather, dt: real)
    requires Physical(z)
  {
    Kelvin(z, Conductance(z, w), dt) <= 1.0
  }

  lemma GainRises(z: Zone, v: Weather, w: Weather, t: real)
    requires Physical(z) && NoColder(v, w)
    ensures NetGain(z, v, v.tOut) <= NetGain(z, w, w.tOut) && Conductance(z, v) == Conductance(z, w) >= 0.0
  {
    hide FanFloor;
    MulIsNonNegative(z.windowArea, z.shgc);
    MulRises(Mul(z.windowArea, z.shgc), v.irradiance, w.irradiance);
    MulIsNonNegative(z.designOccupancy, OccupancyFraction(w));
    MulIsNonNegative(Occupants(z, w), z.ventilationPerPerson);
    hide Mul;
    MulUnits(z.uaEnvelope);
    MulUnits(z.uaInfiltration);
    MulUnits(UaVentilation(z, w));
  }

  /** Where the zone floats to is no lower under the warmer weather from the warmer start. */
  lemma FreeFloatRises(z: Zone, v: Weather, w: Weather, t: real, u: real, dt: real)
    requires Physical(z) && dt > 0.0 && NoColder(v, w) && t <= u && Stable(z, w, dt)
    ensures FreeFloat(z, v, t, dt) <= FreeFloat(z, w, u, dt)
  {
    var c := Conductance(z, w);
    GainRises(z, v, w, t);
    NetGainIsLinear(z, v, t);
    NetGainIsLinear(z, w, u);
    hide NetGain;
    hide Conductance;
    hide Stable;
    var g, h := NetGain(z, v, v.tOut), NetGain(z, w, w.tOut);
    FloatAffine(z, g, c, v.tOut, t, dt);
    FloatAffine(z, h, c, w.tOut, u, dt);
    var r := Kelvin(z, c, dt);
    assert r <= 1.0 by { StableMeans(z, w, dt); }
    KelvinNotNegative(z, c, dt);
    if g < h { KelvinRises(z, g, h, dt); }
    hide Kelvin;
    Mix(r, t, u, v.tOut, w.tOut);
  }

  lemma StableMeans(z: Zone, w: Weather, dt: real)
    requires Physical(z) && Stable(z, w, dt)
    ensures Kelvin(z, Conductance(z, w), dt) <= 1.0
  {}

  lemma KelvinNotNegative(z: Zone, c: real, dt: real)
    requires Physical(z) && dt > 0.0 && c >= 0.0
    ensures Kelvin(z, c, dt) >= 0.0
  {
    KelvinOfNothing(z, dt);
    if c > 0.0 { KelvinRises(z, 0.0, c, dt); }
  }

  /** The float as a mean of where the zone is and what is outside, plus what the gains add. */
  lemma FloatAffine(z: Zone, g: real, c: real, tOut: real, t: real, dt: real)
    requires Physical(z)
    ensures t + Kelvin(z, g - Mul(c, t - tOut), dt) == t - Mul(Kelvin(z, c, dt), t - tOut) + Kelvin(z, g, dt)
  {
    KelvinAdds(z, g - Mul(c, t - tOut), Mul(c, t - tOut), dt);
    KelvinScales(z, c, t - tOut, dt);
  }

  lemma Mix(r: real, t: real, u: real, a: real, b: real)
    requires 0.0 <= r <= 1.0 && t <= u && a <= b
    ensures t - Mul(r, t - a) <= u - Mul(r, u - b)
  {
    assert (1.0 - r) * (u - t) >= 0.0;
    assert r * (b - a) >= 0.0;
  }

  /** Where the step ends, as a function of where the zone would float: towards the band, as far as the plant reaches. */
  ghost function Landing(z: Zone, free: real, reach: real): real {
    if free > Upper(z) then (if free - reach > Upper(z) then free - reach else Upper(z))
    else if free < Lower(z) then (if free + reach < Lower(z) then free + reach else Lower(z))
    else free
  }

  lemma StepLands(z: Zone, w: Weather, t: real, dt: real)
    requires Physical(z) && dt > 0.0
    ensures IntegrateSubstep(z, w, t, dt).temperature == Landing(z, FreeFloat(z, w, t, dt), Kelvin(z, z.plant, dt))
  {
    hide FreeFloat;
    hide NetGain;
    hide Fan;
    hide Kelvin;
    hide Watts;
    var free := FreeFloat(z, w, t, dt);
    var n := Needed(z, free, dt);
    PlantPower(z, free, dt);
    NeededReachesTheBand(z, free, dt);
    KelvinOfNothing(z, dt);
    KelvinAdds(z, z.plant, -z.plant, dt);
    if n > z.plant {
      KelvinRises(z, z.plant, n, dt);
    } else if n < -z.plant {
      KelvinRises(z, n, -z.plant, dt);
    } else {
      if n < z.plant { KelvinRises(z, n, z.plant, dt); }
      if -z.plant < n { KelvinRises(z, -z.plant, n, dt); }
    }
  }

  lemma LandingRises(z: Zone, free: real, other: real, reach: real)
    requires Physical(z) && reach >= 0.0 && free <= other
    ensures Landing(z, free, reach) <= Landing(z, other, reach)
  {}

  /** More sun, a warmer day or a warmer start never leave the zone colder after a substep, plant and all. */
  lemma WarmerNeverCools(z: Zone, v: Weather, w: Weather, t: real, u: real, dt: real)
    requires Physical(z) && dt > 0.0 && NoColder(v, w) && t <= u && Stable(z, w, dt)
    ensures IntegrateSubstep(z, v, t, dt).temperature <= IntegrateSubstep(z, w, u, dt).temperature
  {
    hide IntegrateSubstep;
    hide FreeFloat;
    hide Landing;
    StepLands(z, v, t, dt);
    StepLands(z, w, u, dt);
    FreeFloatRises(z, v, w, t, u, dt);
    KelvinNotNegative(z, z.plant, dt);
    hide Kelvin;
    LandingRises(z, FreeFloat(z, v, t, dt), FreeFloat(z, w, u, dt), Kelvin(z, z.plant, dt));
  }

  /** Nor after any number of substeps: of two runs with the same people, the warmer one is warmer throughout. */
  lemma {:induction false} RunsCompare(z: Zone, t0: real, u0: real, vs: seq<Weather>, ws: seq<Weather>, dt: real)
    requires Physical(z) && dt > 0.0 && t0 <= u0 && |vs| == |ws|
    requires forall i :: 0 <= i < |ws| ==> NoColder(vs[i], ws[i]) && Stable(z, ws[i], dt)
    ensures TempAfter(z, t0, vs, dt) <= TempAfter(z, u0, ws, dt)
  {
    hide IntegrateSubstep;
    hide NoColder;
    hide Stable;
    if vs != [] {
      var n := |vs| - 1;
      RunsCompare(z, t0, u0, vs[..n], ws[..n], dt);
      WarmerNeverCools(z, vs[n], ws[n], TempAfter(z, t0, vs[..n], dt), TempAfter(z, u0, ws[..n], dt), dt);
    }
  }

  // ----- what the figures of a row are sums of -----

  datatype Figure = Hvac | Lights | Plugs | Sun | Inside | Walls | Air | Moisture | Fans

  /** What a figure counts, in watts: electricity for the first three and the last two, heat for the others. */
  ghost function Watt(z: Zone, s: StepResult, f: Figure): real
    requires Physical(z)
  {
    match f
    case Hvac => s.coil / z.cop + s.heatingNet / z.heatingCop + s.fan
    case Lights => s.light
    case Plugs => s.equip
    case Sun => s.solar
    case Inside => s.light + s.equip + s.people
    case Walls => s.envelope
    case Air => s.ventilation
    case Moisture => s.latentMet / z.cop
    case Fans => s.fan
  }

  /** Kilowatt hours of a figure over the substeps from `first` up to, not including, `last`. */
  ghost function Energy(z: Zone, t0: real, ws: seq<Weather>, dt: real, first: nat, last: nat, f: Figure): real
    requires Physical(z) && dt > 0.0 && first <= last <= |ws|
    decreases last
  {
    if first == last then 0.0
    else Energy(z, t0, ws, dt, first, last - 1, f) + Mul(Watt(z, StepAt(z, t0, ws, dt, last - 1), f), dt / 3600000.0)
  }

  /** Somebody is there, and it is more than half a kelvin outside the band. */
  predicate Uncomfortable(z: Zone, w: Weather, t: real) {
    w.occupancy > 0.05 && (t > z.setpoint + z.deadband / 2.0 + 0.5 || t < z.setpoint - z.deadband / 2.0 - 0.5)
  }

  ghost function UncomfortableSteps(z: Zone, t0: real, ws: seq<Weather>, dt: real, first: nat, last: nat): nat
    requires Physical(z) && dt > 0.0 && first <= last <= |ws|
    decreases last
  {
    if first == last then 0
    else
      UncomfortableSteps(z, t0, ws, dt, first, last - 1)
      + (if Uncomfortable(z, ws[last - 1], StepAt(z, t0, ws, dt, last - 1).temperature) then 1 else 0)
  }

  ghost function Temperatures(z: Zone, t0: real, ws: seq<Weather>, dt: real, first: nat, last: nat): real
    requires Physical(z) && dt > 0.0 && first <= last <= |ws|
    decreases last
  {
    if first == last then 0.0 else Temperatures(z, t0, ws, dt, first, last - 1) + StepAt(z, t0, ws, dt, last - 1).temperature
  }

  ghost function People(z: Zone, t0: real, ws: seq<Weather>, dt: real, first: nat, last: nat): real
    requires Physical(z) && dt > 0.0 && first <= last <= |ws|
    decreases last
  {
    if first == last then 0.0 else People(z, t0, ws, dt, first, last - 1) + StepAt(z, t0, ws, dt, last - 1).occupants
  }

  lemma UnmetIsUncomfortable(z: Zone, w: Weather, t: real)
    ensures ZoneEngine.Unmet(z, w, t) <==> Uncomfortable(z, w, t)
  {}

  /** The accumulator of a figure. */
  ghost function Of(a: Totals, f: Figure): real {
    match f
    case Hvac => a.hvac
    case Lights => a.light
    case Plugs => a.plug
    case Sun => a.solar
    case Inside => a.internal
    case Walls => a.envelope
    case Air => a.ventilation
    case Moisture => a.latent
    case Fans => a.fan
  }

  lemma {:induction false} FigureIsEnergy(z: Zone, t0: real, ws: seq<Weather>, dt: real, first: nat, last: nat, f: Figure)
    requires Physical(z) && dt > 0.0 && first <= last <= |ws|
    ensures Of(Accumulated(z, t0, ws, dt, first, last), f) == Energy(z, t0, ws, dt, first, last, f)
    decreases last
  {
    if first < last {
      hide IntegrateSubstep;
      hide StepAt;
      FigureIsEnergy(z, t0, ws, dt, first, last - 1, f);
      AddFigure(Accumulated(z, t0, ws, dt, first, last - 1), z, ws[last - 1], StepAt(z, t0, ws, dt, last - 1), dt, f);
      hide Add;
      hide Of;
      hide Watt;
      hide Mul;
    }
  }

  lemma {:induction false} OthersAreSums(z: Zone, t0: real, ws: seq<Weather>, dt: real, first: nat, last: nat)
    requires Physical(z) && dt > 0.0 && first <= last <= |ws|
    ensures var a := Accumulated(z, t0, ws, dt, first, last);
            && a.unmet == Mul(UncomfortableSteps(z, t0, ws, dt, first, last) as real, dt / 3600.0)
            && a.temp == Temperatures(z, t0, ws, dt, first, last) && a.occupants == People(z, t0, ws, dt, first, last)
    decreases last
  {
    if first < last {
      hide IntegrateSubstep;
      hide StepAt;
      OthersAreSums(z, t0, ws, dt, first, last - 1);
      AddCounts(Accumulated(z, t0, ws, dt, first, last - 1), z, ws[last - 1], StepAt(z, t0, ws, dt, last - 1), dt);
      hide Add;
      hide Mul;
      hide Uncomfortable;
      OneMore(UncomfortableSteps(z, t0, ws, dt, first, last - 1) as real, dt / 3600.0);
    } else {
      MulUnits(dt / 3600.0);
    }
  }

  lemma TotalsAreSums(z: Zone, t0: real, ws: seq<Weather>, dt: real, first: nat, last: nat)
    requires Physical(z) && dt > 0.0 && first <= last <= |ws|
    ensures var a := Accumulated(z, t0, ws, dt, first, last);
            && a.hvac == Energy(z, t0, ws, dt, first, last, Hvac) && a.light == Energy(z, t0, ws, dt, first, last, Lights)
            && a.plug == Energy(z, t0, ws, dt, first, last, Plugs) && a.solar == Energy(z, t0, ws, dt, first, last, Sun)
            && a.internal == Energy(z, t0, ws, dt, first, last, Inside) && a.envelope == Energy(z, t0, ws, dt, first, last, Walls)
            && a.ventilation == Energy(z, t0, ws, dt, first, last, Air) && a.latent == Energy(z, t0, ws, dt, first, last, Moisture)
            && a.fan == Energy(z, t0, ws, dt, first, last, Fans)
            && a.unmet == Mul(UncomfortableSteps(z, t0, ws, dt, first, last) as real, dt / 3600.0)
            && a.temp == Temperatures(z, t0, ws, dt, first, last) && a.occupants == People(z, t0, ws, dt, first, last)
  {
    hide Accumulated;
    hide Energy;
    OthersAreSums(z, t0, ws, dt, first, last);
    forall f ensures Of(Accumulated(z, t0, ws, dt, first, last), f) == Energy(z, t0, ws, dt, first, last, f) {
      FigureIsEnergy(z, t0, ws, dt, first, last, f);
    }
    assert Of(Accumulated(z, t0, ws, dt, first, last), Hvac) == Energy(z, t0, ws, dt, first, last, Hvac);
  }

  lemma AddFigure(a: Totals, z: Zone, w: Weather, s: StepResult, dt: real, f: Figure)
    requires Physical(z)
    ensures Of(Add(a, z, w, s, dt), f) == Of(a, f) + Mul(Watt(z, s, f), dt / 3600000.0)
  {
    hide Mul;
    hide ZoneEngine.Unmet;
  }

  /** What one substep adds to the others. */
  lemma AddCounts(a: Totals, z: Zone, w: Weather, s: StepResult, dt: real)
    requires Physical(z)
    ensures var b := Add(a, z, w, s, dt);
            && b.unmet == a.unmet + (if Uncomfortable(z, w, s.temperature) then dt / 3600.0 else 0.0)
            && b.temp == a.temp + s.temperature && b.occupants == a.occupants + s.occupants
  {
    UnmetIsUncomfortable(z, w, s.temperature);
    hide Mul;
  }

  /**
   The row of an interval: kilowatt hours by kind, their electric total, its carbon and its mean demand, the hours it was
   uncomfortable with people present, and mean temperature and occupants over its substeps.
   */
  lemma RowWrittenOut(c: Setup, ws: seq<Weather>, first: nat, last: nat)
    requires Valid(c) && first < last <= |ws|
    ensures var t0 := c.z.setpoint;
            var r := RowOf(Accumulated(c.z, t0, ws, c.dt, first, last), last - first, c.carbonFactor, c.intervalHours);
            && r.hvac == Energy(c.z, t0, ws, c.dt, first, last, Hvac) && r.light == Energy(c.z, t0, ws, c.dt, first, last, Lights)
            && r.plug == Energy(c.z, t0, ws, c.dt, first, last, Plugs) && r.solar == Energy(c.z, t0, ws, c.dt, first, last, Sun)
            && r.internal == Energy(c.z, t0, ws, c.dt, first, last, Inside) && r.envelope == Energy(c.z, t0, ws, c.dt, first, last, Walls)
            && r.ventilation == Energy(c.z, t0, ws, c.dt, first, last, Air) && r.latent == Energy(c.z, t0, ws, c.dt, first, last, Moisture)
            && r.fan == Energy(c.z, t0, ws, c.dt, first, last, Fans)
            && r.total == r.hvac + r.light + r.plug && r.carbon == Mul(r.total, c.carbonFactor)
            && Mul(r.demand, c.intervalHours) == r.total
            && r.unmet == Mul(UncomfortableSteps(c.z, t0, ws, c.dt, first, last) as real, c.dt / 3600.0)
            && Mul(r.meanTemp, (last - first) as real) == Temperatures(c.z, t0, ws, c.dt, first, last)
            && Mul(r.meanOccupants, (last - first) as real) == People(c.z, t0, ws, c.dt, first, last)
  {
    TotalsAreSums(c.z, c.z.setpoint, ws, c.dt, first, last);
    hide Accumulated;
    hide Energy;
    hide Temperatures;
    hide People;
    hide UncomfortableSteps;
    hide Mul;
    var a := Accumulated(c.z, c.z.setpoint, ws, c.dt, first, last);
    Unquotient(a.hvac + a.light + a.plug, c.intervalHours);
    Unquotient(a.temp, (last - first) as real);
    Unquotient(a.occupants, (last - first) as real);
  }

  lemma Unquotient(x: real, y: real)
    requires y > 0.0
    ensures Mul(x / y, y) == x
  {}
}
