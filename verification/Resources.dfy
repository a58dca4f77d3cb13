// Readings of the habitat state, and the physics of one step.
module Resources {
  import opened Wrappers
  import opened Scenario
  import opened MathUtils
  import opened CrewPhysiology
  import HabitatAir

  const GAS_CONSTANT := 8.314462618
  const OXYGEN_MOLAR := 0.031998
  const INERT_MOLAR := 0.0280134
  const CO2_MOLAR := 0.04401
  const KELVIN := 273.15
  const KPA_TO_MMHG := 7.50062
  const WATER_VAPOR_MMHG := 47.0
  const SECONDS_PER_HOUR := 3600

  datatype Telemetry = Telemetry(
    pressure: real, inspiredO2: real, co2Average: real,
    oxygenHours: Option<real>, pressureHours: Option<real>, co2Hours: Option<real>, batteryHours: Option<real>,
    soc: real, powerMargin: real, temperatureMargin: real, evaMargin: int)

  function DtMinutes(c: Config): real { c.timeStepS as real / 60.0 }

  function DtHours(c: Config): real { c.timeStepS as real / 3600.0 }

  function KgPerHour(gramsPerMinute: real): real { gramsPerMinute * 60.0 / 1000.0 }

  // ---------- Atmosphere ----------

  datatype Moles = Moles(oxygen: real, inert: real, co2: real) {
    function Sum(): real { oxygen + inert + co2 }
  }

  function MolesOf(a: Air): Moles {
    Moles(a.oxygen / OXYGEN_MOLAR, a.inert / INERT_MOLAR, a.co2 / CO2_MOLAR)
  }

  // Pressure in kilopascal of a quantity of gas; no volume, no pressure.
  function Kilopascal(moles: real, s: State): real {
    if s.volume > 0.0 then moles * GAS_CONSTANT * (s.temperature + KELVIN) / s.volume / 1000.0 else 0.0
  }

  function CabinPressure(s: State): real {
    var n := MolesOf(s.air).Sum();
    if n > 0.0 then Kilopascal(n, s) else 0.0
  }

  function InspiredO2(s: State): real {
    var n := MolesOf(s.air);
    if n.Sum() > 0.0 then n.oxygen / n.Sum() * (CabinPressure(s) * KPA_TO_MMHG - WATER_VAPOR_MMHG) else 0.0
  }

  // Total metabolic rates of a crew, in grams per minute and watts.
  datatype Metabolism = Metabolism(oxygen: real, co2: real, heat: real)

  function AllCrew(crew: seq<Crew>): Metabolism {
    if crew == [] then Metabolism(0.0, 0.0, 0.0)
    else
      var rest, last := AllCrew(crew[..|crew| - 1]), crew[|crew| - 1];
      Metabolism(rest.oxygen + last.oxygen, rest.co2 + last.co2, rest.heat + last.heat)
  }

  // A walker breathes from the suit, not from the cabin.
  function CabinCrew(crew: seq<Crew>): Metabolism {
    if crew == [] then Metabolism(0.0, 0.0, 0.0)
    else
      var rest, last := CabinCrew(crew[..|crew| - 1]), crew[|crew| - 1];
      if OnEva(last.eva) then rest
      else Metabolism(rest.oxygen + last.oxygen, rest.co2 + last.co2, rest.heat + last.heat)
  }

  function MassShare(part: real, total: real): real {
    if total > 0.0 then part / total else 0.0
  }

  function LeakPerHour(c: Config, s: State): real { c.leakRate * s.leakFactor }

  function RatedScrub(c: Config): real { c.scrubberCapacity * c.scrubberEfficiency }

  // Scrubbing forecast for an hour, limited by what is there.
  function ScrubPerHour(c: Config, s: State): real {
    var rated := KgPerHour(RatedScrub(c));
    if rated > s.air.co2 then s.air.co2 else rated
  }

  function OxygenLoss(c: Config, s: State): real {
    KgPerHour(AllCrew(s.crew).oxygen) + LeakPerHour(c, s) * MassShare(s.air.oxygen, HabitatAir.Total(s.air))
  }

  function OxygenHours(c: Config, s: State): Option<real> {
    var loss := OxygenLoss(c, s);
    if loss > 0.0 then Some(s.air.oxygen / loss) else None
  }

  function PressureTrend(c: Config, s: State): real {
    var n := MolesOf(s.air).Sum();
    var mean := if n > 0.0 then HabitatAir.Total(s.air) / n else 0.0;
    var leaked := if mean > 0.0 then LeakPerHour(c, s) / mean else 0.0;
    var m := AllCrew(s.crew);
    Kilopascal(-leaked - KgPerHour(m.oxygen) / OXYGEN_MOLAR + KgPerHour(m.co2) / CO2_MOLAR
               - ScrubPerHour(c, s) / CO2_MOLAR, s)
  }

  function PressureHours(c: Config, s: State): Option<real> {
    var trend, limit := PressureTrend(c, s), c.limits.pressureFailure;
    if trend < 0.0 && CabinPressure(s) > limit then Some((CabinPressure(s) - limit) / (-trend)) else None
  }

  function Co2Trend(c: Config, s: State): real {
    var net := KgPerHour(AllCrew(s.crew).co2) - ScrubPerHour(c, s)
               - LeakPerHour(c, s) * MassShare(s.air.co2, HabitatAir.Total(s.air));
    Kilopascal(net / CO2_MOLAR, s) * KPA_TO_MMHG
  }

  function Co2Hours(c: Config, s: State): Option<real> {
    var average, limit, trend := HabitatAir.Average(s.co2Samples), c.limits.co2Limit, Co2Trend(c, s);
    if average >= limit then Some(0.0)
    else if trend > 0.0 then Some((limit - average) / trend)
    else None
  }

  // ---------- Power, heat, EVA ----------

  function SolarKw(c: Config, s: State): real { c.healthySolarKw * s.solarFault }

  function LoadKw(c: Config, s: State): real {
    c.essentialLoad + s.loads.discretionary + s.loads.thermal + s.loads.eva + s.loads.comms
  }

  function PowerMargin(c: Config, s: State): real { SolarKw(c, s) - LoadKw(c, s) }

  function ReserveKwh(c: Config): real { c.batteryCapacity * (c.batteryReserve / 100.0) }

  function BatteryHours(c: Config, s: State): Option<real>
    requires 0.0 < c.dischargeEfficiency
  {
    var margin := PowerMargin(c, s);
    if margin < 0.0 && s.battery > ReserveKwh(c) then
      PosDiv(-margin, c.dischargeEfficiency);
      Some((s.battery - ReserveKwh(c)) / ((-margin) / c.dischargeEfficiency))
    else None
  }

  function EvaMargin(c: Config, s: State): int {
    c.eva.maximum - s.eva.elapsed - (c.eva.ingress + c.eva.reserve)
  }

  function TemperatureMargin(c: Config, s: State): real {
    var low, high := s.temperature - c.limits.criticalLow, c.limits.criticalHigh - s.temperature;
    if high < low then high else low
  }

  /** What the configuration must give for the arithmetic of a step to be defined. */
  predicate Defined(c: Config) {
    && 0 < c.timeStepS && 0.0 < c.batteryCapacity && 0.0 < c.dischargeEfficiency && 0.0 < c.thermalCapacitance
    && 0 < c.eva.maximum
    && forall m | m in c.roster :: Sound(c.limits, m)
  }

  lemma ValidIsDefined(c: Config)
    requires ValidScenario(c) && StrictLimits(c.limits)
    ensures Defined(c)
  {
  }

  function Read(c: Config, s: State): Telemetry
    requires Defined(c)
  {
    Telemetry(CabinPressure(s), InspiredO2(s), HabitatAir.Average(s.co2Samples),
              OxygenHours(c, s), PressureHours(c, s), Co2Hours(c, s), BatteryHours(c, s),
              s.battery / c.batteryCapacity * 100.0, PowerMargin(c, s), TemperatureMargin(c, s), EvaMargin(c, s))
  }

  function EnvOf(t: Telemetry): Env {
    Env(t.inspiredO2, t.pressure, t.co2Average, t.evaMargin as real)
  }

  // ---------- The physics of one step ----------

  // Kilograms in one step at a rate in grams per minute.
  function StepKg(c: Config, gramsPerMinute: real): real { gramsPerMinute * DtMinutes(c) / 1000.0 }

  function StepLeak(c: Config, leakFactor: real): real { c.leakRate * leakFactor * DtHours(c) }

  function FlowOf(c: Config, s: State, m: Metabolism): HabitatAir.Flow {
    HabitatAir.Flow(StepKg(c, m.oxygen), StepLeak(c, s.leakFactor), StepKg(c, m.co2), StepKg(c, RatedScrub(c)))
  }

  function WindowSize(c: Config): nat
    requires 0 < c.timeStepS
  {
    SECONDS_PER_HOUR / c.timeStepS
  }

  // The partial pressure that enters the rolling hour.
  function Co2Sample(s: State): real {
    var n := MolesOf(s.air);
    if n.Sum() > 0.0 then Kilopascal(n.co2, s) * KPA_TO_MMHG else 0.0
  }

  function AtmosphereStage(c: Config, s: State, m: Metabolism): State {
    s.(air := HabitatAir.UpdateAtmosphere(s.air, FlowOf(c, s, m)))
  }

  function Co2Stage(c: Config, s: State, m: Metabolism): State
    requires Defined(c)
  {
    var t := s.(air := HabitatAir.UpdateCo2(s.air, FlowOf(c, s, m)));
    t.(co2Samples := HabitatAir.PushSample(t.co2Samples, Co2Sample(t), WindowSize(c)))
  }

  function PowerStage(c: Config, s: State): State
    requires Defined(c)
  {
    s.(battery := HabitatAir.UpdateBattery(s.battery, c.batteryCapacity, PowerMargin(c, s), DtHours(c),
                                           c.chargeEfficiency, c.dischargeEfficiency))
  }

  function NetHeat(c: Config, s: State, crewHeat: real): real {
    var input := crewHeat + s.equipmentHeat + c.environmentalHeat + c.heaterHeat;
    var commanded := if input < 0.0 then 0.0 else input;
    input - (if commanded > s.tcsCapacity then s.tcsCapacity else commanded)
  }

  function ThermalStage(c: Config, s: State, crewHeat: real): State
    requires Defined(c)
  {
    s.(temperature := s.temperature + NetHeat(c, s, crewHeat) * (c.timeStepS as real) / (c.thermalCapacitance * 1000.0))
  }

  function PhysicsStage(c: Config, s: State): State
    requires Defined(c)
  {
    var m := CabinCrew(s.crew);
    ThermalStage(c, PowerStage(c, Co2Stage(c, AtmosphereStage(c, s, m), m)), m.heat)
  }

  /** The battery forecast is exact: draining at the present margin for the hours
      forecast leaves precisely the reserve. */
  lemma ForecastMeetsReserve(c: Config, s: State)
    requires Defined(c) && 0.0 <= c.batteryReserve <= 100.0 && s.battery <= c.batteryCapacity
    requires BatteryHours(c, s).Some?
    ensures HabitatAir.UpdateBattery(s.battery, c.batteryCapacity, PowerMargin(c, s), BatteryHours(c, s).value,
                                     c.chargeEfficiency, c.dischargeEfficiency) == ReserveKwh(c)
  {
    var m, d, h := PowerMargin(c, s), c.dischargeEfficiency, BatteryHours(c, s).value;
    var above := s.battery - ReserveKwh(c);
    hide PowerMargin, ReserveKwh;
    DrainUndone(m, d, above, h);
    assert 0.0 <= ReserveKwh(c) by {
      MulMono(c.batteryCapacity, 0.0, c.batteryReserve / 100.0);
      assert ReserveKwh(c) == c.batteryCapacity * (c.batteryReserve / 100.0);
    }
  }

  lemma DrainUndone(margin: real, d: real, above: real, hours: real)
    requires margin < 0.0 < d && -margin / d != 0.0 && hours == above / (-margin / d)
    ensures Scale(hours, margin) / d == -above
  {
    var k := -margin / d;
    assert hours * k == above;
    assert hours * margin / d == -(hours * (-margin / d));
  }

  // A quantity that changes at this rate stands at the limit after these hours.
  predicate Reaches(quantity: real, rate: real, hours: real, limit: real) {
    quantity + rate * hours == limit
  }

  lemma Crossing(gap: real, rate: real)
    requires 0.0 < rate
    ensures rate * (gap / rate) == gap && (0.0 < gap ==> 0.0 < gap / rate)
  {
    if 0.0 < gap {
      PosDiv(gap, rate);
    }
  }

  lemma Falls(quantity: real, rate: real, limit: real)
    requires rate < 0.0
    ensures Reaches(quantity, rate, (quantity - limit) / (-rate), limit)
  {
    Crossing(quantity - limit, -rate);
    var h := (quantity - limit) / (-rate);
    assert (-rate) * h == -(rate * h);
  }

  /** The other forecasts are the times at which a quantity that keeps its present
      trend reaches its limit, and there is none exactly when the trend leads away:
      oxygen is used up, pressure and the carbon dioxide average meet theirs. */
  lemma ForecastsMeetLimits(c: Config, s: State)
    ensures var h := OxygenHours(c, s);
      if h.None? then OxygenLoss(c, s) <= 0.0 else Reaches(s.air.oxygen, -OxygenLoss(c, s), h.value, 0.0)
    ensures var h, p := PressureHours(c, s), CabinPressure(s);
      if h.None? then PressureTrend(c, s) >= 0.0 || p <= c.limits.pressureFailure
      else 0.0 < h.value && Reaches(p, PressureTrend(c, s), h.value, c.limits.pressureFailure)
    ensures var h, average := Co2Hours(c, s), HabitatAir.Average(s.co2Samples);
      if h.None? then Co2Trend(c, s) <= 0.0 && average < c.limits.co2Limit
      else if average >= c.limits.co2Limit then h.value == 0.0
      else 0.0 < h.value && Reaches(average, Co2Trend(c, s), h.value, c.limits.co2Limit)
  {
    hide PressureTrend, Co2Trend, CabinPressure, OxygenLoss, HabitatAir.Average, Reaches;
    var loss, fall, rise := OxygenLoss(c, s), PressureTrend(c, s), Co2Trend(c, s);
    if loss > 0.0 {
      Falls(s.air.oxygen, -loss, 0.0);
    }
    if fall < 0.0 {
      Falls(CabinPressure(s), fall, c.limits.pressureFailure);
      Crossing(CabinPressure(s) - c.limits.pressureFailure, -fall);
    }
    if rise > 0.0 {
      Rises(HabitatAir.Average(s.co2Samples), rise, c.limits.co2Limit);
      Crossing(c.limits.co2Limit - HabitatAir.Average(s.co2Samples), rise);
    }
  }

  lemma Rises(quantity: real, rate: real, limit: real)
    requires 0.0 < rate
    ensures Reaches(quantity, rate, (limit - quantity) / rate, limit)
  {
    Crossing(limit - quantity, rate);
  }

  /** Stored energy stays between empty and full, rises only on a surplus and falls only on
      a deficit. */
  lemma BatteryFollowsMargin(c: Config, s: State)
    requires Defined(c) && 0.0 < c.chargeEfficiency && 0.0 <= s.battery <= c.batteryCapacity
    ensures var t := PowerStage(c, s);
      && 0.0 <= t.battery <= c.batteryCapacity
      && (PowerMargin(c, s) >= 0.0 ==> s.battery <= t.battery)
      && (PowerMargin(c, s) <= 0.0 ==> t.battery <= s.battery)
  {
    var net, hours := PowerMargin(c, s), DtHours(c);
    PosDiv(c.timeStepS as real, 3600.0);
    if net >= 0.0 {
      ScaleMono(hours, 0.0, net);
      ScaleMono(c.chargeEfficiency, 0.0, Scale(hours, net));
    }
    if net <= 0.0 {
      ScaleMono(hours, net, 0.0);
      DivMono(Scale(hours, net), 0.0, c.dischargeEfficiency);
      ScaleMono(c.chargeEfficiency, Scale(hours, net), 0.0);
    }
    hide Scale, PowerMargin, DtHours;
  }

  /** The cabin warms exactly when more heat comes in than can be rejected, and cools
      exactly when heat is drawn out; in between the temperature is held. */
  lemma TemperatureFollowsHeat(c: Config, s: State, crewHeat: real)
    requires Defined(c) && 0.0 <= s.tcsCapacity
    ensures var t, input := ThermalStage(c, s, crewHeat), crewHeat + s.equipmentHeat + c.environmentalHeat + c.heaterHeat;
      && (s.temperature < t.temperature <==> s.tcsCapacity < input)
      && (t.temperature < s.temperature <==> input < 0.0)
  {
    var net := NetHeat(c, s, crewHeat);
    var dt, capacity := c.timeStepS as real, c.thermalCapacitance * 1000.0;
    var input := crewHeat + s.equipmentHeat + c.environmentalHeat + c.heaterHeat;
    assert (0.0 < net <==> s.tcsCapacity < input) && (net < 0.0 <==> input < 0.0);
    SignKept(net, dt, capacity);
    hide NetHeat;
  }

  lemma SignKept(x: real, k: real, d: real)
    requires 0.0 < k && 0.0 < d
    ensures (0.0 < x * k / d <==> 0.0 < x) && (x * k / d < 0.0 <==> x < 0.0)
  {
    if 0.0 < x {
      PosDiv(x * k, d);
    } else if x < 0.0 {
      LessDiv(x * k, 0.0, d);
    }
  }
}
