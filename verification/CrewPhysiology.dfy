// One physiology step of one crew member.
module CrewPhysiology {
  import opened Wrappers
  import opened Scenario
  import opened MathUtils

  // What the step reads of the pre-step telemetry.
  datatype Env = Env(inspiredO2: real, pressure: real, co2Average: real, safeReturnMargin: real)

  // ---------- Profile lookup ----------

  datatype LookupError = MissingProfile | DuplicateProfile

  function CountProfiles(profiles: seq<Profile>, activity: Activity): nat {
    if profiles == [] then 0
    else
      var last := profiles[|profiles| - 1];
      CountProfiles(profiles[..|profiles| - 1], activity) + if last.activity == activity then 1 else 0
  }

  /** The one profile of an activity; none or two make the lookup fail. */
  function FindProfile(profiles: seq<Profile>, activity: Activity): (r: Result<Profile, LookupError>)
    ensures r.Ok? <==> CountProfiles(profiles, activity) == 1
    ensures r.Ok? ==> r.value in profiles && r.value.activity == activity
    ensures r.Err? ==> (r.error == MissingProfile <==> CountProfiles(profiles, activity) == 0)
  {
    if profiles == [] then Err(MissingProfile)
    else
      var last := profiles[|profiles| - 1];
      var before := FindProfile(profiles[..|profiles| - 1], activity);
      if last.activity != activity then before
      else if before == Err(MissingProfile) then Ok(last)
      else Err(DuplicateProfile)
  }

  // ---------- Severities ----------

  function HypoxiaSeverity(l: Limits, m: CrewConfig, env: Env): real
    requires StrictLimits(l)
  {
    Clamp(Scale(m.hypoxiaSensitivity, LowSideSeverity(env.inspiredO2, l.o2Warning, l.o2Failure)), 0.0, 1.0)
  }

  function Co2Severity(l: Limits, m: CrewConfig, env: Env): real
    requires 0.0 < l.co2Limit
  {
    Clamp(Scale(m.co2Sensitivity, HighSideSeverity(env.co2Average, 0.0, l.co2Limit)), 0.0, 1.0)
  }

  function PressureSeverity(l: Limits, env: Env): real
    requires StrictLimits(l)
  {
    LowSideSeverity(env.pressure, l.pressureWarning, l.pressureFailure)
  }

  function ThermalSeverity(l: Limits, m: CrewConfig, temperature: real): real
    requires StrictLimits(l)
  {
    var cold := LowSideSeverity(temperature, l.comfortLow, l.criticalLow);
    var hot := HighSideSeverity(temperature, l.comfortHigh, l.criticalHigh);
    Clamp(Scale(m.thermalSensitivity, Max(cold, hot)), 0.0, 1.0)
  }

  datatype Severity = Severity(hypoxia: real, co2: real, pressure: real, thermal: real)

  function Severities(l: Limits, m: CrewConfig, env: Env, temperature: real): Severity
    requires StrictLimits(l) && 0.0 < l.co2Limit
  {
    Severity(HypoxiaSeverity(l, m, env), Co2Severity(l, m, env), PressureSeverity(l, env),
             ThermalSeverity(l, m, temperature))
  }

  // ---------- The step, field by field ----------

  function Exposure(index: real, severity: real, gain: real, recovery: real, dt: real): real {
    var grown := index + Scale(dt, Scale(gain, severity));
    var recovered := if severity < 1.0 then grown - Scale(dt, Scale(recovery, 1.0 - severity)) else grown;
    if recovered < 0.0 then 0.0 else recovered
  }

  function UpdateExposure(c: Crew, s: Severity, v: VitalConfig, dt: real): Crew {
    c.(hypoxia := Exposure(c.hypoxia, s.hypoxia, v.hypoxiaGain, v.hypoxiaRecovery, dt),
       co2Exposure := Exposure(c.co2Exposure, s.co2, v.co2Gain, v.co2Recovery, dt),
       thermal := Exposure(c.thermal, s.thermal, v.thermalGain, v.thermalRecovery, dt))
  }

  function FatigueGain(c: Crew, load: real, s: Severity, v: VitalConfig, dt: real): real {
    Scale(dt, Scale(v.fatigueWork, load)) + (if OnEva(c.eva) then Scale(dt, v.fatigueEva) else 0.0)
    + Scale(dt, Scale(v.fatigueWork, (s.hypoxia + s.co2 + s.thermal) / 3.0))
  }

  function FatigueRest(c: Crew, m: CrewConfig, v: VitalConfig, dt: real): real {
    if c.activity == Sleep || c.activity == Resting || c.activity == Recovery
    then Scale(m.fatigueRecovery, Scale(dt, v.fatigueRest)) else 0.0
  }

  function UpdateFatigue(c: Crew, m: CrewConfig, load: real, s: Severity, v: VitalConfig, dt: real): Crew
    requires m.fitness != 0.0
  {
    c.(fatigue := Clamp(c.fatigue + FatigueGain(c, load, s, v, dt) / m.fitness - FatigueRest(c, m, v, dt), 0.0, 1.0))
  }

  const RATIONING_FACTOR := 0.75

  function UpdateMetabolism(c: Crew, p: Profile, floor: Profile): Crew {
    var scale := if c.rationing then Scale(RATIONING_FACTOR, c.physical) else c.physical;
    var oxygen, co2, heat := Scale(scale, p.oxygen), Scale(scale, p.co2), Scale(scale, p.heat);
    if c.rationing then
      c.(oxygen := Max(oxygen, floor.oxygen), co2 := Max(co2, floor.co2), heat := Max(heat, floor.heat))
    else c.(oxygen := oxygen, co2 := co2, heat := heat)
  }

  function TargetHr(c: Crew, m: CrewConfig, load: real, s: Severity, v: VitalConfig): real {
    m.baseHr + Scale(v.hrActivity, load) + Scale(v.hrHypoxia, s.hypoxia) + Scale(v.hrCo2, s.co2)
    + Scale(v.hrThermal, s.thermal) + Scale(v.hrFatigue, c.fatigue)
  }

  function TargetRr(m: CrewConfig, load: real, s: Severity, v: VitalConfig): real {
    m.baseRr + Scale(v.rrActivity, load) + Scale(v.rrHypoxia, s.hypoxia) + Scale(v.rrCo2, s.co2)
    + Scale(v.rrThermal, s.thermal)
  }

  function RawSpo2(c: Crew, m: CrewConfig, load: real, s: Severity, v: VitalConfig): real {
    m.baseSpo2 - Scale(m.hypoxiaSensitivity, Scale(v.spo2Hypoxia, s.hypoxia)) - Scale(v.spo2Pressure, s.pressure)
    - Scale(v.spo2Activity, load) - Scale(v.spo2Exposure, c.hypoxia)
  }

  function TargetSpo2(c: Crew, m: CrewConfig, load: real, s: Severity, v: VitalConfig): real {
    Clamp(RawSpo2(c, m, load, s, v), v.spo2Min, v.spo2Max)
  }

  function TargetCore(m: CrewConfig, load: real, temperature: real, v: VitalConfig): real {
    Clamp(m.baseCore + Scale(v.coreEnvironment, temperature - m.baseCore) + Scale(v.coreActivity, load),
          v.coreMin, v.coreMax)
  }

  function Blend(v: VitalConfig, dt: real): real
    requires 0.0 < dt
  {
    if 0.0 < v.coreTau then dt / (v.coreTau + dt) else 1.0
  }

  function UpdateVitals(c: Crew, m: CrewConfig, load: real, s: Severity, v: VitalConfig, dt: real,
                        temperature: real): Crew
    requires 0.0 < dt
  {
    var blend := Blend(v, dt);
    c.(hr := Clamp(TargetHr(c, m, load, s, v), v.hrMin, v.hrMax),
       rr := Clamp(TargetRr(m, load, s, v), v.rrMin, v.rrMax),
       spo2 := Clamp(Lag(c.spo2, TargetSpo2(c, m, load, s, v), blend), v.spo2Min, v.spo2Max),
       core := Clamp(Lag(c.core, TargetCore(m, load, temperature, v), blend), v.coreMin, v.coreMax))
  }

  // A performance weight applied to an index that may exceed one while it accumulates.
  function Weighted(weight: real, index: real): real {
    Scale(weight, Clamp(index, 0.0, 1.0))
  }

  function Impairment(c: Crew, load: real, hypoxia: real, co2: real, thermal: real, fatigue: real): real {
    Weighted(hypoxia, c.hypoxia) + Weighted(co2, c.co2Exposure) + Weighted(thermal, c.thermal)
    + Weighted(fatigue, c.fatigue) + Weighted(fatigue, load)
  }

  function UpdatePerformance(c: Crew, load: real, v: VitalConfig): Crew {
    c.(cognitive := Clamp(1.0 - Impairment(c, load, v.cogHypoxia, v.cogCo2, v.cogThermal, v.cogFatigue), 0.0, 1.0),
       physical := Clamp(1.0 - Impairment(c, load, v.physHypoxia, v.physCo2, v.physThermal, v.physFatigue), 0.0, 1.0))
  }

  predicate ReturnInDoubt(c: Crew, env: Env) {
    OnEva(c.eva) && env.safeReturnMargin < 0.0
  }

  predicate CoreOutside(c: Crew, v: VitalConfig) {
    c.core < v.coreLow || c.core > v.coreHigh
  }

  /** When an alarm is raised. */
  predicate Raised(a: Alarm, c: Crew, env: Env, v: VitalConfig) {
    match a
    case Hypoxia => c.spo2 <= v.spo2Warning || c.hypoxia >= 1.0
    case Hypercapnia => c.co2Exposure >= 1.0
    case Tachycardia => c.hr >= v.hrWarning
    case Respiratory => c.rr >= v.rrWarning
    case Thermal => CoreOutside(c, v)
    case Fatigue => c.fatigue >= v.fatigueWarning
    case Performance => c.cognitive <= v.performanceAbort || c.physical <= v.performanceAbort
    case EvaReturn => ReturnInDoubt(c, env)
  }

  const ALARM_ORDER: seq<Alarm> :=
    [Hypoxia, Hypercapnia, Tachycardia, Respiratory, Alarm.Thermal, Alarm.Fatigue, Performance, EvaReturn]

  function Collect(order: seq<Alarm>, c: Crew, env: Env, v: VitalConfig): seq<Alarm> {
    if order == [] then []
    else
      var first := if Raised(order[0], c, env, v) then [order[0]] else [];
      first + Collect(order[1..], c, env, v)
  }

  function Alarms(c: Crew, env: Env, v: VitalConfig): seq<Alarm> {
    Collect(ALARM_ORDER, c, env, v)
  }

  lemma {:induction false} CollectsRaised(order: seq<Alarm>, c: Crew, env: Env, v: VitalConfig, a: Alarm)
    ensures a in Collect(order, c, env, v) <==> a in order && Raised(a, c, env, v)
  {
    if order != [] {
      CollectsRaised(order[1..], c, env, v, a);
      assert a in order <==> a == order[0] || a in order[1..];
    }
  }

  lemma AlarmsAreRaised(a: Alarm, c: Crew, env: Env, v: VitalConfig)
    ensures a in Alarms(c, env, v) <==> Raised(a, c, env, v)
  {
    CollectsRaised(ALARM_ORDER, c, env, v, a);
    assert ALARM_ORDER[0] == Hypoxia && ALARM_ORDER[1] == Hypercapnia && ALARM_ORDER[2] == Tachycardia;
    assert ALARM_ORDER[3] == Respiratory && ALARM_ORDER[4] == Alarm.Thermal && ALARM_ORDER[5] == Alarm.Fatigue;
    assert ALARM_ORDER[6] == Performance && ALARM_ORDER[7] == EvaReturn;
  }

  /** The worst matching rule wins. */
  function HealthOf(c: Crew, env: Env, v: VitalConfig): Health {
    var performance := if c.cognitive < c.physical then c.cognitive else c.physical;
    if c.activity == OutOfAction || performance <= v.performanceAbort then Incapacitated
    else if c.spo2 <= v.spo2Critical || c.co2Exposure >= 1.0 || ReturnInDoubt(c, env) then Critical
    else if c.spo2 <= v.spo2Warning || c.fatigue >= v.fatigueWarning || CoreOutside(c, v) then Impaired
    else if c.hr >= v.hrWarning || c.rr >= v.rrWarning || c.hypoxia > 0.0 || c.co2Exposure > 0.0
            || c.thermal > 0.0 || c.alarms != [] then ElevatedStress
    else Nominal
  }

  function UpdateHealth(c: Crew, env: Env, v: VitalConfig): Crew {
    var alarmed := c.(alarms := Alarms(c, env, v));
    alarmed.(health := HealthOf(alarmed, env, v))
  }

  predicate Sound(l: Limits, m: CrewConfig) {
    StrictLimits(l) && 0.0 < l.co2Limit && 0.0 < m.fitness && 0.0 < m.hypoxiaSensitivity
    && 0.0 < m.co2Sensitivity && 0.0 < m.thermalSensitivity
  }

  /** The ordered update of one crew member; it fails only in a profile lookup. */
  function StepCrew(v: VitalConfig, l: Limits, m: CrewConfig, env: Env, dt: real, temperature: real, c: Crew)
    : Result<Crew, LookupError>
    requires Sound(l, m) && 0.0 < dt
  {
    var profile := FindProfile(v.profiles, c.activity);
    var floor := if c.rationing then FindProfile(v.profiles, Sleep) else profile;
    if profile.Err? then Err(profile.error)
    else if floor.Err? then Err(floor.error)
    else
      var s := Severities(l, m, env, temperature);
      var load := profile.value.load;
      var exposed := UpdateExposure(c, s, v, dt);
      var tired := UpdateFatigue(exposed, m, load, s, v, dt);
      var breathing := UpdateMetabolism(tired, profile.value, floor.value);
      var vital := UpdateVitals(breathing, m, load, s, v, dt, temperature);
      var performing := UpdatePerformance(vital, load, v);
      Ok(UpdateHealth(performing, env, v))
  }

  // ---------- Bounds that any step establishes ----------

  /** After a step both performance factors and fatigue lie in [0, 1], exposures are
      not negative, identity and schedule are untouched, and the health status is
      Nominal only without any alarm. */
  lemma StepBounds(v: VitalConfig, l: Limits, m: CrewConfig, env: Env, dt: real, temperature: real, c: Crew)
    requires Sound(l, m) && 0.0 < dt
    ensures var r := StepCrew(v, l, m, env, dt, temperature, c);
      r.Ok? ==>
        && 0.0 <= r.value.physical <= 1.0 && 0.0 <= r.value.cognitive <= 1.0 && 0.0 <= r.value.fatigue <= 1.0
        && 0.0 <= r.value.hypoxia && 0.0 <= r.value.co2Exposure && 0.0 <= r.value.thermal
        && r.value.id == c.id && r.value.location == c.location && r.value.activity == c.activity
        && r.value.eva == c.eva && r.value.rationing == c.rationing
        && (r.value.health == Nominal ==> r.value.alarms == [])
  {
  }
}
