// Two crews that live through the same schedule, one of them in worse air.
module CrewComparison {
  import opened Wrappers
  import opened Scenario
  import opened MathUtils
  import opened CrewPhysiology

  /** Rates, gains and weights push in the direction their names say. */
  predicate Directed(v: VitalConfig) {
    && 0.0 <= v.hypoxiaGain && 0.0 <= v.co2Gain && 0.0 <= v.thermalGain
    && 0.0 <= v.hypoxiaRecovery && 0.0 <= v.co2Recovery && 0.0 <= v.thermalRecovery
    && 0.0 <= v.fatigueWork && 0.0 <= v.fatigueEva && 0.0 <= v.fatigueRest
    && 0.0 <= v.hrHypoxia && 0.0 <= v.hrCo2 && 0.0 <= v.hrThermal && 0.0 <= v.hrFatigue && v.hrMin <= v.hrMax
    && 0.0 <= v.rrHypoxia && 0.0 <= v.rrCo2 && 0.0 <= v.rrThermal && v.rrMin <= v.rrMax
    && 0.0 <= v.spo2Hypoxia && 0.0 <= v.spo2Pressure && 0.0 <= v.spo2Exposure && v.spo2Min <= v.spo2Max
    && 0.0 <= v.cogHypoxia && 0.0 <= v.cogCo2 && 0.0 <= v.cogThermal && 0.0 <= v.cogFatigue
    && 0.0 <= v.physHypoxia && 0.0 <= v.physCo2 && 0.0 <= v.physThermal && 0.0 <= v.physFatigue
  }

  predicate WorseAir(good: Env, bad: Env) {
    && bad.inspiredO2 <= good.inspiredO2 && bad.pressure <= good.pressure
    && good.co2Average <= bad.co2Average && bad.safeReturnMargin <= good.safeReturnMargin
  }

  function Rank(h: Health): nat {
    match h
    case Nominal => 0
    case ElevatedStress => 1
    case Impaired => 2
    case Critical => 3
    case Incapacitated => 4
  }

  /** The second member is nowhere better off than the first. Core temperature does
      not depend on the air and stays equal. */
  predicate WorseCrew(good: Crew, bad: Crew) {
    && SameSchedule(good, bad)
    && good.core == bad.core
    && WorseExposure(good, bad)
    && good.hr <= bad.hr && good.rr <= bad.rr && bad.spo2 <= good.spo2
    && bad.cognitive <= good.cognitive && bad.physical <= good.physical
    && (forall a | a in good.alarms :: a in bad.alarms)
    && Rank(good.health) <= Rank(bad.health)
  }

  predicate SameSchedule(good: Crew, bad: Crew) {
    good.activity == bad.activity && good.eva == bad.eva && good.rationing == bad.rationing
  }

  predicate WorseExposure(good: Crew, bad: Crew) {
    && good.hypoxia <= bad.hypoxia && good.co2Exposure <= bad.co2Exposure && good.thermal <= bad.thermal
    && good.fatigue <= bad.fatigue
  }

  predicate WorseSeverity(good: Severity, bad: Severity) {
    && 0.0 <= good.hypoxia <= bad.hypoxia <= 1.0 && 0.0 <= good.co2 <= bad.co2 <= 1.0
    && 0.0 <= good.pressure <= bad.pressure <= 1.0 && 0.0 <= good.thermal <= bad.thermal <= 1.0
  }

  // ---------- One step, stage by stage ----------

  lemma ScaledWorsens(a: real, b: real, k: real)
    requires a <= b && 0.0 <= k
    ensures 0.0 <= Clamp(Scale(k, a), 0.0, 1.0) <= Clamp(Scale(k, b), 0.0, 1.0) <= 1.0
  {
    ScaleMono(k, a, b);
    ClampMono(Scale(k, a), Scale(k, b), 0.0, 1.0);
  }

  lemma SeveritiesWorsen(l: Limits, m: CrewConfig, good: Env, bad: Env, temperature: real)
    requires Sound(l, m) && WorseAir(good, bad)
    ensures WorseSeverity(Severities(l, m, good, temperature), Severities(l, m, bad, temperature))
  {
    LowSideMeaning(bad.inspiredO2, good.inspiredO2, l.o2Warning, l.o2Failure);
    HighSideMeaning(good.co2Average, bad.co2Average, 0.0, l.co2Limit);
    LowSideMeaning(bad.pressure, good.pressure, l.pressureWarning, l.pressureFailure);
    hide LowSideSeverity, HighSideSeverity, Clamp, Max, Scale;
    var heat := Max(LowSideSeverity(temperature, l.comfortLow, l.criticalLow),
                    HighSideSeverity(temperature, l.comfortHigh, l.criticalHigh));
    ScaledWorsens(LowSideSeverity(good.inspiredO2, l.o2Warning, l.o2Failure),
                  LowSideSeverity(bad.inspiredO2, l.o2Warning, l.o2Failure), m.hypoxiaSensitivity);
    ScaledWorsens(HighSideSeverity(good.co2Average, 0.0, l.co2Limit),
                  HighSideSeverity(bad.co2Average, 0.0, l.co2Limit), m.co2Sensitivity);
    ScaledWorsens(heat, heat, m.thermalSensitivity);
  }

  /** Exposure memory preserves the order although recovery stops at full severity. */
  lemma ExposureWorsens(x: real, y: real, s: real, t: real, gain: real, recovery: real, dt: real)
    requires x <= y && 0.0 <= s <= t <= 1.0 && 0.0 <= gain && 0.0 <= recovery && 0.0 < dt
    ensures Exposure(x, s, gain, recovery, dt) <= Exposure(y, t, gain, recovery, dt)
  {
    hide Scale;
    ScaleMono(gain, s, t);
    ScaleMono(dt, Scale(gain, s), Scale(gain, t));
    ScaleMono(recovery, 1.0 - t, 1.0 - s);
    ScaleMono(dt, Scale(recovery, 1.0 - t), Scale(recovery, 1.0 - s));
  }

  lemma FatigueGainWorsens(good: Crew, bad: Crew, load: real, s: Severity, t: Severity, v: VitalConfig, dt: real)
    requires SameSchedule(good, bad) && WorseSeverity(s, t) && Directed(v) && 0.0 < dt
    ensures FatigueGain(good, load, s, v, dt) <= FatigueGain(bad, load, t, v, dt)
  {
    hide Scale;
    var a, b := (s.hypoxia + s.co2 + s.thermal) / 3.0, (t.hypoxia + t.co2 + t.thermal) / 3.0;
    ScaleMono(v.fatigueWork, a, b);
    ScaleMono(dt, Scale(v.fatigueWork, a), Scale(v.fatigueWork, b));
  }

  lemma WeightedWorsens(weight: real, a: real, b: real)
    requires 0.0 <= weight && a <= b
    ensures Weighted(weight, a) <= Weighted(weight, b)
  {
    ClampMono(a, b, 0.0, 1.0);
    ScaleMono(weight, Clamp(a, 0.0, 1.0), Clamp(b, 0.0, 1.0));
  }

  lemma ImpairmentWorsens(good: Crew, bad: Crew, load: real, hypoxia: real, co2: real, thermal: real, fatigue: real)
    requires WorseExposure(good, bad)
    requires 0.0 <= hypoxia && 0.0 <= co2 && 0.0 <= thermal && 0.0 <= fatigue
    ensures Impairment(good, load, hypoxia, co2, thermal, fatigue) <= Impairment(bad, load, hypoxia, co2, thermal, fatigue)
  {
    hide Weighted;
    WeightedWorsens(hypoxia, good.hypoxia, bad.hypoxia);
    WeightedWorsens(co2, good.co2Exposure, bad.co2Exposure);
    WeightedWorsens(thermal, good.thermal, bad.thermal);
    WeightedWorsens(fatigue, good.fatigue, bad.fatigue);
  }

  lemma TargetSpo2Worsens(good: Crew, bad: Crew, m: CrewConfig, load: real, s: Severity, t: Severity, v: VitalConfig)
    requires WorseExposure(good, bad) && WorseSeverity(s, t) && Directed(v) && 0.0 < m.hypoxiaSensitivity
    ensures TargetSpo2(bad, m, load, t, v) <= TargetSpo2(good, m, load, s, v)
  {
    hide Scale, Clamp;
    ScaleMono(v.spo2Hypoxia, s.hypoxia, t.hypoxia);
    ScaleMono(m.hypoxiaSensitivity, Scale(v.spo2Hypoxia, s.hypoxia), Scale(v.spo2Hypoxia, t.hypoxia));
    ScaleMono(v.spo2Pressure, s.pressure, t.pressure);
    ScaleMono(v.spo2Exposure, good.hypoxia, bad.hypoxia);
    ClampMono(RawSpo2(bad, m, load, t, v), RawSpo2(good, m, load, s, v), v.spo2Min, v.spo2Max);
  }

  lemma TargetsWorsen(good: Crew, bad: Crew, m: CrewConfig, load: real, s: Severity, t: Severity, v: VitalConfig)
    requires WorseExposure(good, bad) && WorseSeverity(s, t) && Directed(v)
    ensures TargetHr(good, m, load, s, v) <= TargetHr(bad, m, load, t, v)
    ensures TargetRr(m, load, s, v) <= TargetRr(m, load, t, v)
  {
    hide Scale;
    ScaleMono(v.hrHypoxia, s.hypoxia, t.hypoxia);
    ScaleMono(v.hrCo2, s.co2, t.co2);
    ScaleMono(v.hrThermal, s.thermal, t.thermal);
    ScaleMono(v.hrFatigue, good.fatigue, bad.fatigue);
    ScaleMono(v.rrHypoxia, s.hypoxia, t.hypoxia);
    ScaleMono(v.rrCo2, s.co2, t.co2);
    ScaleMono(v.rrThermal, s.thermal, t.thermal);
  }

  lemma BlendIsPart(v: VitalConfig, dt: real)
    requires 0.0 < dt
    ensures 0.0 < Blend(v, dt) <= 1.0
  {
    if 0.0 < v.coreTau {
      PosDiv(dt, v.coreTau + dt);
      DivMono(dt, v.coreTau + dt, v.coreTau + dt);
    }
  }

  lemma VitalsWorsen(good: Crew, bad: Crew, m: CrewConfig, load: real, s: Severity, t: Severity, v: VitalConfig,
                     dt: real, temperature: real)
    requires WorseExposure(good, bad) && WorseSeverity(s, t) && Directed(v)
    requires 0.0 < dt && 0.0 < m.hypoxiaSensitivity && bad.spo2 <= good.spo2 && good.core == bad.core
    ensures var g, b := UpdateVitals(good, m, load, s, v, dt, temperature), UpdateVitals(bad, m, load, t, v, dt, temperature);
      g.hr <= b.hr && g.rr <= b.rr && b.spo2 <= g.spo2 && g.core == b.core
  {
    hide TargetHr, TargetRr, TargetSpo2, TargetCore, Blend, Clamp, Lag;
    TargetsWorsen(good, bad, m, load, s, t, v);
    TargetSpo2Worsens(good, bad, m, load, s, t, v);
    BlendIsPart(v, dt);
    var blend, p, q := Blend(v, dt), TargetSpo2(bad, m, load, t, v), TargetSpo2(good, m, load, s, v);
    LagKeepsOrder(bad.spo2, good.spo2, p, q, blend);
    ClampMono(TargetHr(good, m, load, s, v), TargetHr(bad, m, load, t, v), v.hrMin, v.hrMax);
    ClampMono(TargetRr(m, load, s, v), TargetRr(m, load, t, v), v.rrMin, v.rrMax);
    ClampMono(Lag(bad.spo2, p, blend), Lag(good.spo2, q, blend), v.spo2Min, v.spo2Max);
  }

  predicate WorseVitals(good: Crew, bad: Crew) {
    && good.hr <= bad.hr && good.rr <= bad.rr && bad.spo2 <= good.spo2 && good.core == bad.core
    && bad.cognitive <= good.cognitive && bad.physical <= good.physical
  }

  lemma RaisedWorsens(a: Alarm, good: Crew, bad: Crew, genv: Env, benv: Env, v: VitalConfig)
    requires SameSchedule(good, bad) && WorseExposure(good, bad) && WorseAir(genv, benv) && WorseVitals(good, bad)
    ensures Raised(a, good, genv, v) ==> Raised(a, bad, benv, v)
  {
  }

  lemma AlarmsWorsen(good: Crew, bad: Crew, genv: Env, benv: Env, v: VitalConfig)
    requires SameSchedule(good, bad) && WorseExposure(good, bad) && WorseAir(genv, benv) && WorseVitals(good, bad)
    ensures forall a | a in Alarms(good, genv, v) :: a in Alarms(bad, benv, v)
    ensures Alarms(bad, benv, v) == [] ==> Alarms(good, genv, v) == []
  {
    hide Alarms, Raised;
    var g, b := Alarms(good, genv, v), Alarms(bad, benv, v);
    forall a | a in g ensures a in b {
      AlarmsAreRaised(a, good, genv, v);
      AlarmsAreRaised(a, bad, benv, v);
      RaisedWorsens(a, good, bad, genv, benv, v);
    }
    assert g != [] ==> g[0] in g;
  }

  lemma HealthWorsens(good: Crew, bad: Crew, genv: Env, benv: Env, v: VitalConfig)
    requires SameSchedule(good, bad) && WorseExposure(good, bad) && WorseAir(genv, benv) && WorseVitals(good, bad)
    ensures var g, b := UpdateHealth(good, genv, v), UpdateHealth(bad, benv, v);
      && (forall a | a in g.alarms :: a in b.alarms)
      && Rank(g.health) <= Rank(b.health)
  {
    hide Alarms;
    AlarmsWorsen(good, bad, genv, benv, v);
  }

  /** Worse air for one step leaves the member nowhere better off. */
  lemma StepWorsens(v: VitalConfig, l: Limits, m: CrewConfig, genv: Env, benv: Env, dt: real, temperature: real,
                    good: Crew, bad: Crew)
    requires Sound(l, m) && Directed(v) && 0.0 < dt && WorseAir(genv, benv) && WorseCrew(good, bad)
    ensures var g, b := StepCrew(v, l, m, genv, dt, temperature, good), StepCrew(v, l, m, benv, dt, temperature, bad);
      (g.Ok? <==> b.Ok?) && (g.Ok? ==> WorseCrew(g.value, b.value))
  {
    var profile := FindProfile(v.profiles, good.activity);
    var floor := if good.rationing then FindProfile(v.profiles, Sleep) else profile;
    if profile.Ok? && floor.Ok? {
      var load := profile.value.load;
      var s, t := Severities(l, m, genv, temperature), Severities(l, m, benv, temperature);
      SeveritiesWorsen(l, m, genv, benv, temperature);
      ExposureWorsens(good.hypoxia, bad.hypoxia, s.hypoxia, t.hypoxia, v.hypoxiaGain, v.hypoxiaRecovery, dt);
      ExposureWorsens(good.co2Exposure, bad.co2Exposure, s.co2, t.co2, v.co2Gain, v.co2Recovery, dt);
      ExposureWorsens(good.thermal, bad.thermal, s.thermal, t.thermal, v.thermalGain, v.thermalRecovery, dt);
      var g1, b1 := UpdateExposure(good, s, v, dt), UpdateExposure(bad, t, v, dt);
      hide Exposure, Severities, FatigueGain, Impairment, UpdateVitals, UpdateHealth;
      FatigueGainWorsens(g1, b1, load, s, t, v, dt);
      DivMono(FatigueGain(g1, load, s, v, dt), FatigueGain(b1, load, t, v, dt), m.fitness);
      var g2, b2 := UpdateFatigue(g1, m, load, s, v, dt), UpdateFatigue(b1, m, load, t, v, dt);
      var g3, b3 := UpdateMetabolism(g2, profile.value, floor.value), UpdateMetabolism(b2, profile.value, floor.value);
      VitalsWorsen(g3, b3, m, load, s, t, v, dt, temperature);
      var g4, b4 := UpdateVitals(g3, m, load, s, v, dt, temperature), UpdateVitals(b3, m, load, t, v, dt, temperature);
      VitalsKeepRest(g3, m, load, s, v, dt, temperature);
      VitalsKeepRest(b3, m, load, t, v, dt, temperature);
      ImpairmentWorsens(g4, b4, load, v.cogHypoxia, v.cogCo2, v.cogThermal, v.cogFatigue);
      ImpairmentWorsens(g4, b4, load, v.physHypoxia, v.physCo2, v.physThermal, v.physFatigue);
      var g5, b5 := UpdatePerformance(g4, load, v), UpdatePerformance(b4, load, v);
      HealthWorsens(g5, b5, genv, benv, v);
      HealthKeepsRest(g5, genv, v);
      HealthKeepsRest(b5, benv, v);
    }
  }

  lemma VitalsKeepRest(c: Crew, m: CrewConfig, load: real, s: Severity, v: VitalConfig, dt: real, temperature: real)
    requires 0.0 < dt
    ensures var r := UpdateVitals(c, m, load, s, v, dt, temperature);
      r == c.(hr := r.hr, rr := r.rr, spo2 := r.spo2, core := r.core)
  {
  }

  lemma HealthKeepsRest(c: Crew, env: Env, v: VitalConfig)
    ensures var r := UpdateHealth(c, env, v); r == c.(alarms := r.alarms, health := r.health)
  {
  }

  // ---------- Whole runs ----------

  // What the rest of the simulation dictates for one step, the air apart.
  datatype Duty = Duty(activity: Activity, eva: EvaStatus, rationing: bool, temperature: real)

  function Assign(c: Crew, d: Duty): Crew {
    c.(activity := d.activity, eva := d.eva, rationing := d.rationing)
  }

  /** A member's life under a schedule and a sequence of environments. */
  function Live(v: VitalConfig, l: Limits, m: CrewConfig, dt: real, c: Crew, duties: seq<Duty>, air: seq<Env>)
    : Result<Crew, LookupError>
    requires Sound(l, m) && 0.0 < dt && |duties| == |air|
    decreases |duties|
  {
    if duties == [] then Ok(c)
    else
      var r := StepCrew(v, l, m, air[0], dt, duties[0].temperature, Assign(c, duties[0]));
      if r.Err? then r else Live(v, l, m, dt, r.value, duties[1..], air[1..])
  }

  /** Two-run comparison: after any number of steps under the same schedule, the
      member who had pointwise worse air has no lower exposures, fatigue, heart and
      respiratory rate, no higher saturation and performance, every alarm of the
      other, and no better health status. */
  lemma {:induction false} WorseAirNeverHelps(v: VitalConfig, l: Limits, m: CrewConfig, dt: real,
                                              good: Crew, bad: Crew, duties: seq<Duty>, gair: seq<Env>, bair: seq<Env>)
    requires Sound(l, m) && Directed(v) && 0.0 < dt && |duties| == |gair| == |bair|
    requires WorseCrew(good, bad)
    requires forall i | 0 <= i < |gair| :: WorseAir(gair[i], bair[i])
    ensures var g, b := Live(v, l, m, dt, good, duties, gair), Live(v, l, m, dt, bad, duties, bair);
      (g.Ok? <==> b.Ok?) && (g.Ok? ==> WorseCrew(g.value, b.value))
    decreases |duties|
  {
    if duties != [] {
      var g, b := Assign(good, duties[0]), Assign(bad, duties[0]);
      hide StepCrew;
      StepWorsens(v, l, m, gair[0], bair[0], dt, duties[0].temperature, g, b);
      var gr := StepCrew(v, l, m, gair[0], dt, duties[0].temperature, g);
      var br := StepCrew(v, l, m, bair[0], dt, duties[0].temperature, b);
      if gr.Ok? {
        WorseAirNeverHelps(v, l, m, dt, gr.value, br.value, duties[1..], gair[1..], bair[1..]);
      }
    }
  }
}
