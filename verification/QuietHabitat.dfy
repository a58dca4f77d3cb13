// A habitat at rest: a valid scenario in which nothing changes but the EVA, for every EVA
// configuration, abort fraction and performance.
module QuietHabitat {
  import opened Wrappers
  import opened Scenario
  import opened MathUtils
  import opened CrewPhysiology
  import opened Resources
  import opened EvaMachine
  import opened EvaReturn
  import opened Evaluation
  import opened SimulationRun
  import HabitatAir
  import EvaRun

  // ---------- The scenario ----------

  const WALKER := Name(1)
  const HOME := Name(2)

  const ACTIVITIES: seq<Activity> :=
    [Sleep, Resting, NominalWork, HighWorkload, EvaPrep, EvaTransit, EvaWork, Recovery, OutOfAction]

  // Performance comes from the load alone.
  function RestProfiles(activities: seq<Activity>, load: real): seq<Profile> {
    seq(|activities|, i requires 0 <= i < |activities| => Profile(activities[i], 0.0, 0.0, 0.0, load))
  }

  function RestVital(abort: real, performance: real): VitalConfig {
    VitalConfig(
      RestProfiles(ACTIVITIES, 1.0 - performance),
      0.0, 0.0, 0.0, 0.0, 0.0, 0.0,
      0.0, 0.0, 0.0,
      0.0, 0.0, 0.0, 0.0, 0.0, 0.0, 200.0,
      0.0, 0.0, 0.0, 0.0, 0.0, 100.0,
      0.0, 0.0, 0.0, 0.0, 0.0, 100.0,
      0.0, 0.0, 1.0, 0.0, 100.0,
      0.0, 0.0, 0.0, 0.0,
      0.0, 0.0, 0.0, 1.0,
      90.0, 80.0, 150.0, 60.0,
      30.0, 40.0, 1.0, abort)
  }

  const REST_LIMITS := Limits(2.0, 1.0, 1.0, 2.0, 1.0, 0.0, 40.0, -50.0, 90.0)

  const REST_MEMBER :=
    CrewConfig(WALKER, HOME, 70.0, 15.0, 98.0, 37.0, 1.0, 1.0, 1.0, 1.0, 1.0, true, Resting, EvaStatus.Idle, false)

  const REST_AIR := Air(OXYGEN_MOLAR * 100.0, 0.0, 0.0)

  function RestScenario(e: EvaConfig, abort: real, performance: real): Config {
    Config(60, e.maximum + 2, e.maximum + 4,
           1.0, 1.0, 20.0, 1.0,
           OXYGEN_MOLAR * 100.0, 0.0, 0.0, 0.0, 0.0,
           REST_LIMITS,
           1.0, 1.0, 0.0, 1.0, 1.0,
           0.0, 0.0, 0.0, 0.0, 0.0,
           0.0,
           0.0, 0.0, 0.0, 0.0,
           e,
           [], 1, 0.0,
           0.0, 1.0, 1.0, 1.0, 0.0,
           RestVital(abort, performance),
           [REST_MEMBER])
  }

  const REPAIR := Action(RepairSolarArray, 0, None, None, None, None, None, None, Some(WALKER), [], [], [])

  lemma ScenarioIsValid(e: EvaConfig, abort: real, performance: real)
    requires ValidEva(e) && e.available && 0.0 <= abort <= 1.0
    ensures var c := RestScenario(e, abort, performance);
      ValidScenario(c) && StrictLimits(c.limits) && Defined(c)
  {
    var c := RestScenario(e, abort, performance);
    assert c.vital.profiles[1].activity == Resting;
    assert HasProfile(c.vital, Resting);
    assert c.roster == [REST_MEMBER];
  }

  lemma PlanIsValid(e: EvaConfig, abort: real, performance: real)
    requires ValidEva(e) && e.available
    ensures ValidPlan(RestScenario(e, abort, performance), [REPAIR])
    ensures EvaRun.OneRepair([REPAIR])
  {
    var c := RestScenario(e, abort, performance);
    assert c.roster[0] == REST_MEMBER && c.roster[..0] == [];
    assert FindMember(c.roster, WALKER) == Some(REST_MEMBER);
    assert [REPAIR][0] == REPAIR;
  }

  // ---------- The state at rest ----------

  predicate RestMember(m: Crew) {
    && m.id == WALKER && m.hr == 70.0 && m.rr == 15.0 && m.spo2 == 98.0 && m.core == 37.0
    && m.hypoxia == 0.0 && m.co2Exposure == 0.0 && m.thermal == 0.0 && m.fatigue == 0.0
    && m.oxygen == 0.0 && m.co2 == 0.0 && m.heat == 0.0 && !m.rationing && m.activity != OutOfAction
    && (m.health == Health.Nominal || m.health == Health.Critical)
  }

  predicate AllZero(xs: seq<real>) { forall i | 0 <= i < |xs| :: xs[i] == 0.0 }

  predicate AtRest(s: State) {
    && s.volume == 1.0 && s.temperature == 20.0 && s.air == REST_AIR && s.leakFactor == 1.0
    && s.battery == 1.0 && s.solarFault == 1.0 && s.loads == Loads(0.0, 0.0, 0.0, 0.0)
    && s.equipmentHeat == 0.0 && s.tcsCapacity == 0.0 && AllZero(s.co2Samples)
    && |s.crew| == 1 && RestMember(s.crew[0])
  }

  lemma {:induction false} ProfileIsFound(activities: seq<Activity>, load: real, activity: Activity)
    requires forall i, j | 0 <= i < j < |activities| :: activities[i] != activities[j]
    ensures FindProfile(RestProfiles(activities, load), activity) ==
      if activity in activities then Ok(Profile(activity, 0.0, 0.0, 0.0, load)) else Err(MissingProfile)
  {
    if activities != [] {
      var n := |activities| - 1;
      ProfileIsFound(activities[..n], load, activity);
      assert RestProfiles(activities, load)[..n] == RestProfiles(activities[..n], load);
      assert activity in activities <==> activity in activities[..n] || activity == activities[n];
    }
  }

  lemma EveryActivityIsListed(activity: Activity)
    ensures activity in ACTIVITIES
    ensures forall i, j | 0 <= i < j < |ACTIVITIES| :: ACTIVITIES[i] != ACTIVITIES[j]
  {
    assert ACTIVITIES[0] == Sleep && ACTIVITIES[1] == Resting && ACTIVITIES[2] == NominalWork;
    assert ACTIVITIES[3] == HighWorkload && ACTIVITIES[4] == EvaPrep && ACTIVITIES[5] == EvaTransit;
    assert ACTIVITIES[6] == EvaWork && ACTIVITIES[7] == Recovery && ACTIVITIES[8] == OutOfAction;
  }

  // Air in which nobody suffers.
  predicate Healthy(env: Env) {
    2.0 <= env.inspiredO2 && 2.0 <= env.pressure && env.co2Average == 0.0
  }

  lemma NoSeverity(env: Env)
    requires Healthy(env)
    ensures Severities(REST_LIMITS, REST_MEMBER, env, 20.0) == Severity(0.0, 0.0, 0.0, 0.0)
  {
    LowSideMeaning(env.inspiredO2, env.inspiredO2, 2.0, 1.0);
    LowSideMeaning(env.pressure, env.pressure, 2.0, 1.0);
    HighSideMeaning(0.0, 0.0, 0.0, 1.0);
    LowSideMeaning(20.0, 20.0, 0.0, -50.0);
    HighSideMeaning(20.0, 20.0, 40.0, 90.0);
    hide LowSideSeverity, HighSideSeverity;
  }

  const CALM := Severity(0.0, 0.0, 0.0, 0.0)

  lemma TiredAtRest(v: VitalConfig, performance: real, abort: real, m: Crew)
    requires v == RestVital(abort, performance) && RestMember(m)
    ensures UpdateFatigue(UpdateExposure(m, CALM, v, 1.0), REST_MEMBER, 1.0 - performance, CALM, v, 1.0) == m
  {
    hide RestProfiles;
    assert Exposure(0.0, 0.0, 0.0, 0.0, 1.0) == 0.0;
    assert UpdateExposure(m, CALM, v, 1.0) == m;
    assert FatigueGain(m, 1.0 - performance, CALM, v, 1.0) == 0.0 && FatigueRest(m, REST_MEMBER, v, 1.0) == 0.0;
  }

  lemma VitalsAtRest(v: VitalConfig, performance: real, abort: real, m: Crew)
    requires v == RestVital(abort, performance) && RestMember(m)
    ensures UpdateVitals(m, REST_MEMBER, 1.0 - performance, CALM, v, 1.0, 20.0) == m
  {
    hide RestProfiles;
    var load, blend := 1.0 - performance, Blend(v, 1.0);
    assert TargetHr(m, REST_MEMBER, load, CALM, v) == 70.0 && TargetRr(REST_MEMBER, load, CALM, v) == 15.0;
    assert TargetSpo2(m, REST_MEMBER, load, CALM, v) == 98.0 && TargetCore(REST_MEMBER, load, 20.0, v) == 37.0;
    assert Lag(98.0, 98.0, blend) == 98.0 && Lag(37.0, 37.0, blend) == 37.0;
    hide TargetHr, TargetRr, TargetSpo2, TargetCore, Lag, Blend;
  }

  lemma PerformanceAtRest(v: VitalConfig, performance: real, abort: real, m: Crew)
    requires v == RestVital(abort, performance) && RestMember(m) && 0.0 <= performance <= 1.0
    ensures UpdatePerformance(m, 1.0 - performance, v) == m.(cognitive := 1.0, physical := performance)
  {
    hide RestProfiles;
  }

  lemma MetabolismAtRest(m: Crew, load: real)
    requires RestMember(m)
    ensures var p := Profile(m.activity, 0.0, 0.0, 0.0, load); UpdateMetabolism(m, p, p) == m
  {
  }

  // The stages of a step that leave everything but performance alone.
  lemma StepComposes(v: VitalConfig, l: Limits, m: CrewConfig, env: Env, x: Crew, p: Profile, s: Severity, n: Crew)
    requires Sound(l, m) && FindProfile(v.profiles, x.activity) == Ok(p) && !x.rationing
    requires Severities(l, m, env, 20.0) == s
    requires UpdateFatigue(UpdateExposure(x, s, v, 1.0), m, p.load, s, v, 1.0) == x
    requires UpdateMetabolism(x, p, p) == x && UpdateVitals(x, m, p.load, s, v, 1.0, 20.0) == x
    requires UpdatePerformance(x, p.load, v) == n
    ensures StepCrew(v, l, m, env, 1.0, 20.0, x) == Ok(UpdateHealth(n, env, v))
  {
    hide Severities, UpdateExposure, UpdateFatigue, UpdateMetabolism, UpdateVitals, UpdatePerformance, UpdateHealth,
      FindProfile, Sound;
  }

  lemma StepOfRest(v: VitalConfig, abort: real, performance: real, env: Env, m: Crew)
    requires v == RestVital(abort, performance) && 0.0 <= performance <= 1.0 && RestMember(m) && Healthy(env)
    ensures Sound(REST_LIMITS, REST_MEMBER)
    ensures StepCrew(v, REST_LIMITS, REST_MEMBER, env, 1.0, 20.0, m)
         == Ok(UpdateHealth(m.(cognitive := 1.0, physical := performance), env, v))
  {
    hide Severities, UpdateExposure, UpdateFatigue, UpdateMetabolism, UpdateVitals, UpdatePerformance, UpdateHealth,
      FindProfile, StepCrew, RestVital, Healthy;
    ProfileAtRest(v, abort, performance, m.activity);
    NoSeverity(env);
    TiredAtRest(v, performance, abort, m);
    MetabolismAtRest(m, 1.0 - performance);
    VitalsAtRest(v, performance, abort, m);
    PerformanceAtRest(v, performance, abort, m);
    StepComposes(v, REST_LIMITS, REST_MEMBER, env, m, Profile(m.activity, 0.0, 0.0, 0.0, 1.0 - performance), CALM,
                 m.(cognitive := 1.0, physical := performance));
  }

  lemma ProfileAtRest(v: VitalConfig, abort: real, performance: real, activity: Activity)
    requires v == RestVital(abort, performance)
    ensures FindProfile(v.profiles, activity) == Ok(Profile(activity, 0.0, 0.0, 0.0, 1.0 - performance))
  {
    EveryActivityIsListed(activity);
    ProfileIsFound(ACTIVITIES, 1.0 - performance, activity);
    hide RestProfiles, FindProfile;
  }

  lemma StepAtRest(e: EvaConfig, abort: real, performance: real, env: Env, m: Crew)
    requires ValidEva(e) && e.available && 0.0 <= abort < performance <= 1.0 && RestMember(m) && Healthy(env)
    ensures var c := RestScenario(e, abort, performance);
      && Defined(c)
      && MemberStage(c, env, 20.0, 0, m) == Ok(UpdateHealth(m.(cognitive := 1.0, physical := performance), env, c.vital))
  {
    ScenarioIsValid(e, abort, performance);
    RestParts(e, abort, performance);
    hide StepCrew, UpdateHealth, RestScenario, RestVital, RestMember, Healthy, Defined, DtMinutes;
    StepOfRest(RestVital(abort, performance), abort, performance, env, m);
  }

  // What a step reads of the scenario at rest.
  lemma RestParts(e: EvaConfig, abort: real, performance: real)
    ensures var c := RestScenario(e, abort, performance);
      && c.vital == RestVital(abort, performance) && c.vital.profiles == RestProfiles(ACTIVITIES, 1.0 - performance)
      && c.limits == REST_LIMITS && |c.roster| == 1 && c.roster[0] == REST_MEMBER && DtMinutes(c) == 1.0 && c.eva == e
  {
  }

  // One physiology step at rest sets the performance and judges the return.
  lemma MemberAtRest(e: EvaConfig, abort: real, performance: real, env: Env, m: Crew)
    requires ValidEva(e) && e.available && 0.0 <= abort < performance <= 1.0 && RestMember(m) && Healthy(env)
    ensures var c := RestScenario(e, abort, performance);
      && Defined(c)
      && var r := MemberStage(c, env, 20.0, 0, m);
      && r.Ok? && RestMember(r.value) && r.value.physical == performance
      && r.value.activity == m.activity && r.value.eva == m.eva
      && r.value.health == (if ReturnInDoubt(m, env) then Health.Critical else Health.Nominal)
  {
    StepAtRest(e, abort, performance, env, m);
    RestParts(e, abort, performance);
    hide MemberStage, RestScenario, RestProfiles, Defined;
    var v, n := RestVital(abort, performance), m.(cognitive := 1.0, physical := performance);
    NoAlarmButReturn(v, abort, performance, n, env);
    hide Alarms;
  }

  lemma NoAlarmButReturn(v: VitalConfig, abort: real, performance: real, m: Crew, env: Env)
    requires v == RestVital(abort, performance) && RestMember(m) && abort < m.physical && abort < m.cognitive
    ensures Alarms(m, env, v) != [] ==> ReturnInDoubt(m, env)
  {
    hide Alarms;
    if Alarms(m, env, v) != [] {
      var a := Alarms(m, env, v)[0];
      AlarmsAreRaised(a, m, env, v);
    }
  }

  // ---------- The physics at rest ----------

  lemma {:induction false} ZeroSum(xs: seq<real>)
    requires AllZero(xs)
    ensures HabitatAir.Sum(xs) == 0.0
  {
    if xs != [] {
      ZeroSum(xs[..|xs| - 1]);
    }
  }

  lemma ReadAtRest(e: EvaConfig, abort: real, performance: real, s: State)
    requires ValidEva(e) && e.available && 0.0 <= abort <= 1.0 && AtRest(s)
    ensures var c := RestScenario(e, abort, performance);
      && Defined(c)
      && var t := Read(c, s);
      && 2.0 < t.inspiredO2 && 2.0 < t.pressure && t.co2Average == 0.0 && t.soc == 100.0 && t.powerMargin == 0.0
      && t.evaMargin == EvaMargin(c, s) && Healthy(EnvOf(t))
  {
    ScenarioIsValid(e, abort, performance);
    ZeroSum(s.co2Samples);
    AirAtRest(s);
    hide OxygenHours, PressureHours, Co2Hours, BatteryHours, CabinPressure, InspiredO2;
  }

  lemma AirAtRest(s: State)
    requires s.air == REST_AIR && s.volume == 1.0 && s.temperature == 20.0
    ensures 2.0 < CabinPressure(s) && 2.0 < InspiredO2(s)
  {
    var n := MolesOf(s.air);
    assert n.oxygen == 100.0 && n.inert == 0.0 && n.co2 == 0.0;
  }

  lemma PhysicsAtRest(e: EvaConfig, abort: real, performance: real, s: State)
    requires ValidEva(e) && e.available && 0.0 <= abort <= 1.0 && AtRest(s)
    ensures var c := RestScenario(e, abort, performance);
      && Defined(c)
      && var t := PhysicsStage(c, s);
      AtRest(t) && t == s.(co2Samples := t.co2Samples)
  {
    var c := RestScenario(e, abort, performance);
    ScenarioIsValid(e, abort, performance);
    var m := CabinCrew(s.crew);
    NobodyBreathes(s.crew);
    assert AtmosphereStage(c, s, m) == s;
    var t := Co2Stage(c, s, m);
    assert t == s.(co2Samples := t.co2Samples);
    NoCo2(c, s, m);
    hide Co2Stage, AtmosphereStage;
    assert PowerMargin(c, t) == 0.0;
    assert PowerStage(c, t) == t by { hide PowerMargin; RestBattery(c, t); }
    hide PowerStage, PowerMargin;
    assert NetHeat(c, t, 0.0) == 0.0;
    assert ThermalStage(c, t, 0.0) == t;
    hide ThermalStage;
    EvaRun.PhysicsStaysOutside(c, s);
  }

  lemma NobodyBreathes(crew: seq<Crew>)
    requires |crew| == 1 && RestMember(crew[0])
    ensures CabinCrew(crew) == Metabolism(0.0, 0.0, 0.0)
  {
    assert crew[..0] == [];
  }

  lemma NoCo2(c: Config, s: State, m: Metabolism)
    requires Defined(c) && c.timeStepS == 60 && m.co2 == 0.0 && AtRest(s) && c.scrubberCapacity == 0.0
    ensures AllZero(Co2Stage(c, s, m).co2Samples)
  {
    assert HabitatAir.UpdateCo2(s.air, FlowOf(c, s, m)) == s.air;
    assert Co2Sample(s) == 0.0;
  }

  lemma RestBattery(c: Config, s: State)
    requires Defined(c) && PowerMargin(c, s) == 0.0 && s.battery == c.batteryCapacity == 1.0
    ensures PowerStage(c, s) == s
  {
  }
}
