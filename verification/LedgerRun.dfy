// The mass ledger of the cabin air over whole runs.
module LedgerRun {
  import opened Wrappers
  import opened Scenario
  import opened MathUtils
  import opened CrewPhysiology
  import opened Resources
  import opened HabitatAir
  import Actions
  import EvaMachine
  import EvaRun
  import Evaluation
  import opened SimulationRun

  // Kilograms that have passed through the cabin so far.
  datatype Account = Account(consumed: real, leaked: real, produced: real, scrubbed: real) {
    function Balance(initial: real): real { initial + produced - consumed - leaked - scrubbed }
  }

  // The flow of the step from this state.
  function FlowFrom(c: Config, plan: Plan, s: State): Flow
    requires Defined(c) && |s.crew| == |c.roster|
  {
    var a := Actions.ApplyScheduled(c, plan, s).state;
    Actions.ScheduledKeepsCrew(c, plan, s, |plan|);
    var r := CrewStage(c, a);
    if r.Err? then Flow(0.0, 0.0, 0.0, 0.0) else FlowOf(c, r.value, CabinCrew(r.value.crew))
  }

  function Book(acc: Account, a: Air, f: Flow): Account {
    Account(acc.consumed + f.consumed, acc.leaked + LeakOut(a, f), acc.produced + f.produced, acc.scrubbed + ScrubOut(a, f))
  }

  // The flow of the step that extends this history.
  function NextFlow(c: Config, plan: Plan, g: seq<Stepped>): Flow
    requires Defined(c)
  {
    if NextState(c, g).Ok? && |NextState(c, g).value.crew| == |c.roster| then FlowFrom(c, plan, NextState(c, g).value)
    else Flow(0.0, 0.0, 0.0, 0.0)
  }

  function AirAfter(c: Config, h: seq<Stepped>): Air {
    if h == [] then Air(c.oxygen, c.inert, c.co2) else h[|h| - 1].state.air
  }

  function Ledger(c: Config, plan: Plan, h: seq<Stepped>): Account
    requires Defined(c)
  {
    if h == [] then Account(0.0, 0.0, 0.0, 0.0)
    else
      var g := h[..|h| - 1];
      Book(Ledger(c, plan, g), AirAfter(c, g), NextFlow(c, plan, g))
  }

  // No inventory was ever driven below zero.
  predicate NeverClamped(c: Config, plan: Plan, h: seq<Stepped>)
    requires Defined(c)
  {
    h == [] || (
      var g := h[..|h| - 1];
      NeverClamped(c, plan, g) && NoClamp(AirAfter(c, g), NextFlow(c, plan, g)))
  }

  predicate NaturalProfiles(v: VitalConfig) {
    forall p | p in v.profiles :: 0.0 <= p.co2
  }

  // ---------- Crew production ----------

  lemma MetabolismIsNatural(x: Crew, p: Profile, floor: Profile)
    requires 0.0 <= x.physical && 0.0 <= p.co2 && 0.0 <= floor.co2
    ensures 0.0 <= UpdateMetabolism(x, p, floor).co2
  {
    var k := if x.rationing then Scale(RATIONING_FACTOR, x.physical) else x.physical;
    ScaleMono(RATIONING_FACTOR, 0.0, x.physical);
    ScaleMono(k, 0.0, p.co2);
    hide Scale;
  }

  lemma MemberBreathesOut(c: Config, env: Env, temperature: real, i: nat, m: Crew)
    requires Defined(c) && i < |c.roster| && NaturalProfiles(c.vital) && 0.0 <= m.physical
    ensures var r := MemberStage(c, env, temperature, i, m);
      r.Ok? ==> 0.0 <= r.value.co2
  {
    var profile := FindProfile(c.vital.profiles, m.activity);
    var floor := if m.rationing then FindProfile(c.vital.profiles, Sleep) else profile;
    MemberIsSound(c, i);
    if profile.Ok? && floor.Ok? {
      hide MemberStage;
      Passes(c, env, temperature, i, m, profile.value, floor.value);
    } else {
      hide Severities, UpdateExposure, UpdateFatigue, UpdateMetabolism, UpdateVitals, UpdatePerformance, UpdateHealth,
        DtMinutes, Sound;
    }
  }

  lemma MemberIsSound(c: Config, i: nat)
    requires Defined(c) && i < |c.roster|
    ensures Sound(c.limits, c.roster[i]) && 0.0 < DtMinutes(c)
  {
    assert c.roster[i] in c.roster;
    PosDiv(c.timeStepS as real, 60.0);
  }

  // Only the metabolism stage writes what is breathed out.
  lemma Passes(c: Config, env: Env, temperature: real, i: nat, m: Crew, p: Profile, floor: Profile)
    requires Defined(c) && i < |c.roster| && 0.0 <= m.physical && 0.0 <= p.co2 && 0.0 <= floor.co2
    requires FindProfile(c.vital.profiles, m.activity) == Ok(p)
    requires (if m.rationing then FindProfile(c.vital.profiles, Sleep) else Ok(p)) == Ok(floor)
    ensures var r := MemberStage(c, env, temperature, i, m);
      r.Ok? && 0.0 <= r.value.co2
  {
    var v, dt, k := c.vital, DtMinutes(c), c.roster[i];
    MemberIsSound(c, i);
    var s := Severities(c.limits, k, env, temperature);
    var tired := UpdateFatigue(UpdateExposure(m, s, v, dt), k, p.load, s, v, dt);
    MetabolismIsNatural(tired, p, floor);
    hide Severities, Exposure, FatigueGain, FatigueRest, UpdateMetabolism, TargetHr, TargetRr, TargetSpo2, TargetCore,
      Blend, Impairment, HealthOf, Alarms, Scale, Clamp, Lag, Sound, DtMinutes;
    var breathing := UpdateMetabolism(tired, p, floor);
    var vital := UpdateVitals(breathing, k, p.load, s, v, dt, temperature);
    assert vital.co2 == breathing.co2;
    assert MemberStage(c, env, temperature, i, m) == Ok(UpdateHealth(UpdatePerformance(vital, p.load, v), env, v));
  }

  predicate BreathesOut(crew: seq<Crew>) {
    forall i | 0 <= i < |crew| :: 0.0 <= crew[i].co2
  }

  lemma {:induction false} CabinBreathesOut(crew: seq<Crew>)
    requires BreathesOut(crew)
    ensures 0.0 <= CabinCrew(crew).co2
  {
    if crew != [] {
      CabinBreathesOut(crew[..|crew| - 1]);
    }
  }

  lemma CrewStageBreathesOut(c: Config, s: State, r: State)
    requires Defined(c) && |s.crew| == |c.roster| && CrewStage(c, s) == Ok(r)
    requires NaturalProfiles(c.vital) && EvaRun.Able(s.crew)
    ensures BreathesOut(r.crew)
  {
    var env := EnvOf(Read(c, s));
    CrewIsPointwise(c, env, s.temperature, s.crew, |s.crew|);
    forall i | 0 <= i < |s.crew|
      ensures 0.0 <= r.crew[i].co2
    {
      assert MemberStage(c, env, s.temperature, i, s.crew[i]) == Ok(r.crew[i]);
      hide Read, EnvOf, CrewUpTo, MemberStage;
      MemberBreathesOut(c, env, s.temperature, i, s.crew[i]);
    }
  }

  // ---------- One step of the simulator ----------

  lemma ProducedIsNatural(c: Config, s: State, m: Metabolism)
    requires 0 < c.timeStepS && 0.0 <= m.co2
    ensures 0.0 <= FlowOf(c, s, m).produced
  {
    MulMono(DtMinutes(c), 0.0, m.co2);
    DivMono(0.0, m.co2 * DtMinutes(c), 1000.0);
  }

  lemma AirStage(c: Config, r: State)
    requires Defined(c)
    ensures PhysicsStage(c, r).air == AirStep(r.air, FlowOf(c, r, CabinCrew(r.crew)))
  {
    var m := CabinCrew(r.crew);
    var b := AtmosphereStage(c, r, m);
    assert FlowOf(c, b, m) == FlowOf(c, r, m);
    hide FlowOf, UpdateAtmosphere, UpdateCo2, Co2Sample, PushSample, CabinCrew, Defined;
    assert Co2Stage(c, b, m).air == AirStep(r.air, FlowOf(c, r, m));
    hide Co2Stage, AirStep;
  }

  lemma AirThroughRest(c: Config, r: State)
    requires Defined(c)
    ensures var t := Evaluation.AbortAll(AfterActions(c, r));
      t.air == PhysicsStage(c, r).air && (EvaRun.Able(r.crew) ==> EvaRun.Able(t.crew)) && |t.crew| == |r.crew|
  {
    var p := PhysicsStage(c, r);
    EvaRun.PhysicsStaysOutside(c, r);
    hide PhysicsStage, Defined;
    var w := AfterWalk(c, r);
    WalkKeepsAir(c, DtMinutes(c), p);
    Actions.FollowKeepsRest(c, |w.actions|, Truncate(DtMinutes(c)), w);
    hide Actions.FollowUpTo, EvaMachine.EvaStage, DtMinutes;
  }

  lemma WalkKeepsAir(c: Config, dt: real, s: State)
    requires 0 < c.eva.maximum
    ensures var t := EvaMachine.EvaStage(c, dt, s).0;
      t.air == s.air && (EvaRun.Able(s.crew) ==> EvaRun.Able(t.crew)) && |t.crew| == |s.crew|
  {
    hide EvaMachine.EvaStep, EvaMachine.FirstOnEva;
  }

  lemma UndisturbedIsAble(s: State, t: State)
    requires Actions.Undisturbed(s, t) && EvaRun.Able(s.crew)
    ensures EvaRun.Able(t.crew) && t.air == s.air
  {
    forall i | 0 <= i < |t.crew|
      ensures 0.0 <= t.crew[i].physical <= 1.0
    {
      assert Actions.SameBody(s.crew[i], t.crew[i]);
    }
  }

  lemma RestAir(c: Config, a: State, r: State)
    requires Defined(c) && |a.crew| == |c.roster| && CrewStage(c, a) == Ok(r)
    requires NaturalProfiles(c.vital) && EvaRun.Able(a.crew)
    ensures var t, f := Evaluation.AbortAll(AfterActions(c, r)), FlowOf(c, r, CabinCrew(r.crew));
      && t.air == AirStep(a.air, f) && 0.0 <= f.produced && EvaRun.Able(t.crew) && |t.crew| == |r.crew|
  {
    hide CrewStage, PhysicsStage, AfterActions, Evaluation.AbortAll, AirStep, CabinCrew, EvaRun.Able, FlowOf, BreathesOut,
      NaturalProfiles;
    CrewStageBreathesOut(c, a, r);
    EvaRun.CrewStageMovesNobody(c, a, r);
    CabinBreathesOut(r.crew);
    ProducedIsNatural(c, r, CabinCrew(r.crew));
    AirStage(c, r);
    AirThroughRest(c, r);
  }

  lemma StepAir(c: Config, plan: Plan, s: State, held: real)
    requires Defined(c) && |s.crew| == |c.roster| && Step(c, plan, s, held).Ok?
    requires NaturalProfiles(c.vital) && EvaRun.Able(s.crew)
    ensures var x, f := Step(c, plan, s, held).value, FlowFrom(c, plan, s);
      && x.state.air == AirStep(s.air, f) && 0.0 <= f.produced
      && EvaRun.Able(x.state.crew) && |x.state.crew| == |c.roster|
  {
    var a, r := StepStages(c, plan, s, held);
    hide Step;
    UndisturbedIsAble(s, a);
    hide Actions.ApplyUpTo, Actions.Undisturbed, Read, Evaluation.Reasons, AfterActions, Evaluation.AbortAll, AirStep;
    RestAir(c, a, r);
    hide CrewStage, FlowOf, CabinCrew, EvaRun.Able, NaturalProfiles;
  }

  // ---------- Runs ----------

  lemma InitialIsAble(c: Config)
    requires Initial(c).Ok?
    ensures EvaRun.Able(Initial(c).value.crew) && Initial(c).value.air == AirAfter(c, [])
    ensures |Initial(c).value.crew| == |c.roster|
  {
    var s := Initial(c).value;
    forall i | 0 <= i < |s.crew|
      ensures s.crew[i].physical == 1.0
    {
      assert InitialMember(c.vital, c.roster[i]) == Ok(s.crew[i]);
    }
  }

  lemma {:induction false} RunIsAble(c: Config, plan: Plan, h: seq<Stepped>)
    requires Defined(c) && IsRun(c, plan, h) && NaturalProfiles(c.vital)
    ensures var n := NextState(c, h);
      n.Ok? ==> EvaRun.Able(n.value.crew) && n.value.air == AirAfter(c, h) && |n.value.crew| == |c.roster|
  {
    hide EvaRun.Able, Step, GoesOn, Defined, AirStep, FlowFrom;
    if h == [] {
      if Initial(c).Ok? {
        InitialIsAble(c);
      }
    } else {
      var g := h[..|h| - 1];
      RunIsAble(c, plan, g);
      StepAir(c, plan, NextState(c, g).value, NextHeld(g));
    }
  }

  lemma LastStepAir(c: Config, plan: Plan, h: seq<Stepped>)
    requires Defined(c) && IsRun(c, plan, h) && NaturalProfiles(c.vital) && h != []
    ensures var g := h[..|h| - 1];
      var f := NextFlow(c, plan, g);
      AirAfter(c, h) == AirStep(AirAfter(c, g), f) && 0.0 <= f.produced
  {
    hide EvaRun.Able, Step, GoesOn, Defined, AirStep, FlowFrom;
    var g := h[..|h| - 1];
    RunIsAble(c, plan, g);
    StepAir(c, plan, NextState(c, g).value, NextHeld(g));
  }

  /** Conservation over any run: no gas mass goes negative, inert gas never increases,
      and the air holds at least what the ledger says, exactly that when and only when
      no inventory was ever clamped at zero. */
  lemma {:induction false} MassLedger(c: Config, plan: Plan, h: seq<Stepped>)
    requires Defined(c) && IsRun(c, plan, h) && NaturalProfiles(c.vital)
    requires Stocked(Air(c.oxygen, c.inert, c.co2))
    ensures var a, balance := AirAfter(c, h), Ledger(c, plan, h).Balance(Total(AirAfter(c, [])));
      && Stocked(a) && a.inert <= c.inert
      && balance <= Total(a)
      && (Total(a) == balance <==> NeverClamped(c, plan, h))
  {
    hide Follows, GoesOn, Defined, NaturalProfiles;
    if h != [] {
      var g := h[..|h| - 1];
      MassLedger(c, plan, g);
      LastStepAir(c, plan, h);
      var f := NextFlow(c, plan, g);
      hide NextFlow, AirAfter, IsRun;
      StepLedger(AirAfter(c, g), f);
      hide AirStep, LeakOut, ScrubOut, NoClamp, Stocked, Total;
    }
  }

  /** Inert gas never increases from one step to the next. */
  lemma InertOnlyLeaves(c: Config, plan: Plan, h: seq<Stepped>)
    requires Defined(c) && IsRun(c, plan, h) && NaturalProfiles(c.vital) && h != []
    requires Stocked(Air(c.oxygen, c.inert, c.co2))
    ensures AirAfter(c, h).inert <= AirAfter(c, h[..|h| - 1]).inert
  {
    var g := h[..|h| - 1];
    MassLedger(c, plan, g);
    LastStepAir(c, plan, h);
    hide IsRun, Defined, NaturalProfiles, Ledger, NeverClamped, AirAfter;
    var f := NextFlow(c, plan, g);
    hide NextFlow;
    StepLedger(AirAfter(c, g), f);
    hide AirStep, LeakOut, ScrubOut, NoClamp;
  }
}
