// The run loop.
module Simulator {
  import opened Wrappers
  import opened Scenario
  import opened CrewPhysiology
  import opened Resources
  import Actions
  import EvaMachine
  import EvaRun
  import ActionRun
  import Completion
  import opened Evaluation
  import opened SimulationRun
  import opened HabitatState
  import opened RunResult
  import Validator

  datatype Returned = Rejected | Thrown(error: LookupError) | Completed(result: RunResult.Result)

  // Without a plan nothing is scheduled.
  function PlanOf(plan: Option<Plan>): Plan { if plan.Some? then plan.value else [] }

  predicate Admitted(c: Config, plan: Option<Plan>) {
    ValidScenario(c) && (plan.Some? ==> ValidPlan(c, plan.value))
  }

  // ---------- One step ----------

  lemma RestKeepsIds(c: Config, r: State)
    requires Defined(c) && Manned(c, r)
    ensures Manned(c, AbortAll(AfterActions(c, r)))
  {
    var p := PhysicsStage(c, r);
    EvaRun.PhysicsStaysOutside(c, r);
    hide PhysicsStage, Defined;
    WalkKeepsIds(c, DtMinutes(c), p);
    var w := AfterWalk(c, r);
    Actions.FollowKeepsRest(c, |w.actions|, Truncate(DtMinutes(c)), w);
    hide Actions.FollowUpTo, EvaMachine.EvaStage;
  }

  lemma WalkKeepsIds(c: Config, dt: real, s: State)
    requires 0 < c.eva.maximum && Manned(c, s)
    ensures Manned(c, EvaMachine.EvaStage(c, dt, s).0)
  {
    hide EvaMachine.EvaStep, EvaMachine.FirstOnEva;
  }

  lemma UndisturbedIsManned(c: Config, s: State, t: State)
    requires Manned(c, s) && Actions.Undisturbed(s, t)
    ensures Manned(c, t)
  {
    forall i | 0 <= i < |c.roster|
      ensures t.crew[i].id == c.roster[i].id
    {
      assert Actions.SameBody(s.crew[i], t.crew[i]);
    }
  }

  lemma InitialIsManned(c: Config, crew: seq<Crew>)
    requires InitialCrew(c.vital, c.roster) == Ok(crew)
    ensures Manned(c, InitialState(c, crew))
  {
    forall i | 0 <= i < |c.roster|
      ensures crew[i].id == c.roster[i].id
    {
      assert InitialMember(c.vital, c.roster[i]) == Ok(crew[i]);
    }
  }

  /** Physics, EVA, active actions and evaluation, in the order of a step. */
  method FinishStep(c: Config, s: SimulationState, held: real) returns (x: Stepped)
    requires Defined(c)
    modifies s
    ensures x == Finish(c, old(s.Snap()), held, old(s.stepEvents)) && s.Snap() == x.state
  {
    hide Defined, AtmosphereStage, Co2Stage, PowerStage, ThermalStage, CabinCrew, EvaMachine.EvaStage, Actions.FollowAll, Read,
      Judge, DtMinutes, Truncate, EvaDone;
    PositiveStep(c);
    var now := s.time;
    var m := s.AggregateCrewLoads();
    s.UpdateAtmosphere(c, m);
    s.UpdateCarbonDioxide(c, m);
    s.UpdateElectricalPower(c);
    s.UpdateThermalState(c, m.heat);
    assert s.Snap() == PhysicsStage(c, old(s.Snap())) && s.stepEvents == old(s.stepEvents);
    hide PhysicsStage;
    ghost var p := s.Snap();
    s.UpdateEvaAndRepair(c);
    ghost var (w, walked) := EvaMachine.EvaStage(c, DtMinutes(c), p);
    assert s.Snap() == w && s.stepEvents == old(s.stepEvents) + walked;
    s.UpdateActiveActions(c);
    ghost var f := Actions.FollowAll(c, Truncate(DtMinutes(c)), w);
    assert s.Snap() == f.state && s.stepEvents == old(s.stepEvents) + walked + f.events;
    var t := Read(c, s.Snap());
    var vitals := s.crew;
    var mission, verdict := s.EvaluateMissionState(c, t, held);
    ghost var j := Judge(c, f.state, t, held);
    assert s.Snap() == j.state && mission == j.mission && verdict == j.verdict;
    assert s.stepEvents == old(s.stepEvents) + walked + f.events + j.events;
    x := Stepped(s.Snap(),
                 Sample(now, t, vitals, mission, s.actions, s.packetSent, EvaDone(s.crew), Stamp(now, s.stepEvents)),
                 verdict);
    assert x == Finish(c, old(s.Snap()), held, old(s.stepEvents));
  }

  method StepOnce(c: Config, plan: Option<Plan>, s: SimulationState, held: real) returns (r: Wrappers.Result<Stepped, LookupError>)
    requires Defined(c) && DistinctIds(c.roster) && Manned(c, s.Snap())
    modifies s
    ensures r == Step(c, PlanOf(plan), old(s.Snap()), held)
    ensures r.Ok? ==> s.Snap() == r.value.state && Manned(c, s.Snap())
  {
    hide Defined, DistinctIds, Manned, Actions.ApplyUpTo, Actions.Undisturbed, CrewStage, Transitions, Finish;
    ghost var s0 := s.Snap();
    s.stepEvents := [];
    if plan.Some? {
      s.ApplyScheduledActions(c, plan.value);
    } else {
      NothingScheduled(c, s0);
    }
    ghost var a := Actions.ApplyScheduled(c, PlanOf(plan), s0);
    ScheduledStaysManned(c, PlanOf(plan), s0);
    assert s.Snap() == a.state && s.stepEvents == a.events;
    var error := s.UpdateAllCrew(c);
    if error.Some? {
      return Err(error.value);
    }
    ghost var b := s.Snap();
    assert s.stepEvents == a.events + Transitions(a.state.crew, b.crew, |b.crew|);
    var x := FinishStep(c, s, held);
    StaysManned(c, a.state, b, held, a.events + Transitions(a.state.crew, b.crew, |b.crew|));
    return Ok(x);
  }

  lemma NothingScheduled(c: Config, s: State)
    ensures Actions.ApplyScheduled(c, [], s) == Actions.Effect(s, [])
  {
  }

  lemma ScheduledStaysManned(c: Config, plan: Plan, s: State)
    requires Manned(c, s)
    ensures var a := Actions.ApplyScheduled(c, plan, s).state;
      Manned(c, a) && |a.crew| == |s.crew| == |c.roster|
  {
    Actions.ScheduledKeepsCrew(c, plan, s, |plan|);
    UndisturbedIsManned(c, s, Actions.ApplyScheduled(c, plan, s).state);
    hide Actions.ApplyUpTo, Actions.Undisturbed;
  }

  lemma StaysManned(c: Config, a: State, b: State, held: real, events: seq<EventKind>)
    requires Defined(c) && Manned(c, a) && CrewStage(c, a) == Ok(b)
    ensures Manned(c, Finish(c, b, held, events).state)
  {
    EvaRun.CrewStageMovesNobody(c, a, b);
    assert Manned(c, b);
    RestKeepsIds(c, b);
    FinishStages(c, b, held, events);
    hide Finish, CrewStage, Manned, AfterActions, AbortAll;
  }

  // ---------- Metrics ----------

  method LowestOf(m: Option<real>, crew: seq<Crew>) returns (r: Option<real>)
    ensures r == LowestSpo2(m, crew)
  {
    r := m;
    for i := 0 to |crew|
      invariant r == LowestSpo2(m, crew[..i])
    {
      assert crew[..i + 1][..i] == crew[..i];
      if r.None? || crew[i].spo2 < r.value { r := Some(crew[i].spo2); }
    }
    assert crew[..|crew|] == crew;
  }

  method HighestOf(m: real, crew: seq<Crew>) returns (r: real)
    ensures r == HighestFatigue(m, crew)
  {
    r := m;
    for i := 0 to |crew|
      invariant r == HighestFatigue(m, crew[..i])
    {
      assert crew[..i + 1][..i] == crew[..i];
      if r < crew[i].fatigue * 100.0 { r := crew[i].fatigue * 100.0; }
    }
    assert crew[..|crew|] == crew;
  }

  method UpdateExtrema(m: Metrics, x: Stepped) returns (n: Metrics)
    ensures n == UpdateMetrics(m, x)
  {
    hide LowestSpo2, HighestFatigue, Lower, Higher;
    var t := x.sample.telemetry;
    n := m.(minInspiredO2 := Lower(m.minInspiredO2, t.inspiredO2), minPressure := Lower(m.minPressure, t.pressure),
            maxCo2 := Higher(m.maxCo2, t.co2Average), minSoc := Lower(m.minSoc, t.soc),
            minPowerMargin := Lower(m.minPowerMargin, t.powerMargin),
            minTemperatureMargin := Lower(m.minTemperatureMargin, t.temperatureMargin),
            minEvaMargin := Lower(m.minEvaMargin, t.evaMargin as real));
    var spo2 := LowestOf(n.minSpo2, x.sample.vitals);
    var fatigue := HighestOf(n.maxFatigue, x.sample.vitals);
    n := n.(minSpo2 := spo2, maxFatigue := fatigue);
    if x.sample.evaDone { n := n.(evaCompleted := true); }
    if x.sample.packetSent { n := n.(packetSent := true); }
    if x.verdict == Stabilized { n := n.(hoursToStable := Some(x.sample.time as real / 60.0)); }
  }

  // ---------- The run ----------

  method InitializeCrew(v: VitalConfig, roster: seq<CrewConfig>) returns (r: Wrappers.Result<seq<Crew>, LookupError>)
    ensures r == InitialCrew(v, roster)
  {
    hide InitialMember;
    var crew: seq<Crew> := [];
    for i := 0 to |roster|
      invariant InitialCrew(v, roster[..i]) == Ok(crew)
    {
      assert roster[..i + 1][..i] == roster[..i];
      var m := InitialMember(v, roster[i]);
      if m.Err? {
        FailedStart(v, roster, i, |roster|);
        assert roster[..|roster|] == roster;
        return Err(m.error);
      }
      crew := crew + [m.value];
    }
    assert roster[..|roster|] == roster;
    return Ok(crew);
  }

  lemma {:induction false} FailedStart(v: VitalConfig, roster: seq<CrewConfig>, n: nat, top: nat)
    requires n < top <= |roster| && InitialCrew(v, roster[..n]).Ok? && InitialMember(v, roster[n]).Err?
    ensures InitialCrew(v, roster[..top]) == Err(InitialMember(v, roster[n]).error)
  {
    hide InitialMember;
    assert roster[..top][..top - 1] == roster[..top - 1];
    if n + 1 < top {
      FailedStart(v, roster, n, top - 1);
    }
  }

  lemma ReadingsExtend(h: seq<Stepped>, x: Stepped)
    ensures MetricsOf(h + [x]) == UpdateMetrics(MetricsOf(h), x)
    ensures TimelineOf(h + [x]) == TimelineOf(h) + x.sample.events
    ensures Samples(h + [x]) == Samples(h) + [x.sample]
  {
    hide UpdateMetrics;
    assert (h + [x])[..|h|] == h;
  }

  // The next step of the history cannot be made.
  ghost predicate Breaks(c: Config, plan: Plan, h: seq<Stepped>, e: LookupError)
    requires Defined(c)
  {
    var n := NextState(c, h);
    if n.Err? then n.error == e else |n.value.crew| == |c.roster| && Step(c, plan, n.value, NextHeld(h)) == Err(e)
  }

  /** The whole run: a rejected scenario or plan runs nothing; otherwise what is
      returned is a reading of the one history of steps that ends, or of the one that
      breaks off at a profile lookup. */
  method RunInternal(c: Config, plan: Option<Plan>) returns (out: Returned, ghost h: seq<Stepped>)
    requires StrictLimits(c.limits)
    ensures out == Rejected <==> !Admitted(c, plan)
    ensures Admitted(c, plan) ==> Defined(c) && IsRun(c, PlanOf(plan), h)
    ensures out.Completed? ==> Ended(c, h) && out.result == ResultOf(h)
    ensures out.Thrown? ==> Defined(c) && !Ended(c, h) && Breaks(c, PlanOf(plan), h, out.error)
    ensures Completion.OneProfileEach(c.vital) ==> !out.Thrown?
  {
    h := [];
    var valid := Validator.ValidateScenario(c);
    if !valid {
      return Rejected, h;
    }
    if plan.Some? {
      valid := Validator.ValidatePlan(c, plan.value);
      if !valid {
        return Rejected, h;
      }
    }
    ValidIsDefined(c);
    assert DistinctIds(c.roster) && 0 < c.maximumDuration;
    hide ValidScenario, ValidPlan, Defined, DistinctIds, Step, InitialState, UpdateMetrics, GoesOn, IsRun, Breaks,
      Completion.OneProfileEach;
    NoStepsAreARun(c, PlanOf(plan));
    var crew := InitializeCrew(c.vital, c.roster);
    if crew.Err? {
      NeverBreaks(c, PlanOf(plan), h, crew.error);
      return Thrown(crew.error), h;
    }
    InitialIsManned(c, crew.value);
    var s := new SimulationState(c, crew.value);
    out, h := Loop(c, plan, s);
    if out.Thrown? {
      NeverBreaks(c, PlanOf(plan), h, out.error);
    }
  }

  lemma NeverBreaks(c: Config, plan: Plan, h: seq<Stepped>, e: LookupError)
    requires Defined(c) && IsRun(c, plan, h) && !Ended(c, h)
    ensures Completion.OneProfileEach(c.vital) ==> !Breaks(c, plan, h, e)
  {
    hide IsRun, Step, Defined, GoesOn, Completion.OneProfileEach;
    if Completion.OneProfileEach(c.vital) {
      Completion.RunGoesOn(c, plan, h);
    }
  }

  lemma NoStepsAreARun(c: Config, plan: Plan)
    requires Defined(c)
    ensures IsRun(c, plan, [])
  {
  }

  method Loop(c: Config, plan: Option<Plan>, s: SimulationState) returns (out: Returned, ghost h: seq<Stepped>)
    requires Defined(c) && DistinctIds(c.roster) && Manned(c, s.Snap()) && Initial(c) == Ok(s.Snap())
    modifies s
    ensures out != Rejected && IsRun(c, PlanOf(plan), h)
    ensures out.Completed? ==> Ended(c, h) && out.result == ResultOf(h)
    ensures out.Thrown? ==> !Ended(c, h) && Breaks(c, PlanOf(plan), h, out.error)
  {
    hide Defined, DistinctIds, Step, UpdateMetrics, IsRun, Manned, Initial, RunResult.OutcomeOf;
    h := [];
    NoStepsAreARun(c, PlanOf(plan));
    var metrics, timeline, history, held := NO_METRICS, [], [], 0.0;
    while true
      invariant Defined(c) && IsRun(c, PlanOf(plan), h) && (h != [] ==> GoesOn(c, h[|h| - 1]))
      invariant NextState(c, h) == Ok(s.Snap()) && held == NextHeld(h) && Manned(c, s.Snap())
      invariant metrics == MetricsOf(h) && timeline == TimelineOf(h) && history == Samples(h)
      decreases c.maximumDuration + StepMinutes(c) - s.time
    {
      ghost var before := s.Snap();
      assert |before.crew| == |c.roster| by { MannedIsFull(c, before); }
      var r := StepOnce(c, plan, s, held);
      if r.Err? {
        return Thrown(r.error), h;
      }
      var x := r.value;
      StepTimeKept(c, PlanOf(plan), h, x);
      Completion.Extended(c, PlanOf(plan), h, x);
      ReadingsExtend(h, x);
      h := h + [x];
      metrics := UpdateExtrema(metrics, x);
      history := history + [x.sample];
      timeline := timeline + x.sample.events;
      if x.verdict != Continue || s.time >= c.maximumDuration {
        return Completed(RunResult.Result(OutcomeOf(x), metrics, timeline, history)), h;
      }
      held := x.sample.mission.heldMinutes;
      TickIsManned(c, s.Snap());
      s.time := s.time + StepMinutes(c);
    }
    assert false;
  }

  lemma MannedIsFull(c: Config, s: State)
    requires Manned(c, s)
    ensures |s.crew| == |c.roster|
  {
  }

  lemma TickIsManned(c: Config, s: State)
    requires Manned(c, s)
    ensures Manned(c, Tick(c, s))
  {
  }

  lemma StepTimeKept(c: Config, plan: Plan, h: seq<Stepped>, x: Stepped)
    requires Defined(c) && IsRun(c, plan, h) && Follows(c, plan, h, x)
    ensures x.state.time == NextState(c, h).value.time
  {
    hide IsRun, Step;
    ActionRun.RunIsOnGrid(c, plan, h);
    GridStepTime(c, plan, NextState(c, h).value, NextHeld(h));
  }
}
