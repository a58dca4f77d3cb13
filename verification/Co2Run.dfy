// The rolling hour of carbon dioxide over whole runs.
module Co2Run {
  import opened Wrappers
  import opened Scenario
  import opened Resources
  import opened HabitatAir
  import Actions
  import EvaMachine
  import EvaRun
  import StabilizationRun
  import RunResult
  import opened Evaluation
  import opened SimulationRun

  // The partial pressure measured in the step from this state.
  function Measured(c: Config, plan: Plan, s: State): real
    requires Defined(c) && |s.crew| == |c.roster|
  {
    var a := Actions.ApplyScheduled(c, plan, s).state;
    Actions.ScheduledKeepsCrew(c, plan, s, |plan|);
    var r := CrewStage(c, a);
    if r.Err? then 0.0 else MeasuredAfter(c, r.value)
  }

  function MeasuredAfter(c: Config, r: State): real {
    var m := CabinCrew(r.crew);
    var b := AtmosphereStage(c, r, m);
    Co2Sample(b.(air := UpdateCo2(b.air, FlowOf(c, b, m))))
  }

  // Every measurement of a run, in order.
  function Measurements(c: Config, plan: Plan, h: seq<Stepped>): seq<real>
    requires Defined(c)
  {
    if h == [] then []
    else
      var g := h[..|h| - 1];
      Measurements(c, plan, g) +
      [if NextState(c, g).Ok? && |NextState(c, g).value.crew| == |c.roster| then Measured(c, plan, NextState(c, g).value)
       else 0.0]
  }

  lemma PhysicsSamples(c: Config, r: State)
    requires Defined(c)
    ensures PhysicsStage(c, r).co2Samples == PushSample(r.co2Samples, MeasuredAfter(c, r), WindowSize(c))
  {
    var m := CabinCrew(r.crew);
    var b := AtmosphereStage(c, r, m);
    assert Co2Stage(c, b, m).co2Samples == PushSample(r.co2Samples, MeasuredAfter(c, r), WindowSize(c));
    hide Co2Stage, AtmosphereStage, MeasuredAfter, PushSample, WindowSize, Defined;
  }

  lemma WalkKeepsSamples(c: Config, dt: real, s: State)
    requires 0 < c.eva.maximum
    ensures var t := EvaMachine.EvaStage(c, dt, s).0;
      t.co2Samples == s.co2Samples && |t.crew| == |s.crew|
  {
    hide EvaMachine.EvaStep, EvaMachine.FirstOnEva;
  }

  lemma SamplesThroughRest(c: Config, r: State)
    requires Defined(c)
    ensures var f := AfterActions(c, r);
      && f.co2Samples == PhysicsStage(c, r).co2Samples == AbortAll(f).co2Samples
      && |AbortAll(f).crew| == |r.crew| && Read(c, f).co2Average == Average(f.co2Samples)
  {
    var p := PhysicsStage(c, r);
    EvaRun.PhysicsStaysOutside(c, r);
    hide PhysicsStage, Average;
    WalkKeepsSamples(c, DtMinutes(c), p);
    var w := AfterWalk(c, r);
    Actions.FollowKeepsRest(c, |w.actions|, Truncate(DtMinutes(c)), w);
    hide Actions.FollowUpTo, EvaMachine.EvaStage, DtMinutes, CallBackAll;
  }

  lemma StepSamples(c: Config, plan: Plan, s: State, held: real)
    requires Defined(c) && |s.crew| == |c.roster| && Step(c, plan, s, held).Ok?
    ensures var x := Step(c, plan, s, held).value;
      && x.state.co2Samples == PushSample(s.co2Samples, Measured(c, plan, s), WindowSize(c))
      && x.sample.telemetry.co2Average == Average(x.state.co2Samples)
      && |x.state.crew| == |c.roster|
  {
    var a, r := StepStages(c, plan, s, held);
    hide Step;
    PhysicsSamples(c, r);
    SamplesThroughRest(c, r);
    assert a.co2Samples == s.co2Samples;
    hide Actions.ApplyUpTo, PhysicsStage, AfterActions, AbortAll, Read, Reasons, PushSample, MeasuredAfter, WindowSize,
      Average, Actions.Undisturbed;
  }

  /** In every step the carbon dioxide average is that of the last measurements of the
      run, as many as fit into an hour. */
  lemma {:induction false} AverageIsHourly(c: Config, plan: Plan, h: seq<Stepped>)
    requires Defined(c) && IsRun(c, plan, h)
    ensures var n := NextState(c, h);
      n.Ok? ==> |n.value.crew| == |c.roster| && n.value.co2Samples == PushAll([], Measurements(c, plan, h), WindowSize(c))
    ensures h != [] ==>
      h[|h| - 1].sample.telemetry.co2Average == Average(LastOf(Measurements(c, plan, h), WindowSize(c)))
  {
    assert 0 < c.timeStepS;
    hide Step, GoesOn, Defined, Measured, Average, LastOf, PushSample, WindowSize;
    WindowIsLastHour(Measurements(c, plan, h), WindowSize(c));
    if h == [] {
      FreshWindow(c);
    } else {
      var g, x := h[..|h| - 1], h[|h| - 1];
      AverageIsHourly(c, plan, g);
      var s := NextState(c, g).value;
      StepSamples(c, plan, s, NextHeld(g));
      OneMorePush(Measurements(c, plan, g), Measured(c, plan, s), WindowSize(c));
    }
  }

  lemma FreshWindow(c: Config)
    requires 0 < c.timeStepS
    ensures Initial(c).Ok? ==> Initial(c).value.co2Samples == [] && |Initial(c).value.crew| == |c.roster|
    ensures PushAll([], [], WindowSize(c)) == []
  {
  }

  lemma OneMorePush(xs: seq<real>, x: real, max: nat)
    ensures PushAll([], xs + [x], max) == PushSample(PushAll([], xs, max), x, max)
  {
    assert (xs + [x])[..|xs|] == xs;
  }

  lemma {:induction false} OneMeasurementEach(c: Config, plan: Plan, h: seq<Stepped>)
    requires Defined(c)
    ensures |Measurements(c, plan, h)| == |h|
  {
    if h != [] {
      OneMeasurementEach(c, plan, h[..|h| - 1]);
    }
  }

  lemma {:induction false} NoCo2InCrew(crew: seq<Crew>, t: Telemetry)
    ensures Co2Limit !in CrewReasons(crew, t)
  {
    if crew != [] {
      NoCo2InCrew(crew[..|crew| - 1], t);
    }
  }

  lemma Co2ReasonMeaning(c: Config, s: State, t: Telemetry)
    ensures Co2Limit in Reasons(c, s, t) <==> t.co2Average >= c.limits.co2Limit
  {
    NoCo2InCrew(s.crew, t);
    Co2InHabitat(c, s, t);
    hide HabitatReasons, CrewReasons, AllDown, RepairTooLate;
  }

  lemma Co2InHabitat(c: Config, s: State, t: Telemetry)
    ensures Co2Limit in HabitatReasons(c, s, t) <==> t.co2Average >= c.limits.co2Limit
  {
    hide TemperatureCritical;
    var a := When(t.inspiredO2 <= c.limits.o2Failure, InspiredO2Limit)
             + When(t.pressure <= c.limits.pressureFailure, PressureLimit);
    var b := When(t.co2Average >= c.limits.co2Limit, Co2Limit);
    assert Co2Limit !in a;
    assert Co2Limit in b <==> t.co2Average >= c.limits.co2Limit;
    assert Co2Limit in a + b <==> Co2Limit in b;
  }

  /** The carbon dioxide limit fails a step exactly when the hourly average reaches it.
      With steps longer than an hour the window is empty, the average is zero, and the
      limit never fails a run, whatever the air holds. */
  lemma LimitIsOnTheAverage(c: Config, plan: Plan, h: seq<Stepped>)
    requires Defined(c) && IsRun(c, plan, h) && h != [] && 0.0 < c.limits.co2Limit
    ensures var x, window := h[|h| - 1], LastOf(Measurements(c, plan, h), WindowSize(c));
      && (Co2Limit in x.sample.mission.violated <==> Average(window) >= c.limits.co2Limit)
      && (window == [] <==> SECONDS_PER_HOUR < c.timeStepS)
      && (SECONDS_PER_HOUR < c.timeStepS ==> Co2Limit !in x.sample.mission.violated)
  {
    assert 0 < c.timeStepS;
    hide IsRun, Measurements, Average, Defined, WindowSize;
    AverageIsHourly(c, plan, h);
    OneMeasurementEach(c, plan, h);
    LastCo2Reason(c, plan, h);
    HourHoldsSteps(c);
    NothingAverages();
  }

  lemma NothingAverages()
    ensures Average([]) == 0.0
  {
  }

  lemma LastCo2Reason(c: Config, plan: Plan, h: seq<Stepped>)
    requires Defined(c) && IsRun(c, plan, h) && h != []
    ensures var x := h[|h| - 1].sample;
      Co2Limit in x.mission.violated <==> x.telemetry.co2Average >= c.limits.co2Limit
  {
    hide IsRun, Follows, StabilizationRun.Good, StabilizationRun.NoFailure, DtMinutes, Defined, Reasons;
    var x := h[|h| - 1];
    RunResult.LastFollows(c, plan, h);
    StabilizationRun.StepIsJudged(c, plan, h[..|h| - 1], x);
    Co2ReasonMeaning(c, x.state, x.sample.telemetry);
  }

  lemma HourHoldsSteps(c: Config)
    requires 0 < c.timeStepS
    ensures WindowSize(c) == 0 <==> SECONDS_PER_HOUR < c.timeStepS
  {
  }
}
