// What a run returns, and that it is a reading of the recorded history.
module RunResult {
  import opened Wrappers
  import opened Scenario
  import opened CrewPhysiology
  import opened Resources
  import opened Evaluation
  import opened SimulationRun
  import Actions
  import EvaMachine
  import ActionRun
  import MathUtils
  import StabilizationRun

  datatype Metrics = Metrics(
    minInspiredO2: Option<real>, minPressure: Option<real>, maxCo2: real, minSoc: Option<real>,
    minPowerMargin: Option<real>, minTemperatureMargin: Option<real>, minEvaMargin: Option<real>,
    minSpo2: Option<real>, maxFatigue: real, evaCompleted: bool, packetSent: bool, hoursToStable: Option<real>)

  const NO_METRICS := Metrics(None, None, 0.0, None, None, None, None, None, 0.0, false, false, None)

  // None stands for infinity.
  function Lower(m: Option<real>, x: real): Option<real> {
    if m.None? || x < m.value then Some(x) else m
  }

  function Higher(m: real, x: real): real { if m < x then x else m }

  function LowestSpo2(m: Option<real>, crew: seq<Crew>): Option<real> {
    if crew == [] then m else Lower(LowestSpo2(m, crew[..|crew| - 1]), crew[|crew| - 1].spo2)
  }

  function HighestFatigue(m: real, crew: seq<Crew>): real {
    if crew == [] then m else Higher(HighestFatigue(m, crew[..|crew| - 1]), crew[|crew| - 1].fatigue * 100.0)
  }

  function UpdateMetrics(m: Metrics, x: Stepped): Metrics {
    var t, s := x.sample.telemetry, x.sample;
    Metrics(Lower(m.minInspiredO2, t.inspiredO2), Lower(m.minPressure, t.pressure), Higher(m.maxCo2, t.co2Average),
            Lower(m.minSoc, t.soc), Lower(m.minPowerMargin, t.powerMargin),
            Lower(m.minTemperatureMargin, t.temperatureMargin), Lower(m.minEvaMargin, t.evaMargin as real),
            LowestSpo2(m.minSpo2, s.vitals), HighestFatigue(m.maxFatigue, s.vitals),
            m.evaCompleted || s.evaDone, m.packetSent || s.packetSent,
            if x.verdict == Stabilized then Some(s.time as real / 60.0) else m.hoursToStable)
  }

  function MetricsOf(h: seq<Stepped>): Metrics {
    if h == [] then NO_METRICS else UpdateMetrics(MetricsOf(h[..|h| - 1]), h[|h| - 1])
  }

  function TimelineOf(h: seq<Stepped>): seq<Event> {
    if h == [] then [] else TimelineOf(h[..|h| - 1]) + h[|h| - 1].sample.events
  }

  // ---------- Extremes ----------

  // Every reading of a scalar in the history.
  function Readings(h: seq<Stepped>, read: Telemetry -> real): seq<real> {
    seq(|h|, i requires 0 <= i < |h| => read(h[i].sample.telemetry))
  }

  // Every reading of a vital sign, of every member in every step.
  function Vitals(h: seq<Stepped>, read: Crew -> real): seq<real> {
    if h == [] then [] else Vitals(h[..|h| - 1], read) + OfCrew(h[|h| - 1].sample.vitals, read)
  }

  function OfCrew(crew: seq<Crew>, read: Crew -> real): seq<real> {
    seq(|crew|, i requires 0 <= i < |crew| => read(crew[i]))
  }

  /** The least element, which no reading undercuts and one attains. */
  predicate IsLowest(m: Option<real>, xs: seq<real>) {
    if xs == [] then m.None? else m.Some? && m.value in xs && forall x | x in xs :: m.value <= x
  }

  /** The greatest of the elements and zero. */
  predicate IsHighest(m: real, xs: seq<real>) {
    (m == 0.0 || m in xs) && 0.0 <= m && forall x | x in xs :: x <= m
  }

  lemma LowerIsLowest(m: Option<real>, xs: seq<real>, x: real)
    requires IsLowest(m, xs)
    ensures IsLowest(Lower(m, x), xs + [x])
  {
    assert x in xs + [x];
  }

  lemma HigherIsHighest(m: real, xs: seq<real>, x: real)
    requires IsHighest(m, xs)
    ensures IsHighest(Higher(m, x), xs + [x])
  {
    assert x in xs + [x];
  }

  function InspiredReading(t: Telemetry): real { t.inspiredO2 }
  function PressureReading(t: Telemetry): real { t.pressure }
  function Co2Reading(t: Telemetry): real { t.co2Average }
  function SocReading(t: Telemetry): real { t.soc }
  function PowerReading(t: Telemetry): real { t.powerMargin }
  function TemperatureReading(t: Telemetry): real { t.temperatureMargin }
  function EvaReading(t: Telemetry): real { t.evaMargin as real }
  function Spo2Reading(m: Crew): real { m.spo2 }
  function FatigueReading(m: Crew): real { m.fatigue * 100.0 }

  lemma {:induction false} CrewLowest(m: Option<real>, xs: seq<real>, crew: seq<Crew>)
    requires IsLowest(m, xs)
    ensures IsLowest(LowestSpo2(m, crew), xs + OfCrew(crew, Spo2Reading))
  {
    if crew == [] {
      assert xs + OfCrew(crew, Spo2Reading) == xs;
    } else {
      var n := |crew| - 1;
      CrewLowest(m, xs, crew[..n]);
      hide IsLowest, Lower;
      LowerIsLowest(LowestSpo2(m, crew[..n]), xs + OfCrew(crew[..n], Spo2Reading), crew[n].spo2);
      assert OfCrew(crew, Spo2Reading) == OfCrew(crew[..n], Spo2Reading) + [crew[n].spo2];
      assert xs + OfCrew(crew, Spo2Reading) == xs + OfCrew(crew[..n], Spo2Reading) + [crew[n].spo2];
    }
  }

  lemma {:induction false} CrewHighest(m: real, xs: seq<real>, crew: seq<Crew>)
    requires IsHighest(m, xs)
    ensures IsHighest(HighestFatigue(m, crew), xs + OfCrew(crew, FatigueReading))
  {
    if crew == [] {
      assert xs + OfCrew(crew, FatigueReading) == xs;
    } else {
      var n := |crew| - 1;
      CrewHighest(m, xs, crew[..n]);
      hide IsHighest, Higher;
      HigherIsHighest(HighestFatigue(m, crew[..n]), xs + OfCrew(crew[..n], FatigueReading), crew[n].fatigue * 100.0);
      assert OfCrew(crew, FatigueReading) == OfCrew(crew[..n], FatigueReading) + [crew[n].fatigue * 100.0];
      assert xs + OfCrew(crew, FatigueReading) == xs + OfCrew(crew[..n], FatigueReading) + [crew[n].fatigue * 100.0];
    }
  }

  lemma ReadingsGrow(h: seq<Stepped>, read: Telemetry -> real)
    requires h != []
    ensures Readings(h, read) == Readings(h[..|h| - 1], read) + [read(h[|h| - 1].sample.telemetry)]
  {
  }

  lemma GrowLowest(h: seq<Stepped>, read: Telemetry -> real, m: Option<real>)
    requires h != [] && IsLowest(m, Readings(h[..|h| - 1], read))
    ensures IsLowest(Lower(m, read(h[|h| - 1].sample.telemetry)), Readings(h, read))
  {
    ReadingsGrow(h, read);
    LowerIsLowest(m, Readings(h[..|h| - 1], read), read(h[|h| - 1].sample.telemetry));
    hide IsLowest, Readings, Lower;
  }

  predicate HabitatExtremes(m: Metrics, h: seq<Stepped>) {
    && IsLowest(m.minInspiredO2, Readings(h, InspiredReading)) && IsLowest(m.minPressure, Readings(h, PressureReading))
    && IsHighest(m.maxCo2, Readings(h, Co2Reading)) && IsLowest(m.minSoc, Readings(h, SocReading))
    && IsLowest(m.minPowerMargin, Readings(h, PowerReading))
    && IsLowest(m.minTemperatureMargin, Readings(h, TemperatureReading))
    && IsLowest(m.minEvaMargin, Readings(h, EvaReading))
  }

  predicate CrewExtremes(m: Metrics, h: seq<Stepped>) {
    && IsLowest(m.minSpo2, Vitals(h, Spo2Reading)) && IsHighest(m.maxFatigue, Vitals(h, FatigueReading))
  }

  lemma {:induction false} HabitatMetrics(h: seq<Stepped>)
    ensures HabitatExtremes(MetricsOf(h), h)
  {
    if h != [] {
      var g, t := h[..|h| - 1], h[|h| - 1].sample.telemetry;
      HabitatMetrics(g);
      var m := MetricsOf(g);
      hide IsLowest, IsHighest, Readings, LowestSpo2, HighestFatigue, Lower, Higher;
      GrowLowest(h, InspiredReading, m.minInspiredO2);
      GrowLowest(h, PressureReading, m.minPressure);
      GrowLowest(h, SocReading, m.minSoc);
      GrowLowest(h, PowerReading, m.minPowerMargin);
      GrowLowest(h, TemperatureReading, m.minTemperatureMargin);
      GrowLowest(h, EvaReading, m.minEvaMargin);
      ReadingsGrow(h, Co2Reading);
      HigherIsHighest(m.maxCo2, Readings(g, Co2Reading), t.co2Average);
    }
  }

  lemma {:induction false} CrewMetrics(h: seq<Stepped>)
    ensures CrewExtremes(MetricsOf(h), h)
  {
    if h != [] {
      var g, x := h[..|h| - 1], h[|h| - 1].sample;
      CrewMetrics(g);
      var m := MetricsOf(g);
      hide IsLowest, IsHighest, LowestSpo2, HighestFatigue, Lower, Higher, OfCrew;
      CrewLowest(m.minSpo2, Vitals(g, Spo2Reading), x.vitals);
      CrewHighest(m.maxFatigue, Vitals(g, FatigueReading), x.vitals);
    }
  }

  /** Every minimum and maximum of a result bounds all samples of the history and is
      attained by one, the maxima starting from zero; the flags tell whether any
      sample shows the event. */
  lemma {:induction false} MetricsReadHistory(h: seq<Stepped>)
    ensures HabitatExtremes(MetricsOf(h), h) && CrewExtremes(MetricsOf(h), h)
    ensures MetricsOf(h).evaCompleted <==> exists x :: x in h && x.sample.evaDone
    ensures MetricsOf(h).packetSent <==> exists x :: x in h && x.sample.packetSent
  {
    HabitatMetrics(h);
    CrewMetrics(h);
    hide HabitatExtremes, CrewExtremes;
    if h != [] {
      var g, last := h[..|h| - 1], h[|h| - 1];
      MetricsReadHistory(g);
      hide Lower, Higher, LowestSpo2, HighestFatigue;
      assert forall x :: x in h <==> x in g || x == last;
    }
  }

  // ---------- Times, length, timeline ----------

  lemma StepTime(c: Config, plan: Plan, h: seq<Stepped>)
    requires Defined(c) && IsRun(c, plan, h) && h != []
    ensures var g := h[..|h| - 1];
      && NextState(c, g).Ok?
      && h[|h| - 1].sample.time == NextState(c, g).value.time == h[|h| - 1].state.time
  {
    hide Step, GoesOn, ActionRun.Booked, ActionRun.Evolves, IsRun;
    var g, x := h[..|h| - 1], h[|h| - 1];
    StabilizationRun.PrefixIsRun(c, plan, h, |g|);
    ActionRun.RunIsOnGrid(c, plan, g);
    assert Follows(c, plan, g, x) by { LastFollows(c, plan, h); }
    hide ActionRun.OnGrid;
    assert ActionRun.OnGrid(c, plan, NextState(c, g).value);
    GridStepTime(c, plan, NextState(c, g).value, NextHeld(g));
  }

  lemma LastFollows(c: Config, plan: Plan, h: seq<Stepped>)
    requires Defined(c) && IsRun(c, plan, h) && h != []
    ensures Follows(c, plan, h[..|h| - 1], h[|h| - 1])
  {
    hide Follows, GoesOn;
  }

  lemma GridStepTime(c: Config, plan: Plan, s: State, held: real)
    requires Defined(c) && |s.crew| == |c.roster| && Step(c, plan, s, held).Ok? && ActionRun.OnGrid(c, plan, s)
    ensures Step(c, plan, s, held).value.sample.time == s.time == Step(c, plan, s, held).value.state.time
  {
    hide Step, ActionRun.Booked;
    ActionRun.StepIsBooked(c, plan, s, held);
  }

  function TimeAfter(c: Config, steps: int): int { steps * StepMinutes(c) }

  lemma OneStepLater(c: Config, steps: int)
    ensures TimeAfter(c, steps + 1) == TimeAfter(c, steps) + StepMinutes(c) && TimeAfter(c, 0) == 0
    ensures TimeAfter(c, steps) <= TimeAfter(c, steps + 1)
  {
    assert 1 <= StepMinutes(c);
    hide StepMinutes;
    assert (steps + 1) * StepMinutes(c) == steps * StepMinutes(c) + StepMinutes(c);
  }

  /** Sample k was taken at k whole steps. */
  lemma {:induction false} SampleTimes(c: Config, plan: Plan, h: seq<Stepped>)
    requires Defined(c) && IsRun(c, plan, h)
    ensures forall k | 0 <= k < |h| :: h[k].sample.time == TimeAfter(c, k) == h[k].state.time
    ensures NextState(c, h).Ok? ==> NextState(c, h).value.time == TimeAfter(c, |h|)
  {
    hide Follows, GoesOn, Defined, InitialCrew, StepMinutes, TimeAfter;
    OneStepLater(c, |h| - 1);
    if h != [] {
      StepTime(c, plan, h);
      SampleTimes(c, plan, h[..|h| - 1]);
    }
  }

  /** A run never outlasts its maximum duration by more than a step. */
  lemma RunIsShort(c: Config, plan: Plan, h: seq<Stepped>)
    requires Defined(c) && IsRun(c, plan, h) && 0 < c.maximumDuration
    ensures |h| <= c.maximumDuration / StepMinutes(c) + 2
  {
    assert 1 <= StepMinutes(c);
    hide IsRun, Defined, StepMinutes;
    SampleTimes(c, plan, h);
    if |h| >= 2 {
      StabilizationRun.PrefixIsRun(c, plan, h, |h| - 1);
      var k, step := |h| - 2, StepMinutes(c);
      assert k * step < c.maximumDuration;
      Quotient(k, step, c.maximumDuration);
    } else {
      Quotient(0, StepMinutes(c), c.maximumDuration);
    }
  }

  lemma Quotient(k: nat, step: int, max: int)
    requires 0 < step && k * step < max
    ensures k <= max / step
  {
    if max / step < k {
      MathUtils.IntMulMono(max / step + 1, k, step);
    }
  }

  // Events of one step bear its time.
  predicate Stamped(x: Stepped) {
    forall i | 0 <= i < |x.sample.events| :: x.sample.events[i].time == x.sample.time
  }

  lemma StepIsStamped(c: Config, plan: Plan, s: State, held: real)
    requires Defined(c) && |s.crew| == |c.roster| && Step(c, plan, s, held).Ok?
    ensures Stamped(Step(c, plan, s, held).value)
  {
    var a := Actions.ApplyScheduled(c, plan, s);
    Actions.ScheduledKeepsCrew(c, plan, s, |plan|);
    hide Actions.ApplyUpTo, CrewStage, Transitions, PhysicsStage, EvaMachine.EvaStage, Actions.FollowAll, Read, Judge;
  }

  predicate Ordered(events: seq<Event>) {
    forall i, j | 0 <= i < j < |events| :: events[i].time <= events[j].time
  }

  predicate NoLaterThan(events: seq<Event>, time: int) {
    forall i | 0 <= i < |events| :: events[i].time <= time
  }

  lemma AppendStamped(events: seq<Event>, x: Stepped, before: int)
    requires Ordered(events) && NoLaterThan(events, before) && before <= x.sample.time && Stamped(x)
    ensures Ordered(events + x.sample.events) && NoLaterThan(events + x.sample.events, x.sample.time)
  {
  }

  /** The timeline is in order of time. */
  lemma {:induction false} TimelineIsOrdered(c: Config, plan: Plan, h: seq<Stepped>)
    requires Defined(c) && IsRun(c, plan, h)
    ensures Ordered(TimelineOf(h)) && NoLaterThan(TimelineOf(h), if h == [] then 0 else h[|h| - 1].sample.time)
  {
    if h != [] {
      hide Step, GoesOn, Defined, StepMinutes, Ordered, NoLaterThan, Stamped;
      var g, x := h[..|h| - 1], h[|h| - 1];
      TimelineIsOrdered(c, plan, g);
      StepIsStamped(c, plan, NextState(c, g).value, NextHeld(g));
      SampleTimes(c, plan, h);
      hide IsRun, TimeAfter;
      OneStepLater(c, |g| - 1);
      AppendStamped(TimelineOf(g), x, if g == [] then 0 else g[|g| - 1].sample.time);
    }
  }

  // ---------- The result ----------

  datatype Outcome = Succeeded | FailedWith(reasons: seq<Reason>)

  datatype Result = Result(outcome: Outcome, metrics: Metrics, timeline: seq<Event>, history: seq<Sample>)

  predicate Ended(c: Config, h: seq<Stepped>) {
    h != [] && !GoesOn(c, h[|h| - 1])
  }

  // How a run ends that ends with this step.
  function OutcomeOf(x: Stepped): Outcome {
    match x.verdict
    case Stabilized => Succeeded
    case Failure => FailedWith(x.sample.mission.violated)
    case Continue => FailedWith([MaximumDuration])
  }

  function Samples(h: seq<Stepped>): seq<Sample> {
    seq(|h|, i requires 0 <= i < |h| => h[i].sample)
  }

  function ResultOf(h: seq<Stepped>): Result
    requires h != []
  {
    Result(OutcomeOf(h[|h| - 1]), MetricsOf(h), TimelineOf(h), Samples(h))
  }

  /** A scenario and a plan have one run: of two histories one continues the other, and
      two that have ended are the same. */
  lemma {:induction false} RunIsUnique(c: Config, plan: Plan, g: seq<Stepped>, h: seq<Stepped>)
    requires Defined(c) && IsRun(c, plan, g) && IsRun(c, plan, h) && |g| <= |h|
    ensures g == h[..|g|]
    ensures Ended(c, g) ==> g == h
  {
    hide Step, GoesOn, NextState, NextHeld, Defined;
    if |g| < |h| {
      var k := h[..|h| - 1];
      RunIsUnique(c, plan, g, k);
      assert k[..|g|] == h[..|g|];
      StabilizationRun.PrefixIsRun(c, plan, h, |g|);
    } else if g != [] {
      RunIsUnique(c, plan, g[..|g| - 1], h[..|h| - 1]);
      assert g == g[..|g| - 1] + [g[|g| - 1]] && h == h[..|h| - 1] + [h[|h| - 1]];
    }
  }

  /** How a run ends tells why: by a failure exactly when the last step has one, in
      success exactly when it is stabilized, and otherwise by the maximum duration. */
  lemma EndTellsWhy(c: Config, plan: Plan, h: seq<Stepped>)
    requires Defined(c) && IsRun(c, plan, h) && Ended(c, h)
    ensures OutcomeOf(h[|h| - 1]) == Succeeded <==> exists m: nat :: StabilizationRun.HeldWindow(c, h, m)
    ensures var x := h[|h| - 1];
      OutcomeOf(x) == FailedWith(x.sample.mission.violated) && x.sample.mission.violated != [] <==>
      !StabilizationRun.NoFailure(c, x)
    ensures OutcomeOf(h[|h| - 1]) == FailedWith([MaximumDuration]) <==>
      StabilizationRun.NoFailure(c, h[|h| - 1]) && !exists m: nat :: StabilizationRun.HeldWindow(c, h, m)
    ensures OutcomeOf(h[|h| - 1]) == FailedWith([MaximumDuration]) ==> c.maximumDuration <= h[|h| - 1].state.time
  {
    StabilizationRun.StabilizedExactly(c, plan, h);
    LastFollows(c, plan, h);
    StabilizationRun.StepIsJudged(c, plan, h[..|h| - 1], h[|h| - 1]);
    hide IsRun, Follows, StabilizationRun.HeldWindow, StabilizationRun.Good, StabilizationRun.NotYet, DtMinutes;
    NoDurationReason(c, h[|h| - 1].state, h[|h| - 1].sample.telemetry);
    hide Reasons;
  }

  lemma {:induction false} CrewHasNoDuration(crew: seq<Crew>, t: Telemetry)
    ensures MaximumDuration !in CrewReasons(crew, t)
  {
    if crew != [] {
      CrewHasNoDuration(crew[..|crew| - 1], t);
    }
  }

  lemma HabitatHasNoDuration(c: Config, s: State, t: Telemetry)
    ensures MaximumDuration !in HabitatReasons(c, s, t)
  {
    hide TemperatureCritical;
  }

  // The evaluation itself never gives the duration as a reason.
  lemma NoDurationReason(c: Config, s: State, t: Telemetry)
    ensures Reasons(c, s, t) != [MaximumDuration]
  {
    CrewHasNoDuration(s.crew, t);
    HabitatHasNoDuration(c, s, t);
    hide CrewReasons, HabitatReasons, AllDown, RepairTooLate;
    assert MaximumDuration !in Reasons(c, s, t);
    assert MaximumDuration in [MaximumDuration];
  }
}
