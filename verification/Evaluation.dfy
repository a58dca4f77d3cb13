// The verdict on a step: abort rules, hard failures, warnings, stabilization.
module Evaluation {
  import opened Wrappers
  import opened Scenario
  import opened Resources
  import EvaMachine

  datatype Warning = InspiredO2Warning | PressureWarning | Co2Elevated | BatteryLow | ThermalComfort
                   | CrewAlarm(crew: Name) | CrewImpaired(crew: Name)

  datatype Status = Nominal | Warned | Critical | Failing | Stable

  // The part of the mission that survives a step, and what the step reports.
  datatype Mission = Mission(status: Status, heldMinutes: real, warnings: seq<Warning>, violated: seq<Reason>)

  datatype Verdict = Continue | Stabilized | Failure

  // ---------- Abort rules ----------

  predicate MustReturn(m: Crew) {
    m.health == Health.Critical && Outward(m.eva)
  }

  function CallBack(m: Crew): Crew { m.(eva := Ingress, activity := EvaTransit) }

  function CallBackAll(crew: seq<Crew>): (r: seq<Crew>)
    ensures |r| == |crew|
    ensures forall i | 0 <= i < |crew| :: r[i] == if MustReturn(crew[i]) then CallBack(crew[i]) else crew[i]
  {
    seq(|crew|, i requires 0 <= i < |crew| => if MustReturn(crew[i]) then CallBack(crew[i]) else crew[i])
  }

  predicate AnyMustReturn(crew: seq<Crew>) {
    exists m :: m in crew && MustReturn(m)
  }

  function CallBackEvents(crew: seq<Crew>): seq<EventKind> {
    if crew == [] then []
    else CallBackEvents(crew[..|crew| - 1]) + if MustReturn(crew[|crew| - 1]) then [EvaIngress] else []
  }

  function AbortAll(s: State): State {
    s.(crew := CallBackAll(s.crew), eva := if AnyMustReturn(s.crew) then s.eva.(work := 0) else s.eva)
  }

  // ---------- Hard failures ----------

  predicate TemperatureCritical(c: Config, s: State) {
    s.temperature <= c.limits.criticalLow || s.temperature >= c.limits.criticalHigh
  }

  function HabitatReasons(c: Config, s: State, t: Telemetry): seq<Reason> {
    When(t.inspiredO2 <= c.limits.o2Failure, InspiredO2Limit)
    + When(t.pressure <= c.limits.pressureFailure, PressureLimit)
    + When(t.co2Average >= c.limits.co2Limit, Co2Limit)
    + When(s.battery <= 0.0 || t.soc <= c.batteryReserve, BatteryReserve)
    + When(TemperatureCritical(c, s), CabinTemperature)
  }

  function MemberReasons(m: Crew, t: Telemetry): seq<Reason> {
    When(m.health == Incapacitated && OnEva(m.eva), EvaCrewIncapacitated(m.id))
    + When(Outward(m.eva) && t.evaMargin < 0, EvaSafeReturnNegative)
  }

  function CrewReasons(crew: seq<Crew>, t: Telemetry): seq<Reason> {
    if crew == [] then [] else CrewReasons(crew[..|crew| - 1], t) + MemberReasons(crew[|crew| - 1], t)
  }

  predicate AllDown(crew: seq<Crew>) {
    crew != [] && forall m | m in crew :: m.health == Incapacitated
  }

  function AtLeastZero(x: int): int { if x < 0 then 0 else x }

  function RemainingRepairMinutes(c: EvaConfig, s: State): real {
    var i := EvaMachine.FirstOnEva(s.crew);
    if i.None? then (c.preparation + c.egress + c.repairWork + c.ingress) as real
    else
      var m := s.crew[i.value];
      var performance := if m.physical > 0.0 then m.physical else 1.0;
      match m.eva
      case Preparing =>
        (AtLeastZero(c.preparation - s.eva.elapsed) + c.egress + c.repairWork + c.ingress) as real
      case Egress => (AtLeastZero(c.preparation + c.egress - s.eva.elapsed) + c.repairWork + c.ingress) as real
      case Working =>
        (if 1.0 - s.eva.progress < 0.0 then 0.0 else 1.0 - s.eva.progress) * (c.repairWork as real) / performance
        + c.ingress as real
      case _ => AtLeastZero(c.ingress - s.eva.work) as real
  }

  // The sooner of two forecasts; negative and infinite ones do not bind.
  function Sooner(a: Option<real>, b: Option<real>): Option<real> {
    var first := if a.Some? && a.value >= 0.0 then a else None;
    if b.Some? && b.value >= 0.0 && (first.None? || b.value < first.value) then b else first
  }

  function Deadline(t: Telemetry): Option<real> {
    Sooner(Sooner(Sooner(t.oxygenHours, t.pressureHours), t.co2Hours), t.batteryHours)
  }

  predicate Binds(forecast: Option<real>) { forecast.Some? && 0.0 <= forecast.value }

  /** The deadline is the soonest of the forecasts that bind, and there is one exactly
      when some forecast binds. */
  lemma DeadlineIsSoonest(t: Telemetry)
    ensures var all := {t.oxygenHours, t.pressureHours, t.co2Hours, t.batteryHours};
      && (Deadline(t).Some? <==> exists f :: f in all && Binds(f))
      && (Deadline(t).Some? ==> Deadline(t) in all && forall f | f in all && Binds(f) :: Deadline(t).value <= f.value)
  {
    var all := {t.oxygenHours, t.pressureHours, t.co2Hours, t.batteryHours};
    assert t.oxygenHours in all && t.pressureHours in all && t.co2Hours in all && t.batteryHours in all;
    if Deadline(t).Some? {
      assert Binds(Deadline(t)) && Deadline(t) in all;
    }
  }

  predicate RepairTooLate(c: Config, s: State, t: Telemetry) {
    && s.solarFault < c.repairedSolarFault && s.eva.progress < 1.0
    && Deadline(t).Some? && RemainingRepairMinutes(c.eva, s) / 60.0 > Deadline(t).value
  }

  /** Every hard failure of a state, in the order of report. */
  function Reasons(c: Config, s: State, t: Telemetry): seq<Reason> {
    HabitatReasons(c, s, t) + CrewReasons(s.crew, t)
    + When(AllDown(s.crew), AllCrewIncapacitated)
    + When(RepairTooLate(c, s, t), CriticalRepairImpossible)
  }

  // ---------- Warnings ----------

  function HabitatWarnings(c: Config, s: State, t: Telemetry): seq<Warning> {
    When(t.inspiredO2 <= c.limits.o2Warning, InspiredO2Warning)
    + When(t.pressure <= c.limits.pressureWarning, PressureWarning)
    + When(t.co2Average >= c.limits.co2Limit * 0.8, Co2Elevated)
    + When(t.soc <= c.batteryReserve + 10.0, BatteryLow)
    + When(s.temperature <= c.limits.comfortLow || s.temperature >= c.limits.comfortHigh, ThermalComfort)
  }

  function MemberWarnings(m: Crew): seq<Warning> {
    When(m.alarms != [], CrewAlarm(m.id))
    + When(m.health == Impaired || m.health == Health.Critical, CrewImpaired(m.id))
  }

  function CrewWarnings(crew: seq<Crew>): seq<Warning> {
    if crew == [] then [] else CrewWarnings(crew[..|crew| - 1]) + MemberWarnings(crew[|crew| - 1])
  }

  // ---------- Stabilization ----------

  predicate Steady(m: Crew, t: Telemetry) {
    && !(Outward(m.eva) && t.evaMargin < 0)
    && m.health != Health.Critical && m.health != Incapacitated
  }

  /** The conditions that must hold without a break. */
  predicate Met(c: Config, s: State, t: Telemetry) {
    && LeakPerHour(c, s) <= c.stabilizedLeak
    && t.inspiredO2 > c.limits.o2Failure && t.pressure > c.limits.pressureFailure
    && t.co2Average < c.limits.co2Limit && t.soc > c.batteryReserve
    && !TemperatureCritical(c, s)
    && (t.powerMargin >= 0.0 || s.solarFault >= c.repairedSolarFault)
    && forall m | m in s.crew :: Steady(m, t)
  }

  function Settle(crew: seq<Crew>, warnings: seq<Warning>): Status {
    if exists m :: m in crew && m.health == Health.Critical then Status.Critical
    else if warnings != [] then Warned
    else Status.Nominal
  }

  datatype Judged = Judged(state: State, mission: Mission, verdict: Verdict, events: seq<EventKind>)

  /** The whole evaluation; the telemetry is the one read before the abort rules. */
  function Judge(c: Config, s: State, t: Telemetry, held: real): Judged {
    var u := AbortAll(s);
    var events := CallBackEvents(s.crew);
    var reasons := Reasons(c, u, t);
    if reasons != [] then
      Judged(u, Mission(Failing, 0.0, [], reasons), Failure, events + [MissionFailure(reasons[0])])
    else
      var warnings := HabitatWarnings(c, u, t) + CrewWarnings(u.crew);
      if !Met(c, u, t) then Judged(u, Mission(Settle(u.crew, warnings), 0.0, warnings, []), Continue, events)
      else
        var longer := held + DtMinutes(c);
        if longer >= c.stabilizationHold as real then
          Judged(u, Mission(Stable, longer, warnings, []), Stabilized, events + [MissionStabilized])
        else Judged(u, Mission(Settle(u.crew, warnings), longer, warnings, []), Continue, events)
  }
}
