// Data of the habitat simulator: scenario configuration, plan, state. Doubles are
// real numbers; an infinite forecast is None.
module Scenario {
  import opened Wrappers

  // An identifier; NoName is the empty string.
  datatype Name = NoName | Name(id: nat)

  datatype Activity =
    | Sleep | Resting | NominalWork | HighWorkload | EvaPrep | EvaTransit | EvaWork | Recovery | OutOfAction

  datatype Health = Nominal | ElevatedStress | Impaired | Critical | Incapacitated

  datatype Alarm = Hypoxia | Hypercapnia | Tachycardia | Respiratory | Thermal | Fatigue | Performance | EvaReturn

  datatype EvaStatus = Idle | Preparing | Egress | Working | Ingress | Finished | Aborted

  // ---------- Configuration ----------

  datatype Profile = Profile(activity: Activity, oxygen: real, co2: real, heat: real, load: real)

  datatype CrewConfig = CrewConfig(
    id: Name, location: Name,
    baseHr: real, baseRr: real, baseSpo2: real, baseCore: real,
    fitness: real, hypoxiaSensitivity: real, co2Sensitivity: real, thermalSensitivity: real,
    fatigueRecovery: real, evaQualified: bool,
    activity: Activity, eva: EvaStatus, rationing: bool)

  datatype VitalConfig = VitalConfig(
    profiles: seq<Profile>,
    hypoxiaGain: real, co2Gain: real, thermalGain: real,
    hypoxiaRecovery: real, co2Recovery: real, thermalRecovery: real,
    fatigueWork: real, fatigueEva: real, fatigueRest: real,
    hrActivity: real, hrHypoxia: real, hrCo2: real, hrThermal: real, hrFatigue: real, hrMin: real, hrMax: real,
    rrActivity: real, rrHypoxia: real, rrCo2: real, rrThermal: real, rrMin: real, rrMax: real,
    spo2Hypoxia: real, spo2Pressure: real, spo2Activity: real, spo2Exposure: real, spo2Min: real, spo2Max: real,
    coreEnvironment: real, coreActivity: real, coreTau: real, coreMin: real, coreMax: real,
    cogHypoxia: real, cogCo2: real, cogThermal: real, cogFatigue: real,
    physHypoxia: real, physCo2: real, physThermal: real, physFatigue: real,
    spo2Warning: real, spo2Critical: real, hrWarning: real, rrWarning: real,
    coreLow: real, coreHigh: real, fatigueWarning: real, performanceAbort: real)

  // Thresholds that the severities and the mission evaluation share.
  datatype Limits = Limits(
    o2Warning: real, o2Failure: real, co2Limit: real, pressureWarning: real, pressureFailure: real,
    comfortLow: real, comfortHigh: real, criticalLow: real, criticalHigh: real)

  datatype EvaConfig = EvaConfig(
    available: bool, preparation: int, egress: int, repairWork: int, ingress: int, reserve: int, maximum: int,
    roverRequired: bool, roverReserve: real)

  datatype Window = Window(open: int, close: int)

  datatype Config = Config(
    timeStepS: int, maximumDuration: int, stabilizationHold: int,
    volume: real, isolatedVolume: real, temperature: real, thermalCapacitance: real,
    oxygen: real, inert: real, co2: real, scrubberCapacity: real, scrubberEfficiency: real,
    limits: Limits,
    battery: real, batteryCapacity: real, batteryReserve: real, chargeEfficiency: real, dischargeEfficiency: real,
    essentialLoad: real, discretionaryLoad: real, thermalLoad: real, evaLoad: real, commsLoad: real,
    healthySolarKw: real,
    equipmentHeat: real, environmentalHeat: real, heaterHeat: real, tcsCapacity: real,
    eva: EvaConfig,
    windows: seq<Window>, transmissionDuration: int, transmissionPower: real,
    leakRate: real, isolationMultiplier: real, solarFault: real, repairedSolarFault: real, stabilizedLeak: real,
    vital: VitalConfig,
    roster: seq<CrewConfig>)

  // ---------- Plan ----------

  datatype ActionKind = ReducePowerLoad | IsolateModule | OxygenRationing | RepairSolarArray
                      | DelayRoverUse | SendEmergencyPacket | UnknownAction

  datatype LoadGroup = Discretionary | ThermalControl | Communications | EvaSupport | ProtectedGroup | UnknownGroup

  datatype Action = Action(
    kind: ActionKind, start: int, percent: Option<real>, target: Option<Name>, level: Option<Activity>,
    duration: Option<int>, hours: Option<real>, crewId: Option<Name>, evaCrewId: Option<Name>,
    assignedIds: seq<Name>, targets: seq<Name>, groups: seq<LoadGroup>)

  type Plan = seq<Action>

  datatype ExecStatus = Active | Complete | Failed | Aborted

  // The execution record of the plan action with this index.
  datatype Record = Record(index: nat, kind: ActionKind, status: ExecStatus, start: int, elapsed: int,
                           progress: real, crew: Name)

  // ---------- State ----------

  datatype Crew = Crew(
    id: Name, location: Name,
    hr: real, rr: real, spo2: real, core: real,
    hypoxia: real, co2Exposure: real, thermal: real, fatigue: real,
    cognitive: real, physical: real,
    oxygen: real, co2: real, heat: real,
    rationing: bool, activity: Activity, eva: EvaStatus, health: Health, alarms: seq<Alarm>)

  datatype Air = Air(oxygen: real, inert: real, co2: real)

  datatype Loads = Loads(discretionary: real, thermal: real, eva: real, comms: real)

  datatype Eva = Eva(elapsed: int, work: int, progress: real)

  datatype Rover = Rover(battery: real, available: bool, reservedUntil: int)

  datatype State = State(
    time: int, volume: real, temperature: real,
    air: Air, leakFactor: real, co2Samples: seq<real>,
    battery: real, solarFault: real, loads: Loads, equipmentHeat: real, tcsCapacity: real,
    eva: Eva, rover: Rover,
    packetSent: bool, transmission: int,
    crew: seq<Crew>, actions: seq<Record>)

  predicate OnEva(status: EvaStatus) {
    status == Preparing || status == Egress || status == Working || status == Ingress
  }

  predicate Outward(status: EvaStatus) {
    status == Preparing || status == Egress || status == Working
  }

  // ---------- Events ----------

  datatype Reason = InspiredO2Limit | PressureLimit | Co2Limit | BatteryReserve | CabinTemperature
                  | EvaCrewIncapacitated(crew: Name) | EvaSafeReturnNegative | AllCrewIncapacitated
                  | CriticalRepairImpossible | MaximumDuration

  datatype EventKind =
    | ActionStarted(kind: ActionKind) | ActionCompleted(kind: ActionKind) | ActionFailed(kind: ActionKind)
    | ActionAborted(kind: ActionKind)
    | HealthTransition(crew: Name, before: Health, after: Health)
    | EvaEgress | EvaWorking | EvaIngress | EvaAborted | EvaComplete | SolarRepaired
    | MissionFailure(reason: Reason) | MissionStabilized

  datatype Event = Event(time: int, kind: EventKind)

  // ---------- Validation ----------

  predicate DistinctIds(roster: seq<CrewConfig>) {
    forall i, j | 0 <= i < j < |roster| :: roster[i].id != roster[j].id
  }

  predicate ValidEva(eva: EvaConfig) {
    && 0 < eva.maximum
    && 0 <= eva.preparation && 0 <= eva.egress && 0 <= eva.repairWork && 0 <= eva.ingress && 0 <= eva.reserve
    && eva.preparation + eva.egress + eva.repairWork + eva.ingress + eva.reserve <= eva.maximum
  }

  predicate ValidLimits(l: Limits) {
    && 0.0 < l.pressureFailure <= l.pressureWarning
    && 0.0 < l.o2Failure <= l.o2Warning
    && 0.0 < l.co2Limit
    && l.criticalLow < l.criticalHigh && l.comfortLow < l.comfortHigh
    && l.criticalLow <= l.comfortLow && l.comfortHigh <= l.criticalHigh
  }

  predicate HasProfile(v: VitalConfig, activity: Activity) {
    exists i :: 0 <= i < |v.profiles| && v.profiles[i].activity == activity
  }

  predicate ValidCrew(v: VitalConfig, m: CrewConfig) {
    && m.id != NoName
    && 0.0 < m.fitness && 0.0 < m.hypoxiaSensitivity && 0.0 < m.co2Sensitivity && 0.0 < m.thermalSensitivity
    && 0.0 < m.fatigueRecovery
    && HasProfile(v, m.activity)
  }

  predicate ValidWindows(windows: seq<Window>) {
    && (forall i | 0 <= i < |windows| :: windows[i].open < windows[i].close)
    && (forall i, j | 0 <= i < j < |windows| ::
          windows[j].close <= windows[i].open || windows[i].close <= windows[j].open)
  }

  /** The verdict of scenario validation on the fields modelled here. */
  predicate ValidScenario(c: Config) {
    && 0 < c.timeStepS && 0 < c.maximumDuration && 0 <= c.stabilizationHold
    && 0.0 < c.isolatedVolume <= c.volume && 0.0 < c.thermalCapacitance
    && 0.0 <= c.oxygen && 0.0 <= c.inert && 0.0 <= c.co2 && 0.0 <= c.scrubberCapacity
    && ValidLimits(c.limits)
    && 0.0 < c.batteryCapacity && 0.0 <= c.battery <= c.batteryCapacity
    && 0.0 <= c.batteryReserve <= 100.0
    && 0.0 < c.chargeEfficiency <= 1.0 && 0.0 < c.dischargeEfficiency <= 1.0
    && ValidEva(c.eva)
    && 0 < c.transmissionDuration && ValidWindows(c.windows)
    && 0.0 <= c.leakRate && 0.0 <= c.isolationMultiplier <= 1.0
    && 0.0 <= c.solarFault && 0.0 <= c.repairedSolarFault && 0.0 <= c.stabilizedLeak
    && c.vital.spo2Critical <= c.vital.spo2Warning && 0.0 <= c.vital.performanceAbort <= 1.0
    && c.vital.profiles != []
    && c.roster != [] && DistinctIds(c.roster) && (forall m | m in c.roster :: ValidCrew(c.vital, m))
  }

  /** Validation accepts equal thresholds, but the severities divide by their
      difference; with these strict the arithmetic of a run is defined. */
  predicate StrictLimits(l: Limits) {
    && l.o2Failure < l.o2Warning && l.pressureFailure < l.pressureWarning
    && l.criticalLow < l.comfortLow && l.comfortHigh < l.criticalHigh
  }

  predicate WindowOpen(windows: seq<Window>, time: int) {
    exists i :: 0 <= i < |windows| && windows[i].open <= time < windows[i].close
  }

  function Front(names: seq<Name>): Name {
    if names == [] then NoName else names[0]
  }

  function OrEmpty(o: Option<Name>): Name {
    if o.Some? then o.value else NoName
  }

  // Whom validation takes for the EVA crew member.
  function ValidatedEvaCrew(a: Action): Name {
    if OrEmpty(a.evaCrewId) != NoName then OrEmpty(a.evaCrewId)
    else if OrEmpty(a.crewId) != NoName then OrEmpty(a.crewId)
    else Front(a.assignedIds)
  }

  // Minutes of a delay; the cast truncates toward zero.
  function Truncate(x: real): int {
    if x < 0.0 then -((-x).Floor) else x.Floor
  }

  function FindMember(roster: seq<CrewConfig>, id: Name): (r: Option<CrewConfig>)
    ensures r.Some? ==> r.value in roster && r.value.id == id
    ensures r.None? ==> forall m | m in roster :: m.id != id
  {
    if roster == [] then None
    else
      var n := |roster| - 1;
      var before := FindMember(roster[..n], id);
      if before.Some? then before else if roster[n].id == id then Some(roster[n]) else None
  }

  predicate ValidAction(c: Config, a: Action) {
    && 0 <= a.start <= c.maximumDuration
    && match a.kind
       case ReducePowerLoad => a.percent.Some? && 0.0 <= a.percent.value <= 100.0 && a.groups != []
       case IsolateModule => OrEmpty(a.target) != NoName
       case OxygenRationing => a.level.Some? && forall id | id in a.targets :: FindMember(c.roster, id).Some?
       case RepairSolarArray =>
         var m := FindMember(c.roster, ValidatedEvaCrew(a));
         ValidatedEvaCrew(a) != NoName && m.Some? && m.value.evaQualified && c.eva.available
       case DelayRoverUse => a.hours.Some? && 0.0 < a.hours.value
       case SendEmergencyPacket => WindowOpen(c.windows, a.start)
       case UnknownAction => false
  }

  /** The verdict of plan validation, including the static rover conflict. */
  predicate ValidPlan(c: Config, plan: Plan) {
    && (forall i | 0 <= i < |plan| :: ValidAction(c, plan[i]))
    && (forall i | 0 <= i < |plan| :: NoRoverConflict(c, plan, plan[i]))
  }

  // A repair does not start while a delay keeps the rover.
  predicate NoRoverConflict(c: Config, plan: Plan, a: Action) {
    c.eva.roverRequired && a.kind == RepairSolarArray ==> forall j | 0 <= j < |plan| :: !Reserves(plan[j], a.start)
  }

  // The minutes a delay keeps the rover, as validation counts them.
  predicate Reserves(d: Action, time: int) {
    d.kind == DelayRoverUse && d.hours.Some? && d.start <= time < d.start + Truncate(d.hours.value * 60.0)
  }
}
