// Validation of a scenario and of a plan, scan by scan.
module Validator {
  import opened Wrappers
  import opened Scenario

  method CheckWindows(windows: seq<Window>) returns (valid: bool)
    ensures valid <==> ValidWindows(windows)
  {
    valid := true;
    for i := 0 to |windows|
      invariant valid <==> WindowsOk(windows, i)
    {
      var w := windows[i];
      var sound := w.open < w.close;
      for j := i + 1 to |windows|
        invariant sound <==> w.open < w.close && forall k | i < k < j :: Apart(w, windows[k])
      {
        if w.open < windows[j].close && windows[j].open < w.close {
          sound := false;
        }
      }
      if !sound {
        valid := false;
      }
    }
  }

  predicate Apart(a: Window, b: Window) {
    b.close <= a.open || a.close <= b.open
  }

  // The first n windows are sound and apart from all later ones.
  ghost predicate WindowsOk(windows: seq<Window>, n: nat)
    requires n <= |windows|
  {
    forall i | 0 <= i < n :: windows[i].open < windows[i].close && forall k | i < k < |windows| :: Apart(windows[i], windows[k])
  }

  method CheckRoster(v: VitalConfig, roster: seq<CrewConfig>) returns (valid: bool)
    ensures valid <==> roster != [] && DistinctIds(roster) && forall m | m in roster :: ValidCrew(v, m)
  {
    hide ValidCrew;
    valid := true;
    var seen: set<Name> := {};
    for i := 0 to |roster|
      invariant forall id :: id in seen ==> exists j :: 0 <= j < i && roster[j].id == id
      invariant valid ==> forall j | 0 <= j < i :: roster[j].id in seen
      invariant valid <==> RosterOk(v, roster, i)
    {
      var m := roster[i];
      if !ValidCrew(v, m) || m.id in seen {
        valid := false;
      }
      seen := seen + {m.id};
    }
    assert forall m | m in roster :: exists j :: 0 <= j < |roster| && roster[j] == m;
    valid := valid && roster != [];
  }

  ghost predicate RosterOk(v: VitalConfig, roster: seq<CrewConfig>, n: nat)
    requires n <= |roster|
  {
    && (forall j | 0 <= j < n :: ValidCrew(v, roster[j]))
    && (forall i, j | 0 <= i < j < n :: roster[i].id != roster[j].id)
  }

  /** The verdict of scenario validation. */
  method ValidateScenario(c: Config) returns (valid: bool)
    ensures valid <==> ValidScenario(c)
  {
    var windows := CheckWindows(c.windows);
    var roster := CheckRoster(c.vital, c.roster);
    valid := windows && roster;
    hide ValidWindows, DistinctIds, ValidCrew;
    if !(0 < c.timeStepS && 0 < c.maximumDuration && 0 <= c.stabilizationHold) { valid := false; }
    if !(0.0 < c.isolatedVolume <= c.volume && 0.0 < c.thermalCapacitance) { valid := false; }
    if c.oxygen < 0.0 || c.inert < 0.0 || c.co2 < 0.0 || c.scrubberCapacity < 0.0 { valid := false; }
    if !ValidLimits(c.limits) { valid := false; }
    if c.batteryCapacity <= 0.0 || c.battery < 0.0 || c.battery > c.batteryCapacity { valid := false; }
    if c.batteryReserve < 0.0 || c.batteryReserve > 100.0 { valid := false; }
    if c.chargeEfficiency <= 0.0 || c.chargeEfficiency > 1.0 || c.dischargeEfficiency <= 0.0
       || c.dischargeEfficiency > 1.0 { valid := false; }
    if !ValidEva(c.eva) || c.transmissionDuration <= 0 { valid := false; }
    if c.leakRate < 0.0 || c.isolationMultiplier < 0.0 || c.isolationMultiplier > 1.0 { valid := false; }
    if c.solarFault < 0.0 || c.repairedSolarFault < 0.0 || c.stabilizedLeak < 0.0 { valid := false; }
    if c.vital.spo2Critical > c.vital.spo2Warning || c.vital.performanceAbort < 0.0
       || c.vital.performanceAbort > 1.0 || c.vital.profiles == [] { valid := false; }
  }

  method CheckTargets(roster: seq<CrewConfig>, targets: seq<Name>) returns (valid: bool)
    ensures valid <==> forall id | id in targets :: FindMember(roster, id).Some?
  {
    valid := true;
    hide FindMember;
    for i := 0 to |targets|
      invariant valid <==> forall j | 0 <= j < i :: FindMember(roster, targets[j]).Some?
    {
      if FindMember(roster, targets[i]).None? {
        valid := false;
      }
    }
    assert forall id | id in targets :: exists j :: 0 <= j < |targets| && targets[j] == id;
  }

  method CheckAction(c: Config, a: Action) returns (valid: bool)
    ensures valid <==> ValidAction(c, a)
  {
    if a.kind == UnknownAction {
      return false;
    }
    valid := true;
    if a.start < 0 { valid := false; }
    if a.start > c.maximumDuration { valid := false; }
    match a.kind {
      case ReducePowerLoad =>
        if a.percent.None? || a.percent.value < 0.0 || a.percent.value > 100.0 { valid := false; }
        if a.groups == [] { valid := false; }
      case IsolateModule =>
        if OrEmpty(a.target) == NoName { valid := false; }
      case OxygenRationing =>
        if a.level.None? { valid := false; }
        var known := CheckTargets(c.roster, a.targets);
        if !known { valid := false; }
      case RepairSolarArray =>
        var id := ValidatedEvaCrew(a);
        var member := FindMember(c.roster, id);
        if id == NoName || member.None? || !member.value.evaQualified { valid := false; }
        if !c.eva.available { valid := false; }
      case DelayRoverUse =>
        if a.hours.None? || a.hours.value <= 0.0 { valid := false; }
      case SendEmergencyPacket =>
        if !WindowOpen(c.windows, a.start) { valid := false; }
      case UnknownAction =>
    }
  }

  /** The verdict of plan validation: every action on its own, then every repair
      against every delay. */
  method ValidatePlan(c: Config, plan: Plan) returns (valid: bool)
    ensures valid <==> ValidPlan(c, plan)
  {
    hide ValidAction, Reserves;
    valid := true;
    for i := 0 to |plan|
      invariant valid <==> forall j | 0 <= j < i :: ValidAction(c, plan[j])
    {
      var sound := CheckAction(c, plan[i]);
      if !sound { valid := false; }
    }
    ghost var actions := valid;
    for i := 0 to |plan|
      invariant valid <==> actions && forall j | 0 <= j < i :: NoRoverConflict(c, plan, plan[j])
    {
      if plan[i].kind == RepairSolarArray && c.eva.roverRequired {
        for j := 0 to |plan|
          invariant valid <==> actions && (forall k | 0 <= k < i :: NoRoverConflict(c, plan, plan[k]))
                                       && forall k | 0 <= k < j :: !Reserves(plan[k], plan[i].start)
        {
          if Reserves(plan[j], plan[i].start) {
            valid := false;
          }
        }
      }
    }
  }
}
