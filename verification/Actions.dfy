// Starting and following the actions of a plan.
module Actions {
  import opened Wrappers
  import opened Scenario
  import opened MathUtils

  function FindCrew(crew: seq<Crew>, id: Name): (r: Option<nat>)
    ensures r.Some? ==> r.value < |crew| && crew[r.value].id == id
    ensures r.Some? ==> forall i | 0 <= i < r.value :: crew[i].id != id
    ensures r.None? ==> forall m | m in crew :: m.id != id
  {
    if crew == [] then None
    else
      var n := |crew| - 1;
      var before := FindCrew(crew[..n], id);
      if before.Some? then before else if crew[n].id == id then Some(n) else None
  }

  // Whom the executor sends out; validation asks in another order.
  function EvaCrewOf(a: Action): Name {
    if OrEmpty(a.evaCrewId) != NoName then OrEmpty(a.evaCrewId)
    else if a.assignedIds != [] then a.assignedIds[0]
    else OrEmpty(a.crewId)
  }

  function RationedActivity(level: Option<Activity>): Activity {
    if level.None? then Resting
    else match level.value
      case Sleep => Sleep
      case NominalWork => NominalWork
      case HighWorkload => HighWorkload
      case Recovery => Recovery
      case _ => Resting
  }

  datatype Effect = Effect(state: State, events: seq<EventKind>)

  function Log(s: State, r: Record): State { s.(actions := s.actions + [r]) }

  function NewRecord(s: State, a: Action, index: nat, status: ExecStatus, progress: real, crew: Name): Record {
    Record(index, a.kind, status, s.time, 0, progress, crew)
  }

  // A failed start keeps whatever it changed before it failed.
  function FailedStart(s: State, a: Action, index: nat): Effect {
    Effect(Log(s, NewRecord(s, a, index, Failed, 0.0, NoName)), [ActionFailed(a.kind)])
  }

  function Done(s: State, a: Action, index: nat): Effect {
    Effect(Log(s, NewRecord(s, a, index, ExecStatus.Complete, 1.0, NoName)), [ActionStarted(a.kind), ActionCompleted(a.kind)])
  }

  function Begun(s: State, a: Action, index: nat, crew: Name): Effect {
    Effect(Log(s, NewRecord(s, a, index, Active, 0.0, crew)), [ActionStarted(a.kind)])
  }

  // ---------- Power ----------

  function Shed(s: State, group: LoadGroup, fraction: real): State {
    var keep := 1.0 - fraction;
    match group
    case Discretionary =>
      var before, after := s.loads.discretionary, Scale(keep, s.loads.discretionary);
      s.(loads := s.loads.(discretionary := after),
         equipmentHeat := if before > 0.0 then Scale(after / before, s.equipmentHeat) else s.equipmentHeat)
    case ThermalControl =>
      s.(loads := s.loads.(thermal := Scale(keep, s.loads.thermal)), tcsCapacity := Scale(keep, s.tcsCapacity))
    case Communications => s.(loads := s.loads.(comms := Scale(keep, s.loads.comms)))
    case EvaSupport => s.(loads := s.loads.(eva := Scale(keep, s.loads.eva)))
    case _ => s
  }

  predicate Sheddable(group: LoadGroup) {
    group != ProtectedGroup && group != UnknownGroup
  }

  // Groups are shed in order up to the first that may not be shed.
  function ShedAll(s: State, groups: seq<LoadGroup>, fraction: real): (State, bool)
    decreases groups
  {
    if groups == [] then (s, true)
    else if !Sheddable(groups[0]) then (s, false)
    else ShedAll(Shed(s, groups[0], fraction), groups[1..], fraction)
  }

  function StartReducePower(a: Action, index: nat, s: State): Effect {
    if a.percent.None? || a.percent.value < 0.0 || a.percent.value > 100.0 || a.groups == [] then
      FailedStart(s, a, index)
    else
      var (t, ok) := ShedAll(s, a.groups, a.percent.value / 100.0);
      if ok then Done(t, a, index) else FailedStart(t, a, index)
  }

  // ---------- Isolation and rationing ----------

  predicate Occupied(crew: seq<Crew>, place: Name) {
    exists m :: m in crew && m.location == place
  }

  function StartIsolate(c: Config, a: Action, index: nat, s: State): Effect {
    if OrEmpty(a.target) == NoName || Occupied(s.crew, OrEmpty(a.target)) then FailedStart(s, a, index)
    else Done(s.(volume := c.isolatedVolume, leakFactor := s.leakFactor * c.isolationMultiplier), a, index)
  }

  function Ration(m: Crew, activity: Activity): Crew {
    if OnEva(m.eva) then m.(rationing := true) else m.(rationing := true, activity := activity)
  }

  // Targets are rationed in order up to the first that is unknown.
  function RationAll(crew: seq<Crew>, targets: seq<Name>, activity: Activity): (r: (seq<Crew>, bool))
    ensures |r.0| == |crew|
    decreases targets
  {
    if targets == [] then (crew, true)
    else
      var i := FindCrew(crew, targets[0]);
      if i.None? then (crew, false)
      else RationAll(crew[i.value := Ration(crew[i.value], activity)], targets[1..], activity)
  }

  function AllIds(crew: seq<Crew>): seq<Name> {
    seq(|crew|, i requires 0 <= i < |crew| => crew[i].id)
  }

  function StartRationing(a: Action, index: nat, s: State): Effect {
    var targets := if a.targets == [] then AllIds(s.crew) else a.targets;
    var (crew, ok) := RationAll(s.crew, targets, RationedActivity(a.level));
    var t := s.(crew := crew);
    if ok then Done(t, a, index) else FailedStart(t, a, index)
  }

  // ---------- Repair ----------

  predicate Fit(m: Crew) {
    !OnEva(m.eva) && m.health != Incapacitated && m.health != Health.Critical && m.health != Impaired
  }

  predicate RoverReady(c: Config, s: State) {
    c.eva.roverRequired ==>
      && s.rover.available && !(s.rover.reservedUntil > 0 && s.time < s.rover.reservedUntil)
      && s.rover.battery >= c.eva.roverReserve
  }

  // Who goes out, if the repair can start.
  function Walker(c: Config, a: Action, s: State): Option<nat> {
    var id := EvaCrewOf(a);
    var i, member := FindCrew(s.crew, id), FindMember(c.roster, id);
    if id != NoName && i.Some? && member.Some? && member.value.evaQualified && Fit(s.crew[i.value]) && RoverReady(c, s)
    then i else None
  }

  function StartRepair(c: Config, a: Action, index: nat, s: State): Effect {
    var i := Walker(c, a, s);
    if i.None? then FailedStart(s, a, index)
    else
      var out := s.crew[i.value].(eva := Preparing, activity := EvaPrep);
      Begun(s.(crew := s.crew[i.value := out], eva := Eva(0, 0, 0.0)), a, index, EvaCrewOf(a))
  }

  // ---------- Rover and radio ----------

  function DelayMinutes(a: Action): Option<int> {
    if a.hours.Some? then Some(Truncate(a.hours.value * 60.0)) else a.duration
  }

  function StartDelay(a: Action, index: nat, s: State): Effect {
    var minutes := DelayMinutes(a);
    if minutes.None? || minutes.value <= 0 then FailedStart(s, a, index)
    else Begun(s.(rover := s.rover.(available := false, reservedUntil := s.time + minutes.value)), a, index, NoName)
  }

  function StartPacket(c: Config, a: Action, index: nat, s: State): Effect {
    if s.packetSent || !WindowOpen(c.windows, s.time) then FailedStart(s, a, index)
    else Begun(s.(transmission := 0, loads := s.loads.(comms := c.transmissionPower)), a, index, NoName)
  }

  function Start(c: Config, a: Action, index: nat, s: State): Effect {
    match a.kind
    case ReducePowerLoad => StartReducePower(a, index, s)
    case IsolateModule => StartIsolate(c, a, index, s)
    case OxygenRationing => StartRationing(a, index, s)
    case RepairSolarArray => StartRepair(c, a, index, s)
    case DelayRoverUse => StartDelay(a, index, s)
    case SendEmergencyPacket => StartPacket(c, a, index, s)
    case UnknownAction => FailedStart(s, a, index)
  }

  predicate HasStarted(actions: seq<Record>, index: nat) {
    exists i :: 0 <= i < |actions| && actions[i].index == index
  }

  predicate Due(plan: Plan, k: nat, s: State)
    requires k < |plan|
  {
    plan[k].start == s.time && !HasStarted(s.actions, k)
  }

  function ApplyOne(c: Config, plan: Plan, k: nat, e: Effect): Effect
    requires k < |plan|
  {
    if !Due(plan, k, e.state) then e
    else
      var out := Start(c, plan[k], k, e.state);
      Effect(out.state, e.events + out.events)
  }

  // The first n actions of the plan.
  function ApplyUpTo(c: Config, plan: Plan, n: nat, s: State): Effect
    requires n <= |plan|
  {
    if n == 0 then Effect(s, []) else ApplyOne(c, plan, n - 1, ApplyUpTo(c, plan, n - 1, s))
  }

  function ApplyScheduled(c: Config, plan: Plan, s: State): Effect {
    ApplyUpTo(c, plan, |plan|, s)
  }

  // ---------- Following the active actions ----------

  datatype Followed = Followed(state: State, record: Record, events: seq<EventKind>)

  function FollowDelay(s: State, r: Record): Followed {
    var until := s.rover.reservedUntil;
    if s.time >= until then
      Followed(s.(rover := s.rover.(available := true, reservedUntil := 0)),
               r.(status := ExecStatus.Complete, progress := 1.0), [ActionCompleted(r.kind)])
    else if until > r.start then
      Followed(s, r.(progress := ((s.time - r.start) as real) / ((until - r.start) as real)), [])
    else Followed(s, r, [])
  }

  function FollowPacket(c: Config, s: State, r: Record, minutes: int): Followed {
    var sent := s.transmission + minutes;
    var duration := if c.transmissionDuration <= 0 then 1 else c.transmissionDuration;
    var share := (sent as real) / (duration as real);
    var t := s.(transmission := sent);
    if sent >= duration then
      Followed(t.(packetSent := true, loads := t.loads.(comms := c.commsLoad)),
               r.(status := ExecStatus.Complete, progress := 1.0), [ActionCompleted(r.kind)])
    else Followed(t, r.(progress := if share > 1.0 then 1.0 else share), [])
  }

  function FollowRepair(s: State, r: Record): Followed {
    var i := FindCrew(s.crew, r.crew);
    var p := r.(progress := s.eva.progress);
    if r.crew == NoName || i.None? then Followed(s, p, [])
    else if s.crew[i.value].eva == Finished && s.eva.progress >= 1.0 then
      Followed(s, p.(status := ExecStatus.Complete, progress := 1.0), [ActionCompleted(r.kind)])
    else if s.crew[i.value].eva == EvaStatus.Aborted then
      Followed(s, p.(status := ExecStatus.Aborted), [ActionAborted(r.kind)])
    else Followed(s, p, [])
  }

  function Follow(c: Config, s: State, r: Record, minutes: int): Followed {
    if r.status != Active then Followed(s, r, [])
    else
      var q := r.(elapsed := r.elapsed + minutes);
      match q.kind
      case DelayRoverUse => FollowDelay(s, q)
      case SendEmergencyPacket => FollowPacket(c, s, q, minutes)
      case RepairSolarArray => FollowRepair(s, q)
      case _ => Followed(s, q, [])
  }

  function FollowOne(c: Config, k: nat, minutes: int, e: Effect): Effect
    requires k < |e.state.actions|
  {
    var out := Follow(c, e.state, e.state.actions[k], minutes);
    Effect(out.state.(actions := e.state.actions[k := out.record]), e.events + out.events)
  }

  function FollowUpTo(c: Config, n: nat, minutes: int, s: State): (e: Effect)
    requires n <= |s.actions|
    ensures |e.state.actions| == |s.actions|
  {
    if n == 0 then Effect(s, []) else FollowOne(c, n - 1, minutes, FollowUpTo(c, n - 1, minutes, s))
  }

  function FollowAll(c: Config, minutes: int, s: State): Effect {
    FollowUpTo(c, |s.actions|, minutes, s)
  }

  // ---------- What starting and following leave alone ----------

  // Only the schedule of a crew member may differ.
  predicate SameBody(m: Crew, n: Crew) {
    n == m.(activity := n.activity, eva := n.eva, rationing := n.rationing)
  }

  predicate SameBodies(a: seq<Crew>, b: seq<Crew>) {
    |a| == |b| && forall i | 0 <= i < |a| :: SameBody(a[i], b[i])
  }

  predicate SamePhysics(s: State, t: State) {
    && t.time == s.time && t.temperature == s.temperature && t.air == s.air && t.co2Samples == s.co2Samples
    && t.battery == s.battery && t.solarFault == s.solarFault && t.rover.battery == s.rover.battery
  }

  lemma ShedLeavesRest(s: State, groups: seq<LoadGroup>, fraction: real)
    ensures var t := ShedAll(s, groups, fraction).0;
      t == s.(loads := t.loads, equipmentHeat := t.equipmentHeat, tcsCapacity := t.tcsCapacity)
    decreases groups
  {
    if groups != [] && Sheddable(groups[0]) {
      ShedLeavesRest(Shed(s, groups[0], fraction), groups[1..], fraction);
    }
  }

  lemma BodiesCompose(a: seq<Crew>, b: seq<Crew>, d: seq<Crew>)
    requires SameBodies(a, b) && SameBodies(b, d)
    ensures SameBodies(a, d)
  {
    forall i | 0 <= i < |a|
      ensures SameBody(a[i], d[i])
    {
      assert SameBody(a[i], b[i]) && SameBody(b[i], d[i]);
    }
  }

  // The EVA side of a crew.
  predicate SamePlaces(a: seq<Crew>, b: seq<Crew>) {
    |a| == |b| && forall i | 0 <= i < |a| :: b[i].eva == a[i].eva
  }

  // Rationing changes no EVA status either.
  lemma {:induction false} RationLeavesRest(crew: seq<Crew>, targets: seq<Name>, activity: Activity)
    ensures var r := RationAll(crew, targets, activity).0;
      SameBodies(crew, r) && SamePlaces(crew, r)
    decreases targets
  {
    if targets != [] {
      var i := FindCrew(crew, targets[0]);
      if i.Some? {
        var next := crew[i.value := Ration(crew[i.value], activity)];
        assert SameBodies(crew, next) && SamePlaces(crew, next);
        hide Ration, SameBody, FindCrew;
        RationLeavesRest(next, targets[1..], activity);
        hide SameBodies;
        BodiesCompose(crew, next, RationAll(next, targets[1..], activity).0);
      }
    }
  }

  predicate SameWalk(s: State, t: State) {
    t.eva == s.eva && SamePlaces(s.crew, t.crew)
  }

  // A repair that starts sends someone out; no other start changes the EVA side.
  predicate SendsOut(a: Action, e: Effect) {
    a.kind == RepairSolarArray && e.events == [ActionStarted(RepairSolarArray)]
  }

  // Exactly one new record, of this action.
  predicate Logs(a: Action, index: nat, s: State, t: State) {
    && |t.actions| == |s.actions| + 1 && t.actions[..|s.actions|] == s.actions
    && var r := t.actions[|s.actions|];
    && r.index == index && r.kind == a.kind && r.start == s.time && r.status != ExecStatus.Aborted
    && (r.progress == if r.status == ExecStatus.Complete then 1.0 else 0.0)
  }

  predicate Contained(a: Action, index: nat, s: State, e: Effect) {
    && SamePhysics(s, e.state) && SameBodies(s.crew, e.state.crew)
    && (SameWalk(s, e.state) || SendsOut(a, e))
    && Logs(a, index, s, e.state)
  }

  lemma EndingContained(a: Action, index: nat, s: State, t: State, crew: Name)
    requires SamePhysics(s, t) && SameBodies(s.crew, t.crew) && SameWalk(s, t) && t.actions == s.actions
    ensures Contained(a, index, s, FailedStart(t, a, index))
    ensures Contained(a, index, s, Done(t, a, index))
    ensures Contained(a, index, s, Begun(t, a, index, crew))
  {
    hide SameBodies, SamePlaces;
  }

  lemma RepairContained(c: Config, a: Action, index: nat, s: State)
    requires a.kind == RepairSolarArray
    ensures Contained(a, index, s, StartRepair(c, a, index, s))
  {
    EndingContained(a, index, s, s, NoName);
    hide FindCrew, FindMember, Fit, RoverReady, EvaCrewOf;
  }

  lemma RationingContained(a: Action, index: nat, s: State)
    ensures Contained(a, index, s, StartRationing(a, index, s))
  {
    var targets := if a.targets == [] then AllIds(s.crew) else a.targets;
    RationLeavesRest(s.crew, targets, RationedActivity(a.level));
    hide RationAll, AllIds, RationedActivity, SameBodies, SamePlaces;
    var t := s.(crew := RationAll(s.crew, targets, RationedActivity(a.level)).0);
    EndingContained(a, index, s, t, NoName);
    hide Contained;
  }

  lemma PowerContained(a: Action, index: nat, s: State)
    ensures Contained(a, index, s, StartReducePower(a, index, s))
  {
    EndingContained(a, index, s, s, NoName);
    if a.percent.Some? {
      ShedLeavesRest(s, a.groups, a.percent.value / 100.0);
      var t := ShedAll(s, a.groups, a.percent.value / 100.0).0;
      hide ShedAll;
      EndingContained(a, index, s, t, NoName);
    }
    hide Contained, ShedAll;
  }

  /** Starting an action logs exactly one new record of it and touches neither the
      physics nor a body; only a repair that starts changes anything on the EVA side. */
  lemma StartContained(c: Config, a: Action, index: nat, s: State)
    ensures Contained(a, index, s, Start(c, a, index, s))
  {
    if a.kind == ReducePowerLoad {
      PowerContained(a, index, s);
    } else if a.kind == OxygenRationing {
      RationingContained(a, index, s);
    } else if a.kind == RepairSolarArray {
      RepairContained(c, a, index, s);
    } else {
      EndingContained(a, index, s, s, NoName);
      if a.kind == IsolateModule {
        var t := s.(volume := c.isolatedVolume, leakFactor := s.leakFactor * c.isolationMultiplier);
        EndingContained(a, index, s, t, NoName);
      } else if a.kind == DelayRoverUse && DelayMinutes(a).Some? {
        var t := s.(rover := s.rover.(available := false, reservedUntil := s.time + DelayMinutes(a).value));
        EndingContained(a, index, s, t, NoName);
      } else if a.kind == SendEmergencyPacket {
        var t := s.(transmission := 0, loads := s.loads.(comms := c.transmissionPower));
        EndingContained(a, index, s, t, NoName);
      }
    }
    hide Contained, Occupied, WindowOpen, FailedStart, Done, Begun, StartReducePower, StartRationing, StartRepair;
  }

  predicate Undisturbed(s: State, t: State) {
    SamePhysics(s, t) && SameBodies(s.crew, t.crew)
  }

  lemma UndisturbedCompose(s: State, t: State, u: State)
    requires Undisturbed(s, t) && Undisturbed(t, u)
    ensures Undisturbed(s, u)
  {
    BodiesCompose(s.crew, t.crew, u.crew);
    hide SameBodies;
  }

  lemma {:induction false} ScheduledKeepsCrew(c: Config, plan: Plan, s: State, n: nat)
    requires n <= |plan|
    ensures Undisturbed(s, ApplyUpTo(c, plan, n, s).state)
  {
    if n > 0 {
      ScheduledKeepsCrew(c, plan, s, n - 1);
      var t := ApplyUpTo(c, plan, n - 1, s).state;
      StartContained(c, plan[n - 1], n - 1, t);
      hide Start, Due;
      if Due(plan, n - 1, t) {
        var u := Start(c, plan[n - 1], n - 1, t).state;
        assert Undisturbed(t, u);
        hide Undisturbed;
        UndisturbedCompose(s, t, u);
      }
    } else {
      assert SameBodies(s.crew, s.crew);
    }
  }

  lemma FollowLeavesRest(c: Config, s: State, r: Record, minutes: int)
    ensures var f := Follow(c, s, r, minutes);
      SamePhysics(s, f.state) && f.state.crew == s.crew && f.state.eva == s.eva && f.state.actions == s.actions
  {
  }

  lemma {:induction false} FollowKeepsRest(c: Config, n: nat, minutes: int, s: State)
    requires n <= |s.actions|
    ensures var t := FollowUpTo(c, n, minutes, s).state;
      SamePhysics(s, t) && t.crew == s.crew && t.eva == s.eva
  {
    if n > 0 {
      FollowKeepsRest(c, n - 1, minutes, s);
      var e := FollowUpTo(c, n - 1, minutes, s);
      FollowLeavesRest(c, e.state, e.state.actions[n - 1], minutes);
      hide Follow;
    }
  }
}
