// One step of the simulator and whole runs.
module SimulationRun {
  import opened Wrappers
  import opened Scenario
  import opened CrewPhysiology
  import opened Resources
  import Actions
  import EvaMachine
  import opened Evaluation

  // ---------- Start ----------

  function InitialMember(v: VitalConfig, m: CrewConfig): Result<Crew, LookupError> {
    var p := FindProfile(v.profiles, m.activity);
    if p.Err? then Err(p.error)
    else Ok(Crew(m.id, m.location, m.baseHr, m.baseRr, m.baseSpo2, m.baseCore, 0.0, 0.0, 0.0, 0.0, 1.0, 1.0,
                 p.value.oxygen, p.value.co2, p.value.heat, m.rationing, m.activity, m.eva, Health.Nominal, []))
  }

  function InitialCrew(v: VitalConfig, roster: seq<CrewConfig>): (r: Result<seq<Crew>, LookupError>)
    ensures r.Ok? ==> |r.value| == |roster| && forall i | 0 <= i < |roster| :: InitialMember(v, roster[i]) == Ok(r.value[i])
  {
    if roster == [] then Ok([])
    else
      var before := InitialCrew(v, roster[..|roster| - 1]);
      if before.Err? then before
      else
        var last := InitialMember(v, roster[|roster| - 1]);
        if last.Err? then Err(last.error) else Ok(before.value + [last.value])
  }

  function InitialState(c: Config, crew: seq<Crew>): State {
    State(0, c.volume, c.temperature, Air(c.oxygen, c.inert, c.co2), 1.0, [],
          c.battery, c.solarFault, Loads(c.discretionaryLoad, c.thermalLoad, c.evaLoad, c.commsLoad),
          c.equipmentHeat, c.tcsCapacity, Eva(0, 0, 0.0), Rover(100.0, true, 0), false, 0, crew, [])
  }

  function Initial(c: Config): Result<State, LookupError> {
    var crew := InitialCrew(c.vital, c.roster);
    if crew.Err? then Err(crew.error) else Ok(InitialState(c, crew.value))
  }

  // ---------- One step ----------

  // Crew states stand in roster order and are found by their ids.
  predicate Manned(c: Config, s: State) {
    |s.crew| == |c.roster| && forall i | 0 <= i < |c.roster| :: s.crew[i].id == c.roster[i].id
  }

  function MemberStage(c: Config, env: Env, temperature: real, i: nat, m: Crew): Result<Crew, LookupError>
    requires Defined(c) && i < |c.roster|
  {
    StepCrew(c.vital, c.limits, c.roster[i], env, DtMinutes(c), temperature, m)
  }

  /** The first n members of the roster have had their step. */
  function CrewUpTo(c: Config, env: Env, temperature: real, crew: seq<Crew>, n: nat): (r: Result<seq<Crew>, LookupError>)
    requires Defined(c) && |crew| == |c.roster| && n <= |crew|
    ensures r.Ok? ==> |r.value| == |crew|
  {
    if n == 0 then Ok(crew)
    else
      var before := CrewUpTo(c, env, temperature, crew, n - 1);
      if before.Err? then before
      else
        var m := MemberStage(c, env, temperature, n - 1, crew[n - 1]);
        if m.Err? then Err(m.error) else Ok(before.value[n - 1 := m.value])
  }

  /** Each of them has had it exactly once, from where the member stood, and nobody
      else has changed. */
  lemma {:induction false} CrewIsPointwise(c: Config, env: Env, temperature: real, crew: seq<Crew>, n: nat)
    requires Defined(c) && |crew| == |c.roster| && n <= |crew|
    ensures var r := CrewUpTo(c, env, temperature, crew, n);
      r.Ok? ==>
        && (forall i | 0 <= i < n :: MemberStage(c, env, temperature, i, crew[i]) == Ok(r.value[i]))
        && (forall i | n <= i < |crew| :: r.value[i] == crew[i])
  {
    hide MemberStage;
    if n > 0 {
      CrewIsPointwise(c, env, temperature, crew, n - 1);
    }
  }

  function Transition(before: Crew, after: Crew): seq<EventKind> {
    When(before.health != after.health, HealthTransition(after.id, before.health, after.health))
  }

  function Transitions(before: seq<Crew>, after: seq<Crew>, n: nat): seq<EventKind>
    requires n <= |before| && n <= |after|
  {
    if n == 0 then [] else Transitions(before, after, n - 1) + Transition(before[n - 1], after[n - 1])
  }

  function CrewStage(c: Config, s: State): (r: Result<State, LookupError>)
    requires Defined(c) && |s.crew| == |c.roster|
    ensures r.Ok? ==> r.value == s.(crew := r.value.crew) && |r.value.crew| == |s.crew|
  {
    var crew := CrewUpTo(c, EnvOf(Read(c, s)), s.temperature, s.crew, |s.crew|);
    if crew.Err? then Err(crew.error) else Ok(s.(crew := crew.value))
  }

  /** What a sample records. The vitals are read before the abort rules. */
  datatype Sample = Sample(time: int, telemetry: Telemetry, vitals: seq<Crew>, mission: Mission,
                           actions: seq<Record>, packetSent: bool, evaDone: bool, events: seq<Event>)

  datatype Stepped = Stepped(state: State, sample: Sample, verdict: Verdict)

  function Stamp(time: int, kinds: seq<EventKind>): seq<Event> {
    seq(|kinds|, i requires 0 <= i < |kinds| => Event(time, kinds[i]))
  }

  predicate EvaDone(crew: seq<Crew>) {
    exists m :: m in crew && m.eva == Finished
  }

  // After the physiology: physics, EVA, active actions, evaluation.
  function Finish(c: Config, s: State, held: real, before: seq<EventKind>): Stepped
    requires Defined(c)
  {
    var p := PhysicsStage(c, s);
    var (w, walked) := EvaMachine.EvaStage(c, DtMinutes(c), p);
    var f := Actions.FollowAll(c, Truncate(DtMinutes(c)), w);
    var t := Read(c, f.state);
    var j := Judge(c, f.state, t, held);
    Stepped(j.state,
            Sample(s.time, t, f.state.crew, j.mission, j.state.actions, j.state.packetSent, EvaDone(j.state.crew),
                   Stamp(s.time, before + walked + f.events + j.events)),
            j.verdict)
  }

  function Step(c: Config, plan: Plan, s: State, held: real): Result<Stepped, LookupError>
    requires Defined(c) && |s.crew| == |c.roster|
  {
    var a := Actions.ApplyScheduled(c, plan, s);
    Actions.ScheduledKeepsCrew(c, plan, s, |plan|);
    var r := CrewStage(c, a.state);
    if r.Err? then Err(r.error)
    else Ok(Finish(c, r.value, held, a.events + Transitions(a.state.crew, r.value.crew, |r.value.crew|)))
  }

  // The stages after the physiology, state by state.
  function AfterWalk(c: Config, s: State): State
    requires Defined(c)
  {
    EvaMachine.EvaStage(c, DtMinutes(c), PhysicsStage(c, s)).0
  }

  function AfterActions(c: Config, s: State): State
    requires Defined(c)
  {
    Actions.FollowAll(c, Truncate(DtMinutes(c)), AfterWalk(c, s)).state
  }

  lemma FinishStages(c: Config, s: State, held: real, before: seq<EventKind>)
    requires Defined(c)
    ensures var x := Finish(c, s, held, before);
      && x.state == AbortAll(AfterActions(c, s)) && x.sample.telemetry == Read(c, AfterActions(c, s))
      && x.sample.mission.violated == Reasons(c, x.state, x.sample.telemetry)
      && x.sample.time == s.time && x.sample.vitals == AfterActions(c, s).crew && x.sample.actions == x.state.actions
  {
    hide PhysicsStage, EvaMachine.EvaStage, Actions.FollowAll, Read, Reasons, AbortAll, Stamp, EvaDone, Met,
      HabitatWarnings, CrewWarnings, CallBackEvents, DtMinutes, Truncate, Settle;
  }

  /** A step, taken apart: the scheduled actions, the physiology, the rest. */
  lemma StepStages(c: Config, plan: Plan, s: State, held: real) returns (a: State, r: State)
    requires Defined(c) && |s.crew| == |c.roster| && Step(c, plan, s, held).Ok?
    ensures a == Actions.ApplyScheduled(c, plan, s).state && Actions.Undisturbed(s, a)
    ensures |a.crew| == |c.roster| && CrewStage(c, a) == Ok(r)
    ensures var x := Step(c, plan, s, held).value;
      && x.state == AbortAll(AfterActions(c, r)) && x.sample.telemetry == Read(c, AfterActions(c, r))
      && x.sample.mission.violated == Reasons(c, x.state, x.sample.telemetry)
      && x.sample.time == r.time && x.sample.vitals == AfterActions(c, r).crew && x.sample.actions == x.state.actions
  {
    var e := Actions.ApplyScheduled(c, plan, s);
    Actions.ScheduledKeepsCrew(c, plan, s, |plan|);
    a := e.state;
    hide Actions.ApplyUpTo, Finish, CrewStage, Transitions, AfterActions, AbortAll, Read, Reasons;
    r := CrewStage(c, a).value;
    FinishStages(c, r, held, e.events + Transitions(a.crew, r.crew, |r.crew|));
  }

  function StepMinutes(c: Config): int {
    if c.timeStepS / 60 < 1 then 1 else c.timeStepS / 60
  }

  function Tick(c: Config, s: State): State { s.(time := s.time + StepMinutes(c)) }

  // ---------- Runs ----------

  predicate GoesOn(c: Config, x: Stepped) {
    x.verdict == Continue && x.state.time < c.maximumDuration
  }

  // The state and the held minutes that the next step starts from.
  function NextState(c: Config, h: seq<Stepped>): Result<State, LookupError> {
    if h == [] then Initial(c) else Ok(Tick(c, h[|h| - 1].state))
  }

  function NextHeld(h: seq<Stepped>): real {
    if h == [] then 0.0 else h[|h| - 1].sample.mission.heldMinutes
  }

  // The step that follows a history.
  predicate Follows(c: Config, plan: Plan, g: seq<Stepped>, x: Stepped)
    requires Defined(c)
  {
    && NextState(c, g).Ok?
    && |NextState(c, g).value.crew| == |c.roster|
    && Step(c, plan, NextState(c, g).value, NextHeld(g)) == Ok(x)
  }

  /** The steps a run has made so far, one after the other from the initial state;
      only the last may end it. */
  predicate IsRun(c: Config, plan: Plan, h: seq<Stepped>)
    requires Defined(c)
  {
    h == [] || (
      var n := |h| - 1;
      && IsRun(c, plan, h[..n])
      && (n > 0 ==> GoesOn(c, h[n - 1]))
      && Follows(c, plan, h[..n], h[n]))
  }
}
