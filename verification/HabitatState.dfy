// The simulation state as the simulator keeps it: one object whose fields every
// model updates in place. Each method is proved against its specification function.
module HabitatState {
  import opened Wrappers
  import opened Scenario
  import opened MathUtils
  import opened CrewPhysiology
  import opened Resources
  import HabitatAir
  import opened EvaMachine
  import opened Actions
  import opened Evaluation
  import opened SimulationRun

  class SimulationState {
    var time: int
    var volume: real
    var temperature: real
    var air: Air
    var leakFactor: real
    var co2Samples: seq<real>
    var battery: real
    var solarFault: real
    var loads: Loads
    var equipmentHeat: real
    var tcsCapacity: real
    var eva: Eva
    var rover: Rover
    var packetSent: bool
    var transmission: int
    var crew: seq<Crew>
    var actions: seq<Record>
    // Events of the present step.
    var stepEvents: seq<EventKind>

    function Snap(): State
      reads this
    {
      State(time, volume, temperature, air, leakFactor, co2Samples, battery, solarFault, loads, equipmentHeat,
            tcsCapacity, eva, rover, packetSent, transmission, crew, actions)
    }

    constructor (c: Config, crew: seq<Crew>)
      ensures Snap() == InitialState(c, crew) && stepEvents == []
    {
      time, volume, temperature := 0, c.volume, c.temperature;
      air, leakFactor, co2Samples := Air(c.oxygen, c.inert, c.co2), 1.0, [];
      battery, solarFault := c.battery, c.solarFault;
      loads := Loads(c.discretionaryLoad, c.thermalLoad, c.evaLoad, c.commsLoad);
      equipmentHeat, tcsCapacity := c.equipmentHeat, c.tcsCapacity;
      eva, rover := Eva(0, 0, 0.0), Rover(100.0, true, 0);
      packetSent, transmission := false, 0;
      this.crew, actions, stepEvents := crew, [], [];
    }

    method Emit(e: EventKind)
      modifies this`stepEvents
      ensures stepEvents == old(stepEvents) + [e]
    {
      stepEvents := stepEvents + [e];
    }

    // ---------- Resources ----------

    method UpdateAtmosphere(c: Config, m: Metabolism)
      modifies this`air
      ensures Snap() == AtmosphereStage(c, old(Snap()), m)
    {
      hide Scale, HabitatAir.Share, StepKg, StepLeak;
      air := air.(oxygen := air.oxygen - StepKg(c, m.oxygen));
      var total := air.oxygen + air.inert + air.co2;
      var leak := StepLeak(c, leakFactor);
      if total > 0.0 && leak > 0.0 {
        var o, i, d := HabitatAir.Share(air.oxygen, total), HabitatAir.Share(air.inert, total), HabitatAir.Share(air.co2, total);
        air := Air(air.oxygen - Scale(leak, o), air.inert - Scale(leak, i), air.co2 - Scale(leak, d));
      }
      assert air == HabitatAir.Leaked(old(air), FlowOf(c, old(Snap()), m));
      hide HabitatAir.Leaked;
      if air.oxygen < 0.0 { air := air.(oxygen := 0.0); }
      if air.inert < 0.0 { air := air.(inert := 0.0); }
      if air.co2 < 0.0 { air := air.(co2 := 0.0); }
    }

    method UpdateCarbonDioxide(c: Config, m: Metabolism)
      requires Defined(c)
      modifies this`air, this`co2Samples
      ensures Snap() == Co2Stage(c, old(Snap()), m)
    {
      PositiveStep(c);
      hide Defined, Co2Sample, StepKg, StepLeak, RatedScrub;
      air := air.(co2 := air.co2 + StepKg(c, m.co2));
      var removal := StepKg(c, RatedScrub(c));
      if removal > air.co2 { removal := air.co2; }
      air := air.(co2 := air.co2 - removal);
      co2Samples := co2Samples + [Co2Sample(Snap())];
      TrimSamples(WindowSize(c));
    }

    method TrimSamples(max: nat)
      modifies this`co2Samples
      ensures co2Samples == HabitatAir.LastOf(old(co2Samples), max)
    {
      ghost var all := co2Samples;
      while |co2Samples| > max
        invariant |co2Samples| <= |all| && co2Samples == all[|all| - |co2Samples|..]
        invariant |co2Samples| == |all| || |co2Samples| >= max
      {
        co2Samples := co2Samples[1..];
      }
    }

    method UpdateElectricalPower(c: Config)
      requires Defined(c)
      modifies this`battery
      ensures Snap() == PowerStage(c, old(Snap()))
    {
      var load := c.essentialLoad + loads.discretionary + loads.thermal + loads.eva + loads.comms;
      var net := SolarKw(c, Snap()) - load;
      var delta;
      if net >= 0.0 {
        delta := c.chargeEfficiency * (DtHours(c) * net);
      } else {
        delta := DtHours(c) * net / c.dischargeEfficiency;
      }
      battery := Clamp(battery + delta, 0.0, c.batteryCapacity);
    }

    method UpdateThermalState(c: Config, crewHeat: real)
      requires Defined(c)
      modifies this`temperature
      ensures Snap() == ThermalStage(c, old(Snap()), crewHeat)
    {
      var input := crewHeat + equipmentHeat + c.environmentalHeat + c.heaterHeat;
      var rejected := input;
      if rejected < 0.0 { rejected := 0.0; }
      if rejected > tcsCapacity { rejected := tcsCapacity; }
      temperature := temperature + (input - rejected) * (c.timeStepS as real) / (c.thermalCapacitance * 1000.0);
    }

    // ---------- Crew ----------

    method AggregateCrewLoads() returns (m: Metabolism)
      ensures m == CabinCrew(crew)
    {
      m := Metabolism(0.0, 0.0, 0.0);
      for i := 0 to |crew|
        invariant m == CabinCrew(crew[..i])
      {
        var x := crew[i];
        assert crew[..i + 1][..i] == crew[..i];
        if !OnEva(x.eva) {
          m := Metabolism(m.oxygen + x.oxygen, m.co2 + x.co2, m.heat + x.heat);
        }
      }
      assert crew[..|crew|] == crew;
    }

    method Locate(id: Name) returns (r: Option<nat>)
      ensures r.Some? ==> r.value < |crew| && crew[r.value].id == id
      ensures r.Some? ==> forall i | 0 <= i < r.value :: crew[i].id != id
      ensures r.None? ==> forall m | m in crew :: m.id != id
    {
      for i := 0 to |crew|
        invariant forall j | 0 <= j < i :: crew[j].id != id
      {
        if crew[i].id == id {
          return Some(i);
        }
      }
      return None;
    }

    /** Every member of the roster has one step, found by id; a failed profile lookup
        ends the run. */
    method UpdateAllCrew(c: Config) returns (error: Option<LookupError>)
      requires Defined(c) && Manned(c, Snap()) && DistinctIds(c.roster)
      modifies this`crew, this`stepEvents
      ensures error.None? ==> CrewStage(c, old(Snap())) == Ok(Snap())
      ensures error.None? ==> stepEvents == old(stepEvents) + Transitions(old(crew), crew, |crew|)
      ensures error.Some? ==> CrewStage(c, old(Snap())) == Err(error.value)
    {
      hide Defined, Read, EnvOf, MemberStage, CrewUpTo, Transitions, Transition, Served;
      ghost var was := crew;
      var env := EnvOf(Read(c, Snap()));
      NoneServed(c, env, temperature, was);
      var n := 0;
      while n < |c.roster|
        invariant 0 <= n <= |c.roster| == |crew| == |was|
        invariant Served(c, env, temperature, was, crew, n)
        invariant stepEvents == old(stepEvents) + Transitions(was, crew, n)
      {
        var found := Locate(c.roster[n].id);
        ServedInPlace(c, env, temperature, was, crew, n, found);
        var i := found.value;
        var before := crew[i];
        var r := MemberStage(c, env, temperature, i, before);
        if r.Err? {
          return Some(r.error);
        }
        crew := crew[i := r.value];
        stepEvents := stepEvents + Transition(before, r.value);
        n := n + 1;
      }
      AllServed(c, env, temperature, was, crew);
      return None;
    }

    // ---------- EVA ----------

    method FirstWalker() returns (r: Option<nat>)
      ensures r == FirstOnEva(crew)
    {
      for i := 0 to |crew|
        invariant forall j | 0 <= j < i :: !OnEva(crew[j].eva)
      {
        if OnEva(crew[i].eva) {
          return Some(i);
        }
      }
      return None;
    }

    method BeginIngress(i: nat)
      requires i < |crew|
      modifies this`crew, this`eva, this`stepEvents
      ensures Snap() == WithSuit(old(Snap()), i, EvaMachine.BeginIngress(SuitOf(old(Snap()), i)))
      ensures stepEvents == old(stepEvents) + [EvaIngress]
    {
      crew := crew[i := crew[i].(eva := Ingress, activity := EvaTransit)];
      eva := eva.(work := 0);
      Emit(EvaIngress);
    }

    method Place(i: nat, status: EvaStatus, activity: Activity)
      requires i < |crew|
      modifies this`crew
      ensures crew == old(crew)[i := old(crew)[i].(eva := status, activity := activity)]
    {
      crew := crew[i := crew[i].(eva := status, activity := activity)];
    }

    method PrepareSuit(c: EvaConfig, i: nat)
      requires i < |crew| && crew[i].eva == Preparing
      modifies this`crew, this`stepEvents
      ensures var out := PhaseStage(c, 1.0, 1, SuitOf(old(Snap()), i), 0.0);
        Snap() == WithSuit(old(Snap()), i, out.suit) && stepEvents == old(stepEvents) + out.events
    {
      Place(i, Preparing, EvaPrep);
      if eva.elapsed >= c.preparation {
        Place(i, EvaStatus.Egress, EvaTransit);
        Emit(EvaEgress);
      }
    }

    method LeaveHabitat(c: EvaConfig, i: nat)
      requires i < |crew| && crew[i].eva == EvaStatus.Egress
      modifies this`crew, this`eva, this`stepEvents
      ensures var out := PhaseStage(c, 1.0, 1, SuitOf(old(Snap()), i), 0.0);
        Snap() == WithSuit(old(Snap()), i, out.suit) && stepEvents == old(stepEvents) + out.events
    {
      Place(i, EvaStatus.Egress, EvaTransit);
      if eva.elapsed >= c.preparation + c.egress {
        Place(i, Working, EvaWork);
        eva := eva.(work := 0);
        Emit(EvaWorking);
      }
    }

    method WorkOnArray(c: EvaConfig, dt: real, minutes: int, i: nat)
      requires i < |crew| && crew[i].eva == Working
      modifies this`crew, this`eva, this`stepEvents
      ensures var out := PhaseStage(c, dt, minutes, SuitOf(old(Snap()), i), old(crew)[i].physical);
        Snap() == WithSuit(old(Snap()), i, out.suit) && stepEvents == old(stepEvents) + out.events
    {
      hide Progress;
      ghost var s := Snap();
      Place(i, Working, EvaWork);
      eva := eva.(work := eva.work + minutes);
      eva := eva.(progress := Progress(c, dt, eva.progress, crew[i].physical));
      ghost var w := SuitOf(s, i).(activity := EvaWork, eva := eva);
      assert Snap() == WithSuit(s, i, w);
      if eva.progress >= 1.0 {
        BeginIngress(i);
        SuitReplaced(s, i, w, EvaMachine.BeginIngress(w));
      }
    }

    method WalkBack(c: Config, minutes: int, i: nat)
      requires i < |crew| && crew[i].eva == Ingress
      modifies this`crew, this`eva, this`solarFault, this`stepEvents
      ensures var out := PhaseStage(c.eva, 1.0, minutes, SuitOf(old(Snap()), i), 0.0);
        var t := WithSuit(old(Snap()), i, out.suit);
        && Snap() == (if out.repaired then t.(solarFault := c.repairedSolarFault) else t)
        && stepEvents == old(stepEvents) + out.events
    {
      ghost var s := Snap();
      Place(i, Ingress, EvaTransit);
      eva := eva.(work := eva.work + minutes);
      ghost var w := SuitOf(s, i).(activity := EvaTransit, eva := eva);
      assert Snap() == WithSuit(s, i, w);
      if eva.work >= c.eva.ingress {
        EndWalk(c, i);
        SuitReplaced(s, i, w, w.(status := Finished, activity := Recovery));
        hide WithSuit;
      }
    }

    method EndWalk(c: Config, i: nat)
      requires i < |crew|
      modifies this`crew, this`solarFault, this`stepEvents
      ensures var t := WithSuit(old(Snap()), i, SuitOf(old(Snap()), i).(status := Finished, activity := Recovery));
        Snap() == if eva.progress >= 1.0 then t.(solarFault := c.repairedSolarFault) else t
      ensures stepEvents == old(stepEvents) + (When(eva.progress >= 1.0, SolarRepaired) + [EvaComplete])
    {
      Place(i, Finished, Recovery);
      if eva.progress >= 1.0 {
        solarFault := c.repairedSolarFault;
        Emit(SolarRepaired);
      }
      Emit(EvaComplete);
    }

    method AdvancePhase(c: Config, dt: real, minutes: int, i: nat)
      requires i < |crew|
      modifies this`crew, this`eva, this`solarFault, this`stepEvents
      ensures var out := PhaseStage(c.eva, dt, minutes, SuitOf(old(Snap()), i), old(crew)[i].physical);
        var t := WithSuit(old(Snap()), i, out.suit);
        && Snap() == (if out.repaired then t.(solarFault := c.repairedSolarFault) else t)
        && stepEvents == old(stepEvents) + out.events
    {
      var status := crew[i].eva;
      PhaseInputs(c.eva, dt, minutes, SuitOf(Snap(), i), crew[i].physical);
      hide PhaseStage;
      if status == Preparing {
        PrepareSuit(c.eva, i);
      } else if status == EvaStatus.Egress {
        LeaveHabitat(c.eva, i);
      } else if status == Working {
        WorkOnArray(c.eva, dt, minutes, i);
      } else if status == Ingress {
        WalkBack(c, minutes, i);
      } else {
        SuitUnchanged(Snap(), i);
      }
    }

    // True when the rover has run low.
    method DrainRover(c: EvaConfig, dt: real, i: nat)
      requires i < |crew| && 0 < c.maximum && c.roverRequired
      modifies this`rover, this`crew, this`eva, this`stepEvents
      ensures var (x, low) := RoverStage(c, dt, SuitOf(old(Snap()), i));
        Snap() == WithSuit(old(Snap()), i, x) && stepEvents == old(stepEvents) + When(low, EvaIngress)
    {
      hide Scale, DrainRate;
      ghost var s := Snap();
      rover := rover.(battery := NonNegative(rover.battery - Scale(dt, DrainRate(c))));
      ghost var x := SuitOf(s, i).(rover := Drain(c, dt, s.rover));
      assert Snap() == WithSuit(s, i, x);
      if rover.battery < c.roverReserve {
        BeginIngress(i);
        SuitReplaced(s, i, x, EvaMachine.BeginIngress(x));
      }
    }

    method CheckReturn(c: EvaConfig, i: nat)
      requires i < |crew|
      modifies this`crew, this`eva, this`stepEvents
      ensures var (x, late) := ReturnStage(c, SuitOf(old(Snap()), i));
        Snap() == WithSuit(old(Snap()), i, x) && stepEvents == old(stepEvents) + When(late, EvaIngress)
    {
      SuitUnchanged(Snap(), i);
      if SafeReturnMargin(c, eva.elapsed) < 0 && Outward(crew[i].eva) {
        BeginIngress(i);
      }
    }

    method CheckWalkerHealth(i: nat)
      requires i < |crew|
      modifies this`crew, this`eva, this`stepEvents
      ensures var (x, ill) := HealthStage(SuitOf(old(Snap()), i), old(crew)[i].health == Health.Critical);
        Snap() == WithSuit(old(Snap()), i, x) && stepEvents == old(stepEvents) + When(ill, EvaIngress)
    {
      SuitUnchanged(Snap(), i);
      if crew[i].health == Health.Critical && Outward(crew[i].eva) {
        BeginIngress(i);
      }
    }

    /** The EVA of the first walker advances by one step. */
    method UpdateEvaAndRepair(c: Config)
      requires Defined(c)
      modifies this
      ensures var (t, events) := EvaStage(c, DtMinutes(c), old(Snap()));
        Snap() == t && stepEvents == old(stepEvents) + events
    {
      PositiveStep(c);
      hide Defined, FirstOnEva;
      var found := FirstWalker();
      if found.Some? {
        hide EvaStep;
        UpdateWalker(c, DtMinutes(c), found.value);
      }
    }

    method UpdateWalker(c: Config, dt: real, i: nat)
      requires i < |crew| && OnEva(crew[i].eva) && 0.0 < dt && 0 < c.eva.maximum
      modifies this`crew, this`eva, this`rover, this`solarFault, this`stepEvents
      ensures var m := old(crew)[i];
        var out := EvaStep(c.eva, dt, SuitOf(old(Snap()), i), m.health == Health.Critical, m.physical);
        var t := WithSuit(old(Snap()), i, out.suit);
        && Snap() == (if out.repaired then t.(solarFault := c.repairedSolarFault) else t)
        && stepEvents == old(stepEvents) + out.events
    {
      hide PhaseStage, RoverStage, ReturnStage, HealthStage, WithSuit, Truncate;
      if c.eva.roverRequired && !rover.available {
        AbortWalk(i);
      } else {
        Walk(c, dt, i);
      }
    }

    // The stages of a walk that the rover does not prevent, one after the other.
    method Walk(c: Config, dt: real, i: nat)
      requires i < |crew| && 0 < c.eva.maximum
      modifies this`crew, this`eva, this`rover, this`solarFault, this`stepEvents
      ensures var (x1, low) := RoverStage(c.eva, dt, SuitOf(old(Snap()), i));
        var (x2, late) := ReturnStage(c.eva, x1.(eva := x1.eva.(elapsed := x1.eva.elapsed + Truncate(dt))));
        var (x3, ill) := HealthStage(x2, old(crew)[i].health == Health.Critical);
        var out := PhaseStage(c.eva, dt, Truncate(dt), x3, old(crew)[i].physical);
        var t := WithSuit(old(Snap()), i, out.suit);
        && Snap() == (if out.repaired then t.(solarFault := c.repairedSolarFault) else t)
        && stepEvents == old(stepEvents) + (When(low, EvaIngress) + When(late, EvaIngress) + When(ill, EvaIngress) + out.events)
    {
      hide PhaseStage, RoverStage, ReturnStage, HealthStage, WithSuit, Truncate, When, SuitOf;
      ghost var s, x, m := Snap(), SuitOf(Snap(), i), crew[i];
      Consume(c.eva, dt, i);
      ghost var x1 := RoverStage(c.eva, dt, x).0;
      ghost var y := x1.(eva := x1.eva.(elapsed := x1.eva.elapsed + Truncate(dt)));
      SuitSet(s, i, y);
      CheckReturn(c.eva, i);
      ghost var x2 := ReturnStage(c.eva, y).0;
      SuitReplaced(s, i, y, x2);
      SuitSet(s, i, x2);
      CheckWalkerHealth(i);
      ghost var x3 := HealthStage(x2, m.health == Health.Critical).0;
      SuitReplaced(s, i, x2, x3);
      SuitSet(s, i, x3);
      AdvancePhase(c, dt, Truncate(dt), i);
      SuitReplaced(s, i, x3, PhaseStage(c.eva, dt, Truncate(dt), x3, m.physical).suit);
    }

    // Rover energy and time.
    method Consume(c: EvaConfig, dt: real, i: nat)
      requires i < |crew| && 0 < c.maximum
      modifies this`crew, this`eva, this`rover, this`stepEvents
      ensures var (x, low) := RoverStage(c, dt, SuitOf(old(Snap()), i));
        && Snap() == WithSuit(old(Snap()), i, x.(eva := x.eva.(elapsed := x.eva.elapsed + Truncate(dt))))
        && stepEvents == old(stepEvents) + When(low, EvaIngress)
    {
      hide RoverStage, WithSuit, Truncate;
      ghost var s, x := Snap(), SuitOf(Snap(), i);
      if c.roverRequired {
        DrainRover(c, dt, i);
      } else {
        SuitUnchanged(s, i);
        NoRover(c, dt, x);
      }
      ghost var y := RoverStage(c, dt, x).0;
      SuitSet(s, i, y);
      Pass(Truncate(dt), i);
      SuitReplaced(s, i, y, y.(eva := y.eva.(elapsed := y.eva.elapsed + Truncate(dt))));
    }

    method AbortWalk(i: nat)
      requires i < |crew|
      modifies this`crew, this`stepEvents
      ensures Snap() == WithSuit(old(Snap()), i, SuitOf(old(Snap()), i).(status := EvaStatus.Aborted, activity := Recovery))
      ensures stepEvents == old(stepEvents) + [EvaAborted]
    {
      Place(i, EvaStatus.Aborted, Recovery);
      Emit(EvaAborted);
    }

    method Pass(minutes: int, i: nat)
      requires i < |crew|
      modifies this`eva
      ensures var x := SuitOf(old(Snap()), i);
        Snap() == WithSuit(old(Snap()), i, x.(eva := x.eva.(elapsed := x.eva.elapsed + minutes)))
    {
      eva := eva.(elapsed := eva.elapsed + minutes);
    }

    // ---------- Starting actions ----------

    method LogRecord(a: Action, index: nat, status: ExecStatus, progress: real, who: Name)
      modifies this`actions
      ensures actions == old(actions) + [NewRecord(old(Snap()), a, index, status, progress, who)]
    {
      actions := actions + [Record(index, a.kind, status, time, 0, progress, who)];
    }

    method FailStart(a: Action, index: nat)
      modifies this`actions, this`stepEvents
      ensures var e := FailedStart(old(Snap()), a, index); Snap() == e.state && stepEvents == old(stepEvents) + e.events
    {
      LogRecord(a, index, Failed, 0.0, NoName);
      Emit(ActionFailed(a.kind));
    }

    method CompleteStart(a: Action, index: nat)
      modifies this`actions, this`stepEvents
      ensures var e := Done(old(Snap()), a, index); Snap() == e.state && stepEvents == old(stepEvents) + e.events
    {
      LogRecord(a, index, ExecStatus.Complete, 1.0, NoName);
      Emit(ActionStarted(a.kind));
      Emit(ActionCompleted(a.kind));
    }

    method BeginStart(a: Action, index: nat, who: Name)
      modifies this`actions, this`stepEvents
      ensures var e := Begun(old(Snap()), a, index, who); Snap() == e.state && stepEvents == old(stepEvents) + e.events
    {
      LogRecord(a, index, Active, 0.0, who);
      Emit(ActionStarted(a.kind));
    }

    method ShedGroup(group: LoadGroup, fraction: real)
      modifies this`loads, this`equipmentHeat, this`tcsCapacity
      ensures Snap() == Shed(old(Snap()), group, fraction)
    {
      hide Scale;
      var keep := 1.0 - fraction;
      match group {
        case Discretionary =>
          var before := loads.discretionary;
          loads := loads.(discretionary := Scale(keep, loads.discretionary));
          if before > 0.0 { equipmentHeat := Scale(loads.discretionary / before, equipmentHeat); }
        case ThermalControl =>
          loads := loads.(thermal := Scale(keep, loads.thermal));
          tcsCapacity := Scale(keep, tcsCapacity);
        case Communications => loads := loads.(comms := Scale(keep, loads.comms));
        case EvaSupport => loads := loads.(eva := Scale(keep, loads.eva));
        case _ =>
      }
    }

    method StartReducePowerLoad(a: Action, index: nat)
      modifies this
      ensures var e := StartReducePower(a, index, old(Snap()));
        Snap() == e.state && stepEvents == old(stepEvents) + e.events
    {
      if a.percent.None? || a.percent.value < 0.0 || a.percent.value > 100.0 || a.groups == [] {
        FailStart(a, index);
        return;
      }
      var fraction := a.percent.value / 100.0;
      hide Shed;
      for g := 0 to |a.groups|
        invariant ShedAll(old(Snap()), a.groups, fraction) == ShedAll(Snap(), a.groups[g..], fraction)
        invariant stepEvents == old(stepEvents)
      {
        if !Sheddable(a.groups[g]) {
          FailStart(a, index);
          return;
        }
        assert a.groups[g..][1..] == a.groups[g + 1..];
        ShedGroup(a.groups[g], fraction);
      }
      CompleteStart(a, index);
    }

    method StartIsolateModule(c: Config, a: Action, index: nat)
      modifies this
      ensures var e := StartIsolate(c, a, index, old(Snap()));
        Snap() == e.state && stepEvents == old(stepEvents) + e.events
    {
      if OrEmpty(a.target) == NoName {
        FailStart(a, index);
        return;
      }
      for i := 0 to |crew|
        invariant Snap() == old(Snap()) && stepEvents == old(stepEvents)
        invariant forall j | 0 <= j < i :: crew[j].location != OrEmpty(a.target)
      {
        if crew[i].location == OrEmpty(a.target) {
          assert crew[i] in crew;
          FailStart(a, index);
          return;
        }
      }
      volume := c.isolatedVolume;
      leakFactor := leakFactor * c.isolationMultiplier;
      CompleteStart(a, index);
    }

    method StartOxygenRationing(a: Action, index: nat)
      modifies this
      ensures var e := StartRationing(a, index, old(Snap()));
        Snap() == e.state && stepEvents == old(stepEvents) + e.events
    {
      var activity := RationedActivity(a.level);
      var targets := a.targets;
      if targets == [] {
        targets := AllIds(crew);
      }
      hide Ration, FindCrew, RationedActivity;
      for g := 0 to |targets|
        invariant RationAll(old(crew), targets, activity) == RationAll(crew, targets[g..], activity)
        invariant Snap() == old(Snap()).(crew := crew) && stepEvents == old(stepEvents)
      {
        var found := Locate(targets[g]);
        FoundIsFirst(crew, targets[g], found);
        assert targets[g..][1..] == targets[g + 1..];
        if found.None? {
          FailStart(a, index);
          return;
        }
        crew := crew[found.value := Ration(crew[found.value], activity)];
      }
      CompleteStart(a, index);
    }

    method FindWalker(c: Config, a: Action) returns (r: Option<nat>)
      ensures r == Walker(c, a, Snap()) && (r.Some? ==> r.value < |crew|)
    {
      var id := EvaCrewOf(a);
      var found := Locate(id);
      FoundIsFirst(crew, id, found);
      var member := FindMember(c.roster, id);
      hide FindCrew, FindMember, EvaCrewOf, RoverReady;
      if id == NoName || found.None? || member.None? || !member.value.evaQualified {
        return None;
      }
      if !Fit(crew[found.value]) || !RoverReady(c, Snap()) {
        return None;
      }
      return found;
    }

    method StartRepairSolarArray(c: Config, a: Action, index: nat)
      modifies this
      ensures var e := StartRepair(c, a, index, old(Snap()));
        Snap() == e.state && stepEvents == old(stepEvents) + e.events
    {
      var found := FindWalker(c, a);
      hide Walker, EvaCrewOf;
      if found.None? {
        FailStart(a, index);
        return;
      }
      Place(found.value, Preparing, EvaPrep);
      eva := Eva(0, 0, 0.0);
      BeginStart(a, index, EvaCrewOf(a));
    }

    method StartDelayRoverUse(a: Action, index: nat)
      modifies this
      ensures var e := StartDelay(a, index, old(Snap()));
        Snap() == e.state && stepEvents == old(stepEvents) + e.events
    {
      var minutes := 0;
      if a.hours.Some? {
        minutes := Truncate(a.hours.value * 60.0);
      } else if a.duration.Some? {
        minutes := a.duration.value;
      } else {
        FailStart(a, index);
        return;
      }
      if minutes <= 0 {
        FailStart(a, index);
        return;
      }
      rover := rover.(available := false, reservedUntil := time + minutes);
      BeginStart(a, index, NoName);
    }

    method StartSendEmergencyPacket(c: Config, a: Action, index: nat)
      modifies this
      ensures var e := StartPacket(c, a, index, old(Snap()));
        Snap() == e.state && stepEvents == old(stepEvents) + e.events
    {
      if packetSent || !WindowOpen(c.windows, time) {
        FailStart(a, index);
        return;
      }
      transmission := 0;
      loads := loads.(comms := c.transmissionPower);
      BeginStart(a, index, NoName);
    }

    method StartAction(c: Config, a: Action, index: nat)
      modifies this
      ensures var e := Start(c, a, index, old(Snap()));
        Snap() == e.state && stepEvents == old(stepEvents) + e.events
    {
      hide StartReducePower, StartIsolate, StartRationing, StartRepair, StartDelay, StartPacket;
      match a.kind {
        case ReducePowerLoad => StartReducePowerLoad(a, index);
        case IsolateModule => StartIsolateModule(c, a, index);
        case OxygenRationing => StartOxygenRationing(a, index);
        case RepairSolarArray => StartRepairSolarArray(c, a, index);
        case DelayRoverUse => StartDelayRoverUse(a, index);
        case SendEmergencyPacket => StartSendEmergencyPacket(c, a, index);
        case UnknownAction => FailStart(a, index);
      }
    }

    method HasStartedAction(index: nat) returns (b: bool)
      ensures b <==> HasStarted(actions, index)
    {
      for i := 0 to |actions|
        invariant forall j | 0 <= j < i :: actions[j].index != index
      {
        if actions[i].index == index {
          return true;
        }
      }
      return false;
    }

    method ApplyScheduledActions(c: Config, plan: Plan)
      modifies this
      ensures var e := ApplyScheduled(c, plan, old(Snap()));
        Snap() == e.state && stepEvents == old(stepEvents) + e.events
    {
      hide Start, HasStarted;
      for k := 0 to |plan|
        invariant var e := ApplyUpTo(c, plan, k, old(Snap()));
          Snap() == e.state && stepEvents == old(stepEvents) + e.events
      {
        var started := HasStartedAction(k);
        if plan[k].start == time && !started {
          StartAction(c, plan[k], k);
        }
      }
    }

    // ---------- Following actions ----------

    method AwaitRover(r: Record) returns (q: Record)
      modifies this`rover, this`stepEvents
      ensures var f := FollowDelay(old(Snap()), r);
        Snap() == f.state && q == f.record && stepEvents == old(stepEvents) + f.events
    {
      q := r;
      if time >= rover.reservedUntil {
        rover := rover.(available := true, reservedUntil := 0);
        q := q.(status := ExecStatus.Complete, progress := 1.0);
        Emit(ActionCompleted(r.kind));
      } else if rover.reservedUntil > r.start {
        q := q.(progress := ((time - r.start) as real) / ((rover.reservedUntil - r.start) as real));
      }
    }

    method Transmit(c: Config, r: Record, minutes: int) returns (q: Record)
      modifies this`transmission, this`packetSent, this`loads, this`stepEvents
      ensures var f := FollowPacket(c, old(Snap()), r, minutes);
        Snap() == f.state && q == f.record && stepEvents == old(stepEvents) + f.events
    {
      transmission := transmission + minutes;
      var duration := c.transmissionDuration;
      if duration <= 0 { duration := 1; }
      var share := (transmission as real) / (duration as real);
      if share > 1.0 { share := 1.0; }
      q := r.(progress := share);
      if transmission >= duration {
        packetSent := true;
        loads := loads.(comms := c.commsLoad);
        q := q.(status := ExecStatus.Complete, progress := 1.0);
        Emit(ActionCompleted(r.kind));
      }
    }

    method WatchRepair(r: Record) returns (q: Record)
      modifies this`stepEvents
      ensures var f := FollowRepair(old(Snap()), r);
        f.state == old(Snap()) && q == f.record && stepEvents == old(stepEvents) + f.events
    {
      hide FindCrew;
      q := r.(progress := eva.progress);
      if r.crew != NoName {
        var found := Locate(r.crew);
        FoundIsFirst(crew, r.crew, found);
        if found.Some? {
          if crew[found.value].eva == Finished && eva.progress >= 1.0 {
            q := q.(status := ExecStatus.Complete, progress := 1.0);
            Emit(ActionCompleted(r.kind));
          } else if crew[found.value].eva == EvaStatus.Aborted {
            q := q.(status := ExecStatus.Aborted);
            Emit(ActionAborted(r.kind));
          }
        }
      }
    }

    method FollowRecord(c: Config, k: nat, minutes: int)
      requires k < |actions|
      modifies this
      ensures var e := FollowOne(c, k, minutes, Effect(old(Snap()), []));
        Snap() == e.state && stepEvents == old(stepEvents) + e.events
    {
      hide FollowDelay, FollowPacket, FollowRepair;
      var r := actions[k];
      if r.status != Active {
        assert actions[k := r] == actions;
        return;
      }
      r := r.(elapsed := r.elapsed + minutes);
      match r.kind {
        case DelayRoverUse => r := AwaitRover(r);
        case SendEmergencyPacket => r := Transmit(c, r, minutes);
        case RepairSolarArray => r := WatchRepair(r);
        case _ =>
      }
      actions := actions[k := r];
    }

    method UpdateActiveActions(c: Config)
      requires Defined(c)
      modifies this
      ensures var e := FollowAll(c, Truncate(DtMinutes(c)), old(Snap()));
        Snap() == e.state && stepEvents == old(stepEvents) + e.events
    {
      hide Follow, Defined, DtMinutes, Truncate;
      var minutes := Truncate(DtMinutes(c));
      for k := 0 to |actions|
        invariant |actions| == |old(actions)|
        invariant var e := FollowUpTo(c, k, minutes, old(Snap()));
          Snap() == e.state && stepEvents == old(stepEvents) + e.events
      {
        FollowRecord(c, k, minutes);
      }
    }

    // ---------- Evaluation ----------

    method ApplyCrewAbortRules()
      modifies this`crew, this`eva, this`stepEvents
      ensures Snap() == AbortAll(old(Snap())) && stepEvents == old(stepEvents) + CallBackEvents(old(crew))
    {
      hide MustReturn, CallBack, AnyMustReturn, Called, CallBackEvents;
      ghost var was := crew;
      NoneCalled(was);
      for i := 0 to |crew|
        invariant |crew| == |was| && Called(was, crew, i)
        invariant eva == if AnyMustReturn(was[..i]) then old(eva).(work := 0) else old(eva)
        invariant stepEvents == old(stepEvents) + CallBackEvents(was[..i])
      {
        OneMore(was, crew, i);
        if MustReturn(crew[i]) {
          crew := crew[i := CallBack(crew[i])];
          eva := eva.(work := 0);
          Emit(EvaIngress);
        }
      }
      AllCalled(was, crew);
    }

    method CollectReasons(c: Config, t: Telemetry) returns (reasons: seq<Reason>)
      ensures reasons == Reasons(c, Snap(), t)
    {
      hide HabitatReasons, RepairTooLate, CrewReasons, AllDown;
      var members, everyone := CollectCrewReasons(crew, t);
      reasons := HabitatReasons(c, Snap(), t) + members + When(everyone, AllCrewIncapacitated)
                 + When(RepairTooLate(c, Snap(), t), CriticalRepairImpossible);
    }

    method CollectWarnings(c: Config, t: Telemetry) returns (warnings: seq<Warning>)
      ensures warnings == HabitatWarnings(c, Snap(), t) + CrewWarnings(crew)
    {
      var members := CollectCrewWarnings(crew);
      warnings := HabitatWarnings(c, Snap(), t) + members;
    }

    method ConditionsMet(c: Config, t: Telemetry) returns (met: bool)
      ensures met <==> Met(c, Snap(), t)
    {
      if LeakPerHour(c, Snap()) > c.stabilizedLeak || t.inspiredO2 <= c.limits.o2Failure
         || t.pressure <= c.limits.pressureFailure || t.co2Average >= c.limits.co2Limit || t.soc <= c.batteryReserve
         || TemperatureCritical(c, Snap()) || !(t.powerMargin >= 0.0 || solarFault >= c.repairedSolarFault) {
        return false;
      }
      for i := 0 to |crew|
        invariant forall j | 0 <= j < i :: Steady(crew[j], t)
      {
        if !Steady(crew[i], t) {
          assert crew[i] in crew;
          return false;
        }
      }
      return true;
    }

    method AnyCritical() returns (b: bool)
      ensures b <==> exists m :: m in crew && m.health == Health.Critical
    {
      for i := 0 to |crew|
        invariant forall j | 0 <= j < i :: crew[j].health != Health.Critical
      {
        if crew[i].health == Health.Critical {
          assert crew[i] in crew;
          return true;
        }
      }
      return false;
    }

    method EvaluateMissionState(c: Config, t: Telemetry, held: real) returns (mission: Mission, verdict: Verdict)
      modifies this`crew, this`eva, this`stepEvents
      ensures var j := Judge(c, old(Snap()), t, held);
        Snap() == j.state && mission == j.mission && verdict == j.verdict && stepEvents == old(stepEvents) + j.events
    {
      hide AbortAll, CallBackEvents, Reasons, HabitatWarnings, CrewWarnings, Met, DtMinutes;
      ApplyCrewAbortRules();
      var reasons := CollectReasons(c, t);
      if reasons != [] {
        Emit(MissionFailure(reasons[0]));
        return Mission(Failing, 0.0, [], reasons), Failure;
      }
      var warnings := CollectWarnings(c, t);
      var critical := AnyCritical();
      var status := Status.Nominal;
      if critical { status := Status.Critical; } else if warnings != [] { status := Warned; }
      var met := ConditionsMet(c, t);
      if !met {
        return Mission(status, 0.0, warnings, []), Continue;
      }
      var longer := held + DtMinutes(c);
      if longer >= c.stabilizationHold as real {
        Emit(MissionStabilized);
        return Mission(Stable, longer, warnings, []), Stabilized;
      }
      return Mission(status, longer, warnings, []), Continue;
    }
  }

  // ---------- Loops over a crew ----------

  method CollectCrewReasons(crew: seq<Crew>, t: Telemetry) returns (reasons: seq<Reason>, everyone: bool)
    ensures reasons == CrewReasons(crew, t) && everyone == AllDown(crew)
  {
    hide MemberReasons, AllDown;
    reasons := [];
    var down := 0;
    for i := 0 to |crew|
      invariant 0 <= down <= i && (down == i <==> forall j | 0 <= j < i :: crew[j].health == Incapacitated)
      invariant reasons == CrewReasons(crew[..i], t)
    {
      assert crew[..i + 1][..i] == crew[..i];
      if crew[i].health == Incapacitated {
        down := down + 1;
      }
      reasons := reasons + MemberReasons(crew[i], t);
    }
    assert crew[..|crew|] == crew;
    AllAreDown(crew, down);
    everyone := crew != [] && down == |crew|;
  }

  method CollectCrewWarnings(crew: seq<Crew>) returns (warnings: seq<Warning>)
    ensures warnings == CrewWarnings(crew)
  {
    warnings := [];
    for i := 0 to |crew|
      invariant warnings == CrewWarnings(crew[..i])
    {
      assert crew[..i + 1][..i] == crew[..i];
      warnings := warnings + MemberWarnings(crew[i]);
    }
    assert crew[..|crew|] == crew;
  }

  // ---------- Lemmas for the loops ----------

  lemma PositiveStep(c: Config)
    requires Defined(c)
    ensures 0.0 < DtMinutes(c) && 0 < c.timeStepS && 0 < c.eva.maximum
  {
    PosDiv(c.timeStepS as real, 60.0);
  }

  lemma SuitReplaced(s: State, i: nat, x: Suit, y: Suit)
    requires i < |s.crew|
    ensures WithSuit(WithSuit(s, i, x), i, y) == WithSuit(s, i, y)
  {
  }

  lemma SuitSet(s: State, i: nat, x: Suit)
    requires i < |s.crew|
    ensures var t := WithSuit(s, i, x);
      && SuitOf(t, i) == x && |t.crew| == |s.crew|
      && t.crew[i].health == s.crew[i].health && t.crew[i].physical == s.crew[i].physical
  {
  }

  lemma SuitUnchanged(s: State, i: nat)
    requires i < |s.crew|
    ensures WithSuit(s, i, SuitOf(s, i)) == s
  {
  }

  lemma NoRover(c: EvaConfig, dt: real, x: Suit)
    requires 0 < c.maximum && !c.roverRequired
    ensures RoverStage(c, dt, x) == (x, false) && When(false, EvaIngress) == []
  {
  }

  // Only the working phase reads the length of the step and the performance.
  lemma PhaseInputs(c: EvaConfig, dt: real, minutes: int, x: Suit, performance: real)
    ensures x.status == Preparing || x.status == EvaStatus.Egress ==>
      PhaseStage(c, dt, minutes, x, performance) == PhaseStage(c, 1.0, 1, x, 0.0)
    ensures x.status == Ingress ==> PhaseStage(c, dt, minutes, x, performance) == PhaseStage(c, 1.0, minutes, x, 0.0)
    ensures !OnEva(x.status) ==> PhaseStage(c, dt, minutes, x, performance) == Outcome(x, false, [])
    ensures x.status != Ingress ==> !PhaseStage(c, dt, minutes, x, performance).repaired
  {
    hide Progress;
  }

  // The first n members have been called back where the rule says so.
  ghost predicate Called(was: seq<Crew>, crew: seq<Crew>, n: nat)
    requires n <= |was| == |crew|
  {
    && (forall j | 0 <= j < n :: crew[j] == if MustReturn(was[j]) then CallBack(was[j]) else was[j])
    && (forall j | n <= j < |was| :: crew[j] == was[j])
  }

  lemma NoneCalled(was: seq<Crew>)
    ensures Called(was, was, 0) && !AnyMustReturn(was[..0]) && CallBackEvents(was[..0]) == []
  {
  }

  lemma OneMore(was: seq<Crew>, crew: seq<Crew>, i: nat)
    requires i < |was| == |crew| && Called(was, crew, i)
    ensures crew[i] == was[i]
    ensures Called(was, if MustReturn(crew[i]) then crew[i := CallBack(crew[i])] else crew, i + 1)
    ensures CallBackEvents(was[..i + 1]) == CallBackEvents(was[..i]) + if MustReturn(was[i]) then [EvaIngress] else []
    ensures AnyMustReturn(was[..i + 1]) <==> AnyMustReturn(was[..i]) || MustReturn(was[i])
  {
    hide MustReturn, CallBack;
    assert was[..i + 1] == was[..i] + [was[i]] && was[..i + 1][..i] == was[..i];
  }

  lemma AllCalled(was: seq<Crew>, crew: seq<Crew>)
    requires |was| == |crew| && Called(was, crew, |was|)
    ensures crew == CallBackAll(was) && was[..|was|] == was
  {
    hide MustReturn, CallBack;
  }

  lemma AllAreDown(crew: seq<Crew>, down: nat)
    requires down == |crew| <==> forall j | 0 <= j < |crew| :: crew[j].health == Incapacitated
    ensures AllDown(crew) <==> crew != [] && down == |crew|
  {
    assert forall j | 0 <= j < |crew| :: crew[j] in crew;
  }

  lemma FoundIsFirst(crew: seq<Crew>, id: Name, r: Option<nat>)
    requires r.Some? ==> r.value < |crew| && crew[r.value].id == id
    requires r.Some? ==> forall i | 0 <= i < r.value :: crew[i].id != id
    requires r.None? ==> forall m | m in crew :: m.id != id
    ensures r == FindCrew(crew, id)
  {
    if r.Some? {
      assert crew[r.value] in crew;
    }
  }

  // The first n members have had their step.
  ghost predicate Served(c: Config, env: Env, temperature: real, was: seq<Crew>, crew: seq<Crew>, n: nat)
    requires Defined(c) && |was| == |c.roster| && n <= |was|
  {
    && |crew| == |was| && CrewUpTo(c, env, temperature, was, n) == Ok(crew)
    && (forall i | n <= i < |was| :: crew[i] == was[i])
    && (forall i | 0 <= i < |was| :: crew[i].id == c.roster[i].id)
  }

  lemma NoneServed(c: Config, env: Env, temperature: real, was: seq<Crew>)
    requires Defined(c) && |was| == |c.roster| && forall i | 0 <= i < |was| :: was[i].id == c.roster[i].id
    ensures Served(c, env, temperature, was, was, 0) && Transitions(was, was, 0) == []
  {
  }

  lemma AllServed(c: Config, env: Env, temperature: real, was: seq<Crew>, crew: seq<Crew>)
    requires Defined(c) && |was| == |c.roster| && Served(c, env, temperature, was, crew, |was|)
    ensures CrewUpTo(c, env, temperature, was, |was|) == Ok(crew)
  {
    hide Defined;
  }

  // The member found by id is the one whose turn it is.
  lemma ServedInPlace(c: Config, env: Env, temperature: real, was: seq<Crew>, crew: seq<Crew>, n: nat, found: Option<nat>)
    requires Defined(c) && n < |was| == |c.roster| && Served(c, env, temperature, was, crew, n) && DistinctIds(c.roster)
    requires found.Some? ==> found.value < |crew| && crew[found.value].id == c.roster[n].id
    requires found.None? ==> forall m | m in crew :: m.id != c.roster[n].id
    ensures found == Some(n)
    ensures var r := MemberStage(c, env, temperature, n, crew[n]);
      if r.Err? then CrewUpTo(c, env, temperature, was, |was|) == Err(r.error)
      else
        && Served(c, env, temperature, was, crew[n := r.value], n + 1)
        && Transitions(was, crew[n := r.value], n + 1) == Transitions(was, crew, n) + Transition(crew[n], r.value)
  {
    hide MemberStage, Defined, Transition;
    assert crew[n] in crew && crew[n].id == c.roster[n].id;
    var r := MemberStage(c, env, temperature, n, crew[n]);
    if r.Err? {
      FailedMember(c, env, temperature, was, n, |was|);
    } else {
      MemberKeepsId(c, env, temperature, n, crew[n]);
      TransitionsAgree(was, crew, crew[n := r.value], n);
    }
  }

  lemma MemberKeepsId(c: Config, env: Env, temperature: real, i: nat, m: Crew)
    requires Defined(c) && i < |c.roster|
    ensures var r := MemberStage(c, env, temperature, i, m);
      r.Ok? ==> r.value.id == m.id
  {
    assert c.roster[i] in c.roster;
    PositiveStep(c);
    StepBounds(c.vital, c.limits, c.roster[i], env, DtMinutes(c), temperature, m);
    hide StepCrew;
  }

  lemma {:induction false} FailedMember(c: Config, env: Env, temperature: real, crew: seq<Crew>, n: nat, top: nat)
    requires Defined(c) && |crew| == |c.roster| && n < top <= |crew|
    requires CrewUpTo(c, env, temperature, crew, n).Ok? && MemberStage(c, env, temperature, n, crew[n]).Err?
    ensures CrewUpTo(c, env, temperature, crew, top) == Err(MemberStage(c, env, temperature, n, crew[n]).error)
  {
    hide MemberStage, Defined;
    if n + 1 < top {
      FailedMember(c, env, temperature, crew, n, top - 1);
    }
  }

  lemma {:induction false} TransitionsAgree(was: seq<Crew>, a: seq<Crew>, b: seq<Crew>, n: nat)
    requires n <= |was| && n <= |a| && n <= |b| && forall i | 0 <= i < n :: a[i] == b[i]
    ensures Transitions(was, a, n) == Transitions(was, b, n)
  {
    if n > 0 {
      TransitionsAgree(was, a, b, n - 1);
    }
  }
}
