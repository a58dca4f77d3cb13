// The EVA inside whole runs: back in time, and no repair without its full time.
module EvaRun {
  import opened Wrappers
  import opened Scenario
  import opened CrewPhysiology
  import opened Resources
  import opened Actions
  import opened EvaMachine
  import opened EvaReturn
  import opened EvaRepair
  import opened EvaBound
  import opened Evaluation
  import opened SimulationRun
  import StabilizationRun

  predicate OneRepair(plan: Plan) {
    forall j, k | 0 <= j < |plan| && 0 <= k < |plan| && plan[j].kind == RepairSolarArray && plan[k].kind == RepairSolarArray
      :: j == k
  }

  // What the proofs assume of a run: whole minutes, one EVA, all inside at first.
  predicate OneWalk(c: Config, plan: Plan) {
    && Defined(c) && c.timeStepS == 60 && ValidEva(c.eva) && OneRepair(plan)
    && forall m | m in c.roster :: m.eva == EvaStatus.Idle
  }

  // The condition of the return bound at the abort fraction of the health rules.
  predicate MustReturnInTime(c: Config)
    requires 0 < c.eva.maximum
  {
    0.0 <= c.vital.performanceAbort && Returns(c.eva, c.vital.performanceAbort)
  }

  // The walker's account: every phase earned and, where the condition of the bound
  // holds, in time; while the walker is sure to survive, with all that keeps it so.
  predicate Kept(c: Config, alive: bool, x: Suit)
    requires 0 < c.eva.maximum
  {
    && Earned(c.eva, x)
    && (MustReturnInTime(c) ==> Safe(c.eva, x) && (alive ==> Bounded(c.eva, c.vital.performanceAbort, x)))
  }

  predicate AtHome(s: State) {
    s.eva == Eva(0, 0, 0.0) && s.rover.battery == 100.0 && forall i | 0 <= i < |s.crew| :: s.crew[i].eva == EvaStatus.Idle
  }

  predicate RepairTaken(plan: Plan, actions: seq<Record>) {
    forall k | 0 <= k < |plan| && plan[k].kind == RepairSolarArray :: HasStarted(actions, k)
  }

  predicate OnlyWalker(crew: seq<Crew>, w: nat) {
    w < |crew| && forall i | 0 <= i < |crew| && i != w :: crew[i].eva == EvaStatus.Idle
  }

  predicate Out(c: Config, plan: Plan, alive: bool, s: State, w: nat)
    requires 0 < c.eva.maximum
  {
    OnlyWalker(s.crew, w) && RepairTaken(plan, s.actions) && Kept(c, alive, SuitOf(s, w))
  }

  // The invariant: nobody has been out, or one walker keeps the account.
  ghost predicate Orderly(c: Config, plan: Plan, alive: bool, s: State)
    requires 0 < c.eva.maximum
  {
    AtHome(s) || exists w: nat :: Out(c, plan, alive, s, w)
  }

  // ---------- Scheduled actions ----------

  lemma TakenStays(plan: Plan, a: seq<Record>, b: seq<Record>)
    requires RepairTaken(plan, a) && |a| <= |b| && forall i | 0 <= i < |a| :: b[i].index == a[i].index
    ensures RepairTaken(plan, b)
  {
    forall k | 0 <= k < |plan| && plan[k].kind == RepairSolarArray
      ensures HasStarted(b, k)
    {
      assert HasStarted(a, k);
      var i :| 0 <= i < |a| && a[i].index == k;
      assert b[i].index == k;
    }
  }

  // The account reads neither the activity nor the availability of the rover.
  lemma SameSuitIsKept(c: Config, alive: bool, x: Suit, y: Suit)
    requires 0 < c.eva.maximum && Kept(c, alive, x)
    requires x.status == y.status && x.eva == y.eva && x.rover.battery == y.rover.battery
    ensures Kept(c, alive, y)
  {
    hide WorkDone, BatteryAfter, LatestTurn, Returns, Low, Worked;
  }

  lemma SameWalkIsOrderly(c: Config, plan: Plan, alive: bool, s: State, t: State)
    requires 0 < c.eva.maximum && Orderly(c, plan, alive, s)
    requires SameWalk(s, t) && s.rover.battery == t.rover.battery
    requires |s.actions| <= |t.actions| && forall i | 0 <= i < |s.actions| :: t.actions[i].index == s.actions[i].index
    ensures Orderly(c, plan, alive, t)
  {
    if !AtHome(s) {
      var w: nat :| Out(c, plan, alive, s, w);
      TakenStays(plan, s.actions, t.actions);
      SameSuitIsKept(c, alive, SuitOf(s, w), SuitOf(t, w));
      hide RepairTaken, Kept;
      assert Out(c, plan, alive, t, w);
    }
  }

  lemma FreshIsKept(c: Config, x: Suit)
    requires ValidEva(c.eva) && Startable(c.eva)
    requires x.status == Preparing && x.eva == Eva(0, 0, 0.0) && x.rover.battery == 100.0
    ensures Kept(c, true, x)
  {
    WorkBegins(c.eva);
    hide LatestTurn, WorkDone, Returns;
  }

  lemma RepairIsOrderly(c: Config, plan: Plan, k: nat, s: State)
    requires OneWalk(c, plan) && k < |plan| && plan[k].kind == RepairSolarArray && AtHome(s)
    ensures Orderly(c, plan, true, Start(c, plan[k], k, s).state)
  {
    var i := Walker(c, plan[k], s);
    var t := Start(c, plan[k], k, s).state;
    if i.Some? {
      FreshIsKept(c, SuitOf(t, i.value));
      assert RepairTaken(plan, t.actions) by {
        assert t.actions[|s.actions|].index == k;
        assert HasStarted(t.actions, k);
      }
      hide Kept, Walker, HasStarted;
      assert Out(c, plan, true, t, i.value);
    }
  }

  lemma StartIsOrderly(c: Config, plan: Plan, k: nat, s: State)
    requires OneWalk(c, plan) && k < |plan| && Due(plan, k, s) && Orderly(c, plan, true, s)
    ensures Orderly(c, plan, true, Start(c, plan[k], k, s).state)
  {
    StartContained(c, plan[k], k, s);
    if SameWalk(s, Start(c, plan[k], k, s).state) {
      var t := Start(c, plan[k], k, s).state;
      hide Start, Orderly, SameWalk, OneWalk;
      assert forall i | 0 <= i < |s.actions| :: t.actions[i] == t.actions[..|s.actions|][i];
      SameWalkIsOrderly(c, plan, true, s, t);
    } else {
      hide Start, Kept;
      RepairIsOrderly(c, plan, k, s);
    }
  }

  lemma {:induction false} ScheduledIsOrderly(c: Config, plan: Plan, s: State, n: nat)
    requires OneWalk(c, plan) && n <= |plan| && Orderly(c, plan, true, s)
    ensures Orderly(c, plan, true, ApplyUpTo(c, plan, n, s).state)
  {
    hide OneWalk, Orderly, Start, Due;
    if n > 0 {
      ScheduledIsOrderly(c, plan, s, n - 1);
      var t := ApplyUpTo(c, plan, n - 1, s).state;
      if Due(plan, n - 1, t) {
        StartIsOrderly(c, plan, n - 1, t);
      }
    }
  }

  // Scheduling leaves the EVA side alone or sends someone out without any progress.
  lemma {:induction false} ScheduledWalk(c: Config, plan: Plan, s: State, n: nat)
    requires n <= |plan|
    ensures var t := ApplyUpTo(c, plan, n, s).state;
      SameWalk(s, t) || t.eva.progress == 0.0
  {
    hide Start, Due;
    if n > 0 {
      ScheduledWalk(c, plan, s, n - 1);
      var t := ApplyUpTo(c, plan, n - 1, s).state;
      if Due(plan, n - 1, t) {
        StartWalk(c, plan[n - 1], n - 1, t);
      }
    }
  }

  lemma StartWalk(c: Config, a: Action, k: nat, s: State)
    ensures var t := Start(c, a, k, s).state;
      SameWalk(s, t) || t.eva.progress == 0.0
  {
    StartContained(c, a, k, s);
    hide SamePhysics, SameBodies, Logs, StartReducePower, StartIsolate, StartRationing, StartDelay, StartPacket,
      Walker;
  }

  // ---------- Physiology and physics ----------

  predicate Able(crew: seq<Crew>) {
    forall i | 0 <= i < |crew| :: 0.0 <= crew[i].physical <= 1.0
  }

  /** The physiology moves nobody and leaves performance in [0, 1]. */
  lemma CrewStageMovesNobody(c: Config, s: State, r: State)
    requires Defined(c) && |s.crew| == |c.roster| && CrewStage(c, s) == Ok(r)
    ensures SamePlaces(s.crew, r.crew) && Able(r.crew)
    ensures forall i | 0 <= i < |s.crew| :: r.crew[i].id == s.crew[i].id
  {
    var env := EnvOf(Read(c, s));
    CrewIsPointwise(c, env, s.temperature, s.crew, |s.crew|);
    forall i | 0 <= i < |s.crew|
      ensures r.crew[i].eva == s.crew[i].eva && 0.0 <= r.crew[i].physical <= 1.0 && r.crew[i].id == s.crew[i].id
    {
      assert MemberStage(c, env, s.temperature, i, s.crew[i]) == Ok(r.crew[i]);
      hide Read, EnvOf, CrewUpTo, StepCrew;
      StepBounds(c.vital, c.limits, c.roster[i], env, DtMinutes(c), s.temperature, s.crew[i]);
    }
  }

  lemma PhysicsStaysOutside(c: Config, s: State)
    requires Defined(c)
    ensures var t := PhysicsStage(c, s);
      t == s.(air := t.air, co2Samples := t.co2Samples, battery := t.battery, temperature := t.temperature)
  {
    hide CabinCrew, FlowOf, Co2Sample, NetHeat, PowerMargin, WindowSize, Defined;
  }

  // Whoever is at or below the abort fraction is incapacitated.
  predicate Ranked(c: Config, crew: seq<Crew>) {
    forall i | 0 <= i < |crew| :: crew[i].physical <= c.vital.performanceAbort ==> crew[i].health == Incapacitated
  }

  lemma WeakIsIncapacitated(c: Config, env: Env, temperature: real, i: nat, m: Crew)
    requires Defined(c) && i < |c.roster| && MemberStage(c, env, temperature, i, m).Ok?
    ensures var r := MemberStage(c, env, temperature, i, m).value;
      r.physical <= c.vital.performanceAbort ==> r.health == Incapacitated
  {
    hide Severities, UpdateExposure, UpdateFatigue, UpdateMetabolism, UpdateVitals, UpdatePerformance, Alarms, FindProfile;
  }

  lemma CrewStageRanks(c: Config, s: State, r: State)
    requires Defined(c) && |s.crew| == |c.roster| && CrewStage(c, s) == Ok(r)
    ensures Ranked(c, r.crew)
  {
    var env := EnvOf(Read(c, s));
    CrewIsPointwise(c, env, s.temperature, s.crew, |s.crew|);
    forall i | 0 <= i < |s.crew|
      ensures r.crew[i].physical <= c.vital.performanceAbort ==> r.crew[i].health == Incapacitated
    {
      assert MemberStage(c, env, s.temperature, i, s.crew[i]) == Ok(r.crew[i]);
      hide Read, EnvOf, CrewUpTo, MemberStage;
      WeakIsIncapacitated(c, env, s.temperature, i, s.crew[i]);
    }
  }

  // ---------- The EVA stage ----------

  lemma WalkerIsFirst(crew: seq<Crew>, w: nat)
    requires OnlyWalker(crew, w)
    ensures FirstOnEva(crew) == if OnEva(crew[w].eva) then Some(w) else None
  {
  }

  // Everyone still out is above the abort fraction.
  predicate Alive(c: Config, crew: seq<Crew>) {
    forall i | 0 <= i < |crew| && OnEva(crew[i].eva) :: c.vital.performanceAbort < crew[i].physical
  }

  lemma StepIsKept(c: Config, x: Suit, critical: bool, performance: real)
    requires ValidEva(c.eva) && Kept(c, true, x) && performance <= 1.0
    ensures var out := EvaStep(c.eva, 1.0, x, critical, performance);
      && Kept(c, !OnEva(out.suit.status) || c.vital.performanceAbort < performance, out.suit)
      && (out.repaired ==> 0 < c.eva.repairWork && FullTime(c.eva) <= out.suit.eva.elapsed)
  {
    hide EvaStep, Bounded, Safe, Earned, Returns;
    RepairTakesFullTime(c.eva, x, critical, performance);
    if MustReturnInTime(c) {
      MinuteIsBounded(c.eva, c.vital.performanceAbort, x, critical, performance);
    }
  }

  lemma RepairedIsFinished(c: EvaConfig, x: Suit, critical: bool, performance: real)
    requires 0 < c.maximum
    ensures var out := EvaStep(c, 1.0, x, critical, performance);
      out.repaired ==> out.suit.status == Finished && 1.0 <= out.suit.eva.progress == x.eva.progress && OnEva(x.status)
  {
    hide Progress, Drain;
  }

  // An array restored by a step has cost the full time, and the step ends that EVA.
  ghost predicate PaidFor(c: Config, s: State, t: State) {
    t.solarFault != s.solarFault ==>
      && t.solarFault == c.repairedSolarFault && 0 < c.eva.repairWork && FullTime(c.eva) <= t.eva.elapsed
      && t.eva.progress == 1.0
      && exists w: nat :: HasEnded(s.crew, t.crew, w)
  }

  predicate HasEnded(before: seq<Crew>, after: seq<Crew>, w: nat) {
    w < |before| && w < |after| && OnEva(before[w].eva) && after[w].eva == Finished
  }

  lemma WalkIsOrderly(c: Config, plan: Plan, s: State)
    requires OneWalk(c, plan) && Orderly(c, plan, true, s) && Able(s.crew)
    ensures var t := EvaStage(c, 1.0, s).0;
      && Orderly(c, plan, Alive(c, t.crew), t) && PaidFor(c, s, t) && t.actions == s.actions
      && (t.solarFault != s.solarFault ==> s.eva.progress == 1.0) && |t.crew| == |s.crew|
  {
    if !AtHome(s) {
      var w: nat :| Out(c, plan, true, s, w);
      WalkerIsFirst(s.crew, w);
      hide EvaStep, FirstOnEva, Kept, RepairTaken, MustReturnInTime;
      if OnEva(s.crew[w].eva) {
        WalkerIsOrderly(c, plan, s, w);
      } else {
        AliveAnyway(c, SuitOf(s, w), Alive(c, s.crew));
        assert Out(c, plan, Alive(c, s.crew), s, w);
      }
    } else {
      hide EvaStep;
    }
  }

  lemma AliveAnyway(c: Config, x: Suit, alive: bool)
    requires 0 < c.eva.maximum && Kept(c, true, x)
    ensures Kept(c, alive, x)
  {
    hide Earned, Safe, Bounded, MustReturnInTime;
  }

  lemma WalkerIsOrderly(c: Config, plan: Plan, s: State, w: nat)
    requires OneWalk(c, plan) && Out(c, plan, true, s, w) && Able(s.crew) && OnEva(s.crew[w].eva)
    requires FirstOnEva(s.crew) == Some(w)
    ensures var t := EvaStage(c, 1.0, s).0;
      && Out(c, plan, Alive(c, t.crew), t, w) && PaidFor(c, s, t) && t.actions == s.actions
      && (t.solarFault != s.solarFault ==> s.eva.progress == 1.0) && |t.crew| == |s.crew|
  {
    var m := s.crew[w];
    var x, critical := SuitOf(s, w), m.health == Health.Critical;
    StepIsKept(c, x, critical, m.physical);
    RepairedIsFinished(c.eva, x, critical, m.physical);
    var out := EvaStep(c.eva, 1.0, x, critical, m.physical);
    hide EvaStep, FirstOnEva, RepairTaken, OneRepair, FullTime;
    var t := EvaStage(c, 1.0, s).0;
    assert SuitOf(t, w) == out.suit && t.crew[w].physical == m.physical;
    KeptWhole(c, !OnEva(out.suit.status) || c.vital.performanceAbort < m.physical, out.suit);
    hide Kept;
    if Alive(c, t.crew) && OnEva(out.suit.status) {
      assert c.vital.performanceAbort < t.crew[w].physical;
    }
    KeptLess(c, !OnEva(out.suit.status) || c.vital.performanceAbort < m.physical, Alive(c, t.crew), out.suit);
    assert out.repaired ==> HasEnded(s.crew, t.crew, w);
  }

  lemma KeptWhole(c: Config, alive: bool, x: Suit)
    requires 0 < c.eva.maximum && Kept(c, alive, x)
    ensures 0.0 <= x.eva.progress <= 1.0
  {
    hide WorkDone, Bounded, Safe, MustReturnInTime;
  }

  lemma KeptLess(c: Config, alive: bool, less: bool, x: Suit)
    requires 0 < c.eva.maximum && Kept(c, alive, x) && (less ==> alive)
    ensures Kept(c, less, x)
  {
    hide Earned, Safe, Bounded, MustReturnInTime;
  }

  // ---------- Following and evaluation ----------

  lemma FollowKeepsIdentity(c: Config, s: State, r: Record, minutes: int)
    ensures var q := Follow(c, s, r, minutes).record;
      q.index == r.index && q.kind == r.kind && q.start == r.start && q.crew == r.crew
  {
    hide FindCrew;
  }

  lemma {:induction false} FollowKeepsIndexes(c: Config, n: nat, minutes: int, s: State)
    requires n <= |s.actions|
    ensures var t := FollowUpTo(c, n, minutes, s).state;
      forall i | 0 <= i < |s.actions| :: t.actions[i].index == s.actions[i].index
  {
    if n > 0 {
      FollowKeepsIndexes(c, n - 1, minutes, s);
      var e := FollowUpTo(c, n - 1, minutes, s);
      FollowKeepsIdentity(c, e.state, e.state.actions[n - 1], minutes);
      hide Follow;
    }
  }

  lemma FollowIsOrderly(c: Config, plan: Plan, alive: bool, s: State, minutes: int)
    requires 0 < c.eva.maximum && Orderly(c, plan, alive, s)
    ensures Orderly(c, plan, alive, FollowAll(c, minutes, s).state)
  {
    var n := |s.actions|;
    FollowKeepsRest(c, n, minutes, s);
    FollowKeepsIndexes(c, n, minutes, s);
    hide FollowUpTo, Orderly;
    SameWalkIsOrderly(c, plan, alive, s, FollowAll(c, minutes, s).state);
  }

  lemma AbortIsKept(c: Config, alive: bool, x: Suit, critical: bool)
    requires ValidEva(c.eva) && Kept(c, alive, x)
    ensures Kept(c, alive, AbortRule(x, critical))
  {
    hide Earned, Bounded, Returns;
    AbortIsEarned(c.eva, x, critical);
    if MustReturnInTime(c) && alive {
      AbortIsBounded(c.eva, c.vital.performanceAbort, x, critical);
    }
  }

  lemma AbortIsOrderly(c: Config, plan: Plan, alive: bool, s: State)
    requires 0 < c.eva.maximum && ValidEva(c.eva) && Orderly(c, plan, alive, s)
    ensures Orderly(c, plan, alive, AbortAll(s))
  {
    if !AtHome(s) {
      var w: nat :| Out(c, plan, alive, s, w);
      var critical := s.crew[w].health == Health.Critical;
      var t := AbortAll(s);
      assert SuitOf(t, w) == AbortRule(SuitOf(s, w), critical);
      AbortIsKept(c, alive, SuitOf(s, w), critical);
      hide Kept, RepairTaken;
      assert Out(c, plan, alive, t, w);
    }
  }

  // The bound as a step reports it.
  predicate BackInTime(c: Config, x: Stepped) {
    && x.state.eva.elapsed <= c.eva.maximum - c.eva.reserve
    && (forall m | m in x.state.crew && Outward(m.eva) :: 0 <= x.sample.telemetry.evaMargin)
    && EvaSafeReturnNegative !in x.sample.mission.violated
  }

  lemma OrderlyIsSafe(c: Config, plan: Plan, alive: bool, s: State)
    requires 0 < c.eva.maximum && ValidEva(c.eva) && Orderly(c, plan, alive, s) && MustReturnInTime(c)
    ensures s.eva.elapsed <= c.eva.maximum - c.eva.reserve
    ensures forall m | m in s.crew && Outward(m.eva) :: 0 <= EvaMargin(c, s)
  {
    if !AtHome(s) {
      var w: nat :| Out(c, plan, alive, s, w);
      hide Bounded, Earned, RepairTaken, Returns, MustReturnInTime;
    }
  }

  lemma {:induction false} MarginIsNoReason(crew: seq<Crew>, t: Telemetry)
    requires forall m | m in crew && Outward(m.eva) :: 0 <= t.evaMargin
    ensures EvaSafeReturnNegative !in CrewReasons(crew, t)
  {
    if crew != [] {
      MarginIsNoReason(crew[..|crew| - 1], t);
      assert crew[|crew| - 1] in crew;
    }
  }

  lemma HabitatHasNoMargin(c: Config, s: State, t: Telemetry)
    ensures EvaSafeReturnNegative !in HabitatReasons(c, s, t)
  {
    hide TemperatureCritical;
  }

  lemma ReasonsWithoutMargin(c: Config, s: State, t: Telemetry)
    requires forall m | m in s.crew && Outward(m.eva) :: 0 <= t.evaMargin
    ensures EvaSafeReturnNegative !in Reasons(c, s, t)
  {
    MarginIsNoReason(s.crew, t);
    HabitatHasNoMargin(c, s, t);
    hide CrewReasons, HabitatReasons, AllDown, RepairTooLate;
  }

  // ---------- Who survives a step ----------

  lemma {:induction false} FallenIsReason(crew: seq<Crew>, t: Telemetry, i: nat)
    requires i < |crew| && crew[i].health == Incapacitated && OnEva(crew[i].eva)
    ensures CrewReasons(crew, t) != []
  {
    if i < |crew| - 1 {
      FallenIsReason(crew[..|crew| - 1], t, i);
    }
  }

  lemma GoingOnIsAlive(c: Config, s: State, t: Telemetry)
    requires Ranked(c, s.crew) && Reasons(c, s, t) == []
    ensures Alive(c, s.crew)
  {
    hide HabitatReasons, CrewReasons, AllDown, RepairTooLate;
    forall i | 0 <= i < |s.crew| && OnEva(s.crew[i].eva)
      ensures c.vital.performanceAbort < s.crew[i].physical
    {
      if s.crew[i].health == Incapacitated {
        FallenIsReason(s.crew, t, i);
      }
    }
  }

  lemma RankedThroughRest(c: Config, r: State)
    requires Defined(c) && Ranked(c, r.crew)
    ensures Ranked(c, AbortAll(AfterActions(c, r)).crew)
  {
    var p := PhysicsStage(c, r);
    PhysicsStaysOutside(c, r);
    hide PhysicsStage, Defined;
    WalkKeepsRanks(c, DtMinutes(c), p);
    var w := AfterWalk(c, r);
    FollowKeepsRest(c, |w.actions|, Truncate(DtMinutes(c)), w);
    hide FollowUpTo, EvaStage, DtMinutes;
  }

  lemma WalkKeepsRanks(c: Config, dt: real, s: State)
    requires 0 < c.eva.maximum && Ranked(c, s.crew)
    ensures Ranked(c, EvaStage(c, dt, s).0.crew)
  {
    hide EvaStep, FirstOnEva;
  }

  // ---------- Whole steps and runs ----------

  lemma AbortKeepsAlive(c: Config, s: State)
    ensures Alive(c, AbortAll(s).crew) == Alive(c, s.crew)
  {
    var t := AbortAll(s);
    assert forall i | 0 <= i < |s.crew| :: OnEva(t.crew[i].eva) == OnEva(s.crew[i].eva);
    assert forall i | 0 <= i < |s.crew| :: t.crew[i].physical == s.crew[i].physical;
  }

  lemma AbortKeepsEnded(c: Config, r: State, s: State)
    requires PaidFor(c, r, s)
    ensures PaidFor(c, r, AbortAll(s))
  {
    if s.solarFault != r.solarFault {
      var w: nat :| HasEnded(r.crew, s.crew, w);
      assert HasEnded(r.crew, AbortAll(s).crew, w);
    }
  }

  lemma WalkedIsOrderly(c: Config, plan: Plan, r: State)
    requires OneWalk(c, plan) && Orderly(c, plan, true, r) && Able(r.crew)
    ensures var w := AfterWalk(c, r);
      && Orderly(c, plan, Alive(c, w.crew), w) && PaidFor(c, r, w) && (w.solarFault != r.solarFault ==> r.eva.progress == 1.0)
      && |w.crew| == |r.crew|
  {
    var p := PhysicsStage(c, r);
    PhysicsStaysOutside(c, r);
    hide PhysicsStage, Orderly, EvaStep, FirstOnEva, OneRepair, ValidEva, Alive, FullTime, EvaStage;
    SameWalkIsOrderly(c, plan, true, r, p);
    WalkIsOrderly(c, plan, p);
    assert DtMinutes(c) == 1.0;
  }

  lemma EndIsOrderly(c: Config, plan: Plan, r: State, w: State)
    requires OneWalk(c, plan) && Orderly(c, plan, Alive(c, w.crew), w) && PaidFor(c, r, w)
    ensures var f := FollowAll(c, 1, w).state;
      && Orderly(c, plan, Alive(c, AbortAll(f).crew), AbortAll(f)) && PaidFor(c, r, AbortAll(f))
      && AbortAll(f).solarFault == w.solarFault && |AbortAll(f).crew| == |w.crew|
  {
    hide Orderly, OneRepair, Alive, FullTime, HasEnded;
    var f := FollowAll(c, 1, w).state;
    FollowIsOrderly(c, plan, Alive(c, w.crew), w, 1);
    FollowKeepsRest(c, |w.actions|, 1, w);
    hide FollowUpTo;
    AbortIsOrderly(c, plan, Alive(c, f.crew), f);
    AbortKeepsAlive(c, f);
    AbortKeepsEnded(c, r, f);
  }

  lemma RestIsOrderly(c: Config, plan: Plan, r: State)
    requires OneWalk(c, plan) && Orderly(c, plan, true, r) && Able(r.crew)
    ensures var t := AbortAll(AfterActions(c, r));
      && Orderly(c, plan, Alive(c, t.crew), t)
      && PaidFor(c, r, t) && (t.solarFault != r.solarFault ==> r.eva.progress == 1.0) && |t.crew| == |r.crew|
  {
    assert DtMinutes(c) == 1.0 && Truncate(1.0) == 1;
    hide AfterWalk, Orderly, OneRepair, Alive, PaidFor, FollowAll, DtMinutes;
    WalkedIsOrderly(c, plan, r);
    EndIsOrderly(c, plan, r, AfterWalk(c, r));
  }

  lemma MarginIsRead(c: Config, s: State)
    requires Defined(c)
    ensures Read(c, s).evaMargin == EvaMargin(c, s) == EvaMargin(c, AbortAll(s))
  {
    hide CallBackAll, AnyMustReturn;
  }

  lemma BackInTimeAfter(c: Config, plan: Plan, r: State, x: Stepped)
    requires OneWalk(c, plan) && MustReturnInTime(c)
    requires x.state == AbortAll(AfterActions(c, r)) && Orderly(c, plan, Alive(c, x.state.crew), x.state)
    requires x.sample.telemetry == Read(c, AfterActions(c, r))
    requires x.sample.mission.violated == Reasons(c, x.state, x.sample.telemetry)
    ensures BackInTime(c, x)
  {
    var f := AfterActions(c, r);
    MarginIsRead(c, f);
    hide Orderly, AfterActions, OneRepair, MustReturnInTime, Reasons, Alive, Read, AbortAll, EvaMargin, Defined;
    OrderlyIsSafe(c, plan, Alive(c, x.state.crew), x.state);
    ReasonsWithoutMargin(c, x.state, x.sample.telemetry);
  }

  // A restored array was paid for in the step that began before the scheduling.
  lemma PaidFromStart(c: Config, s: State, a: State, r: State, t: State)
    requires PaidFor(c, r, t) && (t.solarFault != r.solarFault ==> r.eva.progress == 1.0)
    requires SameWalk(s, a) || a.eva.progress == 0.0
    requires SameWalk(a, r) && s.solarFault == r.solarFault
    ensures PaidFor(c, s, t)
  {
    if t.solarFault != s.solarFault {
      var w: nat :| HasEnded(r.crew, t.crew, w);
      assert HasEnded(s.crew, t.crew, w);
    }
  }

  lemma StepIsOrderly(c: Config, plan: Plan, s: State, held: real)
    requires OneWalk(c, plan) && |s.crew| == |c.roster| && Step(c, plan, s, held).Ok? && Orderly(c, plan, true, s)
    ensures var x := Step(c, plan, s, held).value;
      && (Reasons(c, x.state, x.sample.telemetry) == [] ==> Orderly(c, plan, true, x.state))
      && (MustReturnInTime(c) ==> BackInTime(c, x)) && PaidFor(c, s, x.state)
      && |x.state.crew| == |c.roster|
  {
    var a, r := StepStages(c, plan, s, held);
    var x := Step(c, plan, s, held).value;
    hide Step;
    ScheduledIsOrderly(c, plan, s, |plan|);
    ScheduledWalk(c, plan, s, |plan|);
    CrewStageMovesNobody(c, a, r);
    CrewStageRanks(c, a, r);
    SameWalkIsOrderly(c, plan, true, a, r);
    hide CrewStage, ApplyUpTo, SamePlaces;
    RestIsOrderly(c, plan, r);
    RankedThroughRest(c, r);
    hide Orderly, AfterActions, AbortAll, Read, Reasons, BackInTime, MustReturnInTime, Alive, Ranked, PaidFor, SameBodies;
    PaidFromStart(c, s, a, r, x.state);
    if Reasons(c, x.state, x.sample.telemetry) == [] {
      GoingOnIsAlive(c, x.state, x.sample.telemetry);
    }
    if MustReturnInTime(c) {
      BackInTimeAfter(c, plan, r, x);
    }
  }

  lemma InitialIsOrderly(c: Config, plan: Plan)
    requires OneWalk(c, plan) && Initial(c).Ok?
    ensures Orderly(c, plan, true, Initial(c).value) && |Initial(c).value.crew| == |c.roster|
  {
    var s := Initial(c).value;
    forall i | 0 <= i < |s.crew|
      ensures s.crew[i].eva == EvaStatus.Idle
    {
      assert c.roster[i] in c.roster;
      assert InitialMember(c.vital, c.roster[i]) == Ok(s.crew[i]);
    }
    hide Out, InitialCrew;
    assert AtHome(s);
  }

  lemma TickIsOrderly(c: Config, plan: Plan, s: State)
    requires 0 < c.eva.maximum && Orderly(c, plan, true, s)
    ensures Orderly(c, plan, true, Tick(c, s))
  {
    SameWalkIsOrderly(c, plan, true, s, Tick(c, s));
  }

  /** The invariant over whole runs: as long as a run goes on, nobody has been out, or one
      walker keeps the account. */
  lemma {:induction false} RunIsOrderly(c: Config, plan: Plan, h: seq<Stepped>)
    requires OneWalk(c, plan) && IsRun(c, plan, h)
    ensures NextState(c, h).Ok? && (h != [] ==> GoesOn(c, h[|h| - 1])) ==>
      Orderly(c, plan, true, NextState(c, h).value) && |NextState(c, h).value.crew| == |c.roster|
    ensures h != [] ==>
      var x := h[|h| - 1];
      && (MustReturnInTime(c) ==> BackInTime(c, x))
      && NextState(c, h[..|h| - 1]).Ok? && PaidFor(c, NextState(c, h[..|h| - 1]).value, x.state)
  {
    hide Orderly, BackInTime, OneRepair, ValidEva, MustReturnInTime, Step, PaidFor;
    if h == [] {
      if Initial(c).Ok? {
        InitialIsOrderly(c, plan);
      }
    } else {
      var g, x := h[..|h| - 1], h[|h| - 1];
      RunIsOrderly(c, plan, g);
      StepIsOrderly(c, plan, NextState(c, g).value, NextHeld(g));
      StabilizationRun.StepIsJudged(c, plan, g, x);
      hide StabilizationRun.Good, Reasons, DtMinutes, NextHeld;
      if GoesOn(c, x) {
        TickIsOrderly(c, plan, x.state);
      }
    }
  }

  /** The EVA return bound over whole runs, whatever the crew's health, the rover
      delays and the other actions: where the condition of the bound holds, no step ends
      with the reserve touched or with a walker outward and the safe-return margin
      negative, and the failure reason for it never occurs. */
  lemma {:induction false} EvaReturnsInRun(c: Config, plan: Plan, h: seq<Stepped>)
    requires OneWalk(c, plan) && MustReturnInTime(c) && IsRun(c, plan, h)
    ensures forall x | x in h :: BackInTime(c, x)
  {
    hide BackInTime, OneWalk, MustReturnInTime, Step, GoesOn, PaidFor;
    if h != [] {
      EvaReturnsInRun(c, plan, h[..|h| - 1]);
      RunIsOrderly(c, plan, h);
    }
  }

  /** A solar array restored in a run has cost an EVA the full time of all phases, and the
      step that restores it ends that EVA with the work complete. */
  lemma RepairsTakeFullTimeInRun(c: Config, plan: Plan, h: seq<Stepped>, k: nat)
    requires OneWalk(c, plan) && IsRun(c, plan, h) && k < |h|
    ensures NextState(c, h[..k]).Ok? && PaidFor(c, NextState(c, h[..k]).value, h[k].state)
  {
    assert Defined(c);
    hide IsRun, PaidFor, OneWalk, Step, GoesOn, BackInTime;
    StabilizationRun.PrefixIsRun(c, plan, h, k + 1);
    assert h[..k + 1][..k] == h[..k];
    RunIsOrderly(c, plan, h[..k + 1]);
  }
}
