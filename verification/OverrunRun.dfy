// An overrun inside a run: for every EVA configuration and abort fraction that miss the
// condition of the return bound there is a valid scenario, a valid plan and a run in
// which the walker touches the reserve. Everything in the scenario but the EVA is at rest.
module OverrunRun {
  import opened Wrappers
  import opened Scenario
  import opened MathUtils
  import opened CrewPhysiology
  import opened Resources
  import opened Actions
  import opened EvaMachine
  import opened EvaReturn
  import opened EvaBound
  import opened EvaOverrun
  import opened Evaluation
  import opened SimulationRun
  import opened QuietHabitat
  import EvaRun
  import StabilizationRun

  // ---------- The step ----------

  predicate AllRepairs(actions: seq<Record>) {
    forall i | 0 <= i < |actions| :: actions[i].kind == RepairSolarArray
  }

  // The parameters of the witness: performance slow enough, the condition missed.
  predicate Chosen(e: EvaConfig, abort: real, performance: real) {
    && ValidEva(e) && e.available && Startable(e) && 0.0 <= abort < 1.0
    && SlowEnough(e, abort, performance) && Fails(e, abort)
  }

  // Everything at rest but the walker, who is n minutes out.
  predicate Abroad(e: EvaConfig, abort: real, performance: real, n: nat, s: State)
    requires 0 < e.maximum
  {
    AtRest(s) && s.time == n && s.rover.available && AllRepairs(s.actions) && Strays(e, abort, performance, n, SuitOf(s, 0))
  }

  // Before the first step.
  predicate Fresh(s: State) {
    && AtRest(s) && s.time == 0 && s.actions == [] && s.rover == Rover(100.0, true, 0) && s.eva == Eva(0, 0, 0.0)
    && s.crew[0].eva == EvaStatus.Idle && s.crew[0].health == Health.Nominal
  }

  lemma FirstSchedule(e: EvaConfig, abort: real, performance: real, s: State)
    requires Chosen(e, abort, performance) && Fresh(s)
    ensures Abroad(e, abort, performance, 0, ApplyScheduled(RestScenario(e, abort, performance), [REPAIR], s).state)
  {
    var c := RestScenario(e, abort, performance);
    StartStrays(e, abort, performance);
    assert s.crew[..0] == [] && c.roster[..0] == [];
    assert FindCrew(s.crew, WALKER) == Some(0) && FindMember(c.roster, WALKER) == Some(REST_MEMBER);
    hide Strays, SlowEnough, Fails;
    assert Walker(c, REPAIR, s) == Some(0);
    assert Due([REPAIR], 0, s);
    var t := Start(c, REPAIR, 0, s).state;
    assert SuitOf(t, 0) == START;
    assert ApplyUpTo(c, [REPAIR], 0, s).state == s;
    assert ApplyUpTo(c, [REPAIR], 1, s).state == t by { hide Start; }
  }

  lemma LaterSchedule(c: Config, s: State)
    requires s.time != 0
    ensures ApplyScheduled(c, [REPAIR], s).state == s
  {
    assert ApplyUpTo(c, [REPAIR], 0, s).state == s;
  }

  lemma CrewAtRest(e: EvaConfig, abort: real, performance: real, s: State)
    requires ValidEva(e) && e.available && 0.0 <= abort < performance <= 1.0 && AtRest(s)
    ensures var c := RestScenario(e, abort, performance);
      && Defined(c) && |c.roster| == 1
      && var r := CrewStage(c, s);
      && r.Ok? && r.value == s.(crew := r.value.crew) && AtRest(r.value)
      && r.value.crew[0].eva == s.crew[0].eva && r.value.crew[0].activity == s.crew[0].activity
      && r.value.crew[0].physical == performance
      && (r.value.crew[0].health == Health.Critical ==> EvaMargin(c, s) < 0)
  {
    var c := RestScenario(e, abort, performance);
    ReadAtRest(e, abort, performance, s);
    RestParts(e, abort, performance);
    var env := EnvOf(Read(c, s));
    MemberAtRest(e, abort, performance, env, s.crew[0]);
    hide Read, MemberStage, RestScenario;
    assert CrewUpTo(c, env, s.temperature, s.crew, 0) == Ok(s.crew);
  }

  // The health rule has no say over an ingress.
  lemma CriticalIngress(e: EvaConfig, x: Suit, critical: bool, performance: real)
    requires 0 < e.maximum && (critical ==> x.status == Ingress)
    ensures EvaStep(e, 1.0, x, critical, performance) == EvaStep(e, 1.0, x, false, performance)
    ensures critical ==> !Outward(EvaStep(e, 1.0, x, critical, performance).suit.status)
  {
    hide Drain, Progress;
  }

  lemma StepIsEvaWork(e: EvaConfig, x: Suit, performance: real)
    requires 0 < e.maximum && x.activity != OutOfAction
    ensures EvaStep(e, 1.0, x, false, performance).suit.activity != OutOfAction
    ensures Advance(e, x.(rover := x.rover.(available := true)), EvaOverrun.Steady(performance))
         == EvaStep(e, 1.0, x.(rover := x.rover.(available := true)), false, performance).suit
    ensures EvaStep(e, 1.0, x, false, performance).suit.rover.available == x.rover.available
  {
    hide Drain, Progress;
    assert Drain(e, 1.0, x.rover).available == x.rover.available by { DrainKeeps(e, x.rover); }
  }

  lemma DrainKeeps(e: EvaConfig, rover: Rover)
    requires 0 < e.maximum
    ensures Drain(e, 1.0, rover).available == rover.available
  {
  }

  // Outside the margin a stray is already on the way back.
  lemma StrayInMargin(e: EvaConfig, abort: real, performance: real, n: nat, x: Suit)
    requires ValidEva(e) && 0.0 <= abort && Strays(e, abort, performance, n, x) && Room(e) < n
    ensures x.status == Ingress
  {
    TurnIsInside(e, abort);
    hide LatestTurn, Low;
  }

  // A stray on the way out still has the margin.
  lemma StrayHasRoom(e: EvaConfig, abort: real, performance: real, n: nat, x: Suit)
    requires ValidEva(e) && 0.0 <= abort && Strays(e, abort, performance, n, x)
    ensures OnEva(x.status) && x.eva.elapsed == n && (Outward(x.status) ==> n <= Room(e))
  {
    TurnIsInside(e, abort);
    hide LatestTurn, Low, OnTrack;
  }

  lemma WalkerAdvances(e: EvaConfig, abort: real, performance: real, n: nat, x: Suit, critical: bool)
    requires ValidEva(e) && 0.0 <= abort && Strays(e, abort, performance, n, x) && x.activity != OutOfAction
    requires x.rover.available && (critical ==> Room(e) < n)
    ensures OnEva(x.status)
    ensures var y := EvaStep(e, 1.0, x, critical, performance).suit;
      && y == Advance(e, x, EvaOverrun.Steady(performance)) && y.rover.available && y.activity != OutOfAction
      && (critical ==> !Outward(y.status))
  {
    if critical {
      StrayInMargin(e, abort, performance, n, x);
    }
    StrayHasRoom(e, abort, performance, n, x);
    hide EvaStep, Advance, Strays;
    CriticalIngress(e, x, critical, performance);
    StepIsEvaWork(e, x, performance);
    assert x.(rover := x.rover.(available := true)) == x;
  }

  lemma WalkAtRest(e: EvaConfig, abort: real, performance: real, n: nat, s: State)
    requires Chosen(e, abort, performance) && Abroad(e, abort, performance, n, s) && s.crew[0].physical == performance
    requires s.crew[0].health == Health.Critical ==> Room(e) < n
    ensures var c := RestScenario(e, abort, performance);
      && var w := EvaStage(c, 1.0, s).0;
      && AtRest(w) && w.time == n && w.rover.available && w.actions == s.actions
      && SuitOf(w, 0) == Advance(e, SuitOf(s, 0), EvaOverrun.Steady(performance))
      && w.crew[0].health == s.crew[0].health
      && (w.crew[0].health == Health.Critical ==> !Outward(w.crew[0].eva))
  {
    var c := RestScenario(e, abort, performance);
    RestParts(e, abort, performance);
    assert c.repairedSolarFault == 1.0;
    ChosenParts(e, abort, performance);
    hide EvaStep, EvaStage, Advance, RestScenario, Strays, Chosen, Outward, ValidEva, Fails, SlowEnough;
    var x, critical := SuitOf(s, 0), s.crew[0].health == Health.Critical;
    WalkerAdvances(e, abort, performance, n, x, critical);
    LoneWalk(c, s);
    StaysAtRest(s, EvaStep(e, 1.0, x, critical, performance).suit);
    hide AtRest;
  }

  // The walk of the only member.
  lemma LoneWalk(c: Config, s: State)
    requires 0 < c.eva.maximum && |s.crew| == 1 && OnEva(s.crew[0].eva) && c.repairedSolarFault == s.solarFault
    ensures var x := EvaStep(c.eva, 1.0, SuitOf(s, 0), s.crew[0].health == Health.Critical, s.crew[0].physical).suit;
      EvaStage(c, 1.0, s).0 == WithSuit(s, 0, x)
  {
    assert FirstOnEva(s.crew) == Some(0) by { assert s.crew[..0] == []; }
    hide EvaStep, FirstOnEva;
  }

  lemma StaysAtRest(s: State, x: Suit)
    requires AtRest(s) && x.activity != OutOfAction
    ensures AtRest(WithSuit(s, 0, x)) && SuitOf(WithSuit(s, 0, x), 0) == x
  {
  }

  lemma RepairKeepsState(c: Config, s: State, r: Record, minutes: int)
    requires r.kind == RepairSolarArray
    ensures Follow(c, s, r, minutes).state == s && Follow(c, s, r, minutes).record.kind == RepairSolarArray
  {
    hide FindCrew;
  }

  lemma {:induction false} RepairsOnly(c: Config, s: State, n: nat, minutes: int)
    requires n <= |s.actions| && AllRepairs(s.actions)
    ensures var t := FollowUpTo(c, n, minutes, s).state;
      AllRepairs(t.actions) && t == s.(actions := t.actions)
  {
    if n > 0 {
      RepairsOnly(c, s, n - 1, minutes);
      var e := FollowUpTo(c, n - 1, minutes, s);
      RepairKeepsState(c, e.state, e.state.actions[n - 1], minutes);
      hide Follow;
    }
  }

  lemma NobodyCalledBack(s: State)
    requires |s.crew| == 1 && (s.crew[0].health == Health.Critical ==> !Outward(s.crew[0].eva))
    ensures AbortAll(s) == s
  {
    assert CallBackAll(s.crew) == s.crew;
  }

  lemma RestOfStep(e: EvaConfig, abort: real, performance: real, n: nat, r: State)
    requires Chosen(e, abort, performance) && Abroad(e, abort, performance, n, r) && r.crew[0].physical == performance
    requires r.crew[0].health == Health.Critical ==> Room(e) < n
    ensures var c := RestScenario(e, abort, performance);
      && Defined(c)
      && var f := AfterActions(c, r);
      && AbortAll(f) == f && AtRest(f) && f.time == n && f.rover.available && AllRepairs(f.actions)
      && SuitOf(f, 0) == Advance(e, SuitOf(r, 0), EvaOverrun.Steady(performance))
  {
    var c := RestScenario(e, abort, performance);
    PhysicsAtRest(e, abort, performance, r);
    RestParts(e, abort, performance);
    var p := PhysicsStage(c, r);
    assert Abroad(e, abort, performance, n, p) by { hide Strays, PhysicsStage, RestScenario; }
    WalkAtRest(e, abort, performance, n, p);
    var w := EvaStage(c, 1.0, p).0;
    assert DtMinutes(c) == 1.0 && Truncate(1.0) == 1;
    hide PhysicsStage, EvaStage, Advance, Strays, RestScenario, Chosen, RestMember, AllZero;
    assert w == AfterWalk(c, r);
    RepairsOnly(c, w, |w.actions|, 1);
    hide FollowUpTo, AllRepairs;
    NobodyCalledBack(AfterActions(c, r));
  }

  // ---------- The evaluation ----------

  lemma NothingFails(e: EvaConfig, abort: real, performance: real, s: State)
    requires ValidEva(e) && e.available && 0.0 <= abort <= 1.0 && AtRest(s)
    requires Outward(s.crew[0].eva) ==> s.eva.elapsed <= Room(e)
    ensures var c := RestScenario(e, abort, performance);
      Defined(c) && Reasons(c, s, Read(c, s)) == []
  {
    var c := RestScenario(e, abort, performance);
    ReadAtRest(e, abort, performance, s);
    RestParts(e, abort, performance);
    assert c.batteryReserve == 0.0 && c.repairedSolarFault == 1.0;
    var t := Read(c, s);
    assert EvaMargin(c, s) == Room(e) - s.eva.elapsed;
    hide Read, RestScenario;
    assert s.crew[..0] == [];
    assert CrewReasons(s.crew, t) == CrewReasons([], t) + MemberReasons(s.crew[0], t);
    assert MemberReasons(s.crew[0], t) == [];
    assert s.crew[0] in s.crew;
    assert HabitatReasons(c, s, t) == [];
  }

  lemma Continues(c: Config, r: State, held: real, before: seq<EventKind>)
    requires Defined(c) && Reasons(c, AbortAll(AfterActions(c, r)), Read(c, AfterActions(c, r))) == []
    requires held + 1.0 < c.stabilizationHold as real && 0.0 <= held && DtMinutes(c) == 1.0
    ensures var x := Finish(c, r, held, before);
      x.verdict == Continue && 0.0 <= x.sample.mission.heldMinutes <= held + 1.0
  {
    FinishStages(c, r, held, before);
    StabilizationRun.FinishIsJudged(c, r, held, before);
    hide Finish, AfterActions, AbortAll, Read, Reasons, StabilizationRun.Good, DtMinutes, Defined;
    var x := Finish(c, r, held, before);
    assert x.verdict != Failure && x.verdict != Stabilized;
  }

  // ---------- The run ----------

  // Where the n-th step starts.
  predicate Present(e: EvaConfig, abort: real, performance: real, n: nat, s: State)
    requires 0 < e.maximum
  {
    if n == 0 then Fresh(s) else Abroad(e, abort, performance, n, s)
  }

  lemma ScheduleAbroad(e: EvaConfig, abort: real, performance: real, n: nat, s: State)
    requires Chosen(e, abort, performance) && Present(e, abort, performance, n, s)
    ensures Abroad(e, abort, performance, n, ApplyScheduled(RestScenario(e, abort, performance), [REPAIR], s).state)
  {
    if n == 0 {
      FirstSchedule(e, abort, performance, s);
    } else {
      LaterSchedule(RestScenario(e, abort, performance), s);
    }
  }

  lemma CrewAbroad(e: EvaConfig, abort: real, performance: real, n: nat, a: State)
    requires Chosen(e, abort, performance) && Abroad(e, abort, performance, n, a)
    ensures var c := RestScenario(e, abort, performance);
      && Defined(c) && |c.roster| == |a.crew| == 1
      && var r := CrewStage(c, a);
      && r.Ok? && Abroad(e, abort, performance, n, r.value) && r.value.crew[0].physical == performance
      && (r.value.crew[0].health == Health.Critical ==> Room(e) < n)
  {
    CrewAtRest(e, abort, performance, a);
    RestParts(e, abort, performance);
    var c := RestScenario(e, abort, performance);
    assert a.eva.elapsed == n && EvaMargin(c, a) == Room(e) - n by { hide LatestTurn, Low, OnTrack; }
    assert SuitOf(CrewStage(c, a).value, 0) == SuitOf(a, 0) by { hide CrewStage; }
    hide Strays, CrewStage, RestScenario;
  }

  lemma FinishMoves(e: EvaConfig, abort: real, performance: real, n: nat, r: State)
    requires Chosen(e, abort, performance) && Abroad(e, abort, performance, n, r) && r.crew[0].physical == performance
    requires (r.crew[0].health == Health.Critical ==> Room(e) < n) && n <= e.maximum - e.reserve
    ensures var c := RestScenario(e, abort, performance);
      && Defined(c)
      && var f := AfterActions(c, r);
      && AbortAll(f) == f && AtRest(f) && f.time == n && f.rover.available && AllRepairs(f.actions)
      && f.eva.elapsed == n + 1
      && (n < e.maximum - e.reserve ==> Strays(e, abort, performance, n + 1, SuitOf(f, 0)))
  {
    RestOfStep(e, abort, performance, n, r);
    ChosenParts(e, abort, performance);
    hide Strays, Advance, AfterActions, AbortAll, Chosen, AllRepairs, RestScenario, RestMember, AllZero, Fails, SlowEnough;
    var x := SuitOf(r, 0);
    WalkerMoves(e, abort, performance, n, x);
    var f := AfterActions(RestScenario(e, abort, performance), r);
    assert f.eva == SuitOf(f, 0).eva;
  }

  lemma WalkerMoves(e: EvaConfig, abort: real, performance: real, n: nat, x: Suit)
    requires ValidEva(e) && 0.0 <= abort && SlowEnough(e, abort, performance) && Fails(e, abort)
    requires Strays(e, abort, performance, n, x)
    ensures var y := Advance(e, x, EvaOverrun.Steady(performance));
      y.eva.elapsed == n + 1 && (n < e.maximum - e.reserve ==> Strays(e, abort, performance, n + 1, y))
  {
    hide Strays, Advance, Fails, SlowEnough;
    StrayHasRoom(e, abort, performance, n, x);
    LastMinuteCounts(e, x, performance);
    if n < e.maximum - e.reserve {
      StrayOn(e, abort, performance, n, x);
    }
  }

  lemma FinishAbroad(e: EvaConfig, abort: real, performance: real, n: nat, r: State)
    requires Chosen(e, abort, performance) && Abroad(e, abort, performance, n, r) && r.crew[0].physical == performance
    requires (r.crew[0].health == Health.Critical ==> Room(e) < n) && n <= e.maximum - e.reserve
    ensures var c := RestScenario(e, abort, performance);
      && Defined(c)
      && var f := AfterActions(c, r);
      && AbortAll(f) == f && f.eva.elapsed == n + 1
      && (n < e.maximum - e.reserve ==>
            Abroad(e, abort, performance, n + 1, Tick(c, f)) && Reasons(c, f, Read(c, f)) == [])
  {
    hide Strays, Abroad, AfterActions, AbortAll, Reasons, Read, Chosen, AllRepairs, RestScenario, AtRest, Defined, Tick;
    FinishMoves(e, abort, performance, n, r);
    if n < e.maximum - e.reserve {
      GoesAbroad(e, abort, performance, n + 1, AfterActions(RestScenario(e, abort, performance), r));
    }
  }

  lemma GoesAbroad(e: EvaConfig, abort: real, performance: real, n: nat, f: State)
    requires Chosen(e, abort, performance) && AtRest(f) && f.time + 1 == n && f.rover.available && AllRepairs(f.actions)
    requires Strays(e, abort, performance, n, SuitOf(f, 0))
    ensures var c := RestScenario(e, abort, performance);
      Defined(c) && Abroad(e, abort, performance, n, Tick(c, f)) && Reasons(c, f, Read(c, f)) == []
  {
    ChosenParts(e, abort, performance);
    StrayHasRoom(e, abort, performance, n, SuitOf(f, 0));
    hide Strays, Chosen, Reasons, Read, RestMember, AllZero, AllRepairs, Outward;
    NothingFails(e, abort, performance, f);
    TickAbroad(e, abort, performance, n, f);
    hide Abroad, Tick, RestScenario;
  }

  lemma TickAbroad(e: EvaConfig, abort: real, performance: real, n: nat, f: State)
    requires 0 < e.maximum && AtRest(f) && f.time + 1 == n && f.rover.available && AllRepairs(f.actions)
    requires Strays(e, abort, performance, n, SuitOf(f, 0))
    ensures Abroad(e, abort, performance, n, Tick(RestScenario(e, abort, performance), f))
  {
    hide Strays, RestMember, AllZero, AllRepairs;
    assert SuitOf(Tick(RestScenario(e, abort, performance), f), 0) == SuitOf(f, 0);
  }

  lemma ChosenParts(e: EvaConfig, abort: real, performance: real)
    requires Chosen(e, abort, performance)
    ensures ValidEva(e) && e.available && 0.0 <= abort < 1.0 && SlowEnough(e, abort, performance) && Fails(e, abort)
  {
  }

  lemma StepAbroad(e: EvaConfig, abort: real, performance: real, n: nat, s: State, held: real)
    requires Chosen(e, abort, performance) && Present(e, abort, performance, n, s) && |s.crew| == 1
    requires n <= e.maximum - e.reserve && 0.0 <= held <= n as real
    ensures var c := RestScenario(e, abort, performance);
      && Defined(c) && |c.roster| == 1
      && var r := Step(c, [REPAIR], s, held);
      && r.Ok? && r.value.state.eva.elapsed == n + 1
      && (n < e.maximum - e.reserve ==>
            && GoesOn(c, r.value) && Present(e, abort, performance, n + 1, Tick(c, r.value.state))
            && 0.0 <= r.value.sample.mission.heldMinutes <= (n + 1) as real)
  {
    var c := RestScenario(e, abort, performance);
    RestParts(e, abort, performance);
    ScheduleAbroad(e, abort, performance, n, s);
    var a := ApplyScheduled(c, [REPAIR], s);
    CrewAbroad(e, abort, performance, n, a.state);
    var r := CrewStage(c, a.state).value;
    FinishAbroad(e, abort, performance, n, r);
    var before := a.events + Transitions(a.state.crew, r.crew, |r.crew|);
    FinishStages(c, r, held, before);
    if n < e.maximum - e.reserve {
      Continues(c, r, held, before);
    }
    hide Finish, CrewStage, ApplyUpTo, Transitions, AfterActions, AbortAll, Reasons, Read, Strays, AtRest, Fresh;
  }

  lemma BeginsFresh(e: EvaConfig, abort: real, performance: real)
    ensures var c := RestScenario(e, abort, performance);
      Initial(c).Ok? && Fresh(Initial(c).value)
  {
    var c := RestScenario(e, abort, performance);
    RestParts(e, abort, performance);
    ProfileAtRest(c.vital, abort, performance, Resting);
    hide FindProfile, RestProfiles;
    assert c.roster[..0] == [];
    assert InitialCrew(c.vital, []) == Ok([]);
  }

  // A run of n steps that goes on, with the walker n minutes out.
  predicate Reached(e: EvaConfig, abort: real, performance: real, n: nat, c: Config, h: seq<Stepped>)
    requires 0 < e.maximum
  {
    && Defined(c) && |c.roster| == 1 && |h| == n && IsRun(c, [REPAIR], h) && (n > 0 ==> GoesOn(c, h[n - 1]))
    && NextState(c, h).Ok? && Present(e, abort, performance, n, NextState(c, h).value)
    && 0.0 <= NextHeld(h) <= n as real
  }

  lemma ReachedAtFirst(e: EvaConfig, abort: real, performance: real)
    requires Chosen(e, abort, performance)
    ensures Reached(e, abort, performance, 0, RestScenario(e, abort, performance), [])
  {
    ScenarioIsValid(e, abort, performance);
    RestParts(e, abort, performance);
    BeginsFresh(e, abort, performance);
    hide RestScenario, Defined, Fresh, Initial;
  }

  lemma StepFromReached(e: EvaConfig, abort: real, performance: real, n: nat, g: seq<Stepped>)
    requires Chosen(e, abort, performance) && n <= e.maximum - e.reserve
    requires Reached(e, abort, performance, n, RestScenario(e, abort, performance), g)
    ensures var c := RestScenario(e, abort, performance);
      && Defined(c) && NextState(c, g).Ok? && |NextState(c, g).value.crew| == |c.roster|
      && var r := Step(c, [REPAIR], NextState(c, g).value, NextHeld(g));
      && r.Ok? && r.value.state.eva.elapsed == n + 1
      && (n < e.maximum - e.reserve ==>
            && GoesOn(c, r.value) && Present(e, abort, performance, n + 1, Tick(c, r.value.state))
            && 0.0 <= r.value.sample.mission.heldMinutes <= (n + 1) as real)
  {
    var c := RestScenario(e, abort, performance);
    assert Present(e, abort, performance, n, NextState(c, g).value) by { hide Present, IsRun; }
    assert |NextState(c, g).value.crew| == 1 by { hide Strays, IsRun, RestMember, RestScenario; }
    hide Step, RestScenario, GoesOn, Chosen, Present, IsRun, NextState, NextHeld, Tick;
    StepAbroad(e, abort, performance, n, NextState(c, g).value, NextHeld(g));
  }

  lemma AddStep(e: EvaConfig, abort: real, performance: real, n: nat, g: seq<Stepped>) returns (h: seq<Stepped>)
    requires Chosen(e, abort, performance) && n <= e.maximum - e.reserve
    requires Reached(e, abort, performance, n, RestScenario(e, abort, performance), g)
    ensures var c := RestScenario(e, abort, performance);
      && Defined(c) && |h| == n + 1 && IsRun(c, [REPAIR], h) && h[n].state.eva.elapsed == n + 1
      && (n < e.maximum - e.reserve ==> Reached(e, abort, performance, n + 1, c, h))
  {
    hide Step, RestScenario, GoesOn, Chosen, Present, Initial, Defined;
    var c := RestScenario(e, abort, performance);
    StepFromReached(e, abort, performance, n, g);
    h := g + [Step(c, [REPAIR], NextState(c, g).value, NextHeld(g)).value];
    assert h[..n] == g;
  }

  // The run up to the reserve.
  lemma {:induction false} RunAbroad(e: EvaConfig, abort: real, performance: real, n: nat) returns (h: seq<Stepped>)
    requires Chosen(e, abort, performance) && n <= e.maximum - e.reserve
    ensures Reached(e, abort, performance, n, RestScenario(e, abort, performance), h)
  {
    hide RestScenario, Chosen, Reached;
    if n == 0 {
      h := [];
      ReachedAtFirst(e, abort, performance);
    } else {
      var g := RunAbroad(e, abort, performance, n - 1);
      h := AddStep(e, abort, performance, n - 1, g);
    }
  }

  lemma OverrunAtRest(e: EvaConfig, abort: real, performance: real) returns (h: seq<Stepped>)
    requires Chosen(e, abort, performance)
    ensures var c := RestScenario(e, abort, performance);
      Defined(c) && IsRun(c, [REPAIR], h) && h != [] && !EvaRun.BackInTime(c, h[|h| - 1])
  {
    hide Chosen, Reached, IsRun, RestScenario, EvaRun.BackInTime, Defined;
    ChosenParts(e, abort, performance);
    RestParts(e, abort, performance);
    hide ValidEva, SlowEnough, Fails;
    ReserveFits(e);
    var n := e.maximum - e.reserve;
    var g := RunAbroad(e, abort, performance, n);
    h := AddStep(e, abort, performance, n, g);
    TouchesReserve(RestScenario(e, abort, performance), h[n]);
  }

  lemma ReserveFits(e: EvaConfig)
    requires ValidEva(e)
    ensures 0 < e.maximum && e.reserve <= e.maximum
  {
  }

  /** Where the condition of the return bound fails, a valid plan for a valid scenario
      with that EVA runs into the reserve. */
  lemma OverrunInRun(e: EvaConfig, abort: real) returns (c: Config, h: seq<Stepped>)
    requires ValidEva(e) && e.available && Startable(e) && 0.0 <= abort < 1.0 && !Returns(e, abort)
    ensures c.eva == e && c.vital.performanceAbort == abort && ValidScenario(c) && StrictLimits(c.limits)
    ensures ValidPlan(c, [REPAIR]) && EvaRun.OneWalk(c, [REPAIR])
    ensures IsRun(c, [REPAIR], h) && h != [] && !EvaRun.BackInTime(c, h[|h| - 1])
  {
    hide Chosen, IsRun, ValidScenario, ValidPlan, StrictLimits, RestScenario, Returns, EvaRun.BackInTime, Startable,
      EvaRun.OneRepair, ValidEva, Defined;
    var performance := SlowPerformance(e, abort);
    c := RestScenario(e, abort, performance);
    WitnessIsValid(e, abort, performance);
    h := OverrunAtRest(e, abort, performance);
  }

  lemma TouchesReserve(c: Config, x: Stepped)
    requires c.eva.maximum - c.eva.reserve < x.state.eva.elapsed
    ensures !EvaRun.BackInTime(c, x)
  {
  }

  lemma SlowPerformance(e: EvaConfig, abort: real) returns (performance: real)
    requires ValidEva(e) && e.available && Startable(e) && 0.0 <= abort < 1.0 && !Returns(e, abort)
    ensures Chosen(e, abort, performance)
  {
    FailsWithoutBound(e, abort);
    performance := SlowWalker(e, abort);
    hide Fails, SlowEnough, Returns;
  }

  lemma WitnessIsValid(e: EvaConfig, abort: real, performance: real)
    requires ValidEva(e) && e.available && 0.0 <= abort < 1.0
    ensures var c := RestScenario(e, abort, performance);
      && c.eva == e && c.vital.performanceAbort == abort && ValidScenario(c) && StrictLimits(c.limits)
      && ValidPlan(c, [REPAIR]) && EvaRun.OneWalk(c, [REPAIR])
  {
    ScenarioIsValid(e, abort, performance);
    PlanIsValid(e, abort, performance);
    hide ValidScenario, ValidPlan, Defined, RestVital, EvaRun.OneRepair;
    var c := RestScenario(e, abort, performance);
    assert c.roster == [REST_MEMBER];
  }

  // A run of a valid plan for a valid scenario with this EVA and this abort fraction.
  predicate Covers(e: EvaConfig, abort: real, c: Config, plan: Plan, h: seq<Stepped>) {
    && c.eva == e && c.vital.performanceAbort == abort && ValidScenario(c) && ValidPlan(c, plan)
    && EvaRun.OneWalk(c, plan) && IsRun(c, plan, h)
  }

  lemma CoveredReturns(e: EvaConfig, abort: real, c: Config, plan: Plan, h: seq<Stepped>)
    requires 0 < e.maximum && 0.0 <= abort && Returns(e, abort) && Covers(e, abort, c, plan, h)
    ensures forall x | x in h :: EvaRun.BackInTime(c, x)
  {
    hide IsRun, ValidScenario, ValidPlan, Returns, EvaRun.BackInTime;
    EvaRun.EvaReturnsInRun(c, plan, h);
  }

  lemma OverrunIsCovered(e: EvaConfig, abort: real) returns (c: Config, h: seq<Stepped>)
    requires ValidEva(e) && e.available && Startable(e) && 0.0 <= abort < 1.0 && !Returns(e, abort)
    ensures Covers(e, abort, c, [REPAIR], h) && h != [] && !EvaRun.BackInTime(c, h[|h| - 1])
  {
    hide IsRun, ValidScenario, ValidPlan, Returns, EvaRun.OneWalk, EvaRun.BackInTime, StrictLimits;
    c, h := OverrunInRun(e, abort);
  }

  /** The condition of the return bound is exact for whole runs of valid scenarios. */
  lemma RunsReturnExactly(e: EvaConfig, abort: real)
    requires ValidEva(e) && e.available && Startable(e) && 0.0 <= abort < 1.0
    ensures Returns(e, abort) <==>
      forall c: Config, plan: Plan, h: seq<Stepped> ::
        Covers(e, abort, c, plan, h) ==> forall x | x in h :: EvaRun.BackInTime(c, x)
  {
    hide Covers, Returns, EvaRun.BackInTime, Startable;
    if Returns(e, abort) {
      forall c: Config, plan: Plan, h: seq<Stepped> | Covers(e, abort, c, plan, h)
        ensures forall x | x in h :: EvaRun.BackInTime(c, x)
      {
        CoveredReturns(e, abort, c, plan, h);
      }
    } else {
      var c, h := OverrunIsCovered(e, abort);
      assert h[|h| - 1] in h;
    }
  }
}
