// The rover reservation of a delay over whole runs, and what it does to a repair
// that validation has accepted.
module RoverRun {
  import opened Wrappers
  import opened Scenario
  import opened Resources
  import opened Actions
  import EvaMachine
  import EvaRun
  import opened Evaluation
  import opened SimulationRun
  import opened ActionRun
  import StabilizationRun
  import RunResult
  import HabitatState
  import opened MathUtils

  // Plan action d is the only delay, and it can start.
  predicate OneDelay(plan: Plan, d: nat) {
    && d < |plan| && plan[d].kind == DelayRoverUse && 0 <= plan[d].start
    && DelayMinutes(plan[d]).Some? && 0 < DelayMinutes(plan[d]).value
    && forall k | 0 <= k < |plan| && plan[k].kind == DelayRoverUse :: k == d
  }

  // The minute at which the delay is over.
  function Until(plan: Plan, d: nat): int
    requires OneDelay(plan, d)
  {
    plan[d].start + DelayMinutes(plan[d]).value
  }

  /** The rover is held when action k of the plan has its turn at this minute: from
      the turn of the delay on, through the minute at which the delay is over. */
  predicate Held(plan: Plan, d: nat, k: nat, time: int)
    requires OneDelay(plan, d)
  {
    plan[d].start < time <= Until(plan, d) || (time == plan[d].start && d < k)
  }

  predicate RoverIs(s: State, held: bool, until: int) {
    if held then !s.rover.available && s.rover.reservedUntil == until
    else s.rover.available && s.rover.reservedUntil == 0
  }

  // The record of the delay, if there is one, is active exactly while the rover is held.
  predicate DelayIs(actions: seq<Record>, d: nat, held: bool) {
    forall i | 0 <= i < |actions| && actions[i].index == d :: actions[i].status == Active <==> held
  }

  predicate Kept(plan: Plan, d: nat, s: State, held: bool)
    requires OneDelay(plan, d)
  {
    RoverIs(s, held, Until(plan, d)) && DelayIs(s.actions, d, held)
  }

  // ---------- Scheduling ----------

  lemma OthersLeaveRover(c: Config, a: Action, k: nat, s: State)
    requires a.kind != DelayRoverUse
    ensures Start(c, a, k, s).state.rover == s.rover
  {
    if a.kind == ReducePowerLoad && a.percent.Some? {
      ShedLeavesRest(s, a.groups, a.percent.value / 100.0);
    }
    hide ShedAll, RationAll, FindCrew, FindMember, WindowOpen, Occupied;
  }

  lemma OthersKeep(c: Config, plan: Plan, d: nat, k: nat, s: State, held: bool)
    requires OneDelay(plan, d) && k < |plan| && k != d && Kept(plan, d, s, held)
    ensures Kept(plan, d, Start(c, plan[k], k, s).state, held)
  {
    OthersLeaveRover(c, plan[k], k, s);
    StartContained(c, plan[k], k, s);
    var t := Start(c, plan[k], k, s).state;
    hide Start, SameBodies, SameWalk, SendsOut, SamePhysics;
    assert forall i | 0 <= i < |s.actions| :: t.actions[i] == t.actions[..|s.actions|][i];
  }

  lemma DelayHolds(c: Config, plan: Plan, d: nat, s: State)
    requires OneDelay(plan, d) && s.time == plan[d].start && !HasStarted(s.actions, d)
    ensures Kept(plan, d, Start(c, plan[d], d, s).state, true)
  {
    hide Start;
    assert Start(c, plan[d], d, s) == StartDelay(plan[d], d, s) by { StartOfDelay(c, plan[d], d, s); }
  }

  lemma StartOfDelay(c: Config, a: Action, k: nat, s: State)
    requires a.kind == DelayRoverUse
    ensures Start(c, a, k, s) == StartDelay(a, k, s)
  {
    hide StartDelay;
  }

  // At this minute of the grid, before the turn of action n.
  predicate Turn(c: Config, plan: Plan, d: nat, n: nat, s: State, t: State)
    requires OneDelay(plan, d)
  {
    Scheduling(c, plan, n, s, t) && Kept(plan, d, t, Held(plan, d, n, s.time))
  }

  lemma TakeTurn(c: Config, plan: Plan, d: nat, n: nat, s: State, t: State)
    requires OneDelay(plan, d) && n < |plan| && Turn(c, plan, d, n, s, t)
    requires 0 <= s.time && StepMinutes(c) == 1
    ensures Turn(c, plan, d, n + 1, s, ApplyOne(c, plan, n, Effect(t, [])).state)
  {
    assert s.time % StepMinutes(c) == 0;
    ScheduleOne(c, plan, n, s, t);
    hide Kept, Start, RecordsOk, Evolves, CountersOk, Logs, HasStarted;
    assert HasStarted(t.actions, n) <==> Caught(c, plan, n, s.time - 1);
    if Due(plan, n, t) {
      if n == d {
        DelayHolds(c, plan, d, t);
      } else {
        OthersKeep(c, plan, d, n, t, Held(plan, d, n, s.time));
      }
    }
  }

  lemma {:induction false} TakeTurns(c: Config, plan: Plan, d: nat, n: nat, s: State)
    requires OneDelay(plan, d) && n <= |plan| && Turn(c, plan, d, 0, s, s) && 0 <= s.time && StepMinutes(c) == 1
    ensures Turn(c, plan, d, n, s, ApplyUpTo(c, plan, n, s).state)
  {
    hide Turn, Start, Due, OneDelay;
    if n > 0 {
      TakeTurns(c, plan, d, n - 1, s);
      TakeTurn(c, plan, d, n - 1, s, ApplyUpTo(c, plan, n - 1, s).state);
    }
  }

  // ---------- Following ----------

  lemma FollowNoDelay(c: Config, s: State, r: Record, minutes: int)
    requires r.kind != DelayRoverUse || r.status != Active
    ensures var f := Follow(c, s, r, minutes);
      f.state.rover == s.rover && (r.kind == DelayRoverUse ==> f.record == r) && f.record.index == r.index
  {
    hide FindCrew;
  }

  lemma FollowTheDelay(c: Config, s: State, r: Record, minutes: int)
    requires r.kind == DelayRoverUse && r.status == Active
    ensures var f := Follow(c, s, r, minutes);
      && f.record.index == r.index && f.record.kind == r.kind
      && (if s.time >= s.rover.reservedUntil then
            f.state.rover.available && f.state.rover.reservedUntil == 0 && f.record.status == ExecStatus.Complete
          else f.state.rover == s.rover && f.record.status == Active)
  {
  }

  // Whether the delay is among the first n records.
  predicate Passed(actions: seq<Record>, d: nat, n: nat) {
    exists i :: 0 <= i < n && i < |actions| && actions[i].index == d
  }

  // After following n records at this minute.
  predicate Trail(plan: Plan, d: nat, held: bool, n: nat, s: State, t: State)
    requires OneDelay(plan, d)
  {
    && Following(plan, s, t)
    && Kept(plan, d, t, held && !(s.time >= Until(plan, d) && Passed(s.actions, d, n)))
  }

  lemma FollowOneTrail(c: Config, plan: Plan, d: nat, held: bool, n: nat, minutes: int, s: State, t: State)
    requires OneDelay(plan, d) && Trail(plan, d, held, n, s, t) && n < |s.actions| && 0 <= minutes
    ensures Trail(plan, d, held, n + 1, s, FollowOne(c, n, minutes, Effect(t, [])).state)
  {
    FollowOneStep(c, plan, n, minutes, s, t);
    var r := t.actions[n];
    assert Later(s.actions[n], r) && RecordOk(plan, s.time, r);
    assert Passed(s.actions, d, n + 1) <==> Passed(s.actions, d, n) || r.index == d;
    hide Follow, Passed, Evolves, CountersOk;
    FollowLeavesRest(c, t, r, minutes);
    if r.kind == DelayRoverUse && r.status == Active {
      FollowTheDelay(c, t, r, minutes);
    } else {
      FollowNoDelay(c, t, r, minutes);
    }
    OnlyOneChanges(t.actions, n, d, Follow(c, t, r, minutes).record);
    hide RecordsOk, Following;
  }

  lemma OnlyOneChanges(actions: seq<Record>, n: nat, d: nat, q: Record)
    requires n < |actions| && OneRecordEach(actions) && q.index == actions[n].index
    ensures q.index != d ==> forall held: bool :: DelayIs(actions, d, held) ==> DelayIs(actions[n := q], d, held)
    ensures q.index == d ==> DelayIs(actions[n := q], d, q.status == Active)
  {
  }

  lemma {:induction false} FollowTrail(c: Config, plan: Plan, d: nat, held: bool, n: nat, minutes: int, s: State)
    requires OneDelay(plan, d) && n <= |s.actions| && 0 <= minutes && Trail(plan, d, held, 0, s, s)
    ensures Trail(plan, d, held, n, s, FollowUpTo(c, n, minutes, s).state)
  {
    hide Trail, Follow, OneDelay;
    if n > 0 {
      FollowTrail(c, plan, d, held, n - 1, minutes, s);
      FollowOneTrail(c, plan, d, held, n - 1, minutes, s, FollowUpTo(c, n - 1, minutes, s).state);
    }
  }

  // ---------- Whole steps and runs ----------

  lemma WalkKeepsRover(c: Config, dt: real, s: State)
    requires 0 < c.eva.maximum
    ensures var t := EvaMachine.EvaStage(c, dt, s).0;
      t.rover.available == s.rover.available && t.rover.reservedUntil == s.rover.reservedUntil && t.actions == s.actions
  {
    hide EvaMachine.FirstOnEva, EvaMachine.PhaseStage, Scale;
    var i := EvaMachine.FirstOnEva(s.crew);
    if i.Some? {
      var m := s.crew[i.value];
      StepKeepsRover(c.eva, dt, EvaMachine.SuitOf(s, i.value), m.health == Health.Critical, m.physical);
      hide EvaMachine.EvaStep;
    }
  }

  lemma StepKeepsRover(c: EvaConfig, dt: real, x: EvaMachine.Suit, critical: bool, performance: real)
    requires 0 < c.maximum
    ensures var y := EvaMachine.EvaStep(c, dt, x, critical, performance).suit;
      y.rover.available == x.rover.available && y.rover.reservedUntil == x.rover.reservedUntil
  {
    hide Scale, EvaMachine.Progress;
  }

  // The rover between steps, when the last simulated minute was this one.
  predicate Between(plan: Plan, d: nat, s: State, last: int)
    requires OneDelay(plan, d)
  {
    Kept(plan, d, s, plan[d].start <= last < Until(plan, d))
  }

  lemma RestKeepsRover(c: Config, plan: Plan, d: nat, r: State)
    requires OneDelay(plan, d) && Defined(c)
    requires RecordsOk(plan, r.time, r.actions) && CountersOk(r)
    requires Kept(plan, d, r, plan[d].start <= r.time <= Until(plan, d))
    requires plan[d].start <= r.time ==> HasStarted(r.actions, d)
    ensures Between(plan, d, AbortAll(AfterActions(c, r)), r.time)
  {
    var held := plan[d].start <= r.time <= Until(plan, d);
    var p := PhysicsStage(c, r);
    EvaRun.PhysicsStaysOutside(c, r);
    hide PhysicsStage, RecordsOk, OneDelay, CallBackAll, AnyMustReturn;
    HabitatState.PositiveStep(c);
    WalkKeepsRover(c, DtMinutes(c), p);
    EvaKeepsCounters(c, DtMinutes(c), p);
    var w := AfterWalk(c, r);
    hide EvaMachine.EvaStage, DtMinutes;
    TrailBegins(plan, d, held, w);
    var n, minutes := |w.actions|, Truncate(DtMinutes(c));
    FollowTrail(c, plan, d, held, n, minutes, w);
    assert Passed(w.actions, d, n) <==> HasStarted(w.actions, d);
    hide FollowUpTo, Following, Passed, HasStarted;
  }

  lemma TrailBegins(plan: Plan, d: nat, held: bool, s: State)
    requires OneDelay(plan, d) && RecordsOk(plan, s.time, s.actions) && CountersOk(s) && Kept(plan, d, s, held)
    ensures Trail(plan, d, held, 0, s, s)
  {
    hide RecordsOk, CountersOk, OneDelay, Kept;
    assert Evolves(s.actions, s.actions);
    assert !Passed(s.actions, d, 0);
  }

  lemma StepKeepsReservation(c: Config, plan: Plan, d: nat, s: State, held: real)
    requires OneDelay(plan, d) && StepMinutes(c) == 1 && Defined(c) && OnGrid(c, plan, s) && Step(c, plan, s, held).Ok?
    requires Between(plan, d, s, s.time - 1)
    ensures Between(plan, d, Step(c, plan, s, held).value.state, s.time)
  {
    var a, r := StepStages(c, plan, s, held);
    hide Step;
    SchedulingBegins(c, plan, s);
    assert Turn(c, plan, d, 0, s, s);
    hide Scheduling;
    TakeTurns(c, plan, d, |plan|, s);
    AfterTurns(c, plan, d, s, a);
    hide Turn, ApplyUpTo, Actions.Undisturbed, Read, Reasons, RecordsOk, CountersOk, HasStarted, Kept;
    assert r.actions == a.actions && r.rover == a.rover && r.time == a.time == s.time && r.eva == a.eva && r.transmission == a.transmission;
    hide CrewStage, AfterActions, AbortAll, Between;
    SameReservation(plan, d, a, r, plan[d].start <= s.time <= Until(plan, d));
    RestKeepsRover(c, plan, d, r);
  }

  lemma SameReservation(plan: Plan, d: nat, a: State, r: State, held: bool)
    requires OneDelay(plan, d) && Kept(plan, d, a, held) && CountersOk(a)
    requires r.actions == a.actions && r.rover == a.rover && r.eva == a.eva && r.transmission == a.transmission
    ensures Kept(plan, d, r, held) && CountersOk(r)
  {
  }

  lemma AfterTurns(c: Config, plan: Plan, d: nat, s: State, a: State)
    requires OneDelay(plan, d) && StepMinutes(c) == 1 && 0 <= s.time && Turn(c, plan, d, |plan|, s, a)
    ensures Kept(plan, d, a, plan[d].start <= s.time <= Until(plan, d))
    ensures RecordsOk(plan, s.time, a.actions) && CountersOk(a) && a.time == s.time
    ensures plan[d].start <= s.time ==> HasStarted(a.actions, d)
  {
    hide Kept, RecordsOk, CountersOk, Evolves, HasStarted;
    assert HasStarted(a.actions, d) <==> Caught(c, plan, d, s.time);
  }

  lemma {:induction false} RunKeepsReservation(c: Config, plan: Plan, d: nat, h: seq<Stepped>)
    requires OneDelay(plan, d) && StepMinutes(c) == 1 && Defined(c) && IsRun(c, plan, h)
    ensures var n := NextState(c, h);
      n.Ok? ==> OnGrid(c, plan, n.value) && Between(plan, d, n.value, n.value.time - 1)
  {
    hide OneDelay, OnGrid, Step, GoesOn, Defined, Evolves, Booked, Between;
    RunIsOnGrid(c, plan, h);
    if h == [] {
      InitialReservation(c, plan, d);
    } else {
      var g, x := h[..|h| - 1], h[|h| - 1];
      RunKeepsReservation(c, plan, d, g);
      var s := NextState(c, g).value;
      StepKeepsReservation(c, plan, d, s, NextHeld(g));
      GridStepHasTime(c, plan, s, NextHeld(g));
      TickKeepsReservation(c, plan, d, x.state);
    }
  }

  lemma GridStepHasTime(c: Config, plan: Plan, s: State, held: real)
    requires Defined(c) && OnGrid(c, plan, s) && Step(c, plan, s, held).Ok?
    ensures Step(c, plan, s, held).value.state.time == s.time
  {
    hide Step, Booked;
    StepIsBooked(c, plan, s, held);
  }

  lemma InitialReservation(c: Config, plan: Plan, d: nat)
    requires OneDelay(plan, d)
    ensures Initial(c).Ok? ==> Between(plan, d, Initial(c).value, Initial(c).value.time - 1)
  {
    hide InitialCrew;
  }

  lemma TickKeepsReservation(c: Config, plan: Plan, d: nat, s: State)
    requires OneDelay(plan, d) && StepMinutes(c) == 1 && Between(plan, d, s, s.time)
    ensures Between(plan, d, Tick(c, s), Tick(c, s).time - 1)
  {
  }

  /** With one delay in the plan and steps of one minute, the rover is out of reach of
      action k exactly while it is held at the turn of k. */
  lemma RoverIsHeldExactly(c: Config, plan: Plan, d: nat, h: seq<Stepped>, k: nat)
    requires OneDelay(plan, d) && StepMinutes(c) == 1 && Defined(c) && IsRun(c, plan, h)
    requires NextState(c, h).Ok? && k <= |plan|
    ensures var s := NextState(c, h).value;
      var t := ApplyUpTo(c, plan, k, s).state;
      (!t.rover.available <==> Held(plan, d, k, s.time)) && (t.rover.available ==> t.rover.reservedUntil == 0)
  {
    hide IsRun, Defined, OneDelay;
    RunKeepsReservation(c, plan, d, h);
    hide IsRun, NextState;
    var s := NextState(c, h).value;
    SchedulingBegins(c, plan, s);
    hide Booked, Scheduling, ApplyUpTo, DelayIs;
    assert Turn(c, plan, d, 0, s, s);
    TakeTurns(c, plan, d, k, s);
  }

  /** Validation keeps repairs out of the reservation but for its last minute: among
      validated repairs the rover is held exactly for those that start when the delay
      is over, because the release comes later in that step. */
  lemma ValidationMissesTheLastMinute(c: Config, plan: Plan, d: nat, k: nat)
    requires OneDelay(plan, d) && k < |plan| && ValidPlan(c, plan)
    requires c.eva.roverRequired && plan[k].kind == RepairSolarArray
    ensures Held(plan, d, k, plan[k].start) <==> plan[k].start == Until(plan, d)
  {
    assert NoRoverConflict(c, plan, plan[k]);
    assert ValidAction(c, plan[d]);
    assert !Reserves(plan[d], plan[k].start);
    hide FindMember;
  }

  /** A repair whose turn comes while the rover is held fails to start. */
  lemma HeldRoverFailsRepair(c: Config, plan: Plan, d: nat, h: seq<Stepped>, k: nat)
    requires OneDelay(plan, d) && StepMinutes(c) == 1 && Defined(c) && IsRun(c, plan, h) && NextState(c, h).Ok?
    requires k < |plan| && plan[k].kind == RepairSolarArray && c.eva.roverRequired
    requires var s := NextState(c, h).value; plan[k].start == s.time && Held(plan, d, k, s.time)
    ensures var t := ApplyUpTo(c, plan, k, NextState(c, h).value).state;
      Due(plan, k, t) && Start(c, plan[k], k, t) == FailedStart(t, plan[k], k)
  {
    hide IsRun, Defined, OneDelay, Held;
    RoverIsHeldExactly(c, plan, d, h, k);
    var s := NextState(c, h).value;
    RunIsOnGrid(c, plan, h);
    hide IsRun, NextState, Evolves;
    SchedulingBegins(c, plan, s);
    ScheduleAll(c, plan, k, s);
    var t := ApplyUpTo(c, plan, k, s).state;
    assert HasStarted(t.actions, k) <==> Caught(c, plan, k, s.time - 1) by { hide HasStarted, RecordsOk; }
    hide ApplyUpTo, FindCrew, FindMember, HasStarted, Scheduling;
  }
}
