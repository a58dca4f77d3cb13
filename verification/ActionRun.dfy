// The records of plan actions over whole runs.
module ActionRun {
  import opened Wrappers
  import opened Scenario
  import opened MathUtils
  import opened Resources
  import opened Actions
  import opened Evaluation
  import opened SimulationRun
  import EvaMachine
  import StabilizationRun
  import EvaRun

  // A record truly tells of its action.
  predicate RecordOk(plan: Plan, time: int, r: Record) {
    && r.index < |plan| && r.kind == plan[r.index].kind && r.start == plan[r.index].start && r.start <= time
    && 0.0 <= r.progress <= 1.0 && (r.status == ExecStatus.Complete ==> r.progress == 1.0)
  }

  predicate OneRecordEach(actions: seq<Record>) {
    forall i, j | 0 <= i < |actions| && 0 <= j < |actions| && actions[i].index == actions[j].index :: i == j
  }

  // The simulator has passed the start of the action on its grid of steps.
  predicate Caught(c: Config, plan: Plan, k: nat, time: int)
    requires k < |plan|
  {
    0 <= plan[k].start <= time && plan[k].start % StepMinutes(c) == 0
  }

  // The records are those of the first n actions caught by now and of the others caught before.
  predicate Matches(c: Config, plan: Plan, actions: seq<Record>, n: nat, before: int, now: int) {
    forall k: nat | k < |plan| :: HasStarted(actions, k) <==> Caught(c, plan, k, if k < n then now else before)
  }

  predicate RecordsOk(plan: Plan, time: int, actions: seq<Record>) {
    OneRecordEach(actions) && forall i | 0 <= i < |actions| :: RecordOk(plan, time, actions[i])
  }

  // Counters that progress is read from.
  predicate CountersOk(s: State) {
    0.0 <= s.eva.progress <= 1.0 && 0 <= s.transmission
  }

  /** How a record may change: only while active, only forward, and never back. */
  predicate Later(r: Record, q: Record) {
    && q.index == r.index && q.kind == r.kind && q.start == r.start && q.crew == r.crew
    && (r.status != Active ==> q == r)
    && (q.status == Failed ==> q == r)
  }

  predicate Evolves(a: seq<Record>, b: seq<Record>) {
    |a| <= |b| && forall i | 0 <= i < |a| :: Later(a[i], b[i])
  }

  lemma EvolvesThrough(a: seq<Record>, b: seq<Record>, d: seq<Record>)
    requires Evolves(a, b) && Evolves(b, d)
    ensures Evolves(a, d)
  {
    forall i | 0 <= i < |a|
      ensures Later(a[i], d[i])
    {
      assert Later(a[i], b[i]) && Later(b[i], d[i]);
    }
  }

  // ---------- Scheduling ----------

  lemma GridHasNoneBetween(step: int, start: int, now: int)
    requires 0 < step && now % step == 0 && start % step == 0 && now - step < start <= now
    ensures start == now
  {
    var a, b := now / step, start / step;
    assert now == a * step && start == b * step;
    if b < a {
      IntMulMono(b + 1, a, step);
    } else if a < b {
      IntMulMono(a + 1, b, step);
    }
  }

  lemma CaughtNow(c: Config, plan: Plan, k: nat, now: int)
    requires k < |plan| && 0 <= now && now % StepMinutes(c) == 0
    ensures Caught(c, plan, k, now) <==> Caught(c, plan, k, now - StepMinutes(c)) || plan[k].start == now
  {
    if Caught(c, plan, k, now) && plan[k].start > now - StepMinutes(c) {
      GridHasNoneBetween(StepMinutes(c), plan[k].start, now);
    }
  }

  lemma LoggedOnce(plan: Plan, k: nat, s: State, t: State)
    requires k < |plan| && Due(plan, k, s) && Logs(plan[k], k, s, t)
    requires RecordsOk(plan, s.time, s.actions)
    ensures RecordsOk(plan, s.time, t.actions) && Evolves(s.actions, t.actions)
    ensures forall j: nat :: HasStarted(t.actions, j) <==> HasStarted(s.actions, j) || j == k
  {
    var n := |s.actions|;
    assert forall i | 0 <= i < n :: t.actions[i] == t.actions[..n][i] == s.actions[i];
    assert t.actions[n].index == k;
    forall j: nat
      ensures HasStarted(t.actions, j) <==> HasStarted(s.actions, j) || j == k
    {
      if HasStarted(s.actions, j) {
        var i :| 0 <= i < n && s.actions[i].index == j;
        assert t.actions[i].index == j;
      }
      if i :| 0 <= i < |t.actions| && t.actions[i].index == j {
        if i < n {
          assert s.actions[i].index == j;
        }
      }
    }
    forall i | 0 <= i < n
      ensures t.actions[i].index != k
    {
      assert t.actions[i] == s.actions[i];
    }
  }

  // The state of the records while scheduling.
  predicate Scheduling(c: Config, plan: Plan, n: nat, s: State, t: State) {
    && RecordsOk(plan, s.time, t.actions) && Evolves(s.actions, t.actions) && t.time == s.time
    && Matches(c, plan, t.actions, n, s.time - StepMinutes(c), s.time) && CountersOk(t)
  }

  lemma StartKeepsCounters(c: Config, a: Action, k: nat, s: State)
    requires CountersOk(s)
    ensures CountersOk(Start(c, a, k, s).state)
  {
    if a.kind == ReducePowerLoad && a.percent.Some? {
      ShedLeavesRest(s, a.groups, a.percent.value / 100.0);
    }
    hide ShedAll, RationAll, FindCrew, FindMember, WindowOpen, Occupied;
  }

  lemma ScheduleOne(c: Config, plan: Plan, k: nat, s: State, t: State)
    requires k < |plan| && Scheduling(c, plan, k, s, t) && 0 <= s.time && s.time % StepMinutes(c) == 0
    ensures Scheduling(c, plan, k + 1, s, ApplyOne(c, plan, k, Effect(t, [])).state)
  {
    CaughtNow(c, plan, k, s.time);
    if Due(plan, k, t) {
      var u := Start(c, plan[k], k, t).state;
      StartContained(c, plan[k], k, t);
      StartKeepsCounters(c, plan[k], k, t);
      LoggedOnce(plan, k, t, u);
      EvolvesThrough(s.actions, t.actions, u.actions);
      hide Start, RecordsOk, Evolves, HasStarted, SameBodies, SameWalk, CountersOk, StepMinutes, Logs, SendsOut, Caught;
    } else {
      hide RecordsOk, Evolves, HasStarted, CountersOk, StepMinutes, Caught;
    }
  }

  lemma {:induction false} ScheduleAll(c: Config, plan: Plan, n: nat, s: State)
    requires n <= |plan| && Scheduling(c, plan, 0, s, s) && 0 <= s.time && s.time % StepMinutes(c) == 0
    ensures Scheduling(c, plan, n, s, ApplyUpTo(c, plan, n, s).state)
  {
    hide Scheduling, Start, Due;
    if n > 0 {
      ScheduleAll(c, plan, n - 1, s);
      ScheduleOne(c, plan, n - 1, s, ApplyUpTo(c, plan, n - 1, s).state);
    }
  }

  // ---------- Following ----------

  lemma ShareOfDelay(done: int, total: int)
    requires 0 <= done <= total && 0 < total
    ensures 0.0 <= (done as real) / (total as real) <= 1.0
  {
    DivMono(0.0, done as real, total as real);
    DivMono(done as real, total as real, total as real);
  }

  lemma FollowIsLater(c: Config, plan: Plan, s: State, r: Record, minutes: int)
    requires RecordOk(plan, s.time, r) && CountersOk(s) && 0 <= minutes
    ensures var f := Follow(c, s, r, minutes);
      Later(r, f.record) && RecordOk(plan, s.time, f.record) && CountersOk(f.state)
  {
    hide FindCrew;
    if r.kind == DelayRoverUse && r.status == Active {
      if s.rover.reservedUntil > s.time {
        ShareOfDelay(s.time - r.start, s.rover.reservedUntil - r.start);
      }
    } else if r.kind == SendEmergencyPacket && r.status == Active {
      var duration := if c.transmissionDuration <= 0 then 1 else c.transmissionDuration;
      if s.transmission + minutes < duration {
        ShareOfDelay(s.transmission + minutes, duration);
      }
    }
  }

  predicate Following(plan: Plan, s: State, t: State) {
    && |t.actions| == |s.actions| && t.time == s.time
    && Evolves(s.actions, t.actions) && RecordsOk(plan, s.time, t.actions) && CountersOk(t)
  }

  lemma FollowOneStep(c: Config, plan: Plan, k: nat, minutes: int, s: State, t: State)
    requires Following(plan, s, t) && k < |t.actions| && 0 <= minutes
    ensures Following(plan, s, FollowOne(c, k, minutes, Effect(t, [])).state)
  {
    FollowIsLater(c, plan, t, t.actions[k], minutes);
    FollowLeavesRest(c, t, t.actions[k], minutes);
    hide Follow, CountersOk;
    var u := FollowOne(c, k, minutes, Effect(t, [])).state;
    assert Evolves(t.actions, u.actions);
    EvolvesThrough(s.actions, t.actions, u.actions);
    hide Evolves;
  }

  lemma {:induction false} FollowAllSteps(c: Config, plan: Plan, n: nat, minutes: int, s: State)
    requires n <= |s.actions| && 0 <= minutes && RecordsOk(plan, s.time, s.actions) && CountersOk(s)
    ensures Following(plan, s, FollowUpTo(c, n, minutes, s).state)
  {
    if n > 0 {
      hide Following, Follow;
      FollowAllSteps(c, plan, n - 1, minutes, s);
      FollowOneStep(c, plan, n - 1, minutes, s, FollowUpTo(c, n - 1, minutes, s).state);
    }
  }

  lemma SameIndexesMatch(c: Config, plan: Plan, a: seq<Record>, b: seq<Record>, n: nat, before: int, now: int)
    requires Matches(c, plan, a, n, before, now) && |a| == |b| && Evolves(a, b)
    ensures Matches(c, plan, b, n, before, now)
  {
    forall k: nat | k < |plan|
      ensures HasStarted(b, k) <==> HasStarted(a, k)
    {
      if i :| 0 <= i < |a| && a[i].index == k {
        assert Later(a[i], b[i]);
      }
      if i :| 0 <= i < |b| && b[i].index == k {
        assert Later(a[i], b[i]);
      }
    }
  }

  // ---------- Whole steps and runs ----------

  // Between steps: every action caught until the last step has its record.
  predicate Booked(c: Config, plan: Plan, s: State, last: int) {
    RecordsOk(plan, last, s.actions) && CountersOk(s) && Matches(c, plan, s.actions, 0, last, last)
  }

  lemma EvaKeepsCounters(c: Config, dt: real, s: State)
    requires 0 < c.eva.maximum && 0.0 < dt && CountersOk(s)
    ensures var t := EvaMachine.EvaStage(c, dt, s).0;
      CountersOk(t) && t.actions == s.actions && t.time == s.time
  {
    var i := EvaMachine.FirstOnEva(s.crew);
    hide EvaMachine.EvaStep, EvaMachine.FirstOnEva;
    if i.Some? {
      var m := s.crew[i.value];
      WalkKeepsShare(c.eva, dt, EvaMachine.SuitOf(s, i.value), m.health == Health.Critical, m.physical);
    }
  }

  lemma WalkKeepsShare(c: EvaConfig, dt: real, x: EvaMachine.Suit, critical: bool, performance: real)
    requires 0 < c.maximum && 0.0 < dt && 0.0 <= x.eva.progress <= 1.0
    ensures 0.0 <= EvaMachine.EvaStep(c, dt, x, critical, performance).suit.eva.progress <= 1.0
  {
    ProgressIsShare(c, dt, x.eva.progress, performance);
    hide EvaMachine.Progress, EvaMachine.Drain;
  }

  lemma ProgressIsShare(c: EvaConfig, dt: real, p: real, performance: real)
    requires 0.0 < dt && 0.0 <= p <= 1.0
    ensures 0.0 <= EvaMachine.Progress(c, dt, p, performance) <= 1.0
  {
    if 0 < c.repairWork {
      PosDiv(dt, c.repairWork as real);
      ScaleMono(dt / (c.repairWork as real), 0.0, NonNegative(performance));
    }
  }

  lemma BookedStaysThroughRest(c: Config, plan: Plan, r: State)
    requires Defined(c) && RecordsOk(plan, r.time, r.actions) && CountersOk(r)
    ensures var t := AbortAll(AfterActions(c, r));
      && Evolves(r.actions, t.actions) && |t.actions| == |r.actions|
      && RecordsOk(plan, r.time, t.actions) && CountersOk(t) && t.time == r.time
  {
    var p := PhysicsStage(c, r);
    EvaRun.PhysicsStaysOutside(c, r);
    hide PhysicsStage;
    PosDiv(c.timeStepS as real, 60.0);
    EvaKeepsCounters(c, DtMinutes(c), p);
    var w := AfterWalk(c, r);
    FollowAllSteps(c, plan, |w.actions|, Truncate(DtMinutes(c)), w);
    hide FollowUpTo, EvaMachine.EvaStage, RecordsOk, Evolves, CallBackAll, AnyMustReturn;
  }

  lemma SchedulingBegins(c: Config, plan: Plan, s: State)
    requires Booked(c, plan, s, s.time - StepMinutes(c))
    ensures Scheduling(c, plan, 0, s, s)
  {
    hide Caught, HasStarted;
  }

  lemma StepIsBooked(c: Config, plan: Plan, s: State, held: real)
    requires Defined(c) && |s.crew| == |c.roster| && Step(c, plan, s, held).Ok?
    requires 0 <= s.time && s.time % StepMinutes(c) == 0 && Booked(c, plan, s, s.time - StepMinutes(c))
    ensures var x := Step(c, plan, s, held).value;
      && Booked(c, plan, x.state, s.time) && x.state.time == s.time == x.sample.time
      && Evolves(s.actions, x.state.actions) && x.sample.actions == x.state.actions
      && |x.state.crew| == |c.roster|
  {
    var a, r := StepStages(c, plan, s, held);
    hide Step;
    hide AfterActions, AbortAll, CrewStage, Read, Reasons, StepMinutes, Actions.Undisturbed;
    SchedulingBegins(c, plan, s);
    ScheduleAll(c, plan, |plan|, s);
    BookedStaysThroughRest(c, plan, r);
    RestKeepsCrew(c, r);
    hide ApplyUpTo, RecordsOk, Caught, HasStarted;
    var x := AbortAll(AfterActions(c, r));
    EvolvesThrough(s.actions, a.actions, x.actions);
    SameIndexesMatch(c, plan, a.actions, x.actions, |plan|, s.time - StepMinutes(c), s.time);
  }

  lemma RestKeepsCrew(c: Config, r: State)
    requires Defined(c)
    ensures |AbortAll(AfterActions(c, r)).crew| == |r.crew|
  {
    var p := PhysicsStage(c, r);
    EvaRun.PhysicsStaysOutside(c, r);
    var w := AfterWalk(c, r);
    FollowKeepsRest(c, |w.actions|, Truncate(DtMinutes(c)), w);
    hide FollowUpTo, EvaMachine.EvaStep, PhysicsStage, EvaMachine.FirstOnEva;
  }

  // Where the next step stands on the grid.
  predicate OnGrid(c: Config, plan: Plan, s: State) {
    && 0 <= s.time && s.time % StepMinutes(c) == 0 && |s.crew| == |c.roster|
    && Booked(c, plan, s, s.time - StepMinutes(c))
  }

  lemma InitialIsOnGrid(c: Config, plan: Plan)
    requires Initial(c).Ok?
    ensures OnGrid(c, plan, Initial(c).value)
  {
    hide InitialCrew;
  }

  lemma TickStaysOnGrid(c: Config, plan: Plan, s: State)
    requires 0 <= s.time && s.time % StepMinutes(c) == 0 && |s.crew| == |c.roster| && Booked(c, plan, s, s.time)
    ensures OnGrid(c, plan, Tick(c, s))
  {
    hide RecordsOk, Matches;
    NextOnGrid(s.time, StepMinutes(c));
  }

  lemma NextOnGrid(time: int, step: int)
    requires 0 < step && time % step == 0
    ensures (time + step) % step == 0
  {
    Multiple(time / step + 1, step, time + step);
  }

  lemma Multiple(q: int, step: int, x: int)
    requires 0 < step && x == q * step
    ensures x % step == 0
  {
    var p, r := x / step, x % step;
    assert x == p * step + r;
    if p < q {
      IntMulMono(p + 1, q, step);
    } else if q < p {
      IntMulMono(q + 1, p, step);
    }
  }

  lemma {:induction false} RunIsOnGrid(c: Config, plan: Plan, h: seq<Stepped>)
    requires Defined(c) && IsRun(c, plan, h)
    ensures NextState(c, h).Ok? ==> OnGrid(c, plan, NextState(c, h).value)
    ensures h != [] ==>
      && Booked(c, plan, h[|h| - 1].state, h[|h| - 1].sample.time)
      && NextState(c, h[..|h| - 1]).Ok?
      && Evolves(NextState(c, h[..|h| - 1]).value.actions, h[|h| - 1].state.actions)
  {
    hide Booked, Step, GoesOn, Defined, Evolves, StepMinutes;
    if h == [] {
      if Initial(c).Ok? {
        InitialIsOnGrid(c, plan);
      }
    } else {
      var g, x := h[..|h| - 1], h[|h| - 1];
      RunIsOnGrid(c, plan, g);
      StepIsBooked(c, plan, NextState(c, g).value, NextHeld(g));
      TickStaysOnGrid(c, plan, x.state);
    }
  }

  /** In every step of a run each action has at most one record, which tells of it and
      whose progress is a share of one; an action has a record exactly when its start
      lies on the grid of simulated minutes and has been reached. */
  lemma RecordsInRun(c: Config, plan: Plan, h: seq<Stepped>, i: nat)
    requires Defined(c) && IsRun(c, plan, h) && i < |h|
    ensures RecordsOk(plan, h[i].sample.time, h[i].state.actions)
    ensures forall k: nat | k < |plan| ::
      HasStarted(h[i].state.actions, k) <==> Caught(c, plan, k, h[i].sample.time)
  {
    hide RecordsOk, HasStarted, Caught, Step, GoesOn, IsRun;
    StabilizationRun.PrefixIsRun(c, plan, h, i + 1);
    RunIsOnGrid(c, plan, h[..i + 1]);
  }

  lemma NextEvolves(c: Config, plan: Plan, h: seq<Stepped>, j: nat)
    requires Defined(c) && IsRun(c, plan, h) && 0 < j < |h|
    ensures Evolves(h[j - 1].state.actions, h[j].state.actions)
  {
    hide Evolves, Step, GoesOn, IsRun, Booked, OnGrid;
    StabilizationRun.PrefixIsRun(c, plan, h, j + 1);
    RunIsOnGrid(c, plan, h[..j + 1]);
    assert h[..j + 1][..j] == h[..j];
  }

  /** Records are never removed, and a record that is no longer active never changes. */
  lemma {:induction false} RecordsOnlyMoveForward(c: Config, plan: Plan, h: seq<Stepped>, i: nat, j: nat)
    requires Defined(c) && IsRun(c, plan, h) && i <= j < |h|
    ensures Evolves(h[i].state.actions, h[j].state.actions)
    decreases j
  {
    hide IsRun;
    if i < j {
      hide Evolves;
      RecordsOnlyMoveForward(c, plan, h, i, j - 1);
      NextEvolves(c, plan, h, j);
      EvolvesThrough(h[i].state.actions, h[j - 1].state.actions, h[j].state.actions);
    }
  }

  /** With steps of one minute or less no start is missed. */
  lemma MinuteStepsMissNothing(c: Config, plan: Plan, h: seq<Stepped>, i: nat, k: nat)
    requires Defined(c) && IsRun(c, plan, h) && i < |h| && k < |plan| && c.timeStepS < 120
    ensures HasStarted(h[i].state.actions, k) <==> 0 <= plan[k].start <= h[i].sample.time
  {
    hide IsRun, HasStarted, RecordsOk;
    RecordsInRun(c, plan, h, i);
  }
}
