// Stabilization over a run: the timer is the length of the present streak.
module StabilizationRun {
  import opened Wrappers
  import opened Scenario
  import opened Resources
  import Actions
  import EvaMachine
  import MathUtils
  import opened Evaluation
  import opened SimulationRun

  predicate NoFailure(c: Config, x: Stepped) {
    Reasons(c, x.state, x.sample.telemetry) == []
  }

  predicate Good(c: Config, x: Stepped) {
    NoFailure(c, x) && Met(c, x.state, x.sample.telemetry)
  }

  // How many steps up to the last have been good without a break.
  function Streak(c: Config, h: seq<Stepped>): nat {
    if h == [] || !Good(c, h[|h| - 1]) then 0 else Streak(c, h[..|h| - 1]) + 1
  }

  predicate AllGood(c: Config, h: seq<Stepped>, from: nat) {
    forall i | from <= i < |h| :: Good(c, h[i])
  }

  /** A streak of m steps is: the last m steps are good. */
  lemma {:induction false} StreakIsWindow(c: Config, h: seq<Stepped>, m: nat)
    ensures m <= Streak(c, h) <==> m <= |h| && AllGood(c, h, |h| - m)
  {
    hide Good;
    if m > 0 && h != [] && Good(c, h[|h| - 1]) {
      var g := h[..|h| - 1];
      StreakIsWindow(c, g, m - 1);
      if m <= |h| {
        assert AllGood(c, h, |h| - m) <==> AllGood(c, g, |g| - (m - 1)) by {
          assert forall i | 0 <= i < |g| :: h[i] == g[i];
        }
      }
    }
  }

  function HeldMinutes(c: Config, streak: nat): real { streak as real * DtMinutes(c) }

  // The streak has lasted for the hold time.
  predicate Holds(c: Config, h: seq<Stepped>) {
    Streak(c, h) > 0 && HeldMinutes(c, Streak(c, h)) >= c.stabilizationHold as real
  }

  lemma JudgeMeaning(c: Config, s: State, t: Telemetry, held: real)
    ensures var j := Judge(c, s, t, held);
      var good := Reasons(c, j.state, t) == [] && Met(c, j.state, t);
      && j.mission.heldMinutes == (if good then held + DtMinutes(c) else 0.0)
      && (j.verdict == Failure <==> Reasons(c, j.state, t) != [])
      && (j.verdict == Stabilized <==> good && held + DtMinutes(c) >= c.stabilizationHold as real)
      && j.mission.violated == Reasons(c, j.state, t)
  {
    hide Reasons, Met, AbortAll, CallBackEvents, HabitatWarnings, CrewWarnings, DtMinutes;
  }

  // What the evaluation promises about a step that began with these held minutes.
  predicate Judges(c: Config, held: real, x: Stepped) {
    && x.sample.mission.heldMinutes == (if Good(c, x) then held + DtMinutes(c) else 0.0)
    && (x.verdict == Failure <==> !NoFailure(c, x))
    && (x.verdict == Stabilized <==> Good(c, x) && held + DtMinutes(c) >= c.stabilizationHold as real)
    && x.sample.mission.violated == Reasons(c, x.state, x.sample.telemetry)
  }

  lemma FinishIsJudged(c: Config, s: State, held: real, before: seq<EventKind>)
    requires Defined(c)
    ensures Judges(c, held, Finish(c, s, held, before))
  {
    var p := PhysicsStage(c, s);
    var (w, walked) := EvaMachine.EvaStage(c, DtMinutes(c), p);
    var f := Actions.FollowAll(c, Truncate(DtMinutes(c)), w);
    var t := Read(c, f.state);
    JudgeMeaning(c, f.state, t, held);
    hide Judge, Reasons, Met, Read, PhysicsStage, DtMinutes, EvaMachine.EvaStage, Actions.FollowAll, Stamp, EvaDone, Truncate, Defined;
  }

  lemma StepIsJudged(c: Config, plan: Plan, g: seq<Stepped>, x: Stepped)
    requires Defined(c) && Follows(c, plan, g, x)
    ensures Judges(c, NextHeld(g), x)
  {
    var s := NextState(c, g).value;
    hide NextState;
    var a := Actions.ApplyScheduled(c, plan, s);
    Actions.ScheduledKeepsCrew(c, plan, s, |plan|);
    hide CrewStage, Finish, Judges, Transitions, Actions.ApplyUpTo;
    var r := CrewStage(c, a.state).value;
    FinishIsJudged(c, r, NextHeld(g), a.events + Transitions(a.state.crew, r.crew, |r.crew|));
  }

  lemma LongerByOne(c: Config, n: nat)
    ensures HeldMinutes(c, 0) == 0.0
    ensures HeldMinutes(c, n + 1) == HeldMinutes(c, n) + DtMinutes(c)
  {
    assert (n + 1) as real == n as real + 1.0;
    assert (n as real + 1.0) * DtMinutes(c) == n as real * DtMinutes(c) + DtMinutes(c);
  }

  lemma LongerHolds(c: Config, m: nat, n: nat)
    requires 0 < c.timeStepS && m <= n
    ensures HeldMinutes(c, m) <= HeldMinutes(c, n)
  {
    MathUtils.MulMono(DtMinutes(c), m as real, n as real);
  }

  lemma {:induction false} TimerIsStreak(c: Config, plan: Plan, h: seq<Stepped>)
    requires Defined(c) && IsRun(c, plan, h)
    ensures NextHeld(h) == HeldMinutes(c, Streak(c, h))
  {
    hide Follows, Good, NoFailure, DtMinutes, HeldMinutes, GoesOn, Defined;
    if h == [] {
      LongerByOne(c, 0);
    } else {
      var g, x := h[..|h| - 1], h[|h| - 1];
      TimerIsStreak(c, plan, g);
      StepIsJudged(c, plan, g, x);
      LongerByOne(c, Streak(c, g));
    }
  }

  lemma LastVerdict(c: Config, plan: Plan, h: seq<Stepped>)
    requires Defined(c) && IsRun(c, plan, h) && h != []
    ensures h[|h| - 1].verdict == Stabilized <==> Holds(c, h)
    ensures h[|h| - 1].verdict == Failure <==> !NoFailure(c, h[|h| - 1])
  {
    hide Follows, Good, NoFailure, DtMinutes, HeldMinutes, GoesOn, Defined;
    var g, x := h[..|h| - 1], h[|h| - 1];
    TimerIsStreak(c, plan, g);
    StepIsJudged(c, plan, g, x);
    LongerByOne(c, Streak(c, g));
  }

  lemma {:induction false} PrefixIsRun(c: Config, plan: Plan, h: seq<Stepped>, k: nat)
    requires Defined(c) && IsRun(c, plan, h) && k <= |h|
    ensures IsRun(c, plan, h[..k])
    ensures 0 < k < |h| ==> GoesOn(c, h[k - 1])
  {
    hide Follows, GoesOn, Defined;
    if k < |h| {
      var g := h[..|h| - 1];
      PrefixIsRun(c, plan, g, k);
      assert h[..k] == g[..k];
    } else {
      assert h[..k] == h;
    }
  }

  predicate HeldWindow(c: Config, h: seq<Stepped>, m: nat) {
    0 < m <= |h| && HeldMinutes(c, m) >= c.stabilizationHold as real && AllGood(c, h, |h| - m)
  }

  lemma HoldsIsWindow(c: Config, h: seq<Stepped>)
    requires 0 < c.timeStepS
    ensures Holds(c, h) <==> exists m: nat :: HeldWindow(c, h, m)
  {
    var n := Streak(c, h);
    hide Streak, AllGood, HeldMinutes;
    StreakIsWindow(c, h, n);
    if Holds(c, h) {
      assert HeldWindow(c, h, n);
    }
    if m: nat :| HeldWindow(c, h, m) {
      StreakIsWindow(c, h, m);
      LongerHolds(c, m, n);
    }
  }

  // No step of a history but the last has failed or held long enough.
  predicate NotYet(c: Config, h: seq<Stepped>) {
    forall k | 0 < k < |h| :: StillOpen(c, h, k)
  }

  // After k steps nothing has been decided.
  predicate StillOpen(c: Config, h: seq<Stepped>, k: nat)
    requires 0 < k <= |h|
  {
    NoFailure(c, h[k - 1]) && !Holds(c, h[..k])
  }

  lemma EarlierIsNotYet(c: Config, plan: Plan, h: seq<Stepped>)
    requires Defined(c) && IsRun(c, plan, h)
    ensures NotYet(c, h)
  {
    hide IsRun, Holds, NoFailure, Defined;
    forall k | 0 < k < |h|
      ensures StillOpen(c, h, k)
    {
      PrefixIsRun(c, plan, h, k);
      LastVerdict(c, plan, h[..k]);
    }
  }

  /** A run is stabilized exactly at the first step at which the conditions have held
      without a break for the hold time, no step so far having failed; it fails
      exactly at the first step with a hard failure. */
  lemma StabilizedExactly(c: Config, plan: Plan, h: seq<Stepped>)
    requires Defined(c) && IsRun(c, plan, h) && h != []
    ensures h[|h| - 1].verdict == Stabilized <==> exists m: nat :: HeldWindow(c, h, m)
    ensures h[|h| - 1].verdict == Failure <==> !NoFailure(c, h[|h| - 1])
    ensures NotYet(c, h)
  {
    LastVerdict(c, plan, h);
    EarlierIsNotYet(c, plan, h);
    HoldsIsWindow(c, h);
    hide IsRun, Holds, NoFailure, HeldWindow, NotYet;
  }
}
