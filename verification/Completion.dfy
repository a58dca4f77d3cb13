// When a run breaks off, and that otherwise it goes on to its end.
module Completion {
  import opened Wrappers
  import opened Scenario
  import opened CrewPhysiology
  import opened Resources
  import Actions
  import EvaRun
  import LedgerRun
  import ActionRun
  import RunResult
  import opened SimulationRun

  // The profiles that a step of this member looks up.
  predicate Served(v: VitalConfig, m: Crew) {
    CountProfiles(v.profiles, m.activity) == 1 && (m.rationing ==> CountProfiles(v.profiles, Sleep) == 1)
  }

  /** Every activity has exactly one profile. */
  ghost predicate OneProfileEach(v: VitalConfig) {
    forall activity: Activity :: CountProfiles(v.profiles, activity) == 1
  }

  lemma MemberBreaksExactly(c: Config, env: Env, temperature: real, i: nat, m: Crew)
    requires Defined(c) && i < |c.roster|
    ensures MemberStage(c, env, temperature, i, m).Err? <==> !Served(c.vital, m)
  {
    LedgerRun.MemberIsSound(c, i);
    hide CountProfiles, Severities, UpdateExposure, UpdateFatigue, UpdateMetabolism, UpdateVitals, UpdatePerformance,
      UpdateHealth, DtMinutes, Sound, Defined;
  }

  lemma {:induction false} CrewBreaksExactly(c: Config, env: Env, temperature: real, crew: seq<Crew>, n: nat)
    requires Defined(c) && |crew| == |c.roster| && n <= |crew|
    ensures CrewUpTo(c, env, temperature, crew, n).Err? <==> exists i :: 0 <= i < n && !Served(c.vital, crew[i])
  {
    hide MemberStage, Served, Defined;
    if n > 0 {
      CrewBreaksExactly(c, env, temperature, crew, n - 1);
      MemberBreaksExactly(c, env, temperature, n - 1, crew[n - 1]);
    }
  }

  /** A step breaks off exactly when, after the scheduled actions, some member needs a
      profile that is missing or not the only one. */
  lemma StepBreaksExactly(c: Config, plan: Plan, s: State, held: real)
    requires Defined(c) && |s.crew| == |c.roster|
    ensures var a := Actions.ApplyScheduled(c, plan, s).state;
      Step(c, plan, s, held).Err? <==> exists i :: 0 <= i < |a.crew| && !Served(c.vital, a.crew[i])
  {
    var a := Actions.ApplyScheduled(c, plan, s).state;
    Actions.ScheduledKeepsCrew(c, plan, s, |plan|);
    hide Actions.ApplyUpTo, Finish, Read, EnvOf, Transitions, Served, CrewUpTo;
    CrewBreaksExactly(c, EnvOf(Read(c, a)), a.temperature, a.crew, |a.crew|);
  }

  lemma {:induction false} CrewStarts(v: VitalConfig, roster: seq<CrewConfig>)
    requires OneProfileEach(v)
    ensures InitialCrew(v, roster).Ok?
  {
    if roster != [] {
      CrewStarts(v, roster[..|roster| - 1]);
    }
  }

  lemma StepSucceeds(c: Config, plan: Plan, s: State, held: real)
    requires Defined(c) && |s.crew| == |c.roster| && OneProfileEach(c.vital)
    ensures Step(c, plan, s, held).Ok?
  {
    hide Step, CountProfiles;
    StepBreaksExactly(c, plan, s, held);
    hide Actions.ApplyScheduled;
  }

  /** With one profile for each activity every run can be continued, so it never breaks
      off before its end. */
  lemma RunGoesOn(c: Config, plan: Plan, h: seq<Stepped>)
    requires Defined(c) && OneProfileEach(c.vital) && IsRun(c, plan, h) && (h != [] ==> GoesOn(c, h[|h| - 1]))
    ensures exists x :: Follows(c, plan, h, x) && IsRun(c, plan, h + [x])
  {
    hide OneProfileEach, Step, GoesOn, Defined;
    CrewStarts(c.vital, c.roster);
    ActionRun.RunIsOnGrid(c, plan, h);
    hide IsRun;
    FullCrew(c, plan, h);
    StepSucceeds(c, plan, NextState(c, h).value, NextHeld(h));
    var x := Step(c, plan, NextState(c, h).value, NextHeld(h)).value;
    Extended(c, plan, h, x);
  }

  lemma FullCrew(c: Config, plan: Plan, h: seq<Stepped>)
    requires Defined(c) && NextState(c, h).Ok? && ActionRun.OnGrid(c, plan, NextState(c, h).value)
    ensures |NextState(c, h).value.crew| == |c.roster|
  {
  }

  lemma Extended(c: Config, plan: Plan, h: seq<Stepped>, x: Stepped)
    requires Defined(c) && IsRun(c, plan, h) && (h != [] ==> GoesOn(c, h[|h| - 1])) && Follows(c, plan, h, x)
    ensures IsRun(c, plan, h + [x])
  {
    hide Follows, GoesOn;
    assert (h + [x])[..|h|] == h;
  }

  /** From any point of a run its end can be reached: under one profile for each
      activity every scenario and plan has a run that has ended. */
  lemma {:induction false} EndIsReached(c: Config, plan: Plan, h: seq<Stepped>) returns (whole: seq<Stepped>)
    requires Defined(c) && OneProfileEach(c.vital) && IsRun(c, plan, h) && 0 < c.maximumDuration
    ensures IsRun(c, plan, whole) && RunResult.Ended(c, whole) && h <= whole
    decreases c.maximumDuration / StepMinutes(c) + 3 - |h|
  {
    hide IsRun, OneProfileEach, Follows, StepMinutes;
    RunResult.RunIsShort(c, plan, h);
    if RunResult.Ended(c, h) {
      whole := h;
    } else {
      RunGoesOn(c, plan, h);
      var x :| Follows(c, plan, h, x) && IsRun(c, plan, h + [x]);
      RunResult.RunIsShort(c, plan, h + [x]);
      whole := EndIsReached(c, plan, h + [x]);
    }
  }
}
