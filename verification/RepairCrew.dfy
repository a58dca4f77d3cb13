// Whom a repair sends out: validation and the executor read the crew fields of an
// action in different orders.
module RepairCrew {
  import opened Wrappers
  import opened Scenario
  import opened Actions
  import opened Resources
  import opened Evaluation
  import opened SimulationRun
  import EvaMachine
  import EvaRun
  import StabilizationRun

  /** Both take the same member exactly when the EVA field is set, or one of the two other
      sources is empty, or both name the same member. */
  lemma ResolversAgreeExactly(a: Action)
    ensures ValidatedEvaCrew(a) == EvaCrewOf(a) <==>
      || OrEmpty(a.evaCrewId) != NoName || a.assignedIds == [] || OrEmpty(a.crewId) == NoName
      || OrEmpty(a.crewId) == a.assignedIds[0]
  {
  }

  // A member of the roster who may go out.
  predicate Sendable(c: Config, id: Name) {
    id != NoName && FindMember(c.roster, id).Some? && FindMember(c.roster, id).value.evaQualified
  }

  /** The start guard on the roster: the executor's member, not the validated one, decides. */
  lemma UnsendableNeverStarts(c: Config, a: Action, k: nat, s: State)
    requires a.kind == RepairSolarArray && !Sendable(c, EvaCrewOf(a))
    ensures Start(c, a, k, s) == FailedStart(s, a, k)
  {
    hide FindCrew, FindMember, EvaCrewOf;
  }

  /** A validated repair may still name a member who cannot be sent, but only where the two
      orders differ. */
  lemma ValidatedIsSendable(c: Config, a: Action)
    requires a.kind == RepairSolarArray && ValidAction(c, a)
    ensures Sendable(c, ValidatedEvaCrew(a))
    ensures ValidatedEvaCrew(a) == EvaCrewOf(a) ==> Sendable(c, EvaCrewOf(a))
  {
    hide FindMember, ValidatedEvaCrew, EvaCrewOf;
  }

  // A repair by a member, with another one assigned.
  function RepairBy(member: Name, other: Name, start: int): Action {
    Action(RepairSolarArray, start, None, None, None, None, None, Some(member), None, [other], [], [])
  }

  /** A valid plan whose repair fails at every start: the named member is qualified, the
      assigned one is unknown or not qualified. */
  lemma ValidPlanSendsTheWrongMember(c: Config, member: Name, other: Name, start: int, k: nat, s: State)
    requires 0 <= start <= c.maximumDuration && c.eva.available && Sendable(c, member) && !Sendable(c, other)
    ensures var a := RepairBy(member, other, start);
      ValidPlan(c, [a]) && Start(c, a, k, s) == FailedStart(s, a, k)
  {
    var a := RepairBy(member, other, start);
    assert ValidatedEvaCrew(a) == member && EvaCrewOf(a) == other;
    hide FindMember;
    assert ValidAction(c, a);
    assert forall i | 0 <= i < |[a]| :: [a][i] == a;
    UnsendableNeverStarts(c, a, k, s);
  }

  // ---------- Over whole runs ----------

  predicate NothingCanStart(c: Config, plan: Plan) {
    forall k | 0 <= k < |plan| :: plan[k].kind == RepairSolarArray && !Sendable(c, EvaCrewOf(plan[k]))
  }

  predicate AllFailed(actions: seq<Record>) {
    forall r | r in actions :: r.status == Failed
  }

  lemma {:induction false} ScheduledFails(c: Config, plan: Plan, s: State, n: nat)
    requires NothingCanStart(c, plan) && n <= |plan| && AllFailed(s.actions)
    ensures var t := ApplyUpTo(c, plan, n, s).state;
      AllFailed(t.actions) && t.crew == s.crew
  {
    hide Start, Due, Sendable, EvaCrewOf;
    if n > 0 {
      ScheduledFails(c, plan, s, n - 1);
      UnsendableNeverStarts(c, plan[n - 1], n - 1, ApplyUpTo(c, plan, n - 1, s).state);
    }
  }

  lemma {:induction false} FollowsNothing(c: Config, s: State, n: nat, minutes: int)
    requires n <= |s.actions| && AllFailed(s.actions)
    ensures FollowUpTo(c, n, minutes, s).state == s
  {
    if n > 0 {
      FollowsNothing(c, s, n - 1, minutes);
      assert s.actions[n - 1] in s.actions;
      assert s.actions[n - 1 := s.actions[n - 1]] == s.actions;
    }
  }

  lemma RestFails(c: Config, r: State)
    requires Defined(c) && AllFailed(r.actions)
    ensures AllFailed(AbortAll(AfterActions(c, r)).actions)
  {
    var p := PhysicsStage(c, r);
    EvaRun.PhysicsStaysOutside(c, r);
    hide PhysicsStage;
    var w := AfterWalk(c, r);
    assert w.actions == r.actions by { hide EvaMachine.EvaStep, EvaMachine.FirstOnEva, DtMinutes; }
    FollowsNothing(c, w, |w.actions|, Truncate(DtMinutes(c)));
    hide FollowUpTo, EvaMachine.EvaStage, DtMinutes, AllFailed;
  }

  lemma StepFails(c: Config, plan: Plan, s: State, held: real)
    requires Defined(c) && NothingCanStart(c, plan) && |s.crew| == |c.roster| && Step(c, plan, s, held).Ok?
    requires AllFailed(s.actions)
    ensures AllFailed(Step(c, plan, s, held).value.state.actions)
  {
    var a, r := StepStages(c, plan, s, held);
    hide Step;
    ScheduledFails(c, plan, s, |plan|);
    RestFails(c, r);
    hide ApplyUpTo, CrewStage, AfterActions, AbortAll, AllFailed, NothingCanStart, Read, Reasons;
  }

  /** In every run of a plan of such repairs each record is a failed one. */
  lemma {:induction false} WrongMemberFailsInRun(c: Config, plan: Plan, h: seq<Stepped>)
    requires Defined(c) && NothingCanStart(c, plan) && IsRun(c, plan, h)
    ensures forall x | x in h :: AllFailed(x.state.actions)
    ensures NextState(c, h).Ok? ==> AllFailed(NextState(c, h).value.actions)
  {
    hide Step, GoesOn, NothingCanStart, Defined, AllFailed;
    if h == [] {
      NoRecordsAtFirst(c);
    } else {
      var g := h[..|h| - 1];
      WrongMemberFailsInRun(c, plan, g);
      StepFails(c, plan, NextState(c, g).value, NextHeld(g));
    }
  }

  lemma NoRecordsAtFirst(c: Config)
    ensures Initial(c).Ok? ==> AllFailed(Initial(c).value.actions)
  {
  }
}
