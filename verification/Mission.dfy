// The persisted mission session record and the consistency rules that its
// validators enforce when a record is parsed. Instants are integer microseconds.
module Mission {
  import opened Wrappers

  type SessionId = nat
  type RunId = nat

  datatype Outcome = Stabilized | Failure | Rejected

  datatype Status = Ready | Triggering | BaselineReady | Replaying | Completed | Error

  // Members of the error-code enumeration; every member is a non-empty string.
  datatype ErrorCode = TriggerInterrupted | TriggerCancelled | TelemetryEmpty | Backend(code: nat)

  datatype Session = Session(
    id: SessionId,
    scenario: string,
    status: Status,
    createdAt: int,
    updatedAt: int,
    triggeredAt: Option<int>,
    runId: Option<RunId>,
    outcome: Option<Outcome>,
    sampleCount: Option<int>,
    replayStartedAt: Option<int>,
    intervalMs: Option<int>,
    errorCode: Option<ErrorCode>)

  predicate Chronological(s: Session)
  {
    && s.createdAt <= s.updatedAt
    && (s.triggeredAt.Some? ==> s.createdAt <= s.triggeredAt.value)
    && (s.replayStartedAt.Some? ==> s.triggeredAt.Some? && s.triggeredAt.value <= s.replayStartedAt.value)
  }

  predicate BaselineLinked(s: Session)
  {
    && s.triggeredAt.Some? && s.runId.Some? && s.outcome.Some?
    && s.sampleCount.Some? && 0 < s.sampleCount.value
  }

  predicate NoBaseline(s: Session)
  {
    s.runId.None? && s.outcome.None? && s.sampleCount.None?
  }

  predicate NoReplay(s: Session)
  {
    s.replayStartedAt.None? && s.intervalMs.None?
  }

  predicate StatusFields(s: Session)
  {
    match s.status
    case Ready => s.triggeredAt.None? && NoBaseline(s) && NoReplay(s) && s.errorCode.None?
    case Triggering => s.triggeredAt.Some? && NoBaseline(s) && NoReplay(s) && s.errorCode.None?
    case BaselineReady => BaselineLinked(s) && NoReplay(s) && s.errorCode.None?
    case Replaying => BaselineLinked(s) && ReplayFields(s) && s.errorCode.None?
    case Completed => BaselineLinked(s) && ReplayFields(s) && s.errorCode.None?
    case Error => s.errorCode.Some?
  }

  predicate ReplayFields(s: Session)
  {
    s.replayStartedAt.Some? && s.intervalMs.Some? && 0 < s.intervalMs.value
  }

  /** What parsing a stored record demands. Field edits in the services copy the
      record without evaluating this, so keeping it is up to each edit. */
  predicate Consistent(s: Session)
  {
    Chronological(s) && StatusFields(s)
  }

  // The edits that the services make, one per transition.

  function NewSession(id: SessionId, scenario: string, now: int): Session {
    Session(id, scenario, Ready, now, now, None, None, None, None, None, None, None)
  }

  function MarkTriggering(s: Session, now: int): Session {
    s.(status := Triggering, triggeredAt := Some(now), updatedAt := now, errorCode := None)
  }

  function LinkBaseline(s: Session, now: int, runId: RunId, outcome: Outcome, samples: int): Session {
    s.(status := BaselineReady, updatedAt := now, runId := Some(runId), outcome := Some(outcome),
       sampleCount := Some(samples), errorCode := None)
  }

  function MarkError(s: Session, now: int, code: ErrorCode): Session {
    s.(status := Error, updatedAt := now, errorCode := Some(code))
  }

  function MarkEmptyBaseline(s: Session, now: int, runId: RunId, outcome: Outcome): Session {
    s.(status := Error, updatedAt := now, runId := Some(runId), outcome := Some(outcome),
       sampleCount := None, errorCode := Some(TelemetryEmpty))
  }

  function MarkReplaying(s: Session, now: int, intervalMs: int): Session {
    s.(status := Replaying, replayStartedAt := Some(now), intervalMs := Some(intervalMs),
       updatedAt := now, errorCode := None)
  }

  function MarkCompleted(s: Session, now: int): Session {
    s.(status := Completed, updatedAt := now, errorCode := None)
  }

  // The status from which each edit is made.
  predicate AwaitsTrigger(s: Session) { Consistent(s) && s.status == Ready }

  predicate AwaitsBaseline(s: Session) { Consistent(s) && s.status == Triggering }

  predicate AwaitsEnd(s: Session) { Consistent(s) && s.status == Replaying }

  predicate AwaitsReplay(s: Session) { Consistent(s) && (s.status == BaselineReady || s.status == Completed) }

  /** An edit made from its own status leaves a record that parses exactly when the clock
      has not gone back: behind the creation of the session or, for a replay start, behind
      its trigger. */
  lemma EditsNeedForwardClock(s: Session, now: int, runId: RunId, outcome: Outcome, samples: int, code: ErrorCode,
                              intervalMs: int)
    requires 0 < samples && 0 < intervalMs
    ensures AwaitsTrigger(s) ==> (Consistent(MarkTriggering(s, now)) <==> s.createdAt <= now)
    ensures AwaitsBaseline(s) ==> (Consistent(LinkBaseline(s, now, runId, outcome, samples)) <==> s.createdAt <= now)
    ensures AwaitsBaseline(s) ==> (Consistent(MarkError(s, now, code)) <==> s.createdAt <= now)
    ensures AwaitsBaseline(s) ==> (Consistent(MarkEmptyBaseline(s, now, runId, outcome)) <==> s.createdAt <= now)
    ensures AwaitsReplay(s) ==> (Consistent(MarkReplaying(s, now, intervalMs)) <==> s.triggeredAt.value <= now)
    ensures AwaitsEnd(s) ==> (Consistent(MarkCompleted(s, now)) <==> s.createdAt <= now)
  {
  }

  /** Everything the services raise. CasConflict is the store's refusal of a stale
      compare-and-swap; StateConflict is a service's own status check. */
  datatype ServiceError =
    | NotFound
    | ScenarioRefused
    | Corrupt
    | StorageFailure
    | AlreadyExists
    | CasConflict
    | StateConflict
    | IntervalInvalid
    | Cancelled
    | SimulatorFailed(code: nat)
    | BaselineEmpty
    | Uncaught
    | ReplayNotStarted
    | ResultUnavailable
    | ResultMismatch
    | EventIdInvalid
}
