// Mission lifecycle service: creation, accident trigger, replay start and the
// recovery of sessions left TRIGGERING by an interrupted process.
module Lifecycle {
  import opened Wrappers
  import opened Mission
  import Store = SessionStore

  // Configured bounds of the replay interval.
  datatype Intervals = Intervals(min: int, default: int, max: int)

  predicate ValidIntervals(c: Intervals)
  {
    0 < c.min <= c.default <= c.max
  }

  // How the awaited simulator call ends.
  datatype SimOutcome =
    | Ran(runId: RunId, outcome: Outcome, samples: nat)
    | BackendFailed(code: nat)
    | WasCancelled
    | Unexpected

  function BeginTrigger(records: Store.Records, id: SessionId, now: int, readOk: bool, disk: Store.Disk)
    : (Store.Records, Result<Session, ServiceError>)
  {
    var read := Store.ReadRecord(records, id, readOk);
    if read.Err? then (records, read)
    else if read.value.status != Ready then (records, Err(StateConflict))
    else Store.ReplaceIn(records, MarkTriggering(read.value, now), Ready, read.value.updatedAt, disk)
  }

  // A failure to store the ERROR record replaces the original failure.
  function PersistError(records: Store.Records, triggering: Session, failed: Session,
                        original: ServiceError, disk: Store.Disk)
    : (Store.Records, Result<Session, ServiceError>)
  {
    var (written, r) := Store.ReplaceIn(records, failed, Triggering, triggering.updatedAt, disk);
    (written, Err(if r.Ok? then original else StorageFailure))
  }

  function FinishTrigger(records: Store.Records, triggering: Session, sim: SimOutcome, now: int, disk: Store.Disk)
    : (Store.Records, Result<Session, ServiceError>)
  {
    match sim
    case WasCancelled =>
      PersistError(records, triggering, MarkError(triggering, now, TriggerCancelled), Cancelled, disk)
    case BackendFailed(code) =>
      PersistError(records, triggering, MarkError(triggering, now, Backend(code)), SimulatorFailed(code), disk)
    case Unexpected => (records, Err(Uncaught))
    case Ran(runId, outcome, samples) =>
      if samples == 0 then
        PersistError(records, triggering, MarkEmptyBaseline(triggering, now, runId, outcome), BaselineEmpty, disk)
      else
        Store.ReplaceIn(records, LinkBaseline(triggering, now, runId, outcome, samples),
                        Triggering, triggering.updatedAt, disk)
  }

  function ReplayStartIn(cfg: Intervals, records: Store.Records, id: SessionId, interval: Option<int>, restart: bool,
                       now: int, readOk: bool, disk: Store.Disk)
    : (Store.Records, Result<Session, ServiceError>)
  {
    var read := Store.ReadRecord(records, id, readOk);
    if read.Err? then (records, read)
    else
      var s := read.value;
      var ms := if interval.Some? then interval.value else cfg.default;
      if !(cfg.min <= ms <= cfg.max) then (records, Err(IntervalInvalid))
      else if s.status == BaselineReady || (s.status == Completed && restart) then
        Store.ReplaceIn(records, MarkReplaying(s, now, ms), s.status, s.updatedAt, disk)
      else (records, Err(StateConflict))
  }

  // What the environment answers while one session is reconciled.
  datatype Attempt = Attempt(now: int, readOk: bool, disk: Store.Disk, rereadOk: bool)

  datatype Verdict = SeenCorrupt | Untouched | Recovered | Conflicted | Raised(error: ServiceError)

  function ReconcileOne(records: Store.Records, id: SessionId, io: Attempt): (Store.Records, Verdict) {
    var read := Store.ReadRecord(records, id, io.readOk);
    if read.Err? then (records, SeenCorrupt)
    else if read.value.status != Triggering then (records, Untouched)
    else
      var s := read.value;
      var (written, r) := Store.ReplaceIn(records, MarkError(s, io.now, TriggerInterrupted),
                                          Triggering, s.updatedAt, io.disk);
      if r.Ok? then (written, Recovered)
      else if r.error != CasConflict then (written, Raised(r.error))
      else if Store.ReadRecord(written, id, io.rereadOk).Err? then (written, SeenCorrupt)
      else (written, Conflicted)
  }

  datatype Summary = Summary(seen: nat, recovered: nat, untouched: nat, corrupt: nat, conflicts: nat)

  function Tally(t: Summary, v: Verdict): Summary {
    match v
    case SeenCorrupt => t.(seen := t.seen + 1, corrupt := t.corrupt + 1)
    case Untouched => t.(seen := t.seen + 1, untouched := t.untouched + 1)
    case Recovered => t.(seen := t.seen + 1, recovered := t.recovered + 1)
    case Conflicted => t.(seen := t.seen + 1, conflicts := t.conflicts + 1)
    case Raised(_) => t.(seen := t.seen + 1)
  }

  /** The startup sweep as a fold over the listed sessions; an error other than a
      conflict ends it. */
  function Sweep(records: Store.Records, ids: seq<SessionId>, io: seq<Attempt>, t: Summary)
    : (Store.Records, Result<Summary, ServiceError>)
    requires |ids| == |io|
  {
    if ids == [] then (records, Ok(t))
    else
      var (written, v) := ReconcileOne(records, ids[0], io[0]);
      if v.Raised? then (written, Err(v.error))
      else Sweep(written, ids[1..], io[1..], Tally(t, v))
  }

  predicate IsTriggering(records: Store.Records, id: SessionId)
  {
    var r := Store.ReadRecord(records, id, true);
    r.Ok? && r.value.status == Triggering
  }

  lemma ReconcileOneSettles(records: Store.Records, id: SessionId, io: Attempt)
    ensures var (written, v) := ReconcileOne(records, id, io);
      && v != Conflicted
      && (v == Recovered <==> io.readOk && IsTriggering(records, id) && !v.Raised?)
      && (io.readOk && !v.Raised? ==> !IsTriggering(written, id))
      && (forall other :: IsTriggering(written, other) ==> IsTriggering(records, other))
      && (!IsTriggering(records, id) ==> written == records)
      && written - {id} == records - {id}
  {
  }

  // How many of the listed sessions the sweep finds readable and TRIGGERING.
  function CountTriggering(records: Store.Records, ids: seq<SessionId>, io: seq<Attempt>): nat
    requires |ids| == |io|
  {
    if ids == [] then 0
    else
      var here := if io[0].readOk && IsTriggering(records, ids[0]) then 1 else 0;
      here + CountTriggering(ReconcileOne(records, ids[0], io[0]).0, ids[1..], io[1..])
  }

  /** A sweep that returns normally counts every session exactly once, never meets a
      conflict, has recovered exactly the readable TRIGGERING ones, and leaves no
      session it could read in TRIGGERING. It never puts a session into TRIGGERING
      and never touches a session that is not TRIGGERING. */
  lemma {:induction false} SweepSettles(records: Store.Records, ids: seq<SessionId>, io: seq<Attempt>, t: Summary)
    requires |ids| == |io|
    ensures var (written, r) := Sweep(records, ids, io, t);
      && (r.Ok? ==>
            && r.value.seen == t.seen + |ids|
            && r.value.seen - t.seen == (r.value.recovered - t.recovered) + (r.value.untouched - t.untouched)
                                      + (r.value.corrupt - t.corrupt)
            && r.value.conflicts == t.conflicts
            && r.value.recovered == t.recovered + CountTriggering(records, ids, io)
            && (forall i | 0 <= i < |ids| && io[i].readOk :: !IsTriggering(written, ids[i])))
      && (forall id :: IsTriggering(written, id) ==> IsTriggering(records, id))
      && (forall id | id in records && !IsTriggering(records, id) :: id in written && written[id] == records[id])
  {
    if ids != [] {
      var (first, v) := ReconcileOne(records, ids[0], io[0]);
      ReconcileOneSettles(records, ids[0], io[0]);
      forall id | id in records && !IsTriggering(records, id)
        ensures id in first && first[id] == records[id]
      {
        if id != ids[0] {
          assert id in records - {ids[0]} && id in first - {ids[0]};
          assert (records - {ids[0]})[id] == (first - {ids[0]})[id];
        }
      }
      if !v.Raised? {
        SweepSettles(first, ids[1..], io[1..], Tally(t, v));
        var written := Sweep(records, ids, io, t).0;
        forall i | 0 <= i < |ids| && io[i].readOk && Sweep(records, ids, io, t).1.Ok?
          ensures !IsTriggering(written, ids[i])
        {
          if i != 0 {
            assert ids[i] == ids[1..][i - 1] && io[i] == io[1..][i - 1];
          }
        }
      }
    }
  }

  /** The edits are not validated before they are stored, so a wall clock that has
      stepped back behind the trigger time makes replay start store a record that
      no later request can parse. With a working disk an allowed start succeeds if
      and only if the clock has not done so. */
  lemma ReplayStartNeedsForwardClock(cfg: Intervals, records: Store.Records, s: Session, interval: Option<int>,
                                     now: int)
    requires ValidIntervals(cfg) && Consistent(s)
    requires s.id in records && records[s.id] == Store.Record(s)
    requires s.status == BaselineReady || s.status == Completed
    requires interval.Some? ==> cfg.min <= interval.value <= cfg.max
    ensures var (written, r) :=
        ReplayStartIn(cfg, records, s.id, interval, true, now, true, Store.Disk(true, true, true));
      && (r.Ok? <==> s.triggeredAt.value <= now)
      && (r.Err? ==> r.error == Corrupt && Store.ReadRecord(written, s.id, true) == Err(Corrupt))
  {
  }

  class MissionLifecycleService {
    const store: Store.SessionStore
    const intervals: Intervals

    constructor (store: Store.SessionStore, intervals: Intervals)
      requires ValidIntervals(intervals)
      ensures this.store == store && this.intervals == intervals
    {
      this.store := store;
      this.intervals := intervals;
    }

    method CreateSession(id: SessionId, scenario: string, resolved: bool, now: int, disk: Store.Disk)
      returns (r: Result<Session, ServiceError>)
      modifies store
      ensures if resolved then (store.records, r) == Store.CreateIn(old(store.records), NewSession(id, scenario, now), disk)
              else store.records == old(store.records) && r == Err(ScenarioRefused)
    {
      if !resolved {
        return Err(ScenarioRefused);
      }
      r := store.CreateSession(NewSession(id, scenario, now), disk);
    }

    method TriggerAccident(id: SessionId, triggerAt: int, readOk: bool, disk1: Store.Disk,
                           sim: SimOutcome, completionAt: int, disk2: Store.Disk)
      returns (r: Result<Session, ServiceError>)
      modifies store
      ensures var (begun, b) := BeginTrigger(old(store.records), id, triggerAt, readOk, disk1);
        if b.Err? then store.records == begun && r == b
        else (store.records, r) == FinishTrigger(begun, b.value, sim, completionAt, disk2)
    {
      var session := store.ReadSession(id, readOk);
      if session.Err? {
        return session;
      }
      if session.value.status != Ready {
        return Err(StateConflict);
      }
      var swapped := store.ReplaceSession(
        MarkTriggering(session.value, triggerAt), Ready, session.value.updatedAt, disk1);
      if swapped.Err? {
        return swapped;
      }
      var triggering := swapped.value;
      match sim {
        case WasCancelled =>
          r := PersistTriggerError(triggering, MarkError(triggering, completionAt, TriggerCancelled), Cancelled, disk2);
        case BackendFailed(code) =>
          r := PersistTriggerError(triggering, MarkError(triggering, completionAt, Backend(code)),
                                   SimulatorFailed(code), disk2);
        case Unexpected =>
          r := Err(Uncaught);
        case Ran(runId, outcome, samples) =>
          if samples == 0 {
            r := PersistTriggerError(triggering, MarkEmptyBaseline(triggering, completionAt, runId, outcome),
                                     BaselineEmpty, disk2);
          } else {
            r := store.ReplaceSession(LinkBaseline(triggering, completionAt, runId, outcome, samples),
                                      Triggering, triggering.updatedAt, disk2);
          }
      }
    }

    method PersistTriggerError(triggering: Session, failed: Session, original: ServiceError, disk: Store.Disk)
      returns (r: Result<Session, ServiceError>)
      modifies store
      ensures (store.records, r) == PersistError(old(store.records), triggering, failed, original, disk)
    {
      var swapped := store.ReplaceSession(failed, Triggering, triggering.updatedAt, disk);
      r := Err(if swapped.Ok? then original else StorageFailure);
    }

    method StartReplay(id: SessionId, interval: Option<int>, restart: bool, now: int, readOk: bool, disk: Store.Disk)
      returns (r: Result<Session, ServiceError>)
      modifies store
      ensures (store.records, r)
           == ReplayStartIn(intervals, old(store.records), id, interval, restart, now, readOk, disk)
    {
      var session := store.ReadSession(id, readOk);
      if session.Err? {
        return session;
      }
      var ms := intervals.default;
      if interval.Some? {
        ms := interval.value;
      }
      if !(intervals.min <= ms <= intervals.max) {
        return Err(IntervalInvalid);
      }
      var prior := session.value.status;
      if prior == BaselineReady {
      } else if prior == Completed {
        if !restart {
          return Err(StateConflict);
        }
      } else {
        return Err(StateConflict);
      }
      r := store.ReplaceSession(MarkReplaying(session.value, now, ms), prior, session.value.updatedAt, disk);
    }

    method ReconcileInterruptedSessions(ids: seq<SessionId>, io: seq<Attempt>)
      returns (r: Result<Summary, ServiceError>)
      requires |ids| == |io|
      modifies store
      ensures (store.records, r) == Sweep(old(store.records), ids, io, Summary(0, 0, 0, 0, 0))
    {
      var seen, recovered, untouched, corrupt, conflicts := 0, 0, 0, 0, 0;
      var i := 0;
      while i < |ids|
        invariant 0 <= i <= |ids|
        invariant seen >= 0 && recovered >= 0 && untouched >= 0 && corrupt >= 0 && conflicts >= 0
        invariant Sweep(old(store.records), ids, io, Summary(0, 0, 0, 0, 0))
               == Sweep(store.records, ids[i..], io[i..], Summary(seen, recovered, untouched, corrupt, conflicts))
      {
        var id, attempt := ids[i], io[i];
        assert ids[i..][1..] == ids[i + 1..] && io[i..][1..] == io[i + 1..];
        i := i + 1;
        seen := seen + 1;
        var session := store.ReadSession(id, attempt.readOk);
        if session.Err? {
          corrupt := corrupt + 1;
          continue;
        }
        if session.value.status != Triggering {
          untouched := untouched + 1;
          continue;
        }
        var swapped := store.ReplaceSession(
          MarkError(session.value, attempt.now, TriggerInterrupted), Triggering, session.value.updatedAt, attempt.disk);
        if swapped.Err? && swapped.error == CasConflict {
          var current := store.ReadSession(id, attempt.rereadOk);
          if current.Err? {
            corrupt := corrupt + 1;
          } else {
            conflicts := conflicts + 1;
          }
          continue;
        }
        if swapped.Err? {
          return Err(swapped.error);
        }
        recovered := recovered + 1;
      }
      r := Ok(Summary(seen, recovered, untouched, corrupt, conflicts));
    }
  }
}
