// The running backend as a transition system. Every action is one atomic segment
// of a request under its session lock; the segments of any number of requests,
// streams, crashes and recoveries interleave freely.
module MissionProtocol {
  import opened Wrappers
  import opened Mission
  import Clock = ReplayClock
  import Store = SessionStore
  import Life = Lifecycle
  import opened TelemetryReplay

  // ---------- State ----------

  datatype World<!T> = World(results: Results<T>, intervals: Life.Intervals)

  // A trigger request that has stored TRIGGERING and still holds the session lock.
  datatype Pending = Pending(record: Session, invoked: bool)

  datatype Delivery<T> = Delivery(event: Event<T>, at: int)

  // A stream consumer: the id it resumes from, the undelivered rest of its current
  // batch, and everything it has received so far.
  datatype Client<T> = Client(session: SessionId, cursor: Option<string>, connected: bool,
                              queue: seq<Event<T>>, delivered: seq<Delivery<T>>)

  type ClientId = nat

  datatype System<T> = System(
    now: int,
    records: Store.Records,
    pending: map<SessionId, Pending>,
    invocations: multiset<SessionId>,
    clients: map<ClientId, Client<T>>)

  datatype Action =
    | Tick(us: nat)
    | Damage(id: SessionId)
    | Crash
    | Create(id: SessionId, scenario: string, disk: Store.Disk)
    | BeginTrigger(id: SessionId, readOk: bool, disk: Store.Disk)
    | Invoke(id: SessionId)
    | FinishTrigger(id: SessionId, sim: Life.SimOutcome, disk: Store.Disk)
    | StartReplay(id: SessionId, interval: Option<int>, restart: bool, readOk: bool, disk: Store.Disk)
    | Reconcile(id: SessionId, readOk: bool, disk: Store.Disk, rereadOk: bool)
    | Poll(id: SessionId, readOk: bool, disk: Store.Disk)
    | Join(client: ClientId, id: SessionId, cursor: Option<string>)
    | Connect(client: ClientId)
    | Fetch(client: ClientId, readOk: bool, disk: Store.Disk)
    | Deliver(client: ClientId)
    | Drop(client: ClientId)

  function Idle<T>(c: Client<T>): Client<T> {
    c.(connected := false, queue := [])
  }

  function ErrorOf<T>(r: Result<T, ServiceError>): Option<ServiceError> {
    if r.Ok? then None else Some(r.error)
  }

  /** One atomic step and the error it answers. An operation on a locked session
      waits, so it does nothing. */
  function Exec<T>(w: World<T>, sys: System<T>, act: Action): (System<T>, Option<ServiceError>) {
    match act
    case Tick(us) => (sys.(now := sys.now + us), None)
    case Damage(id) =>
      if id in sys.records then (sys.(records := sys.records[id := Store.Damaged]), None) else (sys, None)
    case Crash =>
      (sys.(pending := map[], clients := map c | c in sys.clients :: Idle(sys.clients[c])), None)
    case Create(id, scenario, disk) =>
      var (written, r) := Store.CreateIn(sys.records, NewSession(id, scenario, sys.now), disk);
      (sys.(records := written), ErrorOf(r))
    case BeginTrigger(id, readOk, disk) =>
      if id in sys.pending then (sys, None)
      else
        var (written, r) := Life.BeginTrigger(sys.records, id, sys.now, readOk, disk);
        var held := if r.Ok? then sys.pending[id := Pending(r.value, false)] else sys.pending;
        (sys.(records := written, pending := held), ErrorOf(r))
    case Invoke(id) =>
      if id !in sys.pending || sys.pending[id].invoked then (sys, None)
      else (sys.(pending := sys.pending[id := sys.pending[id].(invoked := true)],
                 invocations := sys.invocations + multiset{id}), None)
    case FinishTrigger(id, sim, disk) =>
      if id !in sys.pending || !sys.pending[id].invoked then (sys, None)
      else
        var (written, r) := Life.FinishTrigger(sys.records, sys.pending[id].record, sim, sys.now, disk);
        (sys.(records := written, pending := sys.pending - {id}), ErrorOf(r))
    case StartReplay(id, interval, restart, readOk, disk) =>
      if id in sys.pending then (sys, None)
      else
        var (written, r) := Life.ReplayStartIn(w.intervals, sys.records, id, interval, restart, sys.now, readOk, disk);
        (sys.(records := written), ErrorOf(r))
    case Reconcile(id, readOk, disk, rereadOk) =>
      if id in sys.pending then (sys, None)
      else
        var (written, v) := Life.ReconcileOne(sys.records, id, Life.Attempt(sys.now, readOk, disk, rereadOk));
        (sys.(records := written),
         if v.Raised? then Some(v.error) else if v.Conflicted? then Some(CasConflict) else None)
    case Poll(id, readOk, disk) =>
      if id in sys.pending then (sys, None)
      else
        var (written, r) := LoadContext(sys.records, w.results, id, sys.now, readOk, disk);
        (sys.(records := written), ErrorOf(r))
    case Join(c, id, cursor) =>
      if c in sys.clients then (sys, None)
      else (sys.(clients := sys.clients[c := Client(id, cursor, false, [], [])]), None)
    case Connect(c) =>
      if c !in sys.clients then (sys, None)
      else (sys.(clients := sys.clients[c := sys.clients[c].(connected := true)]), None)
    case Fetch(c, readOk, disk) =>
      if c !in sys.clients || !sys.clients[c].connected || sys.clients[c].queue != []
         || sys.clients[c].session in sys.pending then (sys, None)
      else
        var client := sys.clients[c];
        var (written, r) := DueEvents(sys.records, w.results, client.session, client.cursor, sys.now, readOk, disk);
        var next := if r.Ok? then client.(queue := r.value.events) else Idle(client);
        (sys.(records := written, clients := sys.clients[c := next]), ErrorOf(r))
    case Deliver(c) =>
      if c !in sys.clients || !sys.clients[c].connected || sys.clients[c].queue == [] then (sys, None)
      else
        var client := sys.clients[c];
        var event := client.queue[0];
        var next := client.(cursor := Some(ToDecimal(event.sequence)), queue := client.queue[1..],
                            delivered := client.delivered + [Delivery(event, sys.now)]);
        (sys.(clients := sys.clients[c := next]), None)
    case Drop(c) =>
      if c !in sys.clients then (sys, None)
      else (sys.(clients := sys.clients[c := Idle(sys.clients[c])]), None)
  }

  function Run<T>(w: World<T>, sys: System<T>, acts: seq<Action>): System<T>
    decreases acts
  {
    if acts == [] then sys else Run(w, Exec(w, sys, acts[0]).0, acts[1..])
  }

  function Init<T>(now: int): System<T> {
    System(now, map[], map[], multiset{}, map[])
  }

  // ---------- Invariant ----------

  predicate FinalSampleDue(s: Session, at: int) {
    && s.sampleCount.Some? && 0 < s.sampleCount.value
    && s.replayStartedAt.Some? && s.intervalMs.Some?
    && Clock.IsDue(s.sampleCount.value - 1, s.replayStartedAt.value, at, s.intervalMs.value)
  }

  /** A stored record parses, is not dated in the future, and is COMPLETED only
      once its last sample has fallen due. */
  predicate RecordOk(s: Session, id: SessionId, now: int) {
    && s.id == id
    && Consistent(s)
    && s.updatedAt <= now
    && (s.triggeredAt.Some? ==> s.triggeredAt.value <= now)
    && (s.status == Completed ==> FinalSampleDue(s, now))
  }

  predicate SessionOk<T>(sys: System<T>, id: SessionId) {
    && (id !in sys.records ==> id !in sys.pending && sys.invocations[id] == 0)
    && (id in sys.records && sys.records[id].Record? ==>
          var s := sys.records[id].session;
          && RecordOk(s, id, sys.now)
          && (s.status == Ready ==> id !in sys.pending && sys.invocations[id] == 0)
          && (id in sys.pending ==> s == sys.pending[id].record))
    && sys.invocations[id] <= 1
    && (id in sys.pending ==>
          var p := sys.pending[id];
          && p.record.status == Triggering
          && RecordOk(p.record, id, sys.now)
          && sys.invocations[id] == if p.invoked then 1 else 0)
  }

  ghost predicate SystemOk<T>(w: World<T>, sys: System<T>) {
    && Life.ValidIntervals(w.intervals)
    && forall id :: SessionOk(sys, id)
  }

  // ---------- Legal transitions ----------

  predicate Linked(s: Session) {
    s.status == BaselineReady || s.status == Replaying || s.status == Completed
  }

  predicate LegalEdge(a: Status, b: Status) {
    || a == b
    || (a == Ready && b == Triggering)
    || (a == Triggering && (b == BaselineReady || b == Error))
    || (a == BaselineReady && b == Replaying)
    || (a == Replaying && b == Completed)
    || (a == Completed && b == Replaying)
  }

  /** What one step may do to one record. */
  predicate LegalChange(s: Session, t: Session) {
    && LegalEdge(s.status, t.status)
    && (s.status == t.status ==> s == t)
    && Later(s, t)
  }

  /** What any number of steps may do to one record: identity and creation never
      change, READY is never entered again, ERROR is final, and the trigger time and
      the baseline link are frozen once they are set. */
  predicate Later(s: Session, t: Session) {
    && t.id == s.id && t.scenario == s.scenario && t.createdAt == s.createdAt
    && s.updatedAt <= t.updatedAt
    && (t.status == Ready ==> s == t)
    && (s.status == Error ==> s == t)
    && (s.triggeredAt.Some? ==> t.triggeredAt == s.triggeredAt)
    && (Linked(s) ==> Linked(t) && t.runId == s.runId && t.outcome == s.outcome && t.sampleCount == s.sampleCount)
  }

  /** A replacement inside a locked segment: nothing changes, or the one record makes
      a legal change and is valid at the current time. */
  predicate LegalWrite(before: Store.Records, after: Store.Records, id: SessionId, now: int) {
    || after == before
    || (&& id in before && before[id].Record? && id in after && after[id].Record?
        && after == before[id := after[id]]
        && before[id].session.status != after[id].session.status
        && LegalChange(before[id].session, after[id].session)
        && RecordOk(after[id].session, id, now))
  }

  lemma SwapIsLegal(records: Store.Records, s: Session, t: Session, disk: Store.Disk, now: int)
    requires s.id in records && records[s.id] == Store.Record(s) && RecordOk(s, s.id, now)
    requires s.status != t.status && LegalChange(s, t) && RecordOk(t, s.id, now)
    ensures var (written, r) := Store.ReplaceIn(records, t, s.status, s.updatedAt, disk);
      && LegalWrite(records, written, s.id, now)
      && r != Err(CasConflict)
      && (r.Ok? ==> r.value == t && written[s.id] == Store.Record(t))
  {
    Store.SwapAfterRead(records, s, t, disk);
  }

  lemma BeginTriggerIsLegal(records: Store.Records, id: SessionId, now: int, readOk: bool, disk: Store.Disk)
    requires id in records && records[id].Record? ==> RecordOk(records[id].session, id, now)
    ensures var (written, r) := Life.BeginTrigger(records, id, now, readOk, disk);
      && LegalWrite(records, written, id, now)
      && r != Err(CasConflict)
      && (r.Ok? ==>
            && id in records && records[id].Record? && records[id].session.status == Ready
            && r.value.status == Triggering && RecordOk(r.value, id, now)
            && id in written && written[id] == Store.Record(r.value))
  {
    var read := Store.ReadRecord(records, id, readOk);
    if read.Ok? && read.value.status == Ready {
      SwapIsLegal(records, read.value, MarkTriggering(read.value, now), disk, now);
    }
  }

  lemma FinishTriggerIsLegal(records: Store.Records, s: Session, sim: Life.SimOutcome, now: int, disk: Store.Disk)
    requires s.status == Triggering && RecordOk(s, s.id, now)
    requires s.id in records && records[s.id].Record? ==> records[s.id].session == s
    ensures var (written, r) := Life.FinishTrigger(records, s, sim, now, disk);
      LegalWrite(records, written, s.id, now) && r != Err(CasConflict)
  {
    if s.id in records && records[s.id].Record? && !sim.Unexpected? {
      var t := match sim
        case WasCancelled => MarkError(s, now, TriggerCancelled)
        case BackendFailed(code) => MarkError(s, now, Backend(code))
        case Ran(runId, outcome, samples) =>
          if samples == 0 then MarkEmptyBaseline(s, now, runId, outcome)
          else LinkBaseline(s, now, runId, outcome, samples);
      SwapIsLegal(records, s, t, disk, now);
    }
  }

  lemma StartReplayIsLegal(cfg: Life.Intervals, records: Store.Records, id: SessionId, interval: Option<int>,
                           restart: bool, now: int, readOk: bool, disk: Store.Disk)
    requires Life.ValidIntervals(cfg)
    requires id in records && records[id].Record? ==> RecordOk(records[id].session, id, now)
    ensures var (written, r) := Life.ReplayStartIn(cfg, records, id, interval, restart, now, readOk, disk);
      LegalWrite(records, written, id, now) && r != Err(CasConflict)
  {
    var read := Store.ReadRecord(records, id, readOk);
    var ms := if interval.Some? then interval.value else cfg.default;
    if read.Ok? && cfg.min <= ms <= cfg.max {
      var s := read.value;
      if s.status == BaselineReady || (s.status == Completed && restart) {
        SwapIsLegal(records, s, MarkReplaying(s, now, ms), disk, now);
      }
    }
  }

  lemma ReconcileIsLegal(records: Store.Records, id: SessionId, io: Life.Attempt)
    requires id in records && records[id].Record? ==> RecordOk(records[id].session, id, io.now)
    ensures var (written, v) := Life.ReconcileOne(records, id, io);
      LegalWrite(records, written, id, io.now) && v != Life.Conflicted && v != Life.Raised(CasConflict)
  {
    var read := Store.ReadRecord(records, id, io.readOk);
    if read.Ok? && read.value.status == Triggering {
      SwapIsLegal(records, read.value, MarkError(read.value, io.now, TriggerInterrupted), io.disk, io.now);
    }
  }

  lemma LoadContextIsLegal<T>(records: Store.Records, results: Results<T>, id: SessionId, now: int,
                              readOk: bool, disk: Store.Disk)
    requires id in records && records[id].Record? ==> RecordOk(records[id].session, id, now)
    ensures var (written, r) := LoadContext(records, results, id, now, readOk, disk);
      LegalWrite(records, written, id, now) && r != Err(CasConflict)
  {
    var read := Store.ReadRecord(records, id, readOk);
    if read.Ok? && read.value.status == Replaying {
      var s := read.value;
      var found := results(s.runId.value);
      if found.Some? && ResultMatches(s, found.value) {
        var count := |found.value.history|;
        Clock.IndexIsGreatestDue(s.replayStartedAt.value, now, s.intervalMs.value, count);
        if Clock.Locate(s.replayStartedAt.value, now, s.intervalMs.value, count).complete {
          SwapIsLegal(records, s, MarkCompleted(s, now), disk, now);
        }
      }
    }
  }

  // ---------- Every step keeps the invariant ----------

  lemma LegalWriteKeepsSystem<T>(w: World<T>, sys: System<T>, next: System<T>, id: SessionId)
    requires SystemOk(w, sys)
    requires LegalWrite(sys.records, next.records, id, sys.now)
    requires next.now == sys.now && next.invocations == sys.invocations
    requires next.pending == sys.pending && id !in sys.pending
    ensures SystemOk(w, next)
  {
    forall other ensures SessionOk(next, other) {
      assert SessionOk(sys, other);
      assert SessionOk(sys, id);
    }
  }

  /** Whether a step keeps every record that parses on a legal path. */
  ghost predicate RecordsAdvance(before: Store.Records, after: Store.Records) {
    forall id | id in before ::
      && id in after
      && (before[id].Damaged? ==> after[id].Damaged?)
      && (before[id].Record? && after[id].Record? ==> LegalChange(before[id].session, after[id].session))
  }

  ghost predicate StepSound<T>(w: World<T>, sys: System<T>, act: Action) {
    var (next, error) := Exec(w, sys, act);
    && SystemOk(w, next)
    && RecordsAdvance(sys.records, next.records)
    && sys.now <= next.now
    && error != Some(CasConflict)
  }

  lemma QuietStepIsSound<T>(w: World<T>, sys: System<T>, act: Action)
    requires SystemOk(w, sys)
    requires act.Tick? || act.Crash? || act.Join? || act.Connect? || act.Deliver? || act.Drop?
    ensures StepSound(w, sys, act)
  {
    var next := Exec(w, sys, act).0;
    forall id ensures SessionOk(next, id) { assert SessionOk(sys, id); }
  }

  lemma CreateOrDamageIsSound<T>(w: World<T>, sys: System<T>, act: Action)
    requires SystemOk(w, sys)
    requires act.Create? || act.Damage?
    ensures StepSound(w, sys, act)
  {
    var next := Exec(w, sys, act).0;
    forall id ensures SessionOk(next, id) { assert SessionOk(sys, id); }
  }

  lemma BeginTriggerIsSound<T>(w: World<T>, sys: System<T>, act: Action)
    requires SystemOk(w, sys)
    requires act.BeginTrigger?
    ensures StepSound(w, sys, act)
  {
    assert SessionOk(sys, act.id);
    if act.id !in sys.pending {
      BeginTriggerIsLegal(sys.records, act.id, sys.now, act.readOk, act.disk);
      var next := Exec(w, sys, act).0;
      forall other ensures SessionOk(next, other) { assert SessionOk(sys, other); }
    }
  }

  lemma InvokeIsSound<T>(w: World<T>, sys: System<T>, act: Action)
    requires SystemOk(w, sys)
    requires act.Invoke?
    ensures StepSound(w, sys, act)
  {
    var next := Exec(w, sys, act).0;
    forall other ensures SessionOk(next, other) { assert SessionOk(sys, other); }
  }

  lemma FinishTriggerIsSound<T>(w: World<T>, sys: System<T>, act: Action)
    requires SystemOk(w, sys)
    requires act.FinishTrigger?
    ensures StepSound(w, sys, act)
  {
    assert SessionOk(sys, act.id);
    if act.id in sys.pending && sys.pending[act.id].invoked {
      FinishTriggerIsLegal(sys.records, sys.pending[act.id].record, act.sim, sys.now, act.disk);
      var next := Exec(w, sys, act).0;
      forall other ensures SessionOk(next, other) { assert SessionOk(sys, other); }
    }
  }

  lemma StartReplayIsSound<T>(w: World<T>, sys: System<T>, act: Action)
    requires SystemOk(w, sys)
    requires act.StartReplay?
    ensures StepSound(w, sys, act)
  {
    assert SessionOk(sys, act.id);
    if act.id !in sys.pending {
      StartReplayIsLegal(w.intervals, sys.records, act.id, act.interval, act.restart, sys.now, act.readOk, act.disk);
      hide Life.ReplayStartIn;
      LegalWriteKeepsSystem(w, sys, Exec(w, sys, act).0, act.id);
    }
  }

  lemma ReconcileIsSound<T>(w: World<T>, sys: System<T>, act: Action)
    requires SystemOk(w, sys)
    requires act.Reconcile?
    ensures StepSound(w, sys, act)
  {
    assert SessionOk(sys, act.id);
    if act.id !in sys.pending {
      ReconcileIsLegal(sys.records, act.id, Life.Attempt(sys.now, act.readOk, act.disk, act.rereadOk));
      hide Life.ReconcileOne;
      LegalWriteKeepsSystem(w, sys, Exec(w, sys, act).0, act.id);
    }
  }

  lemma PollIsSound<T>(w: World<T>, sys: System<T>, act: Action)
    requires SystemOk(w, sys)
    requires act.Poll?
    ensures StepSound(w, sys, act)
  {
    assert SessionOk(sys, act.id);
    if act.id !in sys.pending {
      LoadContextIsLegal(sys.records, w.results, act.id, sys.now, act.readOk, act.disk);
      hide LoadContext;
      LegalWriteKeepsSystem(w, sys, Exec(w, sys, act).0, act.id);
    }
  }

  lemma FetchIsSound<T>(w: World<T>, sys: System<T>, act: Action)
    requires SystemOk(w, sys)
    requires act.Fetch?
    ensures StepSound(w, sys, act)
  {
    if act.client in sys.clients && sys.clients[act.client].session !in sys.pending {
      var id := sys.clients[act.client].session;
      assert SessionOk(sys, id);
      LoadContextIsLegal(sys.records, w.results, id, sys.now, act.readOk, act.disk);
      LegalWriteKeepsSystem(w, sys, Exec(w, sys, act).0, id);
    }
  }

  /** One step of anything: the invariant holds again, records only make legal
      changes, and no compare-and-swap is ever refused as stale. */
  lemma StepKeepsSystem<T>(w: World<T>, sys: System<T>, act: Action)
    requires SystemOk(w, sys)
    ensures StepSound(w, sys, act)
  {
    match act
    case Tick(_) | Crash | Join(_, _, _) | Connect(_) | Deliver(_) | Drop(_) => QuietStepIsSound(w, sys, act);
    case Create(_, _, _) | Damage(_) => CreateOrDamageIsSound(w, sys, act);
    case BeginTrigger(_, _, _) => BeginTriggerIsSound(w, sys, act);
    case Invoke(_) => InvokeIsSound(w, sys, act);
    case FinishTrigger(_, _, _) => FinishTriggerIsSound(w, sys, act);
    case StartReplay(_, _, _, _, _) => StartReplayIsSound(w, sys, act);
    case Reconcile(_, _, _, _) => ReconcileIsSound(w, sys, act);
    case Poll(_, _, _) => PollIsSound(w, sys, act);
    case Fetch(_, _, _) => FetchIsSound(w, sys, act);
  }

  ghost predicate RecordsLater(before: Store.Records, after: Store.Records) {
    forall id | id in before ::
      && id in after
      && (before[id].Damaged? ==> after[id].Damaged?)
      && (before[id].Record? && after[id].Record? ==> Later(before[id].session, after[id].session))
  }

  /** Over every interleaving: all stored records parse, no session has had its
      simulation invoked twice, READY is never re-entered, and a baseline link
      never changes. */
  lemma {:induction false} RunsStaySound<T>(w: World<T>, sys: System<T>, acts: seq<Action>)
    requires SystemOk(w, sys)
    ensures var after := Run(w, sys, acts);
      && SystemOk(w, after)
      && RecordsLater(sys.records, after.records)
      && sys.now <= after.now
      && forall id :: after.invocations[id] <= 1
    decreases acts
  {
    if acts == [] {
      forall id ensures sys.invocations[id] <= 1 { assert SessionOk(sys, id); }
    } else {
      var mid := Exec(w, sys, acts[0]).0;
      StepKeepsSystem(w, sys, acts[0]);
      RunsStaySound(w, mid, acts[1..]);
    }
  }

  lemma InitIsSound<T>(w: World<T>, now: int)
    requires Life.ValidIntervals(w.intervals)
    ensures SystemOk(w, Init<T>(now))
  {
  }
}
