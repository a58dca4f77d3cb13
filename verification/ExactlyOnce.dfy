// Exactly-once delivery of one replay epoch to every stream consumer, over any
// interleaving of the actions of MissionProtocol other than a restart.
module ExactlyOnce {
  import opened Wrappers
  import opened Mission
  import Clock = ReplayClock
  import Store = SessionStore
  import Life = Lifecycle
  import opened TelemetryReplay
  import opened MissionProtocol

  /** The record of the epoch that s belongs to: everything a batch depends on. */
  predicate SameEpoch(s: Session, t: Session) {
    && t.id == s.id && Replayable(t) && t.scenario == s.scenario && t.createdAt == s.createdAt
    && t.runId == s.runId && t.outcome == s.outcome && t.sampleCount == s.sampleCount
    && t.replayStartedAt == s.replayStartedAt && t.intervalMs == s.intervalMs
  }

  // A fixed epoch: its session record and the result it is linked to.
  datatype Epoch<T> = Epoch(session: Session, result: Baseline<T>)

  ghost predicate ValidEpoch<T>(w: World<T>, e: Epoch<T>) {
    && Replayable(e.session) && Consistent(e.session)
    && w.results(e.session.runId.value) == Some(e.result)
    && ResultMatches(e.session, e.result)
  }

  ghost function Stream<T>(w: World<T>, e: Epoch<T>): seq<Event<T>>
    requires ValidEpoch(w, e)
  {
    FullStream(e.result, e.session.runId.value)
  }

  /** Event k may be received from the moment sample k is due; the complete event
      from the moment the last sample is. */
  predicate EventDue(s: Session, count: nat, k: nat, at: int)
    requires Replayable(s) && Consistent(s) && 0 < count
  {
    Clock.IsDue(if k < count then k else count - 1, s.replayStartedAt.value, at, s.intervalMs.value)
  }

  // What the clients of an epoch are served: the event sequence and its due times.
  datatype Feed<!T> = Feed(id: SessionId, count: nat, stream: seq<Event<T>>, due: (nat, int) -> bool)

  ghost function FeedOf<T>(w: World<T>, e: Epoch<T>): Feed<T>
    requires ValidEpoch(w, e)
  {
    var s, count := e.session, |e.result.history|;
    Feed(s.id, count, Stream(w, e), (k: nat, at: int) => EventDue(s, count, k, at))
  }

  ghost predicate ValidFeed<T>(f: Feed<T>) {
    && |f.stream| == f.count + 1
    && (forall k: nat | k < |f.stream| :: f.stream[k].sequence == k)
    && (forall k: nat, at: int, later: int | at <= later && f.due(k, at) :: f.due(k, later))
  }

  lemma FeedIsValid<T>(w: World<T>, e: Epoch<T>)
    requires ValidEpoch(w, e)
    ensures ValidFeed(FeedOf(w, e))
  {
  }

  predicate InEpoch<T>(sys: System<T>, e: Epoch<T>) {
    && e.session.id in sys.records
    && (sys.records[e.session.id].Record? ==> SameEpoch(e.session, sys.records[e.session.id].session))
  }

  /** What a client that resumed after sequence number r has received: the events
      r+1, r+2, ... of the stream in order with none left out or repeated, each no
      earlier than it was due. */
  ghost predicate ReceivedInOrder<T>(f: Feed<T>, r: int, log: seq<Delivery<T>>)
    requires -1 <= r
  {
    && r + 1 + |log| <= |f.stream|
    && forall i | 0 <= i < |log| :: log[i].event == f.stream[r + 1 + i] && f.due(r + 1 + i, log[i].at)
  }

  // Events that continue the stream from number `from` and are all due.
  ghost predicate DueFrom<T>(f: Feed<T>, from: nat, events: seq<Event<T>>, now: int) {
    && from + |events| <= |f.stream|
    && forall i | 0 <= i < |events| :: events[i] == f.stream[from + i] && f.due(from + i, now)
  }

  ghost predicate ClientOk<T>(f: Feed<T>, r: int, sys: System<T>, c: ClientId)
    requires -1 <= r
  {
    && c in sys.clients
    && var client := sys.clients[c];
    && client.session == f.id
    && ReceivedInOrder(f, r, client.delivered)
    && ParseLastEventId(client.cursor, f.count) == Ok(r + |client.delivered|)
    && DueFrom(f, r + 1 + |client.delivered|, client.queue, sys.now)
  }

  predicate Restarts(act: Action, id: SessionId) {
    act.StartReplay? && act.id == id
  }

  lemma StartKeepsEpoch<T>(w: World<T>, sys: System<T>, act: Action, e: Epoch<T>)
    requires InEpoch(sys, e) && Replayable(e.session) && act.StartReplay? && !Restarts(act, e.session.id)
    ensures InEpoch(Exec(w, sys, act).0, e)
  {
  }

  lemma TriggerKeepsEpoch<T>(w: World<T>, sys: System<T>, act: Action, e: Epoch<T>)
    requires InEpoch(sys, e) && Replayable(e.session) && act.BeginTrigger?
    ensures InEpoch(Exec(w, sys, act).0, e)
  {
  }

  lemma ReconcileKeepsEpoch<T>(w: World<T>, sys: System<T>, act: Action, e: Epoch<T>)
    requires InEpoch(sys, e) && Replayable(e.session) && act.Reconcile?
    ensures InEpoch(Exec(w, sys, act).0, e)
  {
  }

  lemma FinishKeepsEpoch<T>(w: World<T>, sys: System<T>, act: Action, e: Epoch<T>)
    requires SystemOk(w, sys) && InEpoch(sys, e) && Replayable(e.session)
    requires act.FinishTrigger?
    ensures InEpoch(Exec(w, sys, act).0, e)
  {
    assert SessionOk(sys, act.id);
    assert SessionOk(sys, e.session.id);
  }

  lemma ReadKeepsEpoch<T>(w: World<T>, sys: System<T>, act: Action, e: Epoch<T>)
    requires InEpoch(sys, e)
    requires act.Poll? || act.Fetch?
    ensures InEpoch(Exec(w, sys, act).0, e)
  {
    match act
    case Poll(id, readOk, disk) => LoadKeepsEpoch(sys.records, w.results, id, sys.now, readOk, disk, e);
    case Fetch(c, readOk, disk) =>
      if c in sys.clients {
        LoadKeepsEpoch(sys.records, w.results, sys.clients[c].session, sys.now, readOk, disk, e);
      }
  }

  /** Nothing but a replay start moves a session out of its epoch. */
  lemma StepKeepsEpoch<T>(w: World<T>, sys: System<T>, act: Action, e: Epoch<T>)
    requires SystemOk(w, sys) && InEpoch(sys, e) && Replayable(e.session) && !Restarts(act, e.session.id)
    ensures InEpoch(Exec(w, sys, act).0, e)
  {
    match act
    case StartReplay(_, _, _, _, _) => StartKeepsEpoch(w, sys, act, e);
    case BeginTrigger(_, _, _) => TriggerKeepsEpoch(w, sys, act, e);
    case Reconcile(_, _, _, _) => ReconcileKeepsEpoch(w, sys, act, e);
    case FinishTrigger(_, _, _) => FinishKeepsEpoch(w, sys, act, e);
    case Poll(_, _, _) | Fetch(_, _, _) => ReadKeepsEpoch(w, sys, act, e);
    case _ =>
  }

  lemma LoadKeepsEpoch<T>(records: Store.Records, results: Results<T>, id: SessionId, now: int,
                          readOk: bool, disk: Store.Disk, e: Epoch<T>)
    requires e.session.id in records
    requires records[e.session.id].Record? ==> SameEpoch(e.session, records[e.session.id].session)
    ensures var written := LoadContext(records, results, id, now, readOk, disk).0;
      && e.session.id in written
      && (written[e.session.id].Record? ==> SameEpoch(e.session, written[e.session.id].session))
  {
  }

  /** A context loaded in the epoch shows the epoch's result, and its position is
      that of the epoch's clock or, after completion, the last sample. */
  lemma LoadedInEpoch<T>(w: World<T>, e: Epoch<T>, records: Store.Records, now: int, readOk: bool, disk: Store.Disk)
    requires ValidEpoch(w, e) && e.session.id in records
    requires records[e.session.id].Record? ==> SameEpoch(e.session, records[e.session.id].session)
    ensures var (_, r) := LoadContext(records, w.results, e.session.id, now, readOk, disk);
      var n := |e.result.history|;
      r.Ok? ==>
        && r.value.result == e.result && r.value.count == n && r.value.runId == e.session.runId.value
        && records[e.session.id].Record? && Consistent(records[e.session.id].session)
        && (r.value.position == Clock.Locate(e.session.replayStartedAt.value, now, e.session.intervalMs.value, n)
            || (r.value.position == Clock.Position(n - 1, true, 0)
                && records[e.session.id].session.status == Completed))
  {
  }

  lemma AllDueUpTo(s: Session, count: nat, k: nat, now: int)
    requires Replayable(s) && Consistent(s) && k < count
    requires Clock.IsDue(k, s.replayStartedAt.value, now, s.intervalMs.value)
    ensures forall j: nat | j <= k || (k == count - 1 && j == count) :: EventDue(s, count, j, now)
  {
    forall j: nat | j <= k || (k == count - 1 && j == count) ensures EventDue(s, count, j, now) {
      DueBelow(if j < count then j else count - 1, k, s, now);
    }
  }

  /** A batch fetched in the epoch continues the stream right after the cursor and
      holds only events that are due. */
  lemma FetchedBatchContinues<T>(w: World<T>, e: Epoch<T>, sys: System<T>, cursor: Option<string>, r: int,
                                 readOk: bool, disk: Store.Disk)
    requires ValidEpoch(w, e) && SystemOk(w, sys) && InEpoch(sys, e) && -1 <= r
    requires ParseLastEventId(cursor, |e.result.history|) == Ok(r)
    ensures var (_, b) := DueEvents(sys.records, w.results, e.session.id, cursor, sys.now, readOk, disk);
      b.Ok? ==> DueFrom(FeedOf(w, e), r + 1, b.value.events, sys.now)
  {
    var s, n := e.session, |e.result.history|;
    assert SessionOk(sys, s.id);
    var (_, loaded) := LoadContext(sys.records, w.results, s.id, sys.now, readOk, disk);
    LoadedInEpoch(w, e, sys.records, sys.now, readOk, disk);
    ParsedIsBounded(cursor, n);
    if loaded.Ok? {
      var ctx := loaded.value;
      Clock.IndexIsGreatestDue(s.replayStartedAt.value, sys.now, s.intervalMs.value, n);
      AllDueUpTo(s, n, ctx.position.sampleIndex, sys.now);
      SliceIsDue(FeedOf(w, e), r + 1, DueCount(ctx), sys.now);
    }
  }

  lemma SliceIsDue<T>(f: Feed<T>, from: nat, to: nat, now: int)
    requires from <= |f.stream|
    requires forall k: nat | k < to :: f.due(k, now)
    ensures DueFrom(f, from, Slice(f.stream, from, to), now)
  {
  }

  lemma DueBelow(j: nat, k: nat, s: Session, now: int)
    requires Replayable(s) && Consistent(s) && j <= k
    requires Clock.IsDue(k, s.replayStartedAt.value, now, s.intervalMs.value)
    ensures Clock.IsDue(j, s.replayStartedAt.value, now, s.intervalMs.value)
  {
    Clock.MulMono(j, k, s.intervalMs.value * Clock.US_PER_MS);
  }

  lemma ParsedIsBounded(cursor: Option<string>, count: nat)
    ensures var p := ParseLastEventId(cursor, count); p.Ok? ==> -1 <= p.value <= count
  {
  }

  lemma TickKeepsClient<T>(w: World<T>, f: Feed<T>, r: int, sys: System<T>, us: nat, c: ClientId)
    requires ValidFeed(f) && -1 <= r && ClientOk(f, r, sys, c)
    ensures ClientOk(f, r, Exec(w, sys, Tick(us)).0, c)
  {
  }

  lemma CursorAfter(n: nat, count: nat)
    requires n <= count
    ensures ParseLastEventId(Some(ToDecimal(n)), count) == Ok(n)
  {
    ParseIsExact(ToDecimal(n), count);
  }

  lemma DueTail<T>(f: Feed<T>, from: nat, events: seq<Event<T>>, now: int)
    requires DueFrom(f, from, events, now) && events != []
    ensures DueFrom(f, from + 1, events[1..], now)
    ensures events[0] == f.stream[from] && f.due(from, now)
  {
    assert events[0] == f.stream[from + 0];
    var rest := events[1..];
    forall i | 0 <= i < |rest| ensures rest[i] == f.stream[from + 1 + i] && f.due(from + 1 + i, now) {
      assert events[i + 1] == f.stream[from + (i + 1)];
    }
  }

  lemma ReceivedOneMore<T>(f: Feed<T>, r: int, log: seq<Delivery<T>>, d: Delivery<T>)
    requires -1 <= r && ReceivedInOrder(f, r, log)
    requires r + 1 + |log| < |f.stream| && d.event == f.stream[r + 1 + |log|] && f.due(r + 1 + |log|, d.at)
    ensures ReceivedInOrder(f, r, log + [d])
  {
  }

  lemma DeliverKeepsClient<T>(w: World<T>, f: Feed<T>, r: int, sys: System<T>, c: ClientId)
    requires ValidFeed(f) && -1 <= r && ClientOk(f, r, sys, c)
    ensures ClientOk(f, r, Exec(w, sys, Deliver(c)).0, c)
  {
    var client := sys.clients[c];
    var next := r + 1 + |client.delivered|;
    if client.connected && client.queue != [] {
      DueTail(f, next, client.queue, sys.now);
      ReceivedOneMore(f, r, client.delivered, Delivery(client.queue[0], sys.now));
      CursorAfter(next, f.count);
    }
  }

  lemma OtherStepKeepsClient<T>(w: World<T>, f: Feed<T>, r: int, sys: System<T>, act: Action, c: ClientId)
    requires -1 <= r && ClientOk(f, r, sys, c)
    requires !act.Tick? && !(act.Fetch? && act.client == c) && !(act.Deliver? && act.client == c)
    ensures ClientOk(f, r, Exec(w, sys, act).0, c)
  {
    var next := Exec(w, sys, act).0;
    assert next.now == sys.now && c in next.clients;
    assert next.clients[c].cursor == sys.clients[c].cursor && next.clients[c].delivered == sys.clients[c].delivered;
    assert next.clients[c].session == sys.clients[c].session;
    assert next.clients[c].queue == sys.clients[c].queue || next.clients[c].queue == [];
  }

  lemma FetchKeepsClient<T>(w: World<T>, e: Epoch<T>, r: int, sys: System<T>, act: Action, c: ClientId)
    requires ValidEpoch(w, e) && -1 <= r && SystemOk(w, sys) && InEpoch(sys, e)
    requires ClientOk(FeedOf(w, e), r, sys, c)
    requires act.Fetch? && act.client == c
    ensures ClientOk(FeedOf(w, e), r, Exec(w, sys, act).0, c)
  {
    var client := sys.clients[c];
    FetchedBatchContinues(w, e, sys, client.cursor, r + |client.delivered|, act.readOk, act.disk);
  }

  lemma StepKeepsClient<T>(w: World<T>, e: Epoch<T>, r: int, sys: System<T>, act: Action, c: ClientId)
    requires ValidEpoch(w, e) && -1 <= r && SystemOk(w, sys) && InEpoch(sys, e)
    requires ClientOk(FeedOf(w, e), r, sys, c)
    ensures ClientOk(FeedOf(w, e), r, Exec(w, sys, act).0, c)
  {
    FeedIsValid(w, e);
    if act.Tick? {
      TickKeepsClient(w, FeedOf(w, e), r, sys, act.us, c);
    } else if act.Fetch? && act.client == c {
      FetchKeepsClient(w, e, r, sys, act, c);
    } else if act == Deliver(c) {
      DeliverKeepsClient(w, FeedOf(w, e), r, sys, c);
    } else {
      OtherStepKeepsClient(w, FeedOf(w, e), r, sys, act, c);
    }
  }

  /** Exactly once: in any run of the backend without a restart of this session, a
      client that starts from a valid Last-Event-ID has at every moment received a
      gap-free, duplicate-free run of the stream from its resume point, whatever
      other requests, polls, crashes, disconnects and resumes come in between. */
  lemma {:induction false} DeliveredExactlyOnce<T>(w: World<T>, e: Epoch<T>, sys: System<T>, acts: seq<Action>,
                                                   c: ClientId, r: int)
    requires ValidEpoch(w, e) && SystemOk(w, sys) && InEpoch(sys, e) && -1 <= r
    requires ClientOk(FeedOf(w, e), r, sys, c)
    requires forall act | act in acts :: !Restarts(act, e.session.id)
    ensures var after := Run(w, sys, acts);
      && c in after.clients
      && ReceivedInOrder(FeedOf(w, e), r, after.clients[c].delivered)
      && InEpoch(after, e)
    decreases acts
  {
    if acts != [] {
      var mid := Exec(w, sys, acts[0]).0;
      StepKeepsSystem(w, sys, acts[0]);
      StepKeepsEpoch(w, sys, acts[0], e);
      StepKeepsClient(w, e, r, sys, acts[0], c);
      DeliveredExactlyOnce(w, e, mid, acts[1..], c, r);
    }
  }

  /** A freshly joined client satisfies the premise for the number its header parses to. */
  lemma JoinedClientIsOk<T>(w: World<T>, e: Epoch<T>, sys: System<T>, c: ClientId, cursor: Option<string>, r: int)
    requires ValidEpoch(w, e) && c !in sys.clients
    requires ParseLastEventId(cursor, |e.result.history|) == Ok(r)
    ensures -1 <= r && ClientOk(FeedOf(w, e), r, Exec(w, sys, Join(c, e.session.id, cursor)).0, c)
  {
    ParsedIsBounded(cursor, |e.result.history|);
  }

  /** Reading the guarantee: telemetry k carries sample k and is never early, the
      sequence numbers are strictly consecutive, and the complete event comes once,
      last, and not before the final sample is due. */
  lemma ReceivedMeansOnce<T>(w: World<T>, e: Epoch<T>, r: int, log: seq<Delivery<T>>)
    requires ValidEpoch(w, e) && -1 <= r && ReceivedInOrder(FeedOf(w, e), r, log)
    ensures forall i | 0 <= i < |log| ::
      && log[i].event.sequence == r + 1 + i
      && EventDue(e.session, |e.result.history|, r + 1 + i, log[i].at)
    ensures forall i | 0 <= i < |log| && log[i].event.Telemetry? ::
      && log[i].event.sequence < |e.result.history|
      && log[i].event.sample == e.result.history[log[i].event.sequence]
    ensures forall i | 0 <= i < |log| && log[i].event.Complete? ::
      i == |log| - 1 && log[i].event.sequence == |e.result.history|
  {
    var f := FeedOf(w, e);
    forall i | 0 <= i < |log|
      ensures log[i].event == f.stream[r + 1 + i] && EventDue(e.session, |e.result.history|, r + 1 + i, log[i].at)
    {
      assert f.due(r + 1 + i, log[i].at);
    }
  }
}
