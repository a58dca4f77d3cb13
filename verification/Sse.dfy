// The server-sent-event transport: one stream from its first batch request to its
// last frame, and the gate that bounds how many streams run at once.
module Sse {
  import opened Wrappers
  import opened Mission
  import Clock = ReplayClock
  import Store = SessionStore
  import opened TelemetryReplay
  import opened MissionProtocol
  import opened ExactlyOnce

  datatype Frame<T> = EventFrame(event: Event<T>) | Heartbeat

  datatype Ending = Terminal | Disconnected | Failed(error: ServiceError)

  datatype Io = Io(readOk: bool, disk: Store.Disk)

  /** Everything a stream does not control: the records that other requests have
      left at its k-th poll, the disk at that poll, the time that passes beyond each
      requested sleep, and whether the k-th connection check finds the client gone. */
  datatype Environment = Environment(
    records: nat -> Store.Records,
    io: nat -> Io,
    lagUs: nat -> nat,
    gone: nat -> bool)

  predicate EpochRecord(records: Store.Records, s: Session) {
    && s.id in records && records[s.id].Record?
    && Consistent(records[s.id].session) && SameEpoch(s, records[s.id].session)
  }

  /** Whatever other requests do, the session stays readable in its epoch. */
  ghost predicate Undisturbed(env: Environment, s: Session) {
    forall k: nat :: EpochRecord(env.records(k), s)
  }

  // The environment never fails a poll and never disconnects.
  ghost predicate Benign(env: Environment) {
    && (forall k: nat :: env.io(k) == Io(true, Store.Disk(true, true, true)))
    && (forall k: nat :: !env.gone(k))
  }

  function EventsIn<T>(frames: seq<Frame<T>>): seq<Event<T>> {
    if frames == [] then []
    else if frames[|frames| - 1].Heartbeat? then EventsIn(frames[..|frames| - 1])
    else EventsIn(frames[..|frames| - 1]) + [frames[|frames| - 1].event]
  }

  lemma EventsInAppend<T>(frames: seq<Frame<T>>, frame: Frame<T>)
    ensures EventsIn(frames + [frame]) == EventsIn(frames) + if frame.Heartbeat? then [] else [frame.event]
  {
    assert (frames + [frame])[..|frames|] == frames;
  }

  function FinalDue(s: Session, count: int): int
    requires Replayable(s) && Consistent(s)
  {
    s.replayStartedAt.value + (count - 1) * (s.intervalMs.value * Clock.US_PER_MS)
  }

  // The stream sent so far ends at `last`, and `batch` continues it.
  ghost predicate Continues<T>(stream: seq<Event<T>>, last: int, batch: Batch<T>, now: int, finalDue: int) {
    && -1 <= last && last + 1 + |batch.events| <= |stream|
    && batch.events == stream[last + 1..last + 1 + |batch.events|]
    && (batch.terminal ==> last + 1 + |batch.events| == |stream|)
    && (!batch.terminal ==> now < finalDue)
    && (!batch.terminal && batch.events == [] ==> 0 < batch.delayMs)
  }

  lemma BatchContinues<T>(ctx: Context<T>, last: int, now: int, finalDue: int)
    requires ValidContext(ctx) && -1 <= last <= ctx.count
    requires !ctx.position.complete ==> now < finalDue && 0 < ctx.position.delayMs
    ensures Continues(FullStream(ctx.result, ctx.runId), last, BatchOf(ctx, last), now, finalDue)
  {
  }

  lemma AheadOfFinal(s: Session, count: nat, now: int)
    requires Replayable(s) && Consistent(s) && 0 < count
    ensures var p := Clock.Locate(s.replayStartedAt.value, now, s.intervalMs.value, count);
      && p.sampleIndex < count && (p.complete ==> p.sampleIndex == count - 1)
      && (!p.complete ==> now < FinalDue(s, count) && 0 < p.delayMs)
  {
    Clock.IndexIsGreatestDue(s.replayStartedAt.value, now, s.intervalMs.value, count);
    if !Clock.Locate(s.replayStartedAt.value, now, s.intervalMs.value, count).complete {
      Clock.DelayIsTight(s.replayStartedAt.value, now, s.intervalMs.value, count);
      Clock.MulMono(0, count - 1, s.intervalMs.value * Clock.US_PER_MS);
    }
  }

  /** What one poll of an undisturbed epoch answers: the next due stretch of the
      stream; the end of the stream if terminal; otherwise the last sample lies
      ahead, and an empty batch asks for a positive delay. */
  lemma PollAnswers<T>(w: World<T>, e: Epoch<T>, records: Store.Records, cursor: Option<string>, last: int,
                       now: int, io: Io)
    requires ValidEpoch(w, e) && EpochRecord(records, e.session)
    requires ParseLastEventId(cursor, |e.result.history|) == Ok(last)
    ensures var (_, r) := DueEvents(records, w.results, e.session.id, cursor, now, io.readOk, io.disk);
      r.Ok? ==> Continues(Stream(w, e), last, r.value, now, FinalDue(e.session, |e.result.history|))
  {
    var s, n := e.session, |e.result.history|;
    hide LoadContext, BatchOf, Continues, Clock.Locate, FullStream, FinalDue, ParseLastEventId;
    ParsedIsBounded(cursor, n);
    LoadedInEpoch(w, e, records, now, io.readOk, io.disk);
    AheadOfFinal(s, n, now);
    var (_, loaded) := LoadContext(records, w.results, s.id, now, io.readOk, io.disk);
    if loaded.Ok? {
      BatchContinues(loaded.value, last, now, FinalDue(s, n));
    }
  }

  /** With a working disk a poll in the epoch does not fail. */
  lemma PollSucceeds<T>(w: World<T>, e: Epoch<T>, records: Store.Records, cursor: Option<string>, last: int, now: int)
    requires ValidEpoch(w, e) && EpochRecord(records, e.session) && e.session.createdAt <= now
    requires ParseLastEventId(cursor, |e.result.history|) == Ok(last)
    ensures DueEvents(records, w.results, e.session.id, cursor, now, true, Store.Disk(true, true, true)).1.Ok?
  {
    LoadedInEpoch(w, e, records, now, true, Store.Disk(true, true, true));
  }

  method Poll<T>(service: TelemetryReplayService<T>, w: World<T>, e: Epoch<T>, cursor: Option<string>, now: int,
                 env: Environment, k: nat, ghost last: int)
    returns (answer: Result<Batch<T>, ServiceError>)
    requires service.results == w.results && ValidEpoch(w, e) && e.session.createdAt <= now
    requires Undisturbed(env, e.session)
    requires ParseLastEventId(cursor, |e.result.history|) == Ok(last)
    modifies service.store
    ensures answer.Ok? ==> Continues(Stream(w, e), last, answer.value, now, FinalDue(e.session, |e.result.history|))
    ensures Benign(env) ==> answer.Ok?
  {
    service.store.records := env.records(k);
    var io := env.io(k);
    PollAnswers(w, e, service.store.records, cursor, last, now, io);
    PollSucceeds(w, e, service.store.records, cursor, last, now);
    answer := service.GetDueEvents(e.session.id, cursor, now, io.readOk, io.disk);
  }

  /** Sends a batch event by event, checking the connection before each one. */
  method SendBatch<T>(before: seq<Frame<T>>, events: seq<Event<T>>, header: Option<string>, checked: nat,
                      gone: nat -> bool)
    returns (frames: seq<Frame<T>>, sent: nat, cursor: Option<string>, checks: nat)
    ensures sent <= |events| && checks == checked + if sent == |events| then sent else sent + 1
    ensures EventsIn(frames) == EventsIn(before) + events[..sent]
    ensures cursor == if sent == 0 then header else Some(ToDecimal(events[sent - 1].sequence))
    ensures sent < |events| ==> gone(checked + sent)
  {
    frames, sent, cursor, checks := before, 0, header, checked;
    while sent < |events|
      invariant sent <= |events| && checks == checked + sent
      invariant EventsIn(frames) == EventsIn(before) + events[..sent]
      invariant cursor == if sent == 0 then header else Some(ToDecimal(events[sent - 1].sequence))
    {
      checks := checks + 1;
      if gone(checks - 1) {
        return;
      }
      EventsInAppend(frames, EventFrame(events[sent]));
      frames := frames + [EventFrame(events[sent])];
      cursor := Some(ToDecimal(events[sent].sequence));
      sent := sent + 1;
    }
  }

  // Everything from the resume point up to number `last` has been sent, and the
  // cursor resumes right after it.
  ghost predicate SentTo<T>(w: World<T>, e: Epoch<T>, r: int, last: int, frames: seq<Frame<T>>, cursor: Option<string>)
    requires ValidEpoch(w, e)
  {
    && -1 <= r <= last < |Stream(w, e)|
    && EventsIn(frames) == Stream(w, e)[r + 1..last + 1]
    && ParseLastEventId(cursor, |e.result.history|) == Ok(last)
  }

  lemma SentMore<T>(w: World<T>, e: Epoch<T>, r: int, last: int, frames: seq<Frame<T>>, header: Option<string>,
                    batch: Batch<T>, now: int, finalDue: int, after: seq<Frame<T>>, sent: nat, cursor: Option<string>)
    requires ValidEpoch(w, e) && SentTo(w, e, r, last, frames, header)
    requires Continues(Stream(w, e), last, batch, now, finalDue) && sent <= |batch.events|
    requires EventsIn(after) == EventsIn(frames) + batch.events[..sent]
    requires cursor == if sent == 0 then header else Some(ToDecimal(batch.events[sent - 1].sequence))
    ensures SentTo(w, e, r, last + sent, after, cursor)
  {
    hide Stream, ParseLastEventId, EventsIn, ToDecimal, ValidEpoch;
    PrefixSent(Stream(w, e), r, last, batch.events, sent);
    if 0 < sent {
      SequenceIsIndex(w, e, last + sent);
      CursorAfter(last + sent, |e.result.history|);
    }
  }

  lemma SequenceIsIndex<T>(w: World<T>, e: Epoch<T>, k: nat)
    requires ValidEpoch(w, e) && k < |Stream(w, e)|
    ensures Stream(w, e)[k].sequence == k <= |e.result.history|
  {
  }

  lemma PrefixSent<T>(stream: seq<Event<T>>, r: int, last: int, events: seq<Event<T>>, sent: nat)
    requires -1 <= r <= last && last + 1 + |events| <= |stream| && sent <= |events|
    requires events == stream[last + 1..last + 1 + |events|]
    ensures stream[r + 1..last + 1] + events[..sent] == stream[r + 1..last + 1 + sent]
    ensures 0 < sent ==> events[sent - 1] == stream[last + sent]
  {
  }

  /** Sends a batch that continues the stream and moves the cursor along. */
  method SendNext<T>(w: World<T>, e: Epoch<T>, before: seq<Frame<T>>, header: Option<string>, batch: Batch<T>,
                     checked: nat, gone: nat -> bool, ghost r: int, ghost last: int, ghost now: int, ghost due: int)
    returns (frames: seq<Frame<T>>, sent: nat, cursor: Option<string>, checks: nat)
    requires ValidEpoch(w, e) && SentTo(w, e, r, last, before, header)
    requires Continues(Stream(w, e), last, batch, now, due)
    ensures sent <= |batch.events| && SentTo(w, e, r, last + sent, frames, cursor)
    ensures sent < |batch.events| ==> exists k: nat :: gone(k)
  {
    frames, sent, cursor, checks := SendBatch(before, batch.events, header, checked, gone);
    SentMore(w, e, r, last, before, header, batch, now, due, frames, sent, cursor);
  }

  /** Waits for the next poll: nothing for a zero delay, else the delay cut to one
      heartbeat, which is then sent. */
  method Wait<T>(before: seq<Frame<T>>, delayMs: nat, heartbeatUs: int, at: int, lagUs: nat, checked: nat,
                 gone: nat -> bool)
    returns (frames: seq<Frame<T>>, now: int, checks: nat, left: bool)
    requires 0 < heartbeatUs
    ensures EventsIn(frames) == EventsIn(before)
    ensures at <= now && (0 < delayMs ==> left || at < now)
    ensures left ==> exists k: nat :: gone(k)
  {
    frames, now, checks, left := before, at, checked, false;
    var delayUs := delayMs * 1000;
    if 0 < delayUs {
      checks := checks + 1;
      if gone(checks - 1) {
        left := true;
        return;
      }
      now := now + (if delayUs < heartbeatUs then delayUs else heartbeatUs) + lagUs;
      checks := checks + 1;
      if gone(checks - 1) {
        left := true;
        return;
      }
      if heartbeatUs < delayUs {
        EventsInAppend(frames, Heartbeat);
        frames := frames + [Heartbeat];
      }
    }
  }

  /** The loop of one stream; `last` is the number of the last event sent. */
  method StreamLoop<T>(service: TelemetryReplayService<T>, w: World<T>, e: Epoch<T>, header: Option<string>,
                       first: Batch<T>, start: int, heartbeatUs: int, env: Environment, ghost r: int)
    returns (frames: seq<Frame<T>>, ending: Ending, cursor: Option<string>, ghost last: int)
    requires service.results == w.results && ValidEpoch(w, e) && 0 < heartbeatUs && e.session.createdAt <= start
    requires Undisturbed(env, e.session)
    requires SentTo(w, e, r, r, [], header)
    requires Continues(Stream(w, e), r, first, start, FinalDue(e.session, |e.result.history|))
    modifies service.store
    ensures SentTo(w, e, r, last, frames, cursor)
    ensures ending == Terminal ==> last + 1 == |Stream(w, e)|
    ensures Benign(env) ==> ending == Terminal
  {
    frames, cursor, last := [], header, r;
    var now, polls, checks, batch := start, 1, 0, first;
    ghost var finalDue := FinalDue(e.session, |e.result.history|);
    while true
      invariant 0 <= polls && 0 <= checks && start <= now
      invariant SentTo(w, e, r, last, frames, cursor)
      invariant Continues(Stream(w, e), last, batch, now, finalDue)
      decreases |Stream(w, e)| - last, finalDue - now
    {
      checks := checks + 1;
      if env.gone(checks - 1) {
        return frames, Disconnected, cursor, last;
      }
      var sent;
      frames, sent, cursor, checks :=
        SendNext(w, e, frames, cursor, batch, checks, env.gone, r, last, now, finalDue);
      last := last + sent;
      if sent < |batch.events| {
        return frames, Disconnected, cursor, last;
      }
      if batch.terminal {
        return frames, Terminal, cursor, last;
      }
      var left;
      frames, now, checks, left := Wait(frames, batch.delayMs, heartbeatUs, now, env.lagUs(polls), checks, env.gone);
      if left {
        return frames, Disconnected, cursor, last;
      }
      var answer := Poll(service, w, e, cursor, now, env, polls, last);
      polls := polls + 1;
      if answer.Err? {
        return frames, Failed(answer.error), cursor, last;
      }
      batch := answer.value;
    }
  }

  /** One stream over its whole life, from the first batch request on. It always
      ends. The events it sends are a consecutive run of the stream from the resume
      point; it ends as terminal only after sending everything to the complete event;
      and unless a poll fails or the client leaves, that is how it ends. */
  method StreamReplay<T>(service: TelemetryReplayService<T>, w: World<T>, e: Epoch<T>, header: Option<string>,
                         start: int, heartbeatUs: int, env: Environment, ghost r: int)
    returns (frames: seq<Frame<T>>, ending: Ending)
    requires service.results == w.results && ValidEpoch(w, e) && 0 < heartbeatUs && e.session.createdAt <= start
    requires Undisturbed(env, e.session)
    requires ParseLastEventId(header, |e.result.history|) == Ok(r)
    modifies service.store
    ensures -1 <= r && r + 1 + |EventsIn(frames)| <= |Stream(w, e)|
    ensures EventsIn(frames) == Stream(w, e)[r + 1..r + 1 + |EventsIn(frames)|]
    ensures ending == Terminal ==> EventsIn(frames) == Stream(w, e)[r + 1..]
    ensures Benign(env) ==> ending == Terminal
  {
    ParsedIsBounded(header, |e.result.history|);
    var answer := Poll(service, w, e, header, start, env, 0, r);
    if answer.Err? {
      return [], Failed(answer.error);
    }
    var cursor;
    ghost var last;
    frames, ending, cursor, last := StreamLoop(service, w, e, header, answer.value, start, heartbeatUs, env, r);
  }

  /** The capacity gate: the slot count is always the number of leases handed out
      and not yet released, so no slot leaks and none is given back twice. */
  class ReplayStreamLimiter {
    const capacity: int
    var active: int
    ghost var open: set<StreamLease>

    ghost predicate Valid()
      reads this, open
    {
      && 0 <= active == |open| <= capacity
      && forall l | l in open :: !l.released && l.limiter == this
    }

    constructor (capacity: int)
      requires 0 < capacity
      ensures Valid() && open == {} && this.capacity == capacity
    {
      this.capacity := capacity;
      active := 0;
      open := {};
    }

    method TryAcquire() returns (lease: StreamLease?)
      requires Valid()
      modifies this
      ensures Valid()
      ensures lease == null <==> old(active) == capacity
      ensures lease == null ==> open == old(open)
      ensures lease != null ==> fresh(lease) && open == old(open) + {lease}
    {
      if active >= capacity {
        return null;
      }
      active := active + 1;
      lease := new StreamLease(this);
      open := open + {lease};
    }
  }

  class StreamLease {
    const limiter: ReplayStreamLimiter
    var released: bool

    constructor (limiter: ReplayStreamLimiter)
      ensures this.limiter == limiter && !released
    {
      this.limiter := limiter;
      released := false;
    }

    method Release()
      requires limiter.Valid() && (released || this in limiter.open)
      modifies this, limiter
      ensures limiter.Valid() && released
      ensures limiter.open == old(limiter.open) - {this}
      ensures old(released) ==> limiter.active == old(limiter.active)
    {
      if released {
        return;
      }
      released := true;
      if limiter.active > 0 {
        limiter.active := limiter.active - 1;
      }
      limiter.open := limiter.open - {this};
    }
  }

  /** A stream request from the gate to the last frame: refused exactly when every slot
      is taken, otherwise served as one stream, and the slot is given back however the
      stream ended. */
  method ServeStream<T>(limiter: ReplayStreamLimiter, service: TelemetryReplayService<T>, w: World<T>, e: Epoch<T>,
                        header: Option<string>, start: int, heartbeatUs: int, env: Environment, ghost r: int)
    returns (frames: seq<Frame<T>>, ending: Option<Ending>)
    requires limiter.Valid()
    requires service.results == w.results && ValidEpoch(w, e) && 0 < heartbeatUs && e.session.createdAt <= start
    requires Undisturbed(env, e.session)
    requires ParseLastEventId(header, |e.result.history|) == Ok(r)
    modifies limiter, service.store
    ensures limiter.Valid() && limiter.open == old(limiter.open) && limiter.active == old(limiter.active)
    ensures ending.None? <==> old(limiter.active) == limiter.capacity
    ensures ending.None? ==> frames == []
    ensures -1 <= r && r + 1 + |EventsIn(frames)| <= |Stream(w, e)|
    ensures EventsIn(frames) == Stream(w, e)[r + 1..r + 1 + |EventsIn(frames)|]
    ensures ending == Some(Terminal) ==> EventsIn(frames) == Stream(w, e)[r + 1..]
    ensures Benign(env) && ending.Some? ==> ending == Some(Terminal)
  {
    ParsedIsBounded(header, |e.result.history|);
    var lease := limiter.TryAcquire();
    if lease == null {
      return [], None;
    }
    var how;
    frames, how := StreamReplay(service, w, e, header, start, heartbeatUs, env, r);
    lease.Release();
    ending := Some(how);
  }
}
