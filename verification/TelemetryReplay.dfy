// Telemetry replay service: Last-Event-ID parsing, the reconciled replay
// context of one request, and the ordered batch of due events.
module TelemetryReplay {
  import opened Wrappers
  import opened Mission
  import Clock = ReplayClock
  import Store = SessionStore

  // ---------- Last-Event-ID ----------

  predicate IsDecimal(c: char) { '0' <= c <= '9' }

  // Latin-1 characters that count as digits but have no decimal value.
  predicate IsSuperscript(c: char) { c == '\U{00B2}' || c == '\U{00B3}' || c == '\U{00B9}' }

  predicate IsDigitString(s: string) {
    s != [] && forall i | 0 <= i < |s| :: IsDecimal(s[i]) || IsSuperscript(s[i])
  }

  predicate AllDecimal(s: string) { forall i | 0 <= i < |s| :: IsDecimal(s[i]) }

  function DigitOf(n: nat): char
    requires n < 10
  {
    ('0' as int + n) as char
  }

  function ToDecimal(n: nat): string {
    if n < 10 then [DigitOf(n)] else ToDecimal(n / 10) + [DigitOf(n % 10)]
  }

  function FromDecimal(s: string): nat
    requires AllDecimal(s)
  {
    if s == [] then 0
    else 10 * FromDecimal(s[..|s| - 1]) + (s[|s| - 1] as int - '0' as int)
  }

  /** The sequence number after which a client resumes, -1 without a header. */
  function ParseLastEventId(raw: Option<string>, count: int): Result<int, ServiceError> {
    if raw.None? then Ok(-1)
    else
      var text := raw.value;
      if !IsDigitString(text) then Err(EventIdInvalid)
      else if !AllDecimal(text) then Err(Uncaught)
      else
        var value: int := FromDecimal(text);
        if ToDecimal(value) != text || value > count then Err(EventIdInvalid) else Ok(value)
  }

  lemma {:induction false} DecimalRoundTrip(n: nat)
    ensures ToDecimal(n) != [] && AllDecimal(ToDecimal(n))
    ensures FromDecimal(ToDecimal(n)) == n
  {
    if n >= 10 {
      DecimalRoundTrip(n / 10);
      var s := ToDecimal(n);
      assert s[..|s| - 1] == ToDecimal(n / 10);
    }
  }

  /** Exactly the canonical decimals of 0..count are accepted, so the id that a
      delivered event carries always resumes right after that event. A header of
      digits that includes a superscript is neither accepted nor rejected: the
      integer conversion raises an error that no handler expects. */
  lemma ParseIsExact(raw: string, count: nat)
    ensures forall v: int :: ParseLastEventId(Some(raw), count) == Ok(v) <==> 0 <= v <= count && raw == ToDecimal(v)
    ensures ParseLastEventId(Some(raw), count) == Err(Uncaught)
       <==> IsDigitString(raw) && exists i :: 0 <= i < |raw| && IsSuperscript(raw[i])
  {
    forall v: int | 0 <= v <= count && raw == ToDecimal(v)
      ensures ParseLastEventId(Some(raw), count) == Ok(v)
    {
      DecimalRoundTrip(v);
    }
  }

  // ---------- Context ----------

  // The immutable result artifact of a baseline run.
  datatype Baseline<T> = Baseline(scenario: string, outcome: Outcome, history: seq<T>)

  // What each run identifier resolves to; None when the artifact cannot be read.
  type Results<!T> = RunId -> Option<Baseline<T>>

  datatype Context<T> = Context(session: Session, result: Baseline<T>, position: Clock.Position, count: nat, runId: RunId)

  predicate Replayable(s: Session) {
    s.status == Replaying || s.status == Completed
  }

  predicate ResultMatches<T>(s: Session, result: Baseline<T>) {
    && result.scenario == s.scenario
    && s.outcome == Some(result.outcome)
    && s.sampleCount == Some(|result.history|)
    && 0 < |result.history|
  }

  function PersistCompleted(records: Store.Records, s: Session, now: int, disk: Store.Disk)
    : (Store.Records, Result<Session, ServiceError>)
  {
    Store.ReplaceIn(records, MarkCompleted(s, now), Replaying, s.updatedAt, disk)
  }

  function LoadContext<T>(records: Store.Records, results: Results<T>, id: SessionId, now: int,
                          readOk: bool, disk: Store.Disk)
    : (Store.Records, Result<Context<T>, ServiceError>)
  {
    var read := Store.ReadRecord(records, id, readOk);
    if read.Err? then (records, Err(read.error))
    else
      var s := read.value;
      if s.status == Ready || s.status == Triggering || s.status == BaselineReady then
        (records, Err(ReplayNotStarted))
      else if !Replayable(s) then (records, Err(StateConflict))
      else
        var found := results(s.runId.value);
        if found.None? then (records, Err(ResultUnavailable))
        else if !ResultMatches(s, found.value) then (records, Err(ResultMismatch))
        else
          var count := |found.value.history|;
          var p := Clock.Locate(s.replayStartedAt.value, now, s.intervalMs.value, count);
          if s.status == Completed then
            (records, Ok(Context(s, found.value, Clock.Position(count - 1, true, 0), count, s.runId.value)))
          else if p.complete then
            var (written, r) := PersistCompleted(records, s, now, disk);
            if r.Err? then (written, Err(r.error))
            else (written, Ok(Context(r.value, found.value, p, count, s.runId.value)))
          else (records, Ok(Context(s, found.value, p, count, s.runId.value)))
  }

  // ---------- Batches ----------

  datatype Event<T> =
    | Telemetry(sequence: nat, sampleCount: nat, sample: T)
    | Complete(sequence: nat, runId: RunId, outcome: Outcome)

  datatype Batch<T> = Batch(events: seq<Event<T>>, delayMs: nat, terminal: bool)

  /** The whole stream of a replay: one telemetry event per sample, then one
      complete event whose sequence number is the sample count. */
  function FullStream<T>(result: Baseline<T>, runId: RunId): seq<Event<T>> {
    seq(|result.history|, i requires 0 <= i < |result.history| =>
      Telemetry(i, |result.history|, result.history[i]))
    + [Complete(|result.history|, runId, result.outcome)]
  }

  predicate ValidContext<T>(ctx: Context<T>) {
    && ctx.count == |ctx.result.history|
    && ctx.position.sampleIndex < ctx.count
    && (ctx.position.complete ==> ctx.position.sampleIndex == ctx.count - 1)
  }

  /** How many events of the whole stream are due in a context. */
  function DueCount<T>(ctx: Context<T>): nat {
    if ctx.position.complete then ctx.count + 1 else ctx.position.sampleIndex + 1
  }

  function Slice<T>(s: seq<T>, lo: int, hi: int): seq<T> {
    if 0 <= lo < hi <= |s| then s[lo..hi] else []
  }

  /** The batch is the slice of the whole stream from the resume point to the last
      due event; it is terminal exactly when it reaches the end of the stream. */
  method BuildEventBatch<T>(ctx: Context<T>, lastSequence: int) returns (batch: Batch<T>)
    requires ValidContext(ctx) && -1 <= lastSequence
    ensures batch.events == Slice(FullStream(ctx.result, ctx.runId), lastSequence + 1, DueCount(ctx))
    ensures batch.terminal <==> ctx.position.complete || ctx.count <= lastSequence
    ensures batch.delayMs == if batch.events == [] && !batch.terminal then ctx.position.delayMs else 0
  {
    var n := ctx.count;
    var due := ctx.position.sampleIndex;
    ghost var stream := FullStream(ctx.result, ctx.runId);
    if lastSequence >= n {
      return Batch([], 0, true);
    }
    var events: seq<Event<T>> := [];
    var start := if lastSequence + 1 < 0 then 0 else lastSequence + 1;
    var end := if due < n - 1 then due + 1 else n;
    var index := start;
    while index < end
      invariant start <= index
      invariant if start <= end then index <= end else index == start
      invariant events == Slice(stream, start, index)
    {
      events := events + [Telemetry(index, n, ctx.result.history[index])];
      assert |stream| == n + 1 && stream[index] == Telemetry(index, n, ctx.result.history[index]);
      assert stream[start..index] + [stream[index]] == stream[start..index + 1];
      index := index + 1;
    }
    assert events == Slice(stream, start, end);
    if ctx.position.complete {
      assert |stream| == n + 1 && stream[n] == Complete(n, ctx.runId, ctx.result.outcome);
      assert events == stream[start..n];
      assert stream[start..n] + [stream[n]] == stream[start..n + 1];
      events := events + [Complete(n, ctx.runId, ctx.result.outcome)];
    }
    var delay := if events != [] || ctx.position.complete then 0 else ctx.position.delayMs;
    batch := Batch(events, delay, ctx.position.complete);
  }

  /** The function that BuildEventBatch computes, for use in specifications. */
  function BatchOf<T>(ctx: Context<T>, lastSequence: int): Batch<T> {
    var events := Slice(FullStream(ctx.result, ctx.runId), lastSequence + 1, DueCount(ctx));
    var terminal := ctx.position.complete || ctx.count <= lastSequence;
    Batch(events, if events == [] && !terminal then ctx.position.delayMs else 0, terminal)
  }

  /** A batch request as one atomic step under the session lock. */
  function DueEvents<T>(records: Store.Records, results: Results<T>, id: SessionId, cursor: Option<string>,
                        now: int, readOk: bool, disk: Store.Disk)
    : (Store.Records, Result<Batch<T>, ServiceError>)
  {
    var (written, loaded) := LoadContext(records, results, id, now, readOk, disk);
    if loaded.Err? then (written, Err(loaded.error))
    else
      var parsed := ParseLastEventId(cursor, loaded.value.count);
      if parsed.Err? then (written, Err(parsed.error))
      else (written, Ok(BatchOf(loaded.value, parsed.value)))
  }

  lemma LoadedContextIsValid<T>(records: Store.Records, results: Results<T>, id: SessionId, now: int,
                                readOk: bool, disk: Store.Disk)
    ensures var (written, r) := LoadContext(records, results, id, now, readOk, disk);
      r.Ok? ==> ValidContext(r.value)
  {
    var read := Store.ReadRecord(records, id, readOk);
    if read.Ok? && Replayable(read.value) {
      var s := read.value;
      var found := results(s.runId.value);
      if found.Some? && ResultMatches(s, found.value) {
        Clock.IndexIsGreatestDue(s.replayStartedAt.value, now, s.intervalMs.value, |found.value.history|);
      }
    }
  }

  class TelemetryReplayService<T> {
    const store: Store.SessionStore
    const results: Results<T>

    constructor (store: Store.SessionStore, results: Results<T>)
      ensures this.store == store && this.results == results
    {
      this.store := store;
      this.results := results;
    }

    method LoadReplayContext(id: SessionId, now: int, readOk: bool, disk: Store.Disk)
      returns (r: Result<Context<T>, ServiceError>)
      modifies store
      ensures (store.records, r) == LoadContext(old(store.records), results, id, now, readOk, disk)
      ensures r.Ok? ==> ValidContext(r.value)
    {
      LoadedContextIsValid(store.records, results, id, now, readOk, disk);
      var read := store.ReadSession(id, readOk);
      if read.Err? {
        return Err(read.error);
      }
      var s := read.value;
      if s.status == Ready || s.status == Triggering || s.status == BaselineReady {
        return Err(ReplayNotStarted);
      }
      if s.status == Error {
        return Err(StateConflict);
      }
      var found := results(s.runId.value);
      if found.None? {
        return Err(ResultUnavailable);
      }
      if !ResultMatches(s, found.value) {
        return Err(ResultMismatch);
      }
      var count := |found.value.history|;
      var position := Clock.Locate(s.replayStartedAt.value, now, s.intervalMs.value, count);
      if s.status == Completed {
        position := Clock.Position(count - 1, true, 0);
      } else if position.complete {
        var swapped := store.ReplaceSession(MarkCompleted(s, now), Replaying, s.updatedAt, disk);
        if swapped.Err? {
          return Err(swapped.error);
        }
        s := swapped.value;
      }
      r := Ok(Context(s, found.value, position, count, read.value.runId.value));
    }

    /** The sample served is the greatest due one, or the last one after completion. */
    method GetCurrentTelemetry(id: SessionId, now: int, readOk: bool, disk: Store.Disk)
      returns (r: Result<T, ServiceError>)
      modifies store
      ensures var (written, loaded) := LoadContext(old(store.records), results, id, now, readOk, disk);
        && store.records == written
        && (loaded.Ok? ==> ValidContext(loaded.value))
        && r == if loaded.Err? then Err(loaded.error)
                else Ok(loaded.value.result.history[loaded.value.position.sampleIndex])
    {
      var ctx := LoadReplayContext(id, now, readOk, disk);
      if ctx.Err? {
        return Err(ctx.error);
      }
      r := Ok(ctx.value.result.history[ctx.value.position.sampleIndex]);
    }

    method GetDueEvents(id: SessionId, cursor: Option<string>, now: int, readOk: bool, disk: Store.Disk)
      returns (r: Result<Batch<T>, ServiceError>)
      modifies store
      ensures (store.records, r) == DueEvents(old(store.records), results, id, cursor, now, readOk, disk)
    {
      var ctx := LoadReplayContext(id, now, readOk, disk);
      if ctx.Err? {
        return Err(ctx.error);
      }
      var last := ParseLastEventId(cursor, ctx.value.count);
      if last.Err? {
        return Err(last.error);
      }
      var batch := BuildEventBatch(ctx.value, last.value);
      assert batch == BatchOf(ctx.value, last.value);
      r := Ok(batch);
    }
  }
}
