// Position of a telemetry replay as a function of time. Instants are integer
// microseconds on one UTC axis.
module ReplayClock {
  const US_PER_MS := 1000

  datatype Position = Position(sampleIndex: nat, complete: bool, delayMs: nat)

  /** Microseconds since the replay started, zero while the start is in the future. */
  function ElapsedUs(start: int, now: int): nat {
    if now < start then 0 else now - start
  }

  function Locate(start: int, now: int, intervalMs: int, count: int): Position
    requires 0 < intervalMs && 0 < count
  {
    var intervalUs := intervalMs * US_PER_MS;
    var elapsed := ElapsedUs(start, now);
    var raw := elapsed / intervalUs;
    RawIndexBounds(elapsed, intervalUs);
    var index := if count - 1 < raw then count - 1 else raw;
    var complete := intervalUs * (count - 1) <= elapsed;
    if complete then Position(index, true, 0)
    else
      var remaining := intervalUs * (index + 1) - elapsed;
      var clamped := if remaining < 0 then 0 else remaining;
      Position(index, false, (clamped + 999) / 1000)
  }

  /** Sample k falls due k intervals after the start; sample 0 is always due. */
  predicate IsDue(k: nat, start: int, now: int, intervalMs: int)
  {
    k * (intervalMs * US_PER_MS) <= ElapsedUs(start, now)
  }

  lemma RawIndexBounds(elapsed: nat, intervalUs: int)
    requires 0 < intervalUs
    ensures 0 <= elapsed / intervalUs
    ensures intervalUs * (elapsed / intervalUs) <= elapsed < intervalUs * (elapsed / intervalUs + 1)
  {
    assert elapsed == intervalUs * (elapsed / intervalUs) + elapsed % intervalUs;
    assert 0 <= elapsed % intervalUs < intervalUs;
  }

  lemma MulMono(a: int, b: int, k: int)
    requires a <= b && 0 <= k
    ensures k * a <= k * b && a * k <= b * k
  {
  }

  /** The reported index is the greatest due sample that exists, and the replay
      is complete exactly when that is the last one. */
  lemma IndexIsGreatestDue(start: int, now: int, intervalMs: int, count: int)
    requires 0 < intervalMs && 0 < count
    ensures var p := Locate(start, now, intervalMs, count);
      && p.sampleIndex < count
      && IsDue(p.sampleIndex, start, now, intervalMs)
      && (forall k: nat | k < count && IsDue(k, start, now, intervalMs) :: k <= p.sampleIndex)
      && (p.complete <==> p.sampleIndex == count - 1)
      && (p.complete <==> IsDue(count - 1, start, now, intervalMs))
  {
    var intervalUs := intervalMs * US_PER_MS;
    var elapsed := ElapsedUs(start, now);
    var raw := elapsed / intervalUs;
    RawIndexBounds(elapsed, intervalUs);
    if count - 1 <= raw {
      MulMono(count - 1, raw, intervalUs);
    } else {
      MulMono(raw + 1, count - 1, intervalUs);
    }
    forall k: nat | k < count && IsDue(k, start, now, intervalMs)
      ensures k <= Locate(start, now, intervalMs, count).sampleIndex
    {
      if raw + 1 <= k {
        MulMono(raw + 1, k, intervalUs);
      }
    }
  }

  /** Before completion the delay is a whole number of milliseconds in
      1..interval, and one millisecond less never reaches the next sample. */
  lemma DelayIsTight(start: int, now: int, intervalMs: int, count: int)
    requires 0 < intervalMs && 0 < count
    requires !Locate(start, now, intervalMs, count).complete
    ensures var p := Locate(start, now, intervalMs, count);
      && 1 <= p.delayMs <= intervalMs
      && Locate(start, now + (p.delayMs - 1) * US_PER_MS, intervalMs, count).sampleIndex == p.sampleIndex
  {
    var intervalUs := intervalMs * US_PER_MS;
    var p := Locate(start, now, intervalMs, count);
    var elapsed := ElapsedUs(start, now);
    RawIndexBounds(elapsed, intervalUs);
    IndexIsGreatestDue(start, now, intervalMs, count);
    assert p.sampleIndex == elapsed / intervalUs;
    var remaining := intervalUs * (p.sampleIndex + 1) - elapsed;
    assert 0 < remaining <= intervalUs;
    var later := now + (p.delayMs - 1) * US_PER_MS;
    StaysAtIndex(start, later, intervalMs, count, p.sampleIndex);
  }

  lemma StaysAtIndex(start: int, now: int, intervalMs: int, count: int, index: nat)
    requires 0 < intervalMs && index < count
    requires (intervalMs * US_PER_MS) * index <= ElapsedUs(start, now) < (intervalMs * US_PER_MS) * (index + 1)
    ensures Locate(start, now, intervalMs, count).sampleIndex == index
  {
    var intervalUs := intervalMs * US_PER_MS;
    var elapsed := ElapsedUs(start, now);
    RawIndexBounds(elapsed, intervalUs);
    var raw := elapsed / intervalUs;
    if raw < index {
      MulMono(raw + 1, index, intervalUs);
    } else if index < raw {
      MulMono(index + 1, raw, intervalUs);
    }
  }

  /** Waiting exactly the reported delay moves to the next sample if and only if
      the start is not in the future: the clamp of the elapsed time makes a
      client that is early wait one whole interval without progress. */
  lemma DelayAdvancesByOne(start: int, now: int, intervalMs: int, count: int)
    requires 0 < intervalMs && 0 < count
    requires !Locate(start, now, intervalMs, count).complete
    ensures var p := Locate(start, now, intervalMs, count);
      var q := Locate(start, now + p.delayMs * US_PER_MS, intervalMs, count);
      (q.sampleIndex == p.sampleIndex + 1) <==> start <= now
  {
    var intervalUs := intervalMs * US_PER_MS;
    var p := Locate(start, now, intervalMs, count);
    DelayIsTight(start, now, intervalMs, count);
    IndexIsGreatestDue(start, now, intervalMs, count);
    RawIndexBounds(ElapsedUs(start, now), intervalUs);
    var later := now + p.delayMs * US_PER_MS;
    if start <= now {
      assert intervalUs * (p.sampleIndex + 2) == intervalUs * (p.sampleIndex + 1) + intervalUs;
      StaysAtIndex(start, later, intervalMs, count, p.sampleIndex + 1);
    } else {
      StaysAtIndex(start, later, intervalMs, count, 0);
    }
  }

  /** Later instants never report an earlier sample nor undo completion. */
  lemma PositionIsMonotone(start: int, now: int, later: int, intervalMs: int, count: int)
    requires 0 < intervalMs && 0 < count && now <= later
    ensures var p, q := Locate(start, now, intervalMs, count), Locate(start, later, intervalMs, count);
      p.sampleIndex <= q.sampleIndex && (p.complete ==> q.complete)
  {
    IndexIsGreatestDue(start, now, intervalMs, count);
    IndexIsGreatestDue(start, later, intervalMs, count);
  }
}
