// The converse of the return bound: a healthy walker who works steadily overruns
// whenever the configuration does not meet the bound's condition.
module EvaOverrun {
  import opened Scenario
  import opened MathUtils
  import opened EvaMachine
  import opened EvaReturn
  import opened EvaRepair
  import opened EvaBound

  /** A course the health rules allow: performance lies in [0, 1], and it is above the
      abort fraction in every minute but the last, with which a run may end. */
  predicate Possible(minutes: seq<Minute>, abort: real) {
    forall i | 0 <= i < |minutes| ::
      0.0 <= minutes[i].performance <= 1.0 && (i < |minutes| - 1 ==> abort < minutes[i].performance)
  }

  predicate Surviving(minutes: seq<Minute>, abort: real) {
    forall i | 0 <= i < |minutes| :: abort < minutes[i].performance <= 1.0
  }

  // ---------- Sufficiency ----------

  lemma StartIsBounded(c: EvaConfig, abort: real)
    requires ValidEva(c) && Startable(c) && 0.0 <= abort
    ensures Bounded(c, abort, START)
  {
  }

  lemma AdvanceIsBounded(c: EvaConfig, abort: real, x: Suit, m: Minute)
    requires ValidEva(c) && Returns(c, abort) && 0.0 <= abort && m.performance <= 1.0 && Bounded(c, abort, x)
    ensures Safe(c, Advance(c, x, m)) && (abort < m.performance ==> Bounded(c, abort, Advance(c, x, m)))
  {
    var there := x.(rover := x.rover.(available := m.available));
    assert Bounded(c, abort, there) by { hide Low, BatteryAfter, LatestTurn; }
    MinuteIsBounded(c, abort, there, m.critical, m.performance);
    var y := EvaStep(c, 1.0, there, m.critical, m.performance).suit;
    hide EvaStep, Bounded, Returns;
    if abort < m.performance {
      AbortIsBounded(c, abort, y, m.criticalAfter);
    }
  }

  lemma {:induction false} SurvivorIsBounded(c: EvaConfig, abort: real, minutes: seq<Minute>)
    requires ValidEva(c) && Startable(c) && Returns(c, abort) && 0.0 <= abort && Surviving(minutes, abort)
    ensures Bounded(c, abort, Course(c, minutes))
  {
    hide Bounded, Advance, Returns;
    if minutes == [] {
      StartIsBounded(c, abort);
    } else {
      SurvivorIsBounded(c, abort, minutes[..|minutes| - 1]);
      AdvanceIsBounded(c, abort, Course(c, minutes[..|minutes| - 1]), minutes[|minutes| - 1]);
    }
  }

  lemma PossibleIsOnTime(c: EvaConfig, abort: real, minutes: seq<Minute>)
    requires ValidEva(c) && Startable(c) && Returns(c, abort) && 0.0 <= abort && Possible(minutes, abort)
    ensures OnTime(c, Course(c, minutes))
  {
    hide Advance, Returns;
    if minutes != [] {
      var before := minutes[..|minutes| - 1];
      SurvivorIsBounded(c, abort, before);
      AdvanceIsBounded(c, abort, Course(c, before), minutes[|minutes| - 1]);
      hide Bounded;
    }
  }

  lemma StartIsNotLow(c: EvaConfig)
    requires ValidEva(c) && Startable(c)
    ensures !Low(c, 0)
  {
  }

  // ---------- Necessity ----------

  function Steady(performance: real): Minute { Minute(false, performance, true, false) }

  function SteadyCourse(n: nat, performance: real): seq<Minute> { seq(n, _ => Steady(performance)) }

  // Slow enough that the work is not done before the latest turn.
  predicate SlowEnough(c: EvaConfig, abort: real, performance: real) {
    && abort < performance <= 1.0 && 0.0 <= performance
    && (0 < c.repairWork && WorkAt(c) < LatestTurn(c, abort) ==>
          ((LatestTurn(c, abort) - 1 - WorkAt(c)) as real) * performance < c.repairWork as real)
  }

  /** Performance just above the abort fraction is slow enough. */
  lemma SlowWalker(c: EvaConfig, abort: real) returns (performance: real)
    requires ValidEva(c) && 0.0 <= abort < 1.0
    ensures SlowEnough(c, abort, performance)
  {
    var r := c.repairWork as real;
    var n := LatestTurn(c, abort) - 1 - WorkAt(c);
    if c.repairWork <= 0 || n <= 0 {
      performance := 1.0;
    } else {
      if 0.0 < abort {
        CeilMeaning(n, r, abort);
      }
      hide LatestTurn;
      var m := n as real;
      assert abort * m < r;
      performance := BetweenThem(abort, m, r);
    }
  }

  lemma BetweenThem(abort: real, m: real, r: real) returns (p: real)
    requires 0.0 < m && 0.0 <= abort < 1.0 && abort * m < r
    ensures abort < p <= 1.0 && m * p < r
  {
    Between(abort, m, r);
    var q := r / m;
    p := (abort + (if q < 1.0 then q else 1.0)) / 2.0;
    ProductOrder(p, q, m);
  }

  lemma Between(abort: real, m: real, r: real)
    requires 0.0 < m && abort * m < r
    ensures abort < r / m && (r / m) * m == r
  {
    LessDiv(abort * m, r, m);
    assert abort * m / m == abort;
  }

  // Still on the way out, with the work account exact.
  predicate OnTrack(c: EvaConfig, n: int, performance: real, x: Suit) {
    && Outward(x.status) && 0.0 <= x.eva.progress
    && (x.status == Preparing ==> n < EgressAt(c) && x.eva.progress == 0.0)
    && (x.status == Egress ==> EgressAt(c) <= n < WorkAt(c) && x.eva.progress == 0.0)
    && (x.status == Working ==>
          && WorkAt(c) <= n && x.eva.progress < 1.0
          && (0 < c.repairWork ==> WorkDone(c, x.eva.progress) == ((n - WorkAt(c)) as real) * performance))
  }

  /** A steady walker n minutes out, back in view of an ingress that the low rover
      restarts for ever. */
  predicate Strays(c: EvaConfig, abort: real, performance: real, n: nat, x: Suit)
    requires 0 < c.maximum
  {
    var turn := LatestTurn(c, abort);
    && OnEva(x.status) && x.eva.elapsed == n && BatteryOk(c, x) && 0 <= x.eva.work
    && if Low(c, n) then x.status == Ingress && x.eva.work == 1
       else || (n <= turn && (n == turn ==> turn == Room(c)) && OnTrack(c, n, performance, x))
            || (turn <= n && x.status == Ingress && x.eva.work == n - turn)
  }

  // Where the bound's condition fails.
  predicate Fails(c: EvaConfig, abort: real)
    requires 0 < c.maximum
  {
    c.ingress != 1 && (if c.ingress == 0 then RoverLasts(c) && LatestTurn(c, abort) == Room(c)
                       else Low(c, LatestTurn(c, abort) + c.ingress))
  }

  // The suit midway through the next minute.
  lemma StrayPasses(c: EvaConfig, abort: real, performance: real, n: nat, x: Suit)
    requires ValidEva(c) && 0.0 <= abort && Strays(c, abort, performance, n, x)
    ensures var y := Underway(c, 1.0, x, false);
      && y.eva.elapsed == n + 1 && y.eva.progress == x.eva.progress && BatteryOk(c, y) && OnEva(y.status)
      && (Low(c, n + 1) || (Outward(x.status) && Room(c) < n + 1) ==> y.status == Ingress)
      && (Low(c, n + 1) ==> y.eva.work == 0)
      && (!Low(c, n + 1) ==>
            if Outward(x.status) && Room(c) < n + 1 then y.eva.work == 0
            else y.status == x.status && y.eva.work == x.eva.work)
  {
    BatteryDrains(c, n);
    hide BatteryAfter, DrainRate, Scale, LatestTurn, OnTrack;
  }

  // The work of one steady minute.
  lemma SteadyWork(c: EvaConfig, n: int, performance: real, x: Suit)
    requires 0 < c.repairWork && OnTrack(c, n, performance, x) && x.status == Working && 0.0 <= performance
    ensures var p := Progress(c, 1.0, x.eva.progress, performance);
      var account := ((n + 1 - WorkAt(c)) as real) * performance;
      && 0.0 <= p && (p >= 1.0 <==> account >= c.repairWork as real)
      && (p < 1.0 ==> WorkDone(c, p) == account)
  {
    var r := c.repairWork as real;
    var q := x.eva.progress + Scale(1.0 / r, performance);
    PosDiv(1.0, r);
    ScaleMono(1.0 / r, 0.0, performance);
    assert q * r == x.eva.progress * r + performance by {
      assert Scale(1.0 / r, performance) * r == performance * ((1.0 / r) * r);
    }
    var m := (n - WorkAt(c)) as real;
    assert (n + 1 - WorkAt(c)) as real == m + 1.0;
    assert (m + 1.0) * performance == m * performance + performance;
    if q < 1.0 { ProductOrder(q, 1.0, r); }
    if q > 1.0 { ProductOrder(1.0, q, r); }
  }

  // Steady work is done exactly at the latest turn, unless the margin comes first.
  lemma NotDoneBefore(c: EvaConfig, abort: real, performance: real, n: nat)
    requires SlowEnough(c, abort, performance) && 0 < c.repairWork && WorkAt(c) <= n && n + 1 < LatestTurn(c, abort)
    ensures ((n + 1 - WorkAt(c)) as real) * performance < c.repairWork as real
  {
    hide LatestTurn, WorkAt;
    var done, last := n + 1 - WorkAt(c), LatestTurn(c, abort) - 1 - WorkAt(c);
    assert done as real <= last as real;
    MulMono(performance, done as real, last as real);
    assert (last as real) * performance < c.repairWork as real;
  }

  lemma DoneAtLast(c: EvaConfig, abort: real, performance: real, n: nat)
    requires 0.0 <= abort < performance && 0 < c.repairWork && WorkAt(c) <= n && n + 1 == LatestTurn(c, abort) < Room(c)
    ensures ((n + 1 - WorkAt(c)) as real) * performance >= c.repairWork as real
  {
    CeilMeaning(n + 1 - WorkAt(c), c.repairWork as real, abort);
    hide Ceil, WorkAt;
    MulMono((n + 1 - WorkAt(c)) as real, abort, performance);
  }

  lemma TurnOrWork(c: EvaConfig, abort: real, performance: real, n: nat, x: Suit)
    requires ValidEva(c) && 0.0 <= abort && SlowEnough(c, abort, performance)
    requires OnTrack(c, n, performance, x) && x.status == Working && n + 1 <= LatestTurn(c, abort)
    ensures var p := Progress(c, 1.0, x.eva.progress, performance);
      && 0.0 <= p
      && (if p >= 1.0 then n + 1 == LatestTurn(c, abort)
          else
            && (n + 1 == LatestTurn(c, abort) ==> LatestTurn(c, abort) == Room(c))
            && (0 < c.repairWork ==> WorkDone(c, p) == ((n + 1 - WorkAt(c)) as real) * performance))
  {
    TurnIsInside(c, abort);
    if 0 < c.repairWork {
      SteadyWork(c, n, performance, x);
      hide Progress, LatestTurn, WorkDone, SlowEnough, WorkAt;
      if n + 1 < LatestTurn(c, abort) {
        NotDoneBefore(c, abort, performance, n);
      } else if LatestTurn(c, abort) < Room(c) {
        DoneAtLast(c, abort, performance, n);
      }
    }
  }

  lemma StrayWorks(c: EvaConfig, abort: real, performance: real, n: nat, x: Suit, y: Suit)
    requires ValidEva(c) && 0.0 <= abort && SlowEnough(c, abort, performance)
    requires OnTrack(c, n, performance, x) && x.status == Working && n + 1 <= LatestTurn(c, abort)
    requires y.status == Working && y.eva.progress == x.eva.progress && y.eva.elapsed == n + 1
    ensures var z := PhaseStage(c, 1.0, 1, y, performance).suit;
      && z.eva.elapsed == n + 1 && z.rover == y.rover
      && (z.status == Working || (z.status == Ingress && z.eva.work == 0 && n + 1 == LatestTurn(c, abort)))
      && (z.status == Working ==>
            OnTrack(c, n + 1, performance, z) && (n + 1 == LatestTurn(c, abort) ==> LatestTurn(c, abort) == Room(c)))
  {
    hide Progress, LatestTurn, WorkDone, SlowEnough, WorkAt, ValidEva;
    TurnOrWork(c, abort, performance, n, x);
  }

  lemma BeforeWork(c: EvaConfig, abort: real, n: int)
    requires ValidEva(c) && 0.0 <= abort && n < WorkAt(c) && n + 1 <= Room(c)
    ensures n + 1 <= LatestTurn(c, abort) && (n + 1 == LatestTurn(c, abort) ==> LatestTurn(c, abort) == Room(c))
  {
    if !Endless(c, abort) {
      CeilMeaning(0, c.repairWork as real, abort);
    }
  }

  // A phase of a walker still on the way out.
  lemma StrayGoesOut(c: EvaConfig, abort: real, performance: real, n: nat, x: Suit, y: Suit)
    requires ValidEva(c) && 0.0 <= abort && SlowEnough(c, abort, performance)
    requires OnTrack(c, n, performance, x) && n <= LatestTurn(c, abort) && (n == LatestTurn(c, abort) ==> n == Room(c))
    requires n + 1 <= Room(c) && y.status == x.status && y.eva.progress == x.eva.progress && y.eva.elapsed == n + 1
    requires BatteryOk(c, y) && !Low(c, n + 1) && 0 <= y.eva.work
    ensures Strays(c, abort, performance, n + 1, PhaseStage(c, 1.0, 1, y, performance).suit)
  {
    TurnIsInside(c, abort);
    if x.status == Working {
      hide Progress, LatestTurn, Low, BatteryAfter, WorkDone, SlowEnough, Endless;
      StrayWorks(c, abort, performance, n, x, y);
      assert PhaseStage(c, 1.0, 1, y, performance).suit.eva.work >= 0;
    } else {
      BeforeWork(c, abort, n);
      WorkBegins(c);
      hide LatestTurn, Low, BatteryAfter, WorkDone, SlowEnough, Progress;
      assert y.status == Egress && y.eva.elapsed >= c.preparation + c.egress ==> WorkAt(c) == n + 1;
    }
  }

  lemma StrayComesBack(c: EvaConfig, abort: real, performance: real, n: nat, y: Suit)
    requires ValidEva(c) && 0.0 <= abort && Fails(c, abort) && n < c.maximum - c.reserve
    requires y.status == Ingress && y.eva.elapsed == n + 1 && BatteryOk(c, y) && 0 <= y.eva.work
    requires if Low(c, n + 1) then y.eva.work == 0
             else LatestTurn(c, abort) <= n && y.eva.work == n - LatestTurn(c, abort)
    ensures Strays(c, abort, performance, n + 1, PhaseStage(c, 1.0, 1, y, performance).suit)
  {
    TurnIsInside(c, abort);
    LowAtReserve(c);
    hide LatestTurn, BatteryAfter, RoverLasts, Progress, OnTrack;
    if Low(c, n + 1) {
      LowForEver(c, n + 1, c.maximum - c.reserve);
    } else if c.ingress != 0 && LatestTurn(c, abort) + c.ingress <= n + 1 {
      LowForEver(c, LatestTurn(c, abort) + c.ingress, n + 1);
    }
    hide Low;
  }

  lemma StrayOn(c: EvaConfig, abort: real, performance: real, n: nat, x: Suit)
    requires ValidEva(c) && 0.0 <= abort && Fails(c, abort) && SlowEnough(c, abort, performance)
    requires Strays(c, abort, performance, n, x) && n < c.maximum - c.reserve
    ensures Strays(c, abort, performance, n + 1, Advance(c, x, Steady(performance)))
  {
    var there := x.(rover := x.rover.(available := true));
    assert Strays(c, abort, performance, n, there) by { hide LatestTurn, Low, BatteryAfter, WorkDone; }
    StrayPasses(c, abort, performance, n, there);
    LowStaysLow(c, n);
    TurnIsInside(c, abort);
    var y := Underway(c, 1.0, there, false);
    CalmStep(c, there, performance);
    hide Underway, PhaseStage, Low, LatestTurn, BatteryAfter, OnTrack, EvaStep, AbortRule, SlowEnough, RoverLasts;
    if y.status == Ingress {
      StrayComesBack(c, abort, performance, n, y);
    } else {
      StrayGoesOut(c, abort, performance, n, there, y);
    }
  }

  lemma StartStrays(c: EvaConfig, abort: real, performance: real)
    requires ValidEva(c) && Startable(c) && 0.0 <= abort
    ensures Strays(c, abort, performance, 0, START)
  {
    TurnIsInside(c, abort);
    StartIsNotLow(c);
    BeforeWork0(c, abort);
    hide LatestTurn, Low;
  }

  lemma BeforeWork0(c: EvaConfig, abort: real)
    requires ValidEva(c) && 0.0 <= abort
    ensures LatestTurn(c, abort) == 0 ==> Room(c) == 0
  {
    if !Endless(c, abort) {
      CeilMeaning(0, c.repairWork as real, abort);
    }
  }

  lemma {:induction false} SteadyCourseStrays(c: EvaConfig, abort: real, performance: real, n: nat)
    requires ValidEva(c) && Startable(c) && 0.0 <= abort && Fails(c, abort) && SlowEnough(c, abort, performance)
    requires n <= c.maximum - c.reserve
    ensures Strays(c, abort, performance, n, Course(c, SteadyCourse(n, performance)))
  {
    hide Advance, Strays, Fails, SlowEnough;
    if n == 0 {
      StartStrays(c, abort, performance);
    } else {
      SteadyCourseStrays(c, abort, performance, n - 1);
      assert SteadyCourse(n, performance)[..n - 1] == SteadyCourse(n - 1, performance);
      StrayOn(c, abort, performance, n - 1, Course(c, SteadyCourse(n - 1, performance)));
    }
  }

  lemma LastMinuteCounts(c: EvaConfig, x: Suit, performance: real)
    requires 0 < c.maximum && OnEva(x.status)
    ensures Advance(c, x, Steady(performance)).eva.elapsed == x.eva.elapsed + 1
  {
    hide Progress, Drain;
  }

  /** A walker in full health with the rover at hand, at one constant performance above
      the abort fraction, touches the reserve wherever the condition fails. */
  lemma SteadyCourseOverruns(c: EvaConfig, abort: real, performance: real)
    requires ValidEva(c) && Startable(c) && 0.0 <= abort && Fails(c, abort) && SlowEnough(c, abort, performance)
    ensures !OnTime(c, Course(c, SteadyCourse(c.maximum - c.reserve + 1, performance)))
  {
    hide Low, LatestTurn, OnTrack, Advance, Fails, SlowEnough;
    var n := c.maximum - c.reserve;
    SteadyCourseStrays(c, abort, performance, n);
    assert SteadyCourse(n + 1, performance)[..n] == SteadyCourse(n, performance);
    LastMinuteCounts(c, Course(c, SteadyCourse(n, performance)), performance);
  }

  lemma FailsWithoutBound(c: EvaConfig, abort: real)
    requires ValidEva(c) && 0.0 <= abort && !Returns(c, abort)
    ensures Fails(c, abort) && (1.0 <= abort ==> c.reserve == c.maximum)
  {
    TurnIsInside(c, abort);
    hide LatestTurn, Low, RoverLasts;
  }

  lemma OverrunIsPossible(c: EvaConfig, abort: real) returns (minutes: seq<Minute>)
    requires ValidEva(c) && Startable(c) && 0.0 <= abort && !Returns(c, abort)
    ensures Possible(minutes, abort) && !OnTime(c, Course(c, minutes))
  {
    FailsWithoutBound(c, abort);
    hide Returns, Fails, Course;
    if abort < 1.0 {
      var performance := SlowWalker(c, abort);
      minutes := SteadyCourse(c.maximum - c.reserve + 1, performance);
      SteadyCourseOverruns(c, abort, performance);
    } else {
      minutes := SteadyCourse(1, 0.0);
      FirstMinuteOverruns(c);
    }
  }

  lemma FirstMinuteOverruns(c: EvaConfig)
    requires ValidEva(c) && c.reserve == c.maximum
    ensures !OnTime(c, Course(c, SteadyCourse(1, 0.0)))
  {
    assert SteadyCourse(1, 0.0)[..0] == [];
    assert Course(c, []) == START;
    LastMinuteCounts(c, START, 0.0);
    hide Advance;
  }

  /** Every EVA is back before its reserve, on every course that the health rules allow,
      exactly when the configuration and the abort fraction meet Returns. */
  lemma ReturnsExactly(c: EvaConfig, abort: real)
    requires ValidEva(c) && Startable(c) && 0.0 <= abort
    ensures Returns(c, abort) <==> forall minutes :: Possible(minutes, abort) ==> OnTime(c, Course(c, minutes))
  {
    if Returns(c, abort) {
      forall minutes | Possible(minutes, abort)
        ensures OnTime(c, Course(c, minutes))
      {
        PossibleIsOnTime(c, abort, minutes);
      }
    } else {
      var minutes := OverrunIsPossible(c, abort);
    }
  }

  /** The bound for walkers who may do no work at all is the hardest to meet. */
  lemma IdleIsWorst(c: EvaConfig, abort: real)
    requires ValidEva(c) && 0.0 <= abort && ReturnsIdle(c)
    ensures Returns(c, abort)
  {
    TurnIsInside(c, abort);
    LowAtReserve(c);
    hide LatestTurn, RoverLasts;
    if c.ingress > 1 && Low(c, LatestTurn(c, abort) + c.ingress) {
      hide Low;
      LowForEver(c, LatestTurn(c, abort) + c.ingress, c.maximum - c.reserve);
    }
  }
}
