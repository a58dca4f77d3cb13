// The return bound for walkers whom the health rules keep on their feet: in every
// minute but the last of a course their performance is above the abort fraction.
module EvaBound {
  import opened Scenario
  import opened MathUtils
  import opened EvaMachine
  import opened EvaReturn
  import opened EvaRepair

  function Later(a: int, b: int): int { if a < b then b else a }

  function Ceil(x: real): int { -((-x).Floor) }

  // A phase takes a minute even when it is given none.
  function EgressAt(c: EvaConfig): int { Later(c.preparation, 1) }

  function WorkAt(c: EvaConfig): int { Later(c.preparation + c.egress, EgressAt(c) + 1) }

  // The work may take any time.
  predicate Endless(c: EvaConfig, abort: real) { c.repairWork <= 0 || abort <= 0.0 }

  /** The latest minute at which a walker turns back: when the slowest walker is done,
      but no later than the safe-return margin allows. */
  function LatestTurn(c: EvaConfig, abort: real): int {
    if Endless(c, abort) then Room(c)
    else
      var done := WorkAt(c) + Ceil((c.repairWork as real) / abort);
      if done < Room(c) then done else Room(c)
  }

  /** When every EVA is back with its reserve untouched. An ingress of one minute always
      is. One of no minutes is begun a minute late at the margin, unless the low rover or
      the end of the work comes first. A longer one never ends once the rover is low, so
      the rover must last for the longest EVA. */
  predicate Returns(c: EvaConfig, abort: real)
    requires 0 < c.maximum
  {
    || (1.0 <= abort && c.reserve < c.maximum)
    || c.ingress == 1
    || (if c.ingress == 0 then !RoverLasts(c) || LatestTurn(c, abort) < Room(c)
        else !Low(c, LatestTurn(c, abort) + c.ingress))
  }

  lemma CeilMeaning(n: int, work: real, abort: real)
    requires 0.0 < work && 0.0 < abort
    ensures n < Ceil(work / abort) <==> abort * (n as real) < work
    ensures 0 < Ceil(work / abort)
  {
    var q := work / abort;
    PosDiv(work, abort);
    assert abort * q == work;
    assert n < Ceil(q) <==> n as real < q;
    if n as real < q { ProductOrder(n as real, q, abort); }
    if q < n as real { ProductOrder(q, n as real, abort); }
  }

  lemma TurnIsInside(c: EvaConfig, abort: real)
    requires ValidEva(c)
    ensures 0 <= LatestTurn(c, abort) <= Room(c)
  {
    if !Endless(c, abort) {
      CeilMeaning(0, c.repairWork as real, abort);
    }
  }

  // ---------- The invariant ----------

  // What work there is stands behind a walker who has survived so far.
  predicate Worked(c: EvaConfig, abort: real, elapsed: int, progress: real) {
    WorkAt(c) <= elapsed
    && (0 < c.repairWork ==> progress < 1.0 && abort * ((elapsed - WorkAt(c)) as real) <= WorkDone(c, progress))
  }

  predicate OnTheWay(c: EvaConfig, abort: real, x: Suit) {
    && (x.status == Preparing ==> x.eva.elapsed < EgressAt(c) && x.eva.progress == 0.0)
    && (x.status == Egress ==> EgressAt(c) <= x.eva.elapsed < WorkAt(c) && x.eva.progress == 0.0)
    && (x.status == Working ==> Worked(c, abort, x.eva.elapsed, x.eva.progress))
  }

  predicate Safe(c: EvaConfig, x: Suit) {
    0 <= x.eva.elapsed <= c.maximum - c.reserve && (Outward(x.status) ==> x.eva.elapsed <= Room(c))
  }

  /** The account of a walker who has survived so far. */
  predicate Bounded(c: EvaConfig, abort: real, x: Suit)
    requires 0 < c.maximum
  {
    && Safe(c, x) && BatteryOk(c, x) && 0 <= x.eva.work && 0.0 <= x.eva.progress && OnTheWay(c, abort, x)
    && (x.status == Ingress ==>
          x.eva.elapsed - x.eva.work <= LatestTurn(c, abort) && (x.eva.work < c.ingress || x.eva.work == 0))
    && (OnEva(x.status) && c.ingress == 0 ==> !Low(c, x.eva.elapsed))
    && (OnEva(x.status) && 1.0 <= abort ==> x.eva.elapsed == 0)
  }

  lemma OutwardTurns(c: EvaConfig, abort: real, x: Suit)
    requires ValidEva(c) && 0.0 <= abort && Outward(x.status) && Safe(c, x) && OnTheWay(c, abort, x)
    ensures x.eva.elapsed <= LatestTurn(c, abort)
    ensures x.status == Working && x.eva.elapsed < Room(c) ==> x.eva.elapsed + 1 <= LatestTurn(c, abort)
  {
    if !Endless(c, abort) {
      var r := c.repairWork as real;
      CeilMeaning(0, r, abort);
      if x.status == Working {
        CeilMeaning(x.eva.elapsed - WorkAt(c), r, abort);
        ProductOrder(x.eva.progress, 1.0, r);
      }
    }
    hide WorkDone;
  }

  lemma {:induction false} LowForEver(c: EvaConfig, n: nat, k: nat)
    requires 0 < c.maximum && n <= k && Low(c, n)
    ensures Low(c, k)
    decreases k
  {
    hide Low;
    if n < k {
      LowForEver(c, n, k - 1);
      LowStaysLow(c, k - 1);
    }
  }

  lemma LowAtReserve(c: EvaConfig)
    requires ValidEva(c)
    ensures Low(c, c.maximum - c.reserve) <==> !RoverLasts(c)
  {
    if c.roverRequired {
      RoverIsEnough(c, c.maximum - c.reserve);
    }
  }

  // After the minute has passed and before the phase.
  predicate Midway(c: EvaConfig, abort: real, x: Suit, y: Suit)
    requires 0 < c.maximum
  {
    && OnEva(y.status) && y.eva.elapsed == x.eva.elapsed + 1 && y.eva.progress == x.eva.progress && BatteryOk(c, y)
    && 0 <= y.eva.work && 0 <= y.eva.elapsed <= c.maximum - c.reserve
    && (Outward(y.status) ==> y.status == x.status && y.eva.elapsed <= Room(c))
    && (Outward(y.status) && c.ingress == 0 ==> !Low(c, y.eva.elapsed))
    && (y.status == Ingress ==>
          y.eva.elapsed - 1 - y.eva.work <= LatestTurn(c, abort) && (y.eva.work < c.ingress || y.eva.work == 0))
  }

  // A walker of more than one minute of ingress never meets a low rover.
  lemma NeverLow(c: EvaConfig, abort: real, x: Suit)
    requires ValidEva(c) && Returns(c, abort) && 0.0 <= abort < 1.0 && Bounded(c, abort, x) && OnEva(x.status)
    requires 1 < c.ingress
    ensures !Low(c, x.eva.elapsed + 1)
  {
    TurnIsInside(c, abort);
    hide Low, LatestTurn;
    if Outward(x.status) {
      OutwardTurns(c, abort, x);
    }
    if Low(c, x.eva.elapsed + 1) {
      LowForEver(c, x.eva.elapsed + 1, LatestTurn(c, abort) + c.ingress);
    }
  }

  lemma LastMinuteFits(c: EvaConfig, abort: real, x: Suit)
    requires ValidEva(c) && Returns(c, abort) && 0.0 <= abort < 1.0 && Bounded(c, abort, x) && OnEva(x.status)
    ensures x.eva.elapsed + 1 <= c.maximum - c.reserve
  {
    TurnIsInside(c, abort);
    LowAtReserve(c);
    hide LatestTurn, BatteryAfter, RoverLasts, Low;
    if Outward(x.status) {
      OutwardTurns(c, abort, x);
    }
    if c.ingress == 0 && !RoverLasts(c) && x.eva.elapsed == c.maximum - c.reserve {
      assert false;
    }
  }

  lemma MinutePassesBounded(c: EvaConfig, abort: real, x: Suit, critical: bool)
    requires ValidEva(c) && Returns(c, abort) && 0.0 <= abort < 1.0 && Bounded(c, abort, x) && OnEva(x.status)
    ensures Midway(c, abort, x, Underway(c, 1.0, x, critical))
  {
    BatteryDrains(c, x.eva.elapsed);
    LastMinuteFits(c, abort, x);
    if 1 < c.ingress {
      NeverLow(c, abort, x);
    }
    if Outward(x.status) {
      OutwardTurns(c, abort, x);
    }
    hide BatteryAfter, DrainRate, Scale, RoverLasts, LatestTurn, OnTheWay, Returns;
  }

  lemma WorkGoesOn(c: EvaConfig, abort: real, elapsed: int, progress: real, performance: real)
    requires Worked(c, abort, elapsed, progress) && 0.0 <= abort <= performance && 0.0 <= progress
    requires Progress(c, 1.0, progress, performance) < 1.0
    ensures Worked(c, abort, elapsed + 1, Progress(c, 1.0, progress, performance))
    ensures 0.0 <= Progress(c, 1.0, progress, performance)
  {
    if 0 < c.repairWork {
      var r := c.repairWork as real;
      var p := progress + Scale(1.0 / r, performance);
      assert Progress(c, 1.0, progress, performance) == p;
      PosDiv(1.0, r);
      ScaleMono(1.0 / r, 0.0, performance);
      assert p * r == progress * r + performance by {
        assert Scale(1.0 / r, performance) * r == performance * ((1.0 / r) * r);
      }
      var n := (elapsed - WorkAt(c)) as real;
      assert (elapsed + 1 - WorkAt(c)) as real == n + 1.0;
      assert abort * (n + 1.0) == abort * n + abort;
    }
  }

  lemma ProgressIsNatural(c: EvaConfig, progress: real, performance: real)
    requires 0.0 <= progress
    ensures 0.0 <= Progress(c, 1.0, progress, performance)
  {
    if 0 < c.repairWork {
      PosDiv(1.0, c.repairWork as real);
      ScaleMono(1.0 / (c.repairWork as real), 0.0, NonNegative(performance));
    }
  }

  // What the phase makes of a walker midway.
  predicate PhaseBounded(c: EvaConfig, abort: real, y: Suit, performance: real)
    requires 0 < c.maximum
  {
    var z := PhaseStage(c, 1.0, 1, y, performance).suit;
    && Safe(c, z) && z.eva.elapsed == y.eva.elapsed && z.rover == y.rover
    && (abort < performance || !OnEva(z.status) ==> Bounded(c, abort, z))
  }

  lemma WayOutIsBounded(c: EvaConfig, abort: real, x: Suit, y: Suit, performance: real)
    requires ValidEva(c) && 0.0 <= abort < 1.0 && Bounded(c, abort, x) && Midway(c, abort, x, y)
    requires y.status == Preparing || y.status == Egress
    ensures PhaseBounded(c, abort, y, performance)
  {
    hide Progress, LatestTurn, Low, BatteryAfter;
    WorkBegins(c);
    assert y.status == Egress && y.eva.elapsed >= c.preparation + c.egress ==> WorkAt(c) == y.eva.elapsed;
    hide WorkDone;
  }

  lemma WayBackIsBounded(c: EvaConfig, abort: real, x: Suit, y: Suit, performance: real)
    requires ValidEva(c) && 0.0 <= abort < 1.0 && Bounded(c, abort, x) && Midway(c, abort, x, y) && y.status == Ingress
    ensures PhaseBounded(c, abort, y, performance)
  {
    hide Progress, LatestTurn, Low, BatteryAfter, Worked;
  }

  lemma WorkIsBounded(c: EvaConfig, abort: real, x: Suit, y: Suit, performance: real)
    requires ValidEva(c) && 0.0 <= abort < 1.0 && Bounded(c, abort, x) && Midway(c, abort, x, y) && y.status == Working
    ensures PhaseBounded(c, abort, y, performance)
  {
    TurnIsInside(c, abort);
    OutwardTurns(c, abort, x);
    ProgressIsNatural(c, y.eva.progress, performance);
    if Progress(c, 1.0, y.eva.progress, performance) < 1.0 && abort < performance {
      WorkGoesOn(c, abort, x.eva.elapsed, x.eva.progress, performance);
    }
    hide Progress, LatestTurn, Low, BatteryAfter, Worked;
  }

  lemma PhaseIsBounded(c: EvaConfig, abort: real, x: Suit, y: Suit, performance: real)
    requires ValidEva(c) && 0.0 <= abort < 1.0 && Bounded(c, abort, x) && OnEva(x.status) && Midway(c, abort, x, y)
    ensures PhaseBounded(c, abort, y, performance)
  {
    hide Bounded, PhaseBounded;
    if y.status == Working {
      WorkIsBounded(c, abort, x, y, performance);
    } else if y.status == Ingress {
      WayBackIsBounded(c, abort, x, y, performance);
    } else {
      WayOutIsBounded(c, abort, x, y, performance);
    }
  }

  lemma AbortIsBounded(c: EvaConfig, abort: real, x: Suit, critical: bool)
    requires ValidEva(c) && 0.0 <= abort && Bounded(c, abort, x)
    ensures Bounded(c, abort, AbortRule(x, critical))
  {
    if Outward(x.status) {
      OutwardTurns(c, abort, x);
    }
    hide LatestTurn, Low, BatteryAfter, WorkDone;
  }

  // Where nobody survives a minute, the first is the last.
  lemma OnlyMinuteFits(c: EvaConfig, abort: real, x: Suit, critical: bool, performance: real)
    requires ValidEva(c) && 1.0 <= abort && c.reserve < c.maximum && Bounded(c, abort, x) && OnEva(x.status)
    ensures var z := PhaseStage(c, 1.0, 1, Underway(c, 1.0, x, critical), performance).suit;
      Safe(c, z) && (!OnEva(z.status) ==> Bounded(c, abort, z))
  {
    BatteryDrains(c, x.eva.elapsed);
    UnderwayInMargin(c, x, critical);
    ProgressIsNatural(c, x.eva.progress, performance);
    hide Underway, BatteryAfter, Progress, Low, OnTheWay, LatestTurn;
  }

  lemma UnderwayInMargin(c: EvaConfig, x: Suit, critical: bool)
    requires 0 < c.maximum && OnEva(x.status) && BatteryOk(c, x) && 0 <= x.eva.work
    ensures var y := Underway(c, 1.0, x, critical);
      && y.eva.elapsed == x.eva.elapsed + 1 && y.eva.progress == x.eva.progress && OnEva(y.status) && 0 <= y.eva.work
      && BatteryOk(c, y) && (Outward(y.status) ==> y.eva.elapsed <= Room(c))
  {
    BatteryDrains(c, x.eva.elapsed);
    hide BatteryAfter, DrainRate, Scale;
  }

  /** One minute keeps the bound, and the whole account while the walker survives it or
      is no longer out. */
  lemma MinuteIsBounded(c: EvaConfig, abort: real, x: Suit, critical: bool, performance: real)
    requires ValidEva(c) && Returns(c, abort) && 0.0 <= abort && performance <= 1.0 && Bounded(c, abort, x)
    ensures var y := EvaStep(c, 1.0, x, critical, performance).suit;
      Safe(c, y) && (abort < performance || !OnEva(y.status) ==> Bounded(c, abort, y))
  {
    if OnEva(x.status) && !(c.roverRequired && !x.rover.available) {
      if abort < 1.0 {
        MinutePassesBounded(c, abort, x, critical);
        PhaseIsBounded(c, abort, x, Underway(c, 1.0, x, critical), performance);
      } else {
        assert x.eva.elapsed == 0;
        ReserveIsShort(c, abort);
        OnlyMinuteFits(c, abort, x, critical, performance);
      }
    }
    hide Low, LatestTurn, BatteryAfter, RoverStage, ReturnStage, HealthStage, PhaseStage, OnTheWay, Midway, Returns, Underway;
    NotOnEva(c, abort, x, critical, performance);
  }

  // A step that does not walk.
  lemma NotOnEva(c: EvaConfig, abort: real, x: Suit, critical: bool, performance: real)
    requires ValidEva(c) && Bounded(c, abort, x)
    ensures var y := EvaStep(c, 1.0, x, critical, performance).suit;
      if OnEva(x.status) && !(c.roverRequired && !x.rover.available) then
        y == PhaseStage(c, 1.0, 1, Underway(c, 1.0, x, critical), performance).suit
      else Safe(c, y) && Bounded(c, abort, y)
  {
    hide Low, LatestTurn, BatteryAfter, RoverStage, ReturnStage, HealthStage, PhaseStage;
  }

  // With nothing but reserve in the maximum every phase takes no time at all.
  lemma ReserveIsShort(c: EvaConfig, abort: real)
    requires ValidEva(c) && Returns(c, abort) && 1.0 <= abort && (c.ingress == 0 ==> !Low(c, 0))
    ensures c.reserve < c.maximum
  {
    if c.reserve == c.maximum && c.roverRequired {
      MulMono(c.maximum as real, c.roverReserve, 100.0);
    }
  }
}
