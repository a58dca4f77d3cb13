// How long a repair takes: the array is restored only by an EVA that has spent the
// time of every phase in full.
module EvaRepair {
  import opened Scenario
  import opened MathUtils
  import opened EvaMachine
  import opened EvaReturn

  // Minutes of work that the progress stands for.
  function WorkDone(c: EvaConfig, progress: real): real {
    progress * (c.repairWork as real)
  }

  function FullTime(c: EvaConfig): int {
    c.preparation + c.egress + c.repairWork + c.ingress
  }

  /** Time spent so far covers every phase already behind the walker and the work the
      progress stands for. */
  predicate Earned(c: EvaConfig, x: Suit) {
    && 0.0 <= x.eva.progress <= 1.0 && 0 <= x.eva.work
    && (c.repairWork <= 0 ==> x.eva.progress == 0.0)
    && (x.status == Egress ==> c.preparation <= x.eva.elapsed)
    && (x.status == Working ==> c.preparation + c.egress <= x.eva.elapsed)
    && (x.eva.progress > 0.0 ==>
          && (x.status == Working || x.status == Ingress || x.status == Finished || x.status == EvaStatus.Aborted)
          && (c.preparation + c.egress) as real + WorkDone(c, x.eva.progress)
             + (if x.status == Ingress then x.eva.work as real else 0.0) <= x.eva.elapsed as real)
  }

  lemma ProgressIsSlow(c: EvaConfig, progress: real, performance: real)
    requires 0.0 <= progress <= 1.0 && performance <= 1.0 && 0 < c.repairWork
    ensures var p := Progress(c, 1.0, progress, performance);
      progress <= p <= 1.0 && WorkDone(c, p) <= WorkDone(c, progress) + 1.0
  {
    var r := c.repairWork as real;
    var q := NonNegative(performance);
    PosDiv(1.0, r);
    ScaleMono(1.0 / r, 0.0, q);
    var p := progress + Scale(1.0 / r, q);
    assert p * r == progress * r + (1.0 / r) * q * r;
    assert (1.0 / r) * q * r == q by {
      assert (1.0 / r) * r == 1.0;
      assert (1.0 / r) * q * r == q * ((1.0 / r) * r);
    }
    MulMono(r, Progress(c, 1.0, progress, performance), p);
  }

  lemma FullProgress(c: EvaConfig, progress: real)
    requires progress == 1.0
    ensures WorkDone(c, progress) == c.repairWork as real
  {
  }

  lemma UnderwayIsEarned(c: EvaConfig, x: Suit, critical: bool)
    requires ValidEva(c) && Earned(c, x) && OnEva(x.status)
    ensures var y := Underway(c, 1.0, x, critical);
      && OnEva(y.status) && 0 <= y.eva.work && y.eva.progress == x.eva.progress && y.eva.elapsed == x.eva.elapsed + 1
      && (y.status == Egress ==> c.preparation <= x.eva.elapsed)
      && (y.status == Working ==> c.preparation + c.egress <= x.eva.elapsed)
      && (y.eva.progress > 0.0 ==>
            && (y.status == Working || y.status == Ingress)
            && (c.preparation + c.egress) as real + WorkDone(c, y.eva.progress)
               + (if y.status == Ingress then y.eva.work as real else 0.0) <= x.eva.elapsed as real)
  {
    hide Drain, WorkDone, DrainRate, Scale;
  }

  lemma PhaseIsEarned(c: EvaConfig, x: Suit, critical: bool, performance: real)
    requires ValidEva(c) && Earned(c, x) && OnEva(x.status) && performance <= 1.0
    ensures var out := PhaseStage(c, 1.0, 1, Underway(c, 1.0, x, critical), performance);
      && Earned(c, out.suit)
      && (out.repaired ==> 0 < c.repairWork && FullTime(c) <= out.suit.eva.elapsed)
  {
    UnderwayIsEarned(c, x, critical);
    var y := Underway(c, 1.0, x, critical);
    hide Underway;
    if y.status == Working && 0 < c.repairWork {
      ProgressIsSlow(c, y.eva.progress, performance);
      hide Progress, WorkDone, Scale;
    } else if y.status == Ingress && y.eva.progress >= 1.0 {
      FullProgress(c, y.eva.progress);
      hide Progress, WorkDone, Scale;
    } else {
      hide WorkDone, Scale;
    }
  }

  /** A minute keeps the account, and restores the array only after every phase has
      been given its full time; without repair work it never does. */
  lemma RepairTakesFullTime(c: EvaConfig, x: Suit, critical: bool, performance: real)
    requires ValidEva(c) && Earned(c, x) && performance <= 1.0
    ensures var out := EvaStep(c, 1.0, x, critical, performance);
      && Earned(c, out.suit)
      && (out.repaired ==> 0 < c.repairWork && FullTime(c) <= out.suit.eva.elapsed)
  {
    if OnEva(x.status) && !(c.roverRequired && !x.rover.available) {
      PhaseIsEarned(c, x, critical, performance);
      hide RoverStage, ReturnStage, HealthStage, PhaseStage, Earned, FullTime;
    } else {
      hide WorkDone, FullTime;
    }
  }

  lemma AbortIsEarned(c: EvaConfig, x: Suit, critical: bool)
    requires Earned(c, x)
    ensures Earned(c, AbortRule(x, critical))
  {
    hide WorkDone;
  }

  // ---------- The bound is reached ----------

  const EAGER_MINUTE := Minute(false, 1.0, true, false)

  // A walker in full health, at full performance, with the rover at hand.
  function EagerCourse(n: nat): seq<Minute> { seq(n, _ => EAGER_MINUTE) }

  /** Where a walker stands after n minutes when nothing goes wrong. */
  predicate OnSchedule(c: EvaConfig, n: nat, x: Suit)
    requires 0 < c.maximum
  {
    var outside := c.preparation + c.egress;
    && x.eva.elapsed == n && BatteryOk(c, x)
    && if n < c.preparation then x.status == Preparing && x.eva.progress == 0.0
       else if n < outside then x.status == Egress && x.eva.progress == 0.0
       else if n < outside + c.repairWork then
         x.status == Working && WorkDone(c, x.eva.progress) == (n - outside) as real && 0.0 <= x.eva.progress
       else if n < FullTime(c) then
         x.status == Ingress && x.eva.progress == 1.0 && x.eva.work == n - outside - c.repairWork
       else x.status == Finished && x.eva.progress == 1.0
  }

  // Every phase takes time; one of no minutes would still take a step.
  predicate PhasesTakeTime(c: EvaConfig) {
    1 <= c.preparation && 1 <= c.egress && 1 <= c.repairWork && 1 <= c.ingress
  }

  lemma EagerProgress(c: EvaConfig, progress: real, done: nat)
    requires 1 <= c.repairWork && done < c.repairWork && 0.0 <= progress && WorkDone(c, progress) == done as real
    ensures var p := Progress(c, 1.0, progress, 1.0);
      && 0.0 <= p && WorkDone(c, p) == (done + 1) as real
      && (p >= 1.0 <==> done + 1 == c.repairWork) && p <= 1.0
  {
    var r := c.repairWork as real;
    PosDiv(1.0, r);
    var p := progress + Scale(1.0 / r, 1.0);
    assert Scale(1.0 / r, 1.0) * r == 1.0;
    assert p * r == progress * r + 1.0;
    if p > 1.0 { ProductOrder(1.0, p, r); }
    if p < 1.0 { ProductOrder(p, 1.0, r); }
  }

  lemma EagerUnderway(c: EvaConfig, n: nat, x: Suit)
    requires ValidEva(c) && PhasesTakeTime(c) && RoverLasts(c) && OnSchedule(c, n, x) && n < FullTime(c)
    ensures var y := Underway(c, 1.0, x, false);
      y == x.(rover := y.rover, eva := x.eva.(elapsed := n + 1)) && BatteryOk(c, y)
  {
    BatteryDrains(c, n);
    if c.roverRequired {
      RoverIsEnough(c, n + 1);
    }
    hide BatteryAfter, DrainRate, Scale, RoverLasts, WorkDone;
  }

  lemma EagerMinute(c: EvaConfig, n: nat, x: Suit)
    requires ValidEva(c) && PhasesTakeTime(c) && RoverLasts(c) && OnSchedule(c, n, x) && n < FullTime(c)
    ensures OnSchedule(c, n + 1, Advance(c, x, EAGER_MINUTE))
  {
    var there := x.(rover := x.rover.(available := true));
    EagerUnderway(c, n, there);
    var y := Underway(c, 1.0, there, false);
    var outside := c.preparation + c.egress;
    if outside <= n < outside + c.repairWork {
      EagerProgress(c, x.eva.progress, n - outside);
    }
    WorkBegins(c);
    hide RoverStage, ReturnStage, HealthStage, Underway, Progress, WorkDone, BatteryAfter, ValidEva, RoverLasts;
    assert OnSchedule(c, n + 1, PhaseStage(c, 1.0, 1, y, 1.0).suit);
    CalmStep(c, there, 1.0);
    hide PhaseStage, OnSchedule;
  }

  lemma WorkBegins(c: EvaConfig)
    ensures WorkDone(c, 0.0) == 0.0
  {
  }

  // Nothing calls the walker back at the end of the step.
  lemma CalmStep(c: EvaConfig, x: Suit, performance: real)
    requires 0 < c.maximum && OnEva(x.status) && x.rover.available
    ensures AbortRule(EvaStep(c, 1.0, x, false, performance).suit, false)
         == PhaseStage(c, 1.0, 1, Underway(c, 1.0, x, false), performance).suit
  {
    hide RoverStage, ReturnStage, HealthStage, PhaseStage;
  }

  lemma {:induction false} EagerCourseIsOnSchedule(c: EvaConfig, n: nat)
    requires ValidEva(c) && PhasesTakeTime(c) && RoverLasts(c) && n <= FullTime(c)
    ensures OnSchedule(c, n, Course(c, EagerCourse(n)))
  {
    hide Advance, RoverLasts, WorkDone;
    if n > 0 {
      hide OnSchedule;
      EagerCourseIsOnSchedule(c, n - 1);
      assert EagerCourse(n)[..n - 1] == EagerCourse(n - 1);
      EagerMinute(c, n - 1, Course(c, EagerCourse(n - 1)));
    }
  }

  /** The full time is enough: when nothing goes wrong the repaired EVA is over after
      exactly the time of all phases, so the lower bound is the best there is. */
  lemma FullTimeIsReached(c: EvaConfig)
    requires ValidEva(c) && PhasesTakeTime(c) && RoverLasts(c)
    ensures var x := Course(c, EagerCourse(FullTime(c)));
      x.status == Finished && x.eva.progress == 1.0 && x.eva.elapsed == FullTime(c)
  {
    EagerCourseIsOnSchedule(c, FullTime(c));
    hide WorkDone, RoverLasts, Course;
  }
}
