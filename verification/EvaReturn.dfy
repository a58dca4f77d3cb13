// Exactly when an EVA is back before its reserve is touched, over every course it
// can take in whole minutes.
module EvaReturn {
  import opened Scenario
  import opened MathUtils
  import opened EvaMachine

  // What one minute brings: health before the walk, performance, the rover, and
  // health when the mission is evaluated.
  datatype Minute = Minute(critical: bool, performance: real, available: bool, criticalAfter: bool)

  const START := Suit(Eva(0, 0, 0.0), Rover(100.0, true, 0), Preparing, EvaPrep)

  function Advance(c: EvaConfig, x: Suit, m: Minute): Suit
    requires 0 < c.maximum
  {
    var there := x.(rover := x.rover.(available := m.available));
    AbortRule(EvaStep(c, 1.0, there, m.critical, m.performance).suit, m.criticalAfter)
  }

  function Course(c: EvaConfig, minutes: seq<Minute>): Suit
    requires 0 < c.maximum
  {
    if minutes == [] then START else Advance(c, Course(c, minutes[..|minutes| - 1]), minutes[|minutes| - 1])
  }

  predicate OnTime(c: EvaConfig, x: Suit) {
    x.eva.elapsed <= c.maximum - c.reserve
  }

  // The start guard on the rover battery, which is full.
  predicate Startable(c: EvaConfig) {
    c.roverRequired ==> c.roverReserve <= 100.0
  }

  lemma StartsInTime(c: EvaConfig)
    requires ValidEva(c) && ReturnsIdle(c) && Startable(c)
    ensures InTime(c, START) && BatteryOk(c, START)
  {
    if c.ingress == 0 && c.maximum == c.reserve {
      MulMono(c.maximum as real, c.roverReserve, 100.0);
      assert false;
    }
  }

  lemma {:induction false} CourseStaysInTime(c: EvaConfig, minutes: seq<Minute>)
    requires ValidEva(c) && ReturnsIdle(c) && Startable(c)
    ensures InTime(c, Course(c, minutes)) && BatteryOk(c, Course(c, minutes))
  {
    if minutes == [] {
      StartsInTime(c);
    } else {
      var m := minutes[|minutes| - 1];
      CourseStaysInTime(c, minutes[..|minutes| - 1]);
      var x := Course(c, minutes[..|minutes| - 1]);
      var there := x.(rover := x.rover.(available := m.available));
      MinuteStaysInTime(c, there, m.critical, m.performance);
      hide EvaStep, BatteryAfter, ReturnsIdle;
      AbortStaysInTime(c, EvaStep(c, 1.0, there, m.critical, m.performance).suit, m.criticalAfter);
    }
  }

  // ---------- The course that overruns ----------

  const IDLE_MINUTE := Minute(false, 0.0, true, false)

  function IdleCourse(n: nat): seq<Minute> { seq(n, _ => IDLE_MINUTE) }

  // Minutes until the margin turns negative.
  function Room(c: EvaConfig): int { c.maximum - c.ingress - c.reserve }

  predicate Low(c: EvaConfig, elapsed: int)
    requires 0 < c.maximum
  {
    c.roverRequired && BatteryAfter(c, elapsed) < c.roverReserve
  }

  // A walker nobody helps and who does no work, n minutes out.
  predicate Lingers(c: EvaConfig, n: nat, x: Suit)
    requires 0 < c.maximum
  {
    && OnEva(x.status) && x.eva.elapsed == n && x.eva.progress == 0.0 && BatteryOk(c, x) && 0 <= x.eva.work
    && (Outward(x.status) ==> n <= Room(c) && !Low(c, n))
    && (x.status == Ingress ==> if Low(c, n) then x.eva.work == 1 else x.eva.work <= n - Room(c))
  }

  lemma LowStaysLow(c: EvaConfig, n: nat)
    requires 0 < c.maximum
    ensures Low(c, n) ==> Low(c, n + 1)
  {
    BatteryDrains(c, n);
    PosDiv(100.0, c.maximum as real);
    assert 0.0 <= BatteryAfter(c, n);
  }

  lemma NoWorkNoProgress(c: EvaConfig)
    ensures Progress(c, 1.0, 0.0, 0.0) == 0.0
  {
  }

  // Reached before the last minute of the time allowed, or with the rover low.
  lemma LingersOn(c: EvaConfig, n: nat, x: Suit)
    requires ValidEva(c) && !ReturnsIdle(c) && Lingers(c, n, x)
    requires n < c.maximum - c.reserve
    ensures Lingers(c, n + 1, Advance(c, x, IDLE_MINUTE))
  {
    LowStaysLow(c, n);
    BatteryDrains(c, n);
    NoWorkNoProgress(c);
    if c.roverRequired {
      RoverIsEnough(c, n + 1);
    }
    hide BatteryAfter, Progress, DrainRate, Scale, RoverLasts;
    var there := x.(rover := x.rover.(available := true));
    var y := Underway(c, 1.0, there, false);
    assert y.eva.elapsed == n + 1 && y.eva.progress == 0.0 && OnEva(y.status);
    assert BatteryOk(c, y);
    assert Outward(y.status) ==> n + 1 <= Room(c) && !Low(c, n + 1);
    assert y.status == Ingress ==> y.eva.work + 1 < c.ingress;
    hide RoverStage, ReturnStage, HealthStage, Underway;
    assert Lingers(c, n + 1, PhaseStage(c, 1.0, 1, y, 0.0).suit);
  }

  lemma {:induction false} IdleCourseLingers(c: EvaConfig, n: nat)
    requires ValidEva(c) && !ReturnsIdle(c) && Startable(c) && n <= c.maximum - c.reserve
    ensures Lingers(c, n, Course(c, IdleCourse(n)))
  {
    if n > 0 {
      IdleCourseLingers(c, n - 1);
      assert IdleCourse(n)[..n - 1] == IdleCourse(n - 1);
      hide Advance, Lingers;
      LingersOn(c, n - 1, Course(c, IdleCourse(n - 1)));
    }
  }

  lemma LastMinuteOverruns(c: EvaConfig, n: nat, x: Suit)
    requires ValidEva(c) && Lingers(c, n, x)
    ensures Advance(c, x, IDLE_MINUTE).eva.elapsed == n + 1
  {
    hide BatteryAfter, Progress, DrainRate, Scale;
  }

  lemma IdleCourseOverruns(c: EvaConfig)
    requires ValidEva(c) && !ReturnsIdle(c) && Startable(c)
    ensures !OnTime(c, Course(c, IdleCourse(c.maximum - c.reserve + 1)))
  {
    var n := c.maximum - c.reserve;
    IdleCourseLingers(c, n);
    assert IdleCourse(n + 1)[..n] == IdleCourse(n);
    LastMinuteOverruns(c, n, Course(c, IdleCourse(n)));
  }

  /** Every EVA is back before its reserve, on every course, exactly when the
      configuration meets ReturnsIdle: performance is arbitrary here, and the course
      that overruns does no work at all. */
  lemma IdleReturnsExactly(c: EvaConfig)
    requires ValidEva(c) && Startable(c)
    ensures ReturnsIdle(c) <==> forall minutes :: OnTime(c, Course(c, minutes))
  {
    if ReturnsIdle(c) {
      forall minutes: seq<Minute>
        ensures OnTime(c, Course(c, minutes))
      {
        CourseStaysInTime(c, minutes);
      }
    } else {
      IdleCourseOverruns(c);
    }
  }
}
