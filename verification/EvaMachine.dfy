// The EVA of one crew member as a machine: phases, consumables, rover energy and
// repair progress.
module EvaMachine {
  import opened Wrappers
  import opened Scenario
  import opened MathUtils

  // Everything the machine reads and writes about the walker.
  datatype Suit = Suit(eva: Eva, rover: Rover, status: EvaStatus, activity: Activity)

  datatype Outcome = Outcome(suit: Suit, repaired: bool, events: seq<EventKind>)

  function BeginIngress(x: Suit): Suit {
    x.(status := Ingress, activity := EvaTransit, eva := x.eva.(work := 0))
  }

  // Percent of the rover battery used per minute.
  function DrainRate(c: EvaConfig): real
    requires 0 < c.maximum
  {
    100.0 / (c.maximum as real)
  }

  function Drain(c: EvaConfig, dt: real, rover: Rover): Rover
    requires 0 < c.maximum
  {
    rover.(battery := NonNegative(rover.battery - Scale(dt, DrainRate(c))))
  }

  function SafeReturnMargin(c: EvaConfig, elapsed: int): int {
    c.maximum - elapsed - (c.ingress + c.reserve)
  }

  // The rover part of a step, when a rover is required and present.
  function RoverStage(c: EvaConfig, dt: real, x: Suit): (Suit, bool)
    requires 0 < c.maximum
  {
    if !c.roverRequired then (x, false)
    else
      var drained := x.(rover := Drain(c, dt, x.rover));
      if drained.rover.battery < c.roverReserve then (BeginIngress(drained), true) else (drained, false)
  }

  function ReturnStage(c: EvaConfig, x: Suit): (Suit, bool) {
    if SafeReturnMargin(c, x.eva.elapsed) < 0 && Outward(x.status) then (BeginIngress(x), true) else (x, false)
  }

  function HealthStage(x: Suit, critical: bool): (Suit, bool) {
    if critical && Outward(x.status) then (BeginIngress(x), true) else (x, false)
  }

  function Progress(c: EvaConfig, dt: real, progress: real, performance: real): real {
    if c.repairWork <= 0 then progress
    else
      var p := progress + Scale(dt / (c.repairWork as real), NonNegative(performance));
      if p > 1.0 then 1.0 else p
  }

  // The phase part of a step; minutes are the whole minutes of the step.
  function PhaseStage(c: EvaConfig, dt: real, minutes: int, x: Suit, performance: real): Outcome {
    match x.status
    case Preparing =>
      if x.eva.elapsed >= c.preparation then Outcome(x.(status := Egress, activity := EvaTransit), false, [EvaEgress])
      else Outcome(x.(activity := EvaPrep), false, [])
    case Egress =>
      if x.eva.elapsed >= c.preparation + c.egress then
        Outcome(x.(status := Working, activity := EvaWork, eva := x.eva.(work := 0)), false, [EvaWorking])
      else Outcome(x.(activity := EvaTransit), false, [])
    case Working =>
      var e := x.eva.(work := x.eva.work + minutes, progress := Progress(c, dt, x.eva.progress, performance));
      var w := x.(activity := EvaWork, eva := e);
      if e.progress >= 1.0 then Outcome(BeginIngress(w), false, [EvaIngress]) else Outcome(w, false, [])
    case Ingress =>
      var w := x.(activity := EvaTransit, eva := x.eva.(work := x.eva.work + minutes));
      if w.eva.work >= c.ingress then
        var repaired := w.eva.progress >= 1.0;
        Outcome(w.(status := Finished, activity := Recovery), repaired, When(repaired, SolarRepaired) + [EvaComplete])
      else Outcome(w, false, [])
    case _ => Outcome(x, false, [])
  }

  /** One step of the walker on EVA. */
  function EvaStep(c: EvaConfig, dt: real, x: Suit, critical: bool, performance: real): Outcome
    requires 0 < c.maximum
  {
    if dt <= 0.0 || !OnEva(x.status) then Outcome(x, false, [])
    else if c.roverRequired && !x.rover.available then
      Outcome(x.(status := EvaStatus.Aborted, activity := Recovery), false, [EvaAborted])
    else
      var (x1, low) := RoverStage(c, dt, x);
      var minutes := Truncate(dt);
      var (x2, late) := ReturnStage(c, x1.(eva := x1.eva.(elapsed := x1.eva.elapsed + minutes)));
      var (x3, ill) := HealthStage(x2, critical);
      var out := PhaseStage(c, dt, minutes, x3, performance);
      out.(events := When(low, EvaIngress) + When(late, EvaIngress) + When(ill, EvaIngress) + out.events)
  }

  function FirstOnEva(crew: seq<Crew>): (r: Option<nat>)
    ensures r.Some? ==> r.value < |crew| && OnEva(crew[r.value].eva)
    ensures r.Some? ==> forall i | 0 <= i < r.value :: !OnEva(crew[i].eva)
    ensures r.None? ==> forall i | 0 <= i < |crew| :: !OnEva(crew[i].eva)
  {
    if crew == [] then None
    else
      var n := |crew| - 1;
      var before := FirstOnEva(crew[..n]);
      if before.Some? then before else if OnEva(crew[n].eva) then Some(n) else None
  }

  function SuitOf(s: State, i: nat): Suit
    requires i < |s.crew|
  {
    Suit(s.eva, s.rover, s.crew[i].eva, s.crew[i].activity)
  }

  function WithSuit(s: State, i: nat, x: Suit): State
    requires i < |s.crew|
  {
    s.(eva := x.eva, rover := x.rover, crew := s.crew[i := s.crew[i].(eva := x.status, activity := x.activity)])
  }

  /** The EVA part of a simulator step: it serves the first walker. */
  function EvaStage(c: Config, dt: real, s: State): (State, seq<EventKind>)
    requires 0 < c.eva.maximum
  {
    var i := FirstOnEva(s.crew);
    if i.None? then (s, [])
    else
      var m := s.crew[i.value];
      var out := EvaStep(c.eva, dt, SuitOf(s, i.value), m.health == Health.Critical, m.physical);
      var t := WithSuit(s, i.value, out.suit);
      (if out.repaired then t.(solarFault := c.repairedSolarFault) else t, out.events)
  }

  /** The rule the mission evaluation applies at the end of a step. */
  function AbortRule(x: Suit, critical: bool): Suit {
    if critical && Outward(x.status) then BeginIngress(x) else x
  }

  // ---------- Rover energy over time ----------

  function BatteryAfter(c: EvaConfig, elapsed: int): real
    requires 0 < c.maximum
  {
    NonNegative(100.0 - Scale(elapsed as real, DrainRate(c)))
  }

  lemma BatteryDrains(c: EvaConfig, elapsed: int)
    requires 0 < c.maximum
    ensures NonNegative(BatteryAfter(c, elapsed) - Scale(1.0, DrainRate(c))) == BatteryAfter(c, elapsed + 1)
  {
    var r := DrainRate(c);
    PosDiv(100.0, c.maximum as real);
    assert (elapsed + 1) as real == elapsed as real + 1.0;
    assert (elapsed as real + 1.0) * r == elapsed as real * r + 1.0 * r;
  }

  /** The reserve is touched exactly when the remaining share of the maximum
      duration is worth less than it. */
  lemma ReserveMet(c: EvaConfig, elapsed: int)
    requires 0 < c.maximum && 0 <= elapsed <= c.maximum
    ensures BatteryAfter(c, elapsed) < c.roverReserve
       <==> 100.0 * ((c.maximum - elapsed) as real) < c.roverReserve * (c.maximum as real)
  {
    var m, e := c.maximum as real, elapsed as real;
    var left := 100.0 - Scale(e, DrainRate(c));
    assert left * m == 100.0 * (m - e) by {
      assert DrainRate(c) * m == 100.0;
      assert (100.0 - e * DrainRate(c)) * m == 100.0 * m - e * (DrainRate(c) * m);
    }
    assert (c.maximum - elapsed) as real == m - e;
    assert 0.0 <= left by {
      if left < 0.0 { ProductOrder(left, 0.0, m); }
    }
    if left < c.roverReserve { ProductOrder(left, c.roverReserve, m); }
    if c.roverReserve < left { ProductOrder(c.roverReserve, left, m); }
  }

  lemma ProductOrder(a: real, b: real, m: real)
    requires a < b && 0.0 < m
    ensures a * m < b * m
  {
  }

  // The rover still holds its reserve when the reserve time begins.
  predicate RoverLasts(c: EvaConfig) {
    !c.roverRequired || c.roverReserve * (c.maximum as real) <= 100.0 * (c.reserve as real)
  }

  // ---------- The return bound ----------

  /** When every EVA is back with its reserve untouched. A low rover restarts the
      ingress in every step, so an ingress of two minutes or more never ends once the
      rover is low; an ingress of no minutes ends at once but is begun one minute
      late unless the low rover forces it earlier. */
  predicate ReturnsIdle(c: EvaConfig) {
    if c.ingress == 0 then !RoverLasts(c)
    else c.ingress == 1 || RoverLasts(c)
  }

  predicate BatteryOk(c: EvaConfig, x: Suit)
    requires 0 < c.maximum
  {
    c.roverRequired ==> x.rover.battery == BatteryAfter(c, x.eva.elapsed)
  }

  /** What bounds the time of an EVA: outward phases leave room for the ingress, and
      an ingress for the rest of itself. */
  predicate InTime(c: EvaConfig, x: Suit) {
    && 0 <= x.eva.work && 0 <= x.eva.elapsed <= c.maximum - c.reserve
    && (OnEva(x.status) && c.ingress == 0 ==> x.eva.elapsed < c.maximum - c.reserve)
    && (Outward(x.status) ==> 0 <= SafeReturnMargin(c, x.eva.elapsed))
    && (x.status == Ingress && c.ingress != 0 ==>
          x.eva.work < c.ingress && x.eva.elapsed + (c.ingress - x.eva.work) <= c.maximum - c.reserve)
  }

  // The same in the middle of a step: the minute has passed, the phase not yet.
  predicate Passing(c: EvaConfig, x: Suit) {
    && OnEva(x.status)
    && 0 <= x.eva.work && 0 <= x.eva.elapsed <= c.maximum - c.reserve
    && (Outward(x.status) ==> 0 <= SafeReturnMargin(c, x.eva.elapsed))
    && (Outward(x.status) && c.ingress == 0 ==> x.eva.elapsed < c.maximum - c.reserve)
    && (x.status == Ingress && c.ingress != 0 ==>
          x.eva.work < c.ingress && x.eva.elapsed + (c.ingress - x.eva.work) <= c.maximum - c.reserve + 1)
  }

  lemma PhaseEndsInTime(c: EvaConfig, x: Suit, performance: real)
    requires ValidEva(c) && Passing(c, x)
    ensures var y := PhaseStage(c, 1.0, 1, x, performance).suit;
      InTime(c, y) && y.rover == x.rover && y.eva.elapsed == x.eva.elapsed
  {
    hide Progress;
    if x.status == Working {
      var e := x.eva.(work := x.eva.work + 1, progress := Progress(c, 1.0, x.eva.progress, performance));
      assert PhaseStage(c, 1.0, 1, x, performance).suit.eva.elapsed == e.elapsed;
    }
  }

  // The suit when the phase stage begins.
  function Underway(c: EvaConfig, dt: real, x: Suit, critical: bool): Suit
    requires 0 < c.maximum
  {
    var x1 := RoverStage(c, dt, x).0;
    HealthStage(ReturnStage(c, x1.(eva := x1.eva.(elapsed := x1.eva.elapsed + Truncate(dt)))).0, critical).0
  }

  lemma RoverIsEnough(c: EvaConfig, elapsed: int)
    requires ValidEva(c) && 0 <= elapsed <= c.maximum - c.reserve
    requires c.roverRequired
    ensures RoverLasts(c) ==> BatteryAfter(c, elapsed) >= c.roverReserve
    ensures !RoverLasts(c) && elapsed == c.maximum - c.reserve ==> BatteryAfter(c, elapsed) < c.roverReserve
  {
    ReserveMet(c, elapsed);
    assert (c.maximum - elapsed) as real >= c.reserve as real;
  }

  lemma MinutePasses(c: EvaConfig, x: Suit, critical: bool)
    requires ValidEva(c) && ReturnsIdle(c) && InTime(c, x) && BatteryOk(c, x) && OnEva(x.status)
    ensures var y := Underway(c, 1.0, x, critical);
      Passing(c, y) && BatteryOk(c, y) && y.eva.elapsed == x.eva.elapsed + 1
  {
    BatteryDrains(c, x.eva.elapsed);
    if c.roverRequired {
      RoverIsEnough(c, x.eva.elapsed + 1);
    }
    hide BatteryAfter, DrainRate, Scale, RoverLasts;
  }

  /** One minute keeps the bound, whatever the health, the performance and the
      availability of the rover. */
  lemma MinuteStaysInTime(c: EvaConfig, x: Suit, critical: bool, performance: real)
    requires ValidEva(c) && ReturnsIdle(c) && InTime(c, x) && BatteryOk(c, x)
    ensures var y := EvaStep(c, 1.0, x, critical, performance).suit;
      InTime(c, y) && BatteryOk(c, y)
  {
    if OnEva(x.status) && !(c.roverRequired && !x.rover.available) {
      MinutePasses(c, x, critical);
      PhaseEndsInTime(c, Underway(c, 1.0, x, critical), performance);
      hide BatteryAfter, RoverStage, ReturnStage, HealthStage, PhaseStage, InTime, Passing;
    }
  }

  lemma AbortStaysInTime(c: EvaConfig, x: Suit, critical: bool)
    requires ValidEva(c) && InTime(c, x)
    ensures InTime(c, AbortRule(x, critical))
  {
  }
}
