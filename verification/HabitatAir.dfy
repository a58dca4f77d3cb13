// The cabin gas inventory: consumption, leak, production, scrubbing, and the
// rolling window of carbon dioxide samples.
module HabitatAir {
  import opened Scenario
  import opened MathUtils

  // What one step does to the air, in kilograms.
  datatype Flow = Flow(consumed: real, leak: real, produced: real, rated: real)

  function Total(a: Air): real {
    a.oxygen + a.inert + a.co2
  }

  function Share(part: real, total: real): real
    requires total != 0.0
  {
    part / total
  }

  /** After consumption and leak, before the clamp at zero: the leak takes each gas
      in proportion to its mass. */
  function Leaked(a: Air, f: Flow): Air {
    var o := a.oxygen - f.consumed;
    var total := o + a.inert + a.co2;
    if total > 0.0 && f.leak > 0.0 then
      Air(o - Scale(f.leak, Share(o, total)), a.inert - Scale(f.leak, Share(a.inert, total)),
          a.co2 - Scale(f.leak, Share(a.co2, total)))
    else Air(o, a.inert, a.co2)
  }

  function UpdateAtmosphere(a: Air, f: Flow): Air {
    var b := Leaked(a, f);
    Air(NonNegative(b.oxygen), NonNegative(b.inert), NonNegative(b.co2))
  }

  function Scrubbed(a: Air, f: Flow): real {
    var available := a.co2 + f.produced;
    if f.rated > available then available else f.rated
  }

  function UpdateCo2(a: Air, f: Flow): Air {
    a.(co2 := a.co2 + f.produced - Scrubbed(a, f))
  }

  function AirStep(a: Air, f: Flow): Air {
    UpdateCo2(UpdateAtmosphere(a, f), f)
  }

  // What really leaves through the leak.
  function LeakOut(a: Air, f: Flow): real {
    if Total(a) - f.consumed > 0.0 && f.leak > 0.0 then f.leak else 0.0
  }

  // The scrubbing that really happens in a step.
  function ScrubOut(a: Air, f: Flow): real {
    Scrubbed(UpdateAtmosphere(a, f), f)
  }

  predicate Stocked(a: Air) {
    0.0 <= a.oxygen && 0.0 <= a.inert && 0.0 <= a.co2
  }

  // No inventory would fall below zero.
  predicate NoClamp(a: Air, f: Flow) {
    Stocked(Leaked(a, f))
  }

  lemma SharesAreWhole(o: real, i: real, c: real, leak: real)
    requires o + i + c != 0.0
    ensures var total := o + i + c;
      Scale(leak, Share(o, total)) + Scale(leak, Share(i, total)) + Scale(leak, Share(c, total)) == leak
  {
    var total := o + i + c;
    assert o / total + i / total + c / total == (o + i + c) / total == 1.0;
    var x, y, z := o / total, i / total, c / total;
    assert leak * (x + y + z) == leak * x + leak * y + leak * z;
  }

  lemma ShareIsPart(part: real, total: real)
    requires 0.0 < total && 0.0 <= part
    ensures 0.0 <= Share(part, total)
  {
    DivMono(0.0, part, total);
  }

  lemma LeakBalances(a: Air, f: Flow)
    ensures Total(Leaked(a, f)) == Total(a) - f.consumed - LeakOut(a, f)
    ensures Stocked(a) ==> Leaked(a, f).inert <= a.inert && Leaked(a, f).co2 <= a.co2
  {
    var o := a.oxygen - f.consumed;
    var total := o + a.inert + a.co2;
    if total > 0.0 && f.leak > 0.0 {
      SharesAreWhole(o, a.inert, a.co2, f.leak);
      if Stocked(a) {
        ShareIsPart(a.inert, total);
        ShareIsPart(a.co2, total);
        ScaleMono(f.leak, 0.0, Share(a.inert, total));
        ScaleMono(f.leak, 0.0, Share(a.co2, total));
      }
      hide Scale, Share;
    }
  }

  /** Conservation in one step: no inventory goes negative, inert gas only leaves,
      and the mass balance holds from below, exactly when and only when no inventory
      had to be clamped at zero. */
  lemma StepLedger(a: Air, f: Flow)
    requires Stocked(a) && 0.0 <= f.produced
    ensures var b := AirStep(a, f);
      var balance := Total(a) + f.produced - f.consumed - LeakOut(a, f) - ScrubOut(a, f);
      && Stocked(b) && b.inert <= a.inert
      && balance <= Total(b)
      && (Total(b) == balance <==> NoClamp(a, f))
  {
    LeakBalances(a, f);
    hide Leaked, LeakOut;
  }

  /** A leak without clamping preserves the ratio of every pair of gases. */
  lemma LeakKeepsRatios(a: Air, f: Flow)
    requires f.consumed == 0.0
    ensures var b := Leaked(a, f);
      && b.oxygen * a.inert == a.oxygen * b.inert
      && b.oxygen * a.co2 == a.oxygen * b.co2
      && b.inert * a.co2 == a.inert * b.co2
  {
    var total := Total(a);
    if total > 0.0 && f.leak > 0.0 {
      KeepsRatio(a.oxygen, a.inert, f.leak, total);
      KeepsRatio(a.oxygen, a.co2, f.leak, total);
      KeepsRatio(a.inert, a.co2, f.leak, total);
    }
  }

  lemma KeepsRatio(x: real, y: real, leak: real, total: real)
    requires total != 0.0
    ensures (x - Scale(leak, Share(x, total))) * y == x * (y - Scale(leak, Share(y, total)))
  {
    var k := leak / total;
    assert Scale(leak, Share(x, total)) == k * x;
    assert Scale(leak, Share(y, total)) == k * y;
    assert (x - k * x) * y == x * y - k * x * y;
    assert x * (y - k * y) == x * y - k * x * y;
  }

  // ---------- The rolling hour ----------

  function PushSample(samples: seq<real>, x: real, max: nat): seq<real> {
    var longer := samples + [x];
    if |longer| > max then longer[|longer| - max..] else longer
  }

  function PushAll(samples: seq<real>, xs: seq<real>, max: nat): seq<real> {
    if xs == [] then samples else PushSample(PushAll(samples, xs[..|xs| - 1], max), xs[|xs| - 1], max)
  }

  function LastOf(xs: seq<real>, max: nat): seq<real> {
    if |xs| > max then xs[|xs| - max..] else xs
  }

  lemma PushKeepsLast(xs: seq<real>, x: real, max: nat)
    ensures PushSample(LastOf(xs, max), x, max) == LastOf(xs + [x], max)
  {
    if |xs| > max {
      assert xs[|xs| - max..] + [x] == (xs + [x])[|xs| - max..];
    }
  }

  /** The window is always exactly the last samples, as many as one hour holds. */
  lemma {:induction false} WindowIsLastHour(xs: seq<real>, max: nat)
    ensures PushAll([], xs, max) == LastOf(xs, max)
  {
    if xs != [] {
      WindowIsLastHour(xs[..|xs| - 1], max);
      hide LastOf, PushSample;
      PushKeepsLast(xs[..|xs| - 1], xs[|xs| - 1], max);
      assert xs == xs[..|xs| - 1] + [xs[|xs| - 1]];
    } else {
      assert LastOf(xs, max) == [];
    }
  }

  function Sum(xs: seq<real>): real {
    if xs == [] then 0.0 else Sum(xs[..|xs| - 1]) + xs[|xs| - 1]
  }

  function Average(xs: seq<real>): real {
    if xs == [] then 0.0 else Sum(xs) / (|xs| as real)
  }

  // ---------- Battery ----------

  function UpdateBattery(energy: real, capacity: real, netKw: real, hours: real, charge: real, discharge: real): real
    requires discharge != 0.0
  {
    var delta := if netKw >= 0.0 then Scale(charge, Scale(hours, netKw)) else Scale(hours, netKw) / discharge;
    Clamp(energy + delta, 0.0, capacity)
  }
}
