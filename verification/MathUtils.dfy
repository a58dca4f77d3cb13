// Clamping and normalised severities.
module MathUtils {

  function Clamp(value: real, minimum: real, maximum: real): real {
    if value < minimum then minimum else if value > maximum then maximum else value
  }

  function LowSideSeverity(value: real, safe: real, critical: real): real
    requires safe != critical
  {
    Clamp((safe - value) / (safe - critical), 0.0, 1.0)
  }

  function HighSideSeverity(value: real, safe: real, critical: real): real
    requires safe != critical
  {
    Clamp((value - safe) / (critical - safe), 0.0, 1.0)
  }

  // The code's clamp of a quantity at zero.
  function NonNegative(x: real): real { if x < 0.0 then 0.0 else x }

  function Max(a: real, b: real): real { if a < b then b else a }

  /** A gain, rate or weight applied to a quantity. */
  function Scale(factor: real, x: real): real { factor * x }

  lemma ScaleMono(factor: real, x: real, y: real)
    requires 0.0 <= factor && x <= y
    ensures Scale(factor, x) <= Scale(factor, y)
    ensures 0.0 <= x ==> 0.0 <= Scale(factor, x)
    ensures Scale(factor, 0.0) == 0.0
  {
  }

  /** First-order lag toward a target. */
  function Lag(x: real, target: real, blend: real): real { x + blend * (target - x) }

  /** A lag keeps the order of both its state and its target. */
  lemma LagKeepsOrder(x: real, y: real, p: real, q: real, blend: real)
    requires x <= y && p <= q && 0.0 <= blend <= 1.0
    ensures Lag(x, p, blend) <= Lag(y, q, blend)
  {
    LagIsMix(x, p, blend);
    LagIsMix(y, q, blend);
    hide Lag;
    ScaleMono(1.0 - blend, x, y);
    ScaleMono(blend, p, q);
    hide Scale;
  }

  lemma LagIsMix(x: real, target: real, blend: real)
    ensures Lag(x, target, blend) == Scale(1.0 - blend, x) + Scale(blend, target)
  {
    Distribute(blend, target, x);
    Distribute(x, 1.0, blend);
  }

  lemma Distribute(a: real, b: real, c: real)
    ensures a * (b - c) == a * b - a * c
  {
  }

  lemma MulMono(k: real, a: real, b: real)
    requires 0.0 <= k && a <= b
    ensures k * a <= k * b && a * k <= b * k
  {
  }

  lemma IntMulMono(a: int, b: int, k: int)
    requires a <= b && 0 <= k
    ensures a * k <= b * k
  {
  }

  lemma PosDiv(a: real, d: real)
    requires 0.0 < a && 0.0 < d
    ensures 0.0 < a / d
  {
    if a / d <= 0.0 {
      MulMono(d, a / d, 0.0);
    }
  }

  lemma LessDiv(a: real, b: real, d: real)
    requires a < b && 0.0 < d
    ensures a / d < b / d
  {
    assert (b - a) / d == b / d - a / d;
    PosDiv(b - a, d);
  }

  lemma DivMono(a: real, b: real, d: real)
    requires a <= b && 0.0 < d
    ensures a / d <= b / d
  {
    if a < b {
      LessDiv(a, b, d);
    }
  }

  lemma ClampMono(a: real, b: real, minimum: real, maximum: real)
    requires a <= b && minimum <= maximum
    ensures minimum <= Clamp(a, minimum, maximum) <= Clamp(b, minimum, maximum) <= maximum
  {
  }

  /** The low-side severity is 0 exactly at or above the safe value, 1 exactly at or
      below the critical one, and never rises with the value. */
  lemma LowSideMeaning(value: real, higher: real, safe: real, critical: real)
    requires critical < safe && value <= higher
    ensures LowSideSeverity(value, safe, critical) == 0.0 <==> safe <= value
    ensures LowSideSeverity(value, safe, critical) == 1.0 <==> value <= critical
    ensures 0.0 <= LowSideSeverity(higher, safe, critical) <= LowSideSeverity(value, safe, critical) <= 1.0
  {
    var d := safe - critical;
    DivMono(safe - higher, safe - value, d);
    assert ((safe - value) / d) * d == safe - value;
    assert 0.0 / d == 0.0 && d / d == 1.0;
    if safe <= value {
      DivMono(safe - value, 0.0, d);
    } else {
      PosDiv(safe - value, d);
    }
    if value <= critical {
      DivMono(d, safe - value, d);
    } else {
      LessDiv(safe - value, d, d);
    }
  }

  lemma HighSideMeaning(value: real, higher: real, safe: real, critical: real)
    requires safe < critical && value <= higher
    ensures HighSideSeverity(value, safe, critical) == 0.0 <==> value <= safe
    ensures HighSideSeverity(value, safe, critical) == 1.0 <==> critical <= value
    ensures 0.0 <= HighSideSeverity(value, safe, critical) <= HighSideSeverity(higher, safe, critical) <= 1.0
  {
    var d := critical - safe;
    DivMono(value - safe, higher - safe, d);
    assert 0.0 / d == 0.0 && d / d == 1.0;
    if value <= safe {
      DivMono(value - safe, 0.0, d);
    } else {
      PosDiv(value - safe, d);
    }
    if critical <= value {
      DivMono(d, value - safe, d);
    } else {
      LessDiv(value - safe, d, d);
    }
  }
}
