/** Conversion between the controller's relative units, a ratio in
    [-1000, 1000], and SI values in a configured interval [min, max].
    Floating point is modelled by exact reals; the rounding and the
    saturation to +-1000 are modelled exactly. */
module Factors {

  /** Per-channel conversion parameters. The `*Zero` fields exist but no
      conversion reads them. */
  datatype Factors = Factors(
    speedZero: int, speedMin: real, speedMax: real,
    positionZero: int, positionMin: real, positionMax: real,
    torqueConstant: real)

  /** The defaults of a freshly constructed parameter set. */
  const DefaultFactors := Factors(0, -1.0, 1.0, 0, -1.0, 1.0, 1.0)

  /** std::round: to the nearest integer, halfway cases away from zero. */
  function Round(x: real): (n: int)
    ensures x - 0.5 <= n as real <= x + 0.5
    ensures x >= 0.0 ==> n >= 0
    ensures x <= 0.0 ==> n <= 0
  {
    if x >= 0.0 then (x + 0.5).Floor else -((0.5 - x).Floor)
  }

  /** Halfway cases go away from zero, on both signs. */
  lemma RoundHalfAway(n: nat)
    ensures Round(n as real + 0.5) == n + 1
    ensures Round(-(n as real) - 0.5) == -(n + 1)
  {
  }

  lemma RoundOfInteger(n: int)
    ensures Round(n as real) == n
  {
  }

  lemma {:induction false} RoundMonotone(x: real, y: real)
    requires x <= y
    ensures Round(x) <= Round(y)
  {
    if x >= 0.0 {
      assert (x + 0.5).Floor <= (y + 0.5).Floor;
    } else if y < 0.0 {
      assert (0.5 - y).Floor <= (0.5 - x).Floor;
    }
  }

  /** `clamp1000`: round, then saturate into [-1000, 1000]; never wraps. */
  function Clamp1000(x: real): (r: int)
    ensures -1000 <= r <= 1000
    ensures -1000.0 <= x <= 1000.0 ==> r == Round(x)
    ensures x > 1000.5 ==> r == 1000
    ensures x < -1000.5 ==> r == -1000
  {
    var v := Round(x);
    if v > 1000 then 1000
    else if v < -1000 then -1000
    else v
  }

  /** Clamping is the identity on integers already in range, hence idempotent. */
  lemma Clamp1000Identity(n: int)
    requires -1000 <= n <= 1000
    ensures Clamp1000(n as real) == n
  {
    RoundOfInteger(n);
  }

  lemma Clamp1000Idempotent(x: real)
    ensures Clamp1000(Clamp1000(x) as real) == Clamp1000(x)
  {
    Clamp1000Identity(Clamp1000(x));
  }

  lemma Clamp1000Monotone(x: real, y: real)
    requires x <= y
    ensures Clamp1000(x) <= Clamp1000(y)
  {
    RoundMonotone(x, y);
  }

  /** The symmetric linear map from a relative value to [min, max]. */
  function ToSI(relative: int, max: real, min: real): real {
    (relative as real + 1000.0) * (max - min) / 2000.0 + min
  }

  /** Its inverse, rounded and saturated. The source divides by (max - min);
      with max == min that is a division by zero, excluded here. */
  function FromSI(si: real, max: real, min: real): (r: int)
    requires max != min
    ensures -1000 <= r <= 1000
  {
    var v := 2000.0 * (si - min) / (max - min) - 1000.0;
    Clamp1000(Round(v) as real)
  }

  /** The interval end points and its middle. */
  lemma ToSIEndPoints(max: real, min: real)
    ensures ToSI(-1000, max, min) == min
    ensures ToSI(1000, max, min) == max
    ensures ToSI(0, max, min) == (min + max) / 2.0
  {
  }

  lemma FromSIEndPoints(max: real, min: real)
    requires max != min
    ensures FromSI(min, max, min) == -1000
    ensures FromSI(max, max, min) == 1000
    ensures FromSI((min + max) / 2.0, max, min) == 0
  {
    var d := max - min;
    assert 2000.0 * (max - min) / d == 2000.0;
    assert 2000.0 * ((min + max) / 2.0 - min) / d == 1000.0;
    RoundOfInteger(-1000);
    RoundOfInteger(1000);
    RoundOfInteger(0);
    Clamp1000Identity(-1000);
    Clamp1000Identity(1000);
    Clamp1000Identity(0);
  }

  /** Round trip: every in-range relative value survives ToSI then FromSI. */
  lemma FromSIToSI(r: int, max: real, min: real)
    requires -1000 <= r <= 1000
    requires max != min
    ensures FromSI(ToSI(r, max, min), max, min) == r
  {
    var d := max - min;
    var si := ToSI(r, max, min);
    assert si - min == (r as real + 1000.0) * d / 2000.0;
    var a := 2000.0 * (si - min);
    var b := r as real + 1000.0;
    assert a == b * d;
    DivCancel(b, d);
    assert a / d == b;
    RoundOfInteger(r);
    Clamp1000Identity(r);
  }

  lemma DivCancel(x: real, d: real)
    requires d != 0.0
    ensures x * d / d == x
  {
  }

  /** Scaling by a positive factor keeps order (helper for monotonicity). */
  lemma ScaleMonotone(a: real, b: real, d: real)
    requires a <= b
    requires d > 0.0
    ensures 2000.0 * a / d <= 2000.0 * b / d
  {
    assert 2000.0 * b / d - 2000.0 * a / d == 2000.0 * (b - a) / d;
  }

  /** FromSI never decreases as the SI value grows, when max > min. */
  lemma FromSIMonotone(x: real, y: real, max: real, min: real)
    requires max > min
    requires x <= y
    ensures FromSI(x, max, min) <= FromSI(y, max, min)
  {
    ScaleMonotone(x - min, y - min, max - min);
    var vx := 2000.0 * (x - min) / (max - min) - 1000.0;
    var vy := 2000.0 * (y - min) / (max - min) - 1000.0;
    RoundMonotone(vx, vy);
    Clamp1000Monotone(Round(vx) as real, Round(vy) as real);
  }

  /** Saturation: below min gives exactly -1000, above max exactly 1000. */
  lemma FromSISaturates(si: real, max: real, min: real)
    requires max > min
    ensures si <= min ==> FromSI(si, max, min) == -1000
    ensures si >= max ==> FromSI(si, max, min) == 1000
  {
    FromSIEndPoints(max, min);
    if si <= min {
      FromSIMonotone(si, min, max, min);
    }
    if si >= max {
      FromSIMonotone(max, si, max, min);
    }
  }

  function RelativePositionToSI(f: Factors, position: int): real {
    ToSI(position, f.positionMax, f.positionMin)
  }

  function RelativePositionFromSI(f: Factors, position: real): (r: int)
    requires f.positionMax != f.positionMin
    ensures -1000 <= r <= 1000
  {
    FromSI(position, f.positionMax, f.positionMin)
  }

  function RelativeSpeedToSI(f: Factors, speed: int): real {
    ToSI(speed, f.speedMax, f.speedMin)
  }

  /** The source clamps the already clamped result a second time. */
  function RelativeSpeedFromSI(f: Factors, speed: real): (r: int)
    requires f.speedMax != f.speedMin
    ensures -1000 <= r <= 1000
  {
    Clamp1000(FromSI(speed, f.speedMax, f.speedMin) as real)
  }

  /** The second clamp changes nothing: speed and position conversions agree
      whenever their intervals agree. */
  lemma RelativeSpeedSingleClamp(f: Factors, speed: real)
    requires f.speedMax != f.speedMin
    ensures RelativeSpeedFromSI(f, speed) == FromSI(speed, f.speedMax, f.speedMin)
  {
    Clamp1000Identity(FromSI(speed, f.speedMax, f.speedMin));
  }

  /** Relative values round-trip through both unit conversions of a channel. */
  lemma RelativeRoundTrips(f: Factors, r: int)
    requires -1000 <= r <= 1000
    requires f.speedMax != f.speedMin && f.positionMax != f.positionMin
    ensures RelativeSpeedFromSI(f, RelativeSpeedToSI(f, r)) == r
    ensures RelativePositionFromSI(f, RelativePositionToSI(f, r)) == r
  {
    FromSIToSI(r, f.speedMax, f.speedMin);
    FromSIToSI(r, f.positionMax, f.positionMin);
    RelativeSpeedSingleClamp(f, RelativeSpeedToSI(f, r));
  }

  /** Applied power level, a per-mille ratio, as a fraction. */
  function PwmToFloat(value: int): real {
    value as real / 1000.0
  }

  /** PwmToFloat maps the +-1000 scale onto [-1, 1] and clamping recovers the
      per-mille value from the fraction. */
  lemma PwmToFloatScale(value: int)
    requires -1000 <= value <= 1000
    ensures -1.0 <= PwmToFloat(value) <= 1.0
    ensures Clamp1000(PwmToFloat(value) * 1000.0) == value
  {
    assert PwmToFloat(value) * 1000.0 == value as real;
    Clamp1000Identity(value);
  }

  /** The numbers of the unit tests: speed interval [-10, 42], position
      [-100, 84]; the middle, both ends and saturation beyond them, in each
      direction of each conversion. */
  lemma TestIntervals()
    ensures var f := DefaultFactors.(speedMin := -10.0, speedMax := 42.0,
                                     positionMin := -100.0, positionMax := 84.0);
      && RelativeSpeedToSI(f, 0) == 16.0
      && RelativeSpeedToSI(f, -1000) == -10.0
      && RelativeSpeedToSI(f, 1000) == 42.0
      && RelativeSpeedFromSI(f, 16.0) == 0
      && RelativeSpeedFromSI(f, -10.0) == -1000
      && RelativeSpeedFromSI(f, -20.0) == -1000
      && RelativeSpeedFromSI(f, 42.0) == 1000
      && RelativeSpeedFromSI(f, 50.0) == 1000
      && RelativePositionToSI(f, 0) == -8.0
      && RelativePositionToSI(f, -1000) == -100.0
      && RelativePositionToSI(f, 1000) == 84.0
      && RelativePositionFromSI(f, -8.0) == 0
      && RelativePositionFromSI(f, -100.0) == -1000
      && RelativePositionFromSI(f, -200.0) == -1000
      && RelativePositionFromSI(f, 84.0) == 1000
      && RelativePositionFromSI(f, 85.0) == 1000
  {
    var f := DefaultFactors.(speedMin := -10.0, speedMax := 42.0,
                             positionMin := -100.0, positionMax := 84.0);
    FromSIEndPoints(42.0, -10.0);
    FromSIEndPoints(84.0, -100.0);
    FromSISaturates(-20.0, 42.0, -10.0);
    FromSISaturates(50.0, 42.0, -10.0);
    FromSISaturates(-200.0, 84.0, -100.0);
    FromSISaturates(85.0, 84.0, -100.0);
    RelativeSpeedSingleClamp(f, 16.0);
    RelativeSpeedSingleClamp(f, -10.0);
    RelativeSpeedSingleClamp(f, -20.0);
    RelativeSpeedSingleClamp(f, 42.0);
    RelativeSpeedSingleClamp(f, 50.0);
  }
}
