/** Creation of a discovery-process record from a search rectangle and a
    step (SearchingCitiesProcessFactory): the bounds ring, the declared
    number of grid points and the initial state. */
module ProcessFactory {
  import opened Wrappers
  import opened Domain

  /** Number of grid points on one axis from `start` to `end` at `step`:
      the points start, start + step, ... that do not pass `end`. */
  function AxisPointCount(start: real, end: real, step: real): (r: int)
    requires step > 0.0
    ensures start <= end ==> r >= 1
    ensures start <= end ==> (r - 1) as real * step <= end - start < r as real * step
    ensures start == end ==> r == 1
  {
    var q := (end - start) / step;
    assert q * step == end - start;
    assert q.Floor as real <= q < q.Floor as real + 1.0;
    MultiplyMonotone(q.Floor as real, q, step);
    MultiplyStrict(q, q.Floor as real + 1.0, step);
    assert (q.Floor + 1) as real == q.Floor as real + 1.0;
    assert (q.Floor as real + 1.0) * step > end - start;
    q.Floor + 1
  }

  lemma {:induction false} MultiplyMonotone(a: real, b: real, c: real)
    requires a <= b && c > 0.0
    ensures a * c <= b * c
  {
  }

  lemma {:induction false} MultiplyStrict(a: real, b: real, c: real)
    requires a < b && c > 0.0
    ensures a * c < b * c
  {
  }

  /** Declared number of grid points: the product of the two axis counts. */
  function TotalPoints(area: AreaCoordinate, step: real): (r: int)
    requires step > 0.0
    ensures IsOrdered(area) ==> r >= 1
  {
    var lat := AxisPointCount(area.leftBottom.latitude, area.rightUpper.latitude, step);
    var lon := AxisPointCount(area.leftBottom.longitude, area.rightUpper.longitude, step);
    assert IsOrdered(area) ==> lat * lon >= 1 by {
      if IsOrdered(area) { PositiveProduct(lat, lon); }
    }
    lat * lon
  }

  lemma {:induction false} PositiveProduct(a: int, b: int)
    requires a >= 1 && b >= 1
    ensures a * b >= 1
  {
  }

  /** The rectangle as a closed ring (lbLat,lbLon), (lbLat,ruLon),
      (ruLat,ruLon), (ruLat,lbLon), (lbLat,lbLon), latitude as x. */
  function Bounds(area: AreaCoordinate): (ring: seq<CoordinateXY>)
    ensures |ring| == 5 && ring[0] == ring[4]
    ensures ring[0] == CoordinateXY(area.leftBottom.latitude, area.leftBottom.longitude)
    ensures ring[2] == CoordinateXY(area.rightUpper.latitude, area.rightUpper.longitude)
    ensures ring[1].x == ring[0].x && ring[3].y == ring[0].y
    ensures forall i :: 0 <= i < 4 ==> IsCorner(area, ring[i])
    ensures forall i :: 0 <= i < 4 ==>
      ring[i].x == ring[i + 1].x || ring[i].y == ring[i + 1].y
    ensures forall i, j :: 0 <= i < j < 4 ==> ring[i] != ring[j] || IsDegenerate(area)
  {
    var lb := area.leftBottom;
    var ru := area.rightUpper;
    [ CoordinateXY(lb.latitude, lb.longitude),
      CoordinateXY(lb.latitude, ru.longitude),
      CoordinateXY(ru.latitude, ru.longitude),
      CoordinateXY(ru.latitude, lb.longitude),
      CoordinateXY(lb.latitude, lb.longitude) ]
  }

  /** `p` is one of the rectangle's corners, latitude as x. */
  predicate IsCorner(area: AreaCoordinate, p: CoordinateXY) {
    && (p.x == area.leftBottom.latitude || p.x == area.rightUpper.latitude)
    && (p.y == area.leftBottom.longitude || p.y == area.rightUpper.longitude)
  }

  /** The rectangle has zero extent on some axis. */
  predicate IsDegenerate(area: AreaCoordinate) {
    area.leftBottom.latitude == area.rightUpper.latitude
    || area.leftBottom.longitude == area.rightUpper.longitude
  }

  /** A new process: the rectangle's ring, the given step, the declared
      total, nothing handled yet, status HANDLING and no id (it is assigned
      when the record is saved). */
  function Create(area: AreaCoordinate, step: real): (p: SearchingCitiesProcess)
    requires step > 0.0
    ensures p.id.None? && p.status == Handling && p.handledPoints == 0
    ensures p.searchStep == step && p.bounds == Bounds(area)
    ensures p.totalPoints == TotalPoints(area, step)
    ensures IsOrdered(area) ==> p.totalPoints >= 1
  {
    SearchingCitiesProcess(None, Bounds(area), step, TotalPoints(area, step), 0, Handling)
  }

  // ---------------------------------------------------------------------
  // The count as the source computes it, with BigDecimal arithmetic.

  /** A BigDecimal: `unscaled` times ten to the power of minus `scale`. The
      source obtains it with BigDecimal.valueOf(double), i.e. from the
      spelling Double.toString gives: always at least one fractional digit
      (3.0 is Decimal(30, 1)), and E-notation below 10^-3 and from 10^7 up
      (0.0001 is "1.0E-4", Decimal(10, 5)). */
  datatype Decimal = Decimal(unscaled: int, scale: nat)

  function Pow10(n: nat): (r: int)
    ensures r >= 1
  {
    if n == 0 then 1 else 10 * Pow10(n - 1)
  }

  function Value(d: Decimal): real {
    d.unscaled as real / Pow10(d.scale) as real
  }

  /** BigDecimal.subtract: exact, at the larger of the two scales. */
  function Subtract(a: Decimal, b: Decimal): (r: Decimal)
    ensures r.scale == Max(a.scale, b.scale)
    ensures Value(r) == Value(a) - Value(b)
  {
    var s := Max(a.scale, b.scale);
    var x := a.unscaled * Pow10(s - a.scale);
    var y := b.unscaled * Pow10(s - b.scale);
    ScaleUp(a, s);
    ScaleUp(b, s);
    DivideDifference(x as real, y as real, Pow10(s) as real);
    Decimal(x - y, s)
  }

  /** Integer quotient rounded away from zero (RoundingMode.UP). */
  function DivideUp(n: int, d: int): (r: int)
    requires d != 0
    ensures n >= 0 && d > 0 ==> r >= 0 && (r - 1) * d < n <= r * d
  {
    var magnitude := if Abs(n) % Abs(d) == 0 then Abs(n) / Abs(d) else Abs(n) / Abs(d) + 1;
    if (n < 0) == (d < 0) || n == 0 then magnitude else -magnitude
  }

  function Abs(n: int): nat {
    if n < 0 then -n else n
  }

  /** BigDecimal.divide(divisor, UP): the quotient at the dividend's scale,
      rounded away from zero. Dividing by zero throws. */
  function Divide(a: Decimal, b: Decimal): (r: Decimal)
    requires b.unscaled != 0
    ensures r.scale == a.scale
    ensures a.unscaled >= 0 && b.unscaled > 0 ==>
      Value(a) / Value(b) <= Value(r) < Value(a) / Value(b) + 1.0 / Pow10(a.scale) as real
  {
    var x := a.unscaled * Pow10(b.scale);
    var u := DivideUp(x, b.unscaled);
    assert a.unscaled >= 0 && b.unscaled > 0 ==>
      Value(a) / Value(b) <= u as real / Pow10(a.scale) as real < Value(a) / Value(b) + 1.0 / Pow10(a.scale) as real by {
      if a.unscaled >= 0 && b.unscaled > 0 {
        NonNegativeProduct(a.unscaled, Pow10(b.scale));
        QuotientAtScale(a.unscaled, Pow10(a.scale), b.unscaled, Pow10(b.scale), u);
      }
    }
    Decimal(u, a.scale)
  }

  /** Rounding au * pb / s up to u, at scale pa, brackets the real quotient
      (au / pa) / (s / pb) within one unit of the last place. */
  lemma {:induction false} QuotientAtScale(au: int, pa: int, s: int, pb: int, u: int)
    requires pa >= 1 && pb >= 1 && s >= 1
    requires (u - 1) * s < au * pb <= u * s
    ensures var q := (au as real / pa as real) / (s as real / pb as real);
            q <= u as real / pa as real < q + 1.0 / pa as real
  {
    QuotientOfFractions(au, pa, s, pb);
    RoundedUpBrackets(au * pb, pa, s, u);
  }

  lemma {:induction false} QuotientOfFractions(au: int, pa: int, s: int, pb: int)
    requires pa >= 1 && pb >= 1 && s >= 1
    ensures (au as real / pa as real) / (s as real / pb as real) == (au * pb) as real / (pa as real * s as real)
  {
    CastProduct(au, pb);
    var v := au as real / pa as real;
    var w := s as real / pb as real;
    var q := v / w;
    assert au as real == v * pa as real;
    assert s as real == w * pb as real;
    assert q * w == v;
  }

  /** x / s rounded up to u brackets x / (pa * s) between u / pa and
      u / pa less one unit of 1 / pa. */
  lemma {:induction false} RoundedUpBrackets(x: int, pa: int, s: int, u: int)
    requires pa >= 1 && s >= 1
    requires (u - 1) * s < x <= u * s
    ensures var k := pa as real * s as real;
            x as real / k <= u as real / pa as real < x as real / k + 1.0 / pa as real
  {
    var k := pa as real * s as real;
    CrossMultiplyReal(x, u * s, k);
    CrossMultiplyStrictReal(u * s, x + s, k);
    CastProduct(u, s);
    ScaleFraction(u as real, s as real, pa as real);
    DivideSum(x as real, s as real, k);
    ScaleFraction(1.0, s as real, pa as real);
  }

  lemma {:induction false} CrossMultiplyReal(a: int, b: int, k: real)
    requires k > 0.0 && a <= b
    ensures a as real / k <= b as real / k
  {
    var x, y := a as real / k, b as real / k;
    assert a as real == x * k && b as real == y * k;
    if x > y { MultiplyStrict(y, x, k); }
  }

  lemma {:induction false} CrossMultiplyStrictReal(a: int, b: int, k: real)
    requires k > 0.0 && a < b
    ensures a as real / k < b as real / k
  {
    var x, y := a as real / k, b as real / k;
    assert a as real == x * k && b as real == y * k;
    if x >= y { MultiplyMonotone(y, x, k); }
  }

  lemma {:induction false} DivideSum(x: real, y: real, p: real)
    requires p > 0.0
    ensures (x + y) / p == x / p + y / p
  {
  }

  /** BigDecimal.longValue: the integer part, truncated toward zero (64-bit
      overflow is not modelled). */
  function LongValue(d: Decimal): (r: int)
    ensures d.unscaled >= 0 ==> r >= 0
    ensures d.unscaled >= 0 ==> r as real <= Value(d) < r as real + 1.0
    ensures d.unscaled < 0 ==> r as real - 1.0 < Value(d) <= r as real
  {
    var magnitude := Abs(d.unscaled) / Pow10(d.scale);
    assert magnitude >= 0 by { DivideNonNegative(Abs(d.unscaled), Pow10(d.scale)); }
    TruncatedQuotient(Abs(d.unscaled), Pow10(d.scale));
    SignedFraction(d.unscaled, Pow10(d.scale));
    if d.unscaled < 0 then -magnitude else magnitude
  }

  lemma {:induction false} SignedFraction(n: int, p: int)
    requires p >= 1
    ensures n as real / p as real == if n < 0 then -(Abs(n) as real / p as real) else Abs(n) as real / p as real
  {
  }

  /** The integer quotient of naturals is the real quotient truncated. */
  lemma {:induction false} TruncatedQuotient(n: nat, p: int)
    requires p >= 1
    ensures (n / p) as real <= n as real / p as real < (n / p) as real + 1.0
  {
    var m := n / p;
    assert m * p <= n < (m + 1) * p;
    CrossMultiply(m, 1, n, p);
    CrossMultiply(n, p, m + 1, 1);
  }

  /** findTotalPointsInLine as written: (end - start) / step rounded up at the
      scale of the difference, truncated, plus one. */
  function AxisPointCountAsWritten(start: Decimal, end: Decimal, step: Decimal): (r: int)
    requires step.unscaled != 0
    ensures Value(start) <= Value(end) && step.unscaled > 0 ==> r >= 1
  {
    var difference := Subtract(end, start);
    var quotient := Divide(difference, step);
    assert Value(start) <= Value(end) && step.unscaled > 0 ==> quotient.unscaled >= 0 by {
      if Value(start) <= Value(end) && step.unscaled > 0 {
        SubtractNonNegative(start, end);
        NonNegativeProduct(difference.unscaled, Pow10(step.scale));
      }
    }
    LongValue(quotient) + 1
  }

  lemma {:induction false} DivideNonNegative(a: nat, b: int)
    requires b >= 1
    ensures a / b >= 0
  {
  }

  lemma {:induction false} NonNegativeProduct(a: int, b: int)
    requires a >= 0 && b >= 0
    ensures a * b >= 0
  {
  }

  lemma {:induction false} CastProduct(a: int, b: int)
    ensures (a * b) as real == a as real * b as real
  {
  }

  lemma {:induction false} SubtractNonNegative(start: Decimal, end: Decimal)
    requires Value(start) <= Value(end)
    ensures Subtract(end, start).unscaled >= 0
  {
    var s := Max(start.scale, end.scale);
    ScaleUp(start, s);
    ScaleUp(end, s);
    var a := end.unscaled * Pow10(s - end.scale);
    var b := start.unscaled * Pow10(s - start.scale);
    assert a as real / Pow10(s) as real == Value(end);
    assert b as real / Pow10(s) as real == Value(start);
    DivideMonotone(b as real, a as real, Pow10(s) as real);
  }

  lemma {:induction false} DivideMonotone(b: real, a: real, p: real)
    requires p > 0.0 && b / p <= a / p
    ensures b <= a
  {
    assert b == (b / p) * p;
    assert a == (a / p) * p;
  }

  lemma {:induction false} ScaleUp(d: Decimal, s: nat)
    requires d.scale <= s
    ensures (d.unscaled * Pow10(s - d.scale)) as real / Pow10(s) as real == Value(d)
  {
    Pow10Add(s - d.scale, d.scale);
    CastProduct(Pow10(s - d.scale), Pow10(d.scale));
    CastProduct(d.unscaled, Pow10(s - d.scale));
    ScaleFraction(d.unscaled as real, Pow10(s - d.scale) as real, Pow10(d.scale) as real);
  }

  /** Multiplying numerator and denominator by the same positive factor
      keeps a fraction. */
  lemma {:induction false} ScaleFraction(u: real, k: real, p: real)
    requires k > 0.0 && p > 0.0
    ensures (u * k) / (k * p) == u / p
  {
    var x := u / p;
    assert u == x * p;
    assert u * k == x * (k * p);
  }

  lemma {:induction false} Pow10Add(a: nat, b: nat)
    ensures Pow10(a + b) == Pow10(a) * Pow10(b)
  {
    if a > 0 {
      Pow10Add(a - 1, b);
    }
  }

  /** The count as written never declares fewer points than the grid has on
      that axis, and at most one more. */
  lemma {:induction false} AsWrittenBounds(start: Decimal, end: Decimal, step: Decimal)
    requires Value(start) <= Value(end) && step.unscaled > 0
    ensures Value(step) > 0.0
    ensures var c := AxisPointCount(Value(start), Value(end), Value(step));
            c <= AxisPointCountAsWritten(start, end, step) <= c + 1
  {
    var difference := Subtract(end, start);
    var d, ps := difference.unscaled, Pow10(difference.scale);
    var stepUnscaled, pt := step.unscaled, Pow10(step.scale);
    assert Value(step) > 0.0 by { CrossMultiply(0, 1, stepUnscaled, pt); }
    var k := AxisPointCount(Value(start), Value(end), Value(step)) - 1;
    assert d >= 0 by { SubtractNonNegative(start, end); }
    DifferenceBetweenSteps(start, end, step, k);
    var x := d * pt;
    NonNegativeProduct(d, pt);
    var u := DivideUp(x, stepUnscaled);
    AsWrittenIsTruncatedQuotient(start, end, step);
    QuotientBounds(k, stepUnscaled, ps, x, u);
  }

  /** The as-written count is the rounded-up quotient of unscaled integers,
      truncated at the difference's scale, plus one. */
  lemma {:induction false} AsWrittenIsTruncatedQuotient(start: Decimal, end: Decimal, step: Decimal)
    requires step.unscaled > 0 && Subtract(end, start).unscaled >= 0
    ensures var difference := Subtract(end, start);
            AxisPointCountAsWritten(start, end, step)
            == DivideUp(difference.unscaled * Pow10(step.scale), step.unscaled) / Pow10(difference.scale) + 1
  {
    NonNegativeProduct(Subtract(end, start).unscaled, Pow10(step.scale));
  }

  /** The difference lies between k and k + 1 steps, k + 1 being the
      number of grid points on the axis, stated over the unscaled integers. */
  lemma {:induction false} DifferenceBetweenSteps(start: Decimal, end: Decimal, step: Decimal, k: int)
    requires Value(start) <= Value(end) && Value(step) > 0.0
    requires k == AxisPointCount(Value(start), Value(end), Value(step)) - 1
    ensures var difference := Subtract(end, start);
            var ps, pt := Pow10(difference.scale), Pow10(step.scale);
            k * step.unscaled * ps <= difference.unscaled * pt < (k + 1) * step.unscaled * ps
  {
    var difference := Subtract(end, start);
    var d := Value(difference);
    assert k as real * Value(step) <= d < (k + 1) as real * Value(step) by {
      assert (k + 1) as real == AxisPointCount(Value(start), Value(end), Value(step)) as real;
    }
    GridStepsInIntegers(k, step.unscaled, Pow10(step.scale), difference.unscaled, Pow10(difference.scale));
  }

  /** k * step <= difference < (k + 1) * step, restated over the unscaled
      integers of step (S at scale pt) and difference (d at scale ps). */
  lemma {:induction false} GridStepsInIntegers(k: int, stepUnscaled: int, pt: int, d: int, ps: int)
    requires pt >= 1 && ps >= 1
    requires k as real * (stepUnscaled as real / pt as real) <= d as real / ps as real
    requires d as real / ps as real < (k + 1) as real * (stepUnscaled as real / pt as real)
    ensures k * stepUnscaled * ps <= d * pt < (k + 1) * stepUnscaled * ps
  {
    ScaledStep(k, stepUnscaled, pt);
    ScaledStep(k + 1, stepUnscaled, pt);
    CrossMultiply(k * stepUnscaled, pt, d, ps);
    CrossMultiply(d, ps, (k + 1) * stepUnscaled, pt);
  }

  /** Rounding x / S up and then truncating at ps lands on k or k + 1. */
  lemma {:induction false} QuotientBounds(k: int, stepUnscaled: int, ps: int, x: int, u: int)
    requires stepUnscaled >= 1 && ps >= 1
    requires k * stepUnscaled * ps <= x < (k + 1) * stepUnscaled * ps
    requires (u - 1) * stepUnscaled < x <= u * stepUnscaled
    ensures k <= u / ps <= k + 1
  {
    assert k * ps <= u by {
      assert (k * ps) * stepUnscaled <= u * stepUnscaled;
      FactorOut(k * ps, u, stepUnscaled);
    }
    assert u <= (k + 1) * ps by {
      assert (u - 1) * stepUnscaled < ((k + 1) * ps) * stepUnscaled;
      FactorOutStrict(u - 1, (k + 1) * ps, stepUnscaled);
    }
    DivideBetween(u, ps, k);
  }

  lemma {:induction false} FactorOut(a: int, b: int, c: int)
    requires c >= 1 && a * c <= b * c
    ensures a <= b
  {
  }

  lemma {:induction false} FactorOutStrict(a: int, b: int, c: int)
    requires c >= 1 && a * c < b * c
    ensures a < b
  {
  }

  lemma {:induction false} MultiplyIntMonotone(a: int, b: int, c: int)
    requires a <= b && c >= 1
    ensures a * c <= b * c
  {
  }

  lemma {:induction false} DivideBetween(u: int, p: int, k: int)
    requires p >= 1 && k * p <= u <= (k + 1) * p
    ensures k <= u / p <= k + 1
  {
    var q, r := u / p, u % p;
    assert u == q * p + r && 0 <= r < p;
    if q < k {
      MultiplyIntMonotone(q + 1, k, p);
      assert false;
    }
    if q > k + 1 {
      MultiplyIntMonotone(k + 2, q, p);
      assert false;
    }
  }

  /** `k` steps of `unscaled` at `scale` as a quotient of integers. */
  lemma {:induction false} ScaledStep(k: int, unscaled: int, p: int)
    requires p >= 1
    ensures k as real * (unscaled as real / p as real) == (k * unscaled) as real / p as real
  {
    CastProduct(k, unscaled);
    var y := unscaled as real / p as real;
    assert unscaled as real == y * p as real;
    assert (k * unscaled) as real == (k as real * y) * p as real;
  }

  lemma {:induction false} CrossMultiply(a: int, p: int, b: int, r: int)
    requires p >= 1 && r >= 1
    ensures (a as real / p as real <= b as real / r as real) <==> a * r <= b * p
    ensures (a as real / p as real < b as real / r as real) <==> a * r < b * p
  {
    var x := a as real / p as real;
    var y := b as real / r as real;
    var pr := p as real * r as real;
    assert a as real == x * p as real;
    assert b as real == y * r as real;
    CastProduct(a, r);
    CastProduct(b, p);
    assert (a * r) as real == x * pr;
    assert (b * p) as real == y * pr;
    assert pr > 0.0;
    if x <= y { MultiplyMonotone(x, y, pr); }
    if x < y { MultiplyStrict(x, y, pr); }
    if y < x { MultiplyStrict(y, x, pr); }
    if y <= x { MultiplyMonotone(y, x, pr); }
  }

  lemma {:induction false} DivideDifference(x: real, y: real, p: real)
    requires p > 0.0
    ensures (x - y) / p == x / p - y / p
  {
  }

  /** The grid spacing of the source's example: 52.959981..52.998760 at step
      0.01 gives 4 points, 25.903515..25.914997 gives 2. */
  lemma {:induction false} ExampleCounts()
    ensures AxisPointCountAsWritten(Decimal(52959981, 6), Decimal(52998760, 6), Decimal(1, 2)) == 4
    ensures AxisPointCountAsWritten(Decimal(25903515, 6), Decimal(25914997, 6), Decimal(1, 2)) == 2
    ensures AxisPointCount(52.959981, 52.998760, 0.01) == 4
    ensures AxisPointCount(25.903515, 25.914997, 0.01) == 2
  {
    assert Pow10(2) == 100;
    assert Pow10(6) == 1000000;
  }

  /** The scale of the spelling decides where the quotient is rounded: from
      1.0 to 3.0 at step 1.081, spelt as Double.toString does (one decimal
      place), 2 points are declared, while the same values at scale 0 would
      declare 3. */
  lemma {:induction false} SpellingDecidesCount()
    ensures AxisPointCountAsWritten(Decimal(10, 1), Decimal(30, 1), Decimal(1081, 3)) == 2
    ensures AxisPointCountAsWritten(Decimal(1, 0), Decimal(3, 0), Decimal(1081, 3)) == 3
  {
    assert Pow10(1) == 10;
    assert Pow10(3) == 1000;
    assert Subtract(Decimal(30, 1), Decimal(10, 1)) == Decimal(20, 1);
    assert Subtract(Decimal(3, 0), Decimal(1, 0)) == Decimal(2, 0);
    assert DivideUp(20000, 1081) == 19;
    assert DivideUp(2000, 1081) == 2;
  }

  /** From 1.0 to 3.0 at step 1.05 the grid holds 2 points per axis (1.0 and
      2.05), but the quotient 1.904..., rounded up at the difference's single
      decimal place, becomes 2.0, so 3 points are declared. */
  lemma {:induction false} DeclaredCountExceedsGrid()
    ensures AxisPointCountAsWritten(Decimal(10, 1), Decimal(30, 1), Decimal(105, 2)) == 3
    ensures AxisPointCount(1.0, 3.0, 1.05) == 2
  {
    assert Pow10(1) == 10;
    assert Pow10(2) == 100;
    assert Subtract(Decimal(30, 1), Decimal(10, 1)) == Decimal(20, 1);
    assert DivideUp(2000, 105) == 20;
  }
}
