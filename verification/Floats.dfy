/** Binary floating-point numbers in memory: what reading and writing one keeps of a multiple of a
    step, and that the usual layouts qualify. Arithmetic on them is exact here; only writing rounds. */
module Floats {
  import opened Alignments
  import opened Bytes

  /** How a number lies in memory: its size, what its bytes mean, which bytes are a finite number, the
      largest one, and the bytes a number is stored as. */
  datatype Codec = Codec(size: nat, read: seq<byte> -> real, finite: seq<byte> -> bool, max: real, write: real -> seq<byte>)
  {
    predicate Holds(e: seq<byte>) {
      |e| == size && finite(e)
    }

    predicate InRange(x: real) {
      -max <= x <= max
    }

    ghost predicate Sized() {
      forall x: real :: |write(x)| == size
    }

    /** A number in range is stored as one of the finite numbers nearest to it. */
    ghost predicate ToNearest() {
      forall x: real, e: seq<byte> {:trigger write(x), read(e)} :: InRange(x) && Holds(e) ==>
        Holds(write(x)) && Distance(read(write(x)), x) <= Distance(read(e), x)
    }

    /** Between two finite numbers there is a gap of which the lower number is a whole multiple. */
    ghost predicate EvenGaps() {
      forall e: seq<byte>, g: seq<byte> :: Holds(e) && Holds(g) && read(e) < read(g) ==> GapAbove(e, g)
    }

    ghost predicate GapAbove(e: seq<byte>, g: seq<byte>) {
      exists h: seq<byte>, m: int :: GapTo(e, g, h, m)
    }

    predicate GapTo(e: seq<byte>, g: seq<byte>, h: seq<byte>, m: int) {
      Holds(h) && read(e) < read(h) <= read(g) && read(e) == Mul(m as real, read(h) - read(e))
    }

    ghost predicate HasZero() {
      exists z: seq<byte> :: Holds(z) && read(z) == 0.0
    }

    ghost predicate FloatLike() {
      Sized() && ToNearest() && EvenGaps() && HasZero()
    }
  }

  function Mul(x: real, y: real): real { x * y }

  function Distance(x: real, y: real): real {
    if x < y then y - x else x - y
  }

  // --- counting steps ---------------------------------------------------------------------------------

  /** lround: to the nearest integer, halves away from zero. */
  function Round(x: real): int {
    if x >= 0.0 then (x + 0.5).Floor else -((-x + 0.5).Floor)
  }

  /** The nearest integer, and of two equally near ones the one away from zero. */
  lemma RoundIs(x: real, n: int)
    ensures Round(x) == n <==>
      if x >= 0.0 then n as real - 0.5 <= x < n as real + 0.5 else n as real - 0.5 < x <= n as real + 0.5
  {}

  function GridPoint(n: int, step: real): real {
    Mul(n as real, step)
  }

  /** The whole number of steps nearest to x. */
  function Count(x: real, step: real): int
    requires step > 0.0
  {
    Round(x / step)
  }

  lemma RoundNear(t: real, n: int)
    ensures Distance(Round(t) as real, t) <= 0.5
    ensures Distance(n as real, t) < 0.5 ==> Round(t) == n
  {}

  lemma MulLess(a: real, b: real, step: real)
    requires step > 0.0
    ensures a < b <==> Mul(a, step) < Mul(b, step)
  {
    assert Mul(b - a, step) == Mul(b, step) - Mul(a, step);
  }

  lemma MulMinus(a: real, b: real, step: real)
    ensures Mul(a, step) - Mul(b, step) == Mul(a - b, step)
  {}

  lemma MulPlain(step: real)
    ensures Mul(0.0, step) == 0.0 && Mul(0.5, step) == 0.5 * step && Mul(-0.5, step) == -0.5 * step && Mul(1.0, step) == step
  {}

  lemma Divides(x: real, step: real)
    requires step > 0.0
    ensures Mul(x / step, step) == x
  {}

  /** Being within half of n is being within half a step of its grid point. */
  lemma Scaled(t: real, n: int, step: real)
    requires step > 0.0
    ensures Distance(n as real, t) < 0.5 <==> Distance(GridPoint(n, step), Mul(t, step)) < 0.5 * step
    ensures Distance(n as real, t) <= 0.5 <==> Distance(GridPoint(n, step), Mul(t, step)) <= 0.5 * step
  {
    hide Mul;
    var d := n as real - t;
    MulMinus(n as real, t, step);
    MulPlain(step);
    MulLess(d, 0.5, step);
    MulLess(0.5, d, step);
    MulLess(-0.5, d, step);
    MulLess(d, -0.5, step);
    MulLess(d, 0.0, step);
  }

  /** x is within half a step of its grid point, and of no other it is nearer than that. */
  lemma CountNear(x: real, step: real, n: int)
    requires step > 0.0
    ensures Distance(GridPoint(Count(x, step), step), x) <= 0.5 * step
    ensures Distance(GridPoint(n, step), x) < 0.5 * step ==> Count(x, step) == n
  {
    hide Round, GridPoint, Mul;
    var t := x / step;
    Divides(x, step);
    RoundNear(t, n);
    Scaled(t, n, step);
    Scaled(t, Round(t), step);
  }

  /** Two finite numbers one step apart, half a step beside a grid point, leave room for a third between
      them. */
  lemma RoomBetween(c: Codec, e: seq<byte>, g: seq<byte>, step: real, n: int) returns (h: seq<byte>)
    requires c.EvenGaps() && step > 0.0 && c.Holds(e) && c.Holds(g)
    requires c.read(e) == GridPoint(n, step) - 0.5 * step && c.read(g) == c.read(e) + step
    ensures c.Holds(h) && c.read(e) < c.read(h) < c.read(g)
  {
    hide GridPoint, Mul;
    assert c.GapAbove(e, g);
    var k: seq<byte>, m: int :| c.GapTo(e, g, k, m);
    h := k;
    NoHalf(n, m, step);
  }

  lemma NoHalf(n: int, m: int, step: real)
    requires step > 0.0
    ensures GridPoint(n, step) - 0.5 * step != Mul(m as real, step)
  {
    hide Mul;
    var d := n as real - m as real;
    MulMinus(n as real, m as real, step);
    MulPlain(step);
    MulLess(d, 0.5, step);
    MulLess(0.5, d, step);
    assert d != 0.5 by { assert d == (n - m) as real; }
  }

  /** A finite number and what its grid point is stored as count the same steps. */
  lemma StoredCountsSame(c: Codec, e: seq<byte>, step: real)
    requires c.FloatLike() && c.Holds(e) && step > 0.0 && c.InRange(GridPoint(Count(c.read(e), step), step))
    ensures Count(c.read(c.write(GridPoint(Count(c.read(e), step), step))), step) == Count(c.read(e), step)
  {
    hide Count, GridPoint, Mul;
    var n := Count(c.read(e), step);
    var g := GridPoint(n, step);
    var d := c.write(g);
    var x, y := c.read(e), c.read(d);
    CountNear(x, step, n);
    CountNear(y, step, n);
    assert Distance(y, g) <= Distance(x, g);
    if Distance(y, g) == 0.5 * step && y != x {
      var low, high := if x < y then e else d, if x < y then d else e;
      var h := RoomBetween(c, low, high, step, n);
      assert false;
    }
  }

  lemma GridApart(n: int, m: int, step: real, k: int)
    requires step > 0.0 && k > 0 && (n - m >= k || m - n >= k)
    ensures Distance(GridPoint(n, step), GridPoint(m, step)) >= GridPoint(k, step)
  {
    hide Mul;
    MulMinus(n as real, m as real, step);
    MulMinus(m as real, n as real, step);
    MulLess((n - m) as real, k as real, step);
    MulLess((m - n) as real, k as real, step);
    MulLess(k as real, 0.0, step);
    MulPlain(step);
    assert n as real - m as real == (n - m) as real && m as real - n as real == (m - n) as real;
  }

  /** The grid point of the right count is stored within a step of the number; one that is k steps or
      more away, and at most half as far from zero, is not. */
  lemma StoredNear(c: Codec, e: seq<byte>, step: real, n: int, k: int)
    requires c.FloatLike() && c.Holds(e) && step > 0.0 && c.InRange(GridPoint(n, step))
    ensures n == Count(c.read(e), step) ==> Distance(c.read(c.write(GridPoint(n, step))), c.read(e)) <= step
    ensures var count := Count(c.read(e), step);
      k >= 4 && -k <= 2 * n <= k && (n - count >= k || count - n >= k) ==>
        Distance(c.read(c.write(GridPoint(n, step))), c.read(e)) > step
  {
    hide Count, GridPoint, Mul;
    var x, y, g := c.read(e), c.read(c.write(GridPoint(n, step))), GridPoint(n, step);
    CountNear(x, step, n);
    assert Distance(y, g) <= Distance(x, g);
    var count := Count(x, step);
    if k >= 4 && -k <= 2 * n <= k && (n - count >= k || count - n >= k) {
      var z: seq<byte> :| c.Holds(z) && c.read(z) == 0.0;
      assert Distance(y, g) <= Distance(c.read(z), g);
      GridApart(n, count, step, k);
      HalfWay(n, step, k);
    }
  }

  lemma HalfWay(n: int, step: real, k: int)
    requires step > 0.0 && k >= 4 && -k <= 2 * n <= k
    ensures Distance(0.0, GridPoint(n, step)) + 2.0 * step <= GridPoint(k, step)
  {
    hide Mul;
    var h := k as real / 2.0;
    MulLess(h, n as real, step);
    MulLess(n as real, -h, step);
    MulPlain(step);
    MulHalves(h, step);
    MulLess(h, 2.0, step);
  }

  lemma MulHalves(h: real, step: real)
    ensures Mul(-h, step) == -Mul(h, step) && Mul(2.0 * h, step) == Mul(h, step) + Mul(h, step) && Mul(2.0, step) == 2.0 * step
  {}

  // --- the usual layouts ------------------------------------------------------------------------------

  function Power(n: nat): (r: real)
    ensures r > 0.0
  {
    if n == 0 then 1.0 else 2.0 * Power(n - 1)
  }

  /** Sign, exponent and fraction from the highest bit down: how many values the exponent and the
      fraction take, and the smallest positive number. */
  datatype Format = Format(bytes: nat, exponents: nat, fraction: nat, least: real)
  {
    predicate Valid() {
      exponents >= 2 && fraction > 0 && least > 0.0 && 2 * Signed() == Limit(bytes)
    }

    /** The codes from here on have the sign. */
    function Signed(): nat { exponents * fraction }

    /** The largest exponent is that of infinities and NaNs. */
    function Finite(): nat
      requires exponents >= 2
    {
      (exponents - 1) * fraction
    }

    function Exponent(c: nat): nat
      requires fraction > 0
    {
      if c < fraction then 0 else c / fraction - 1
    }

    /** The distance to the next magnitude. */
    function Ulp(c: nat): real
      requires fraction > 0
    {
      Mul(Power(Exponent(c)), least)
    }

    function Significand(c: nat): nat
      requires fraction > 0
    {
      if c < fraction then c else fraction + c % fraction
    }

    function Magnitude(c: nat): real
      requires fraction > 0
    {
      Mul(Significand(c) as real, Ulp(c))
    }

    function Value(code: nat): real
      requires fraction > 0
    {
      if code < Signed() then Magnitude(code) else -Magnitude(code - Signed())
    }

    predicate IsFinite(code: nat)
      requires exponents >= 2
    {
      (if code < Signed() then code else code - Signed()) < Finite()
    }
  }

  /** The 32-bit and the 64-bit binary format of IEEE 754. */
  function Float32(): Format { Format(4, 0x100, 0x80_0000, 1.0 / Power(149)) }

  function Float64(): Format { Format(8, 0x800, 0x10_0000_0000_0000, 1.0 / Power(1074)) }

  lemma FormatsValid()
    ensures Float32().Valid() && Float64().Valid()
  {
    assert Limit(4) == 256 * 256 * 256 * 256 * Limit(0);
    assert Limit(8) == 256 * 256 * 256 * 256 * Limit(4);
  }

  /** The codec reads this format. */
  ghost predicate Reads(c: Codec, f: Format) {
    && f.Valid() && c.size == f.bytes && c.max == f.Magnitude(f.Finite() - 1)
    && forall e: seq<byte> {:trigger c.read(e)} {:trigger c.finite(e)} :: |e| == f.bytes ==>
         c.read(e) == f.Value(Number(e)) && c.finite(e) == f.IsFinite(Number(e))
  }

  lemma NextDivision(c: nat, f: nat)
    requires f > 0
    ensures c % f < f - 1 ==> (c + 1) / f == c / f && (c + 1) % f == c % f + 1
    ensures c % f == f - 1 ==> (c + 1) / f == c / f + 1 && (c + 1) % f == 0
  {
    var q, r := c / f, c % f;
    assert c == f * q + r;
    if r < f - 1 {
      DivisionUnique(c + 1, q, r + 1, f);
    } else {
      assert c + 1 == f * (q + 1);
      DivisionUnique(c + 1, q + 1, 0, f);
    }
  }

  lemma UlpPositive(f: Format, c: nat)
    requires f.Valid()
    ensures f.Ulp(c) > 0.0 && f.Magnitude(c) >= 0.0
  {
    hide Mul;
    MulPlain(f.least);
    MulLess(0.0, Power(f.Exponent(c)), f.least);
    MulPlain(f.Ulp(c));
    MulLess(f.Significand(c) as real, 0.0, f.Ulp(c));
  }

  lemma MulNext(n: nat, u: real)
    ensures Mul((n + 1) as real, u) == Mul(n as real, u) + u
    ensures Mul(2.0, u) == u + u
  {}

  lemma MulDouble(n: nat, u: real, p: real)
    ensures Mul((n + n) as real, Mul(p, u)) == Mul(n as real, Mul(2.0 * p, u))
  {}

  /** The next magnitude is one unit further. */
  lemma NextMagnitude(f: Format, c: nat)
    requires f.Valid()
    ensures f.Magnitude(c + 1) == f.Magnitude(c) + f.Ulp(c)
  {
    hide Mul;
    NextDivision(c, f.fraction);
    MulNext(f.Significand(c), f.Ulp(c));
    if c >= f.fraction {
      assert c / f.fraction >= 1 by { AtLeastOnce(c, f.fraction); }
      if c % f.fraction == f.fraction - 1 {
        assert f.Significand(c) + 1 == f.fraction + f.fraction;
        MulDouble(f.fraction, f.least, Power(f.Exponent(c)));
      }
    } else if c + 1 == f.fraction {
      DivisionUnique(c + 1, 1, 0, f.fraction);
    }
  }

  lemma AtLeastOnce(c: nat, f: nat)
    requires 0 < f <= c
    ensures c / f >= 1
  {
    var q := c / f;
    assert c == f * q + c % f;
    MulApart(f, 1, q);
  }

  lemma {:induction false} MagnitudesGrow(f: Format, c: nat, d: nat)
    requires f.Valid() && c < d
    ensures f.Magnitude(c) + f.Ulp(c) <= f.Magnitude(d)
    decreases d
  {
    hide Format.Magnitude, Format.Ulp;
    NextMagnitude(f, d - 1);
    if c < d - 1 {
      MagnitudesGrow(f, c, d - 1);
      UlpPositive(f, d - 1);
    }
  }

  /** The bytes of a code. */
  lemma CodeRead(c: Codec, f: Format, code: nat) returns (e: seq<byte>)
    requires Reads(c, f) && code < 2 * f.Signed() && f.IsFinite(code)
    ensures c.Holds(e) && c.read(e) == f.Value(code)
  {
    e := Little(f.bytes, code);
    NumberOfLittle(f.bytes, code);
  }

  lemma CodeOf(c: Codec, f: Format, e: seq<byte>) returns (code: nat)
    requires Reads(c, f) && c.Holds(e)
    ensures code < 2 * f.Signed() && f.IsFinite(code) && c.read(e) == f.Value(code)
  {
    NumberBelow(e);
    code := Number(e);
  }

  function Opposite(n: nat): int { -1 - n }

  lemma SignificandOfGap(f: Format, c: nat)
    requires f.Valid()
    ensures f.Magnitude(c) == Mul(f.Significand(c) as real, f.Magnitude(c + 1) - f.Magnitude(c))
    ensures -f.Magnitude(c + 1) == Mul(Opposite(f.Significand(c)) as real, f.Magnitude(c + 1) - f.Magnitude(c))
  {
    hide Mul;
    NextMagnitude(f, c);
    MulOpposite(f.Significand(c), f.Ulp(c));
  }

  lemma MulOpposite(n: nat, u: real)
    ensures Mul(Opposite(n) as real, u) == -(Mul(n as real, u) + u)
  {}

  lemma FiniteBelowSign(f: Format)
    requires f.Valid()
    ensures 0 < f.Finite() < f.Signed()
  {
    assert f.Signed() == f.Finite() + f.fraction;
    MulApart(f.fraction, f.exponents - 1, 0);
  }

  /** Above a number that is not negative lies the next magnitude. */
  lemma GapOfPositive(c: Codec, f: Format, e: seq<byte>, g: seq<byte>, i: nat)
    requires Reads(c, f) && c.Holds(e) && c.Holds(g) && c.read(e) < c.read(g) && c.read(e) == f.Magnitude(i)
    ensures c.GapAbove(e, g)
  {
    hide Format.Magnitude, Mul, Format.Finite, Format.Signed;
    var d := CodeOf(c, f, g);
    FiniteBelowSign(f);
    UlpPositive(f, i);
    if d >= f.Signed() { UlpPositive(f, d - f.Signed()); }
    assert d < f.Signed();
    if d < i { MagnitudesGrow(f, d, i); UlpPositive(f, d); }
    assert d > i;
    NextMagnitude(f, i);
    if d > i + 1 { MagnitudesGrow(f, i + 1, d); UlpPositive(f, i + 1); }
    var h := CodeRead(c, f, i + 1);
    SignificandOfGap(f, i);
    assert c.GapTo(e, g, h, f.Significand(i));
  }

  /** Above a negative number lies the magnitude before its own. */
  lemma GapOfNegative(c: Codec, f: Format, e: seq<byte>, g: seq<byte>, i: nat)
    requires Reads(c, f) && c.Holds(e) && c.Holds(g) && c.read(e) < c.read(g) && c.read(e) == -f.Magnitude(i + 1) && i < f.Finite()
    ensures c.GapAbove(e, g)
  {
    hide Format.Magnitude, Mul, Format.Finite, Format.Signed;
    var d := CodeOf(c, f, g);
    FiniteBelowSign(f);
    UlpPositive(f, i);
    NextMagnitude(f, i);
    if d < f.Signed() {
      UlpPositive(f, d);
    } else {
      var k := d - f.Signed();
      if k > i + 1 { MagnitudesGrow(f, i + 1, k); UlpPositive(f, i + 1); }
      if k < i { MagnitudesGrow(f, k, i); UlpPositive(f, k); }
    }
    var h := CodeRead(c, f, f.Signed() + i);
    SignificandOfGap(f, i);
    assert c.GapTo(e, g, h, Opposite(f.Significand(i)));
  }

  /** A codec for such a format that writes the nearest finite number is as the theorems ask. */
  lemma FormatFloatLike(c: Codec, f: Format)
    requires Reads(c, f) && c.Sized() && c.ToNearest()
    ensures c.FloatLike()
  {
    hide Format.Magnitude, Format.Finite, Format.Signed, Codec.GapAbove, Codec.ToNearest;
    forall e: seq<byte>, g: seq<byte> | c.Holds(e) && c.Holds(g) && c.read(e) < c.read(g) ensures c.GapAbove(e, g) {
      var code := CodeOf(c, f, e);
      ZeroMagnitude(f);
      if code <= f.Signed() {
        GapOfPositive(c, f, e, g, if code == f.Signed() then 0 else code);
      } else {
        GapOfNegative(c, f, e, g, code - f.Signed() - 1);
      }
    }
    ZeroMagnitude(f);
    FiniteBelowSign(f);
    var z := CodeRead(c, f, 0);
  }

  /** The range ends at the largest finite numbers, and holds every finite number. */
  lemma RangeIsFinite(c: Codec, f: Format, e: seq<byte>) returns (low: seq<byte>, high: seq<byte>)
    requires Reads(c, f) && c.Holds(e)
    ensures c.InRange(c.read(e)) && c.Holds(low) && c.Holds(high)
    ensures forall x: real :: c.InRange(x) <==> c.read(low) <= x <= c.read(high)
  {
    hide Format.Magnitude, Format.Finite, Format.Signed;
    FiniteBelowSign(f);
    var last := f.Finite() - 1;
    var code := CodeOf(c, f, e);
    high := CodeRead(c, f, last);
    low := CodeRead(c, f, f.Signed() + last);
    var size := if code < f.Signed() then code else code - f.Signed();
    UlpPositive(f, size);
    if size < last {
      MagnitudesGrow(f, size, last);
    }
  }

  lemma {:induction false} PowerAdds(a: nat, b: nat)
    ensures Power(a + b) == Power(a) * Power(b)
  {
    if a > 0 {
      PowerAdds(a - 1, b);
      assert Power(a + b) == 2.0 * (Power(a - 1) * Power(b)) == Power(a) * Power(b);
    }
  }

  /** 2^23 and 2^52, the fractions of the two formats. */
  lemma PowersOfFractions()
    ensures Power(23) == 0x80_0000 as real && Power(52) == 0x10_0000_0000_0000 as real
  {
    assert Power(13) == 8192.0;
    PowerAdds(13, 10);
    assert Power(10) == 1024.0;
    PowerAdds(26, 26);
    PowerAdds(13, 13);
  }

  /** The number one and its negative have the codes of the standard. */
  lemma UnitCodes()
    ensures Float32().Value(0x3F80_0000) == 1.0 && Float32().Value(0xBF80_0000) == -1.0
    ensures Float64().Value(0x3FF0_0000_0000_0000) == 1.0 && Float64().Value(0xBFF0_0000_0000_0000) == -1.0
  {
    PowersOfFractions();
    UnitMagnitude(Float32(), 0x3F80_0000, 126, 23, 149);
    UnitMagnitude(Float64(), 0x3FF0_0000_0000_0000, 1022, 52, 1074);
  }

  lemma UnitMagnitude(f: Format, c: nat, exponent: nat, width: nat, least: nat)
    requires 0 < f.fraction <= c && c / f.fraction == exponent + 1 && c % f.fraction == 0
    requires f.fraction as real == Power(width) && f.least == 1.0 / Power(least) && least == width + exponent
    ensures f.Magnitude(c) == 1.0
  {
    hide Mul, Power;
    PowerAdds(width, exponent);
    UnitProduct(Power(width), Power(exponent), Power(least));
  }

  lemma UnitProduct(x: real, y: real, z: real)
    requires z > 0.0 && x * y == z
    ensures Mul(x, Mul(y, 1.0 / z)) == 1.0
  {
    assert x * (y * (1.0 / z)) == (x * y) * (1.0 / z);
  }

  lemma ZeroMagnitude(f: Format)
    requires f.Valid()
    ensures f.Magnitude(0) == 0.0
  {}

  /** The lowest of the finite codes below n whose number is nearest to x. */
  function Closest(f: Format, x: real, n: nat): (r: nat)
    requires f.Valid() && n > 0
    ensures r < n && f.IsFinite(r)
    ensures forall k :: 0 <= k < n && f.IsFinite(k) ==> Distance(f.Value(r), x) <= Distance(f.Value(k), x)
  {
    FiniteBelowSign(f);
    if n == 1 then 0
    else
      var r := Closest(f, x, n - 1);
      if f.IsFinite(n - 1) && Distance(f.Value(n - 1), x) < Distance(f.Value(r), x) then n - 1 else r
  }

  /** One such codec: of two equally near numbers it takes the lower code. */
  function CodecOf(f: Format): Codec
    requires f.Valid()
  {
    Codec(f.bytes, e => f.Value(Number(e)), e => f.IsFinite(Number(e)), f.Magnitude(f.Finite() - 1),
          x => Little(f.bytes, Closest(f, x, 2 * f.Signed())))
  }

  lemma CodecOfFormat(f: Format)
    requires f.Valid()
    ensures Reads(CodecOf(f), f) && CodecOf(f).FloatLike()
  {
    var c := CodecOf(f);
    forall x: real, e: seq<byte> | c.InRange(x) && c.Holds(e)
      ensures c.Holds(c.write(x)) && Distance(c.read(c.write(x)), x) <= Distance(c.read(e), x)
    {
      hide Format.Magnitude, Format.Finite, Format.Signed, Distance;
      NumberBelow(e);
      NumberOfLittle(f.bytes, Closest(f, x, 2 * f.Signed()));
    }
    FormatFloatLike(c, f);
  }
}
