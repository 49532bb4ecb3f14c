/** Rounding up to multiples of powers of two. */
module Alignments {

  predicate IsPowerOfTwo(a: nat) {
    a == 1 || (a > 1 && a % 2 == 0 && IsPowerOfTwo(a / 2))
  }

  /** The multiple of `alignment` at or above x. */
  function AlignUp(x: nat, alignment: nat): nat
    requires alignment > 0
  {
    (x + alignment - 1) / alignment * alignment
  }

  predicate Aligned(x: nat, alignment: nat)
    requires alignment > 0
  {
    x % alignment == 0
  }

  lemma AlignUpBounds(x: nat, alignment: nat)
    requires alignment > 0
    ensures x <= AlignUp(x, alignment) < x + alignment && Aligned(AlignUp(x, alignment), alignment)
  {
    var q := (x + alignment - 1) / alignment;
    MultipleAligned(q, alignment);
  }

  lemma {:induction false} MulAtLeast(a: nat, k: int)
    requires k >= 1
    ensures a * k >= a
  {
    if k > 1 {
      MulAtLeast(a, k - 1);
      assert a * k == a * (k - 1) + a;
    }
  }

  lemma MulApart(a: nat, q: int, p: int)
    ensures q > p ==> a * q >= a * p + a
  {
    if q > p {
      MulAtLeast(a, q - p);
      assert a * (q - p) == a * q - a * p;
    }
  }

  /** Quotient and remainder are unique. */
  lemma DivisionUnique(x: nat, q: nat, r: nat, a: nat)
    requires a > 0 && r < a && x == a * q + r
    ensures x / a == q && x % a == r
  {
    var p, s := x / a, x % a;
    assert x == a * p + s;
    MulApart(a, q, p);
    MulApart(a, p, q);
  }

  lemma MultipleAligned(q: nat, a: nat)
    requires a > 0
    ensures (q * a) % a == 0 && (q * a) / a == q
  {
    DivisionUnique(q * a, q, 0, a);
  }

  /** Rounding a cursor up never passes an end that is itself aligned. */
  lemma AlignUpWithin(x: nat, end: nat, alignment: nat)
    requires alignment > 0 && x <= end && Aligned(end, alignment)
    ensures AlignUp(x, alignment) <= end
  {
    AlignUpBounds(x, alignment);
    var u := AlignUp(x, alignment);
    Multiple(u, alignment);
    Multiple(end, alignment);
    MulApart(alignment, u / alignment, end / alignment);
    MulApart(alignment, end / alignment, u / alignment);
  }

  lemma Multiple(x: nat, a: nat)
    requires a > 0 && Aligned(x, a)
    ensures x == a * (x / a)
  {}

  lemma AlignedSum(x: nat, y: nat, a: nat)
    requires a > 0 && Aligned(x, a) && Aligned(y, a)
    ensures Aligned(x + y, a)
  {
    var q, r := x / a, y / a;
    assert x + y == (q + r) * a;
    MultipleAligned(q + r, a);
  }

  /** Powers of two divide each other in order. */
  lemma {:induction false} PowersDivide(a: nat, b: nat)
    requires IsPowerOfTwo(a) && IsPowerOfTwo(b) && a <= b
    ensures a > 0 && b % a == 0
    decreases b
  {
    if a == b {
    } else if a == 1 {
    } else {
      PowersDivide(a / 2, b / 2);
      var q := (b / 2) / (a / 2);
      assert b / 2 == q * (a / 2);
      assert b == q * a;
      MultipleAligned(q, a);
    }
  }

  lemma Reassociate(a: nat, r: nat, q: nat)
    ensures (a * r) * q == (q * r) * a
  {}

  lemma AlignedSmaller(x: nat, a: nat, b: nat)
    requires IsPowerOfTwo(a) && IsPowerOfTwo(b) && a <= b && b > 0 && Aligned(x, b)
    ensures a > 0 && Aligned(x, a)
  {
    PowersDivide(a, b);
    var q, r := x / b, b / a;
    Multiple(x, b);
    Multiple(b, a);
    Reassociate(a, r, q);
    MultipleAligned(q * r, a);
  }

  lemma {:induction false} PowersMultiply(a: nat, b: nat)
    requires IsPowerOfTwo(a) && IsPowerOfTwo(b)
    ensures IsPowerOfTwo(a * b)
    decreases b
  {
    if b > 1 {
      PowersMultiply(a, b / 2);
      Doubled(a, b, b / 2);
      DoubleIsPower(a * b, a * (b / 2));
    }
  }

  lemma Doubled(a: nat, b: nat, h: nat)
    requires b == 2 * h
    ensures a * b == 2 * (a * h)
  {}

  lemma DoubleIsPower(x: nat, h: nat)
    requires x == 2 * h && IsPowerOfTwo(h)
    ensures IsPowerOfTwo(x)
  {}
}
