/** Python's integer and float primitives that the slider geometry relies on:
    bitwise `&` with a non-negative mask, `int()` on a float (truncation toward
    zero) and `round()` on a float (round half to even). Floats are modelled as
    exact reals. */
module PyNumeric {

  /** 2 to the power k. */
  function Pow2(k: nat): (p: nat)
    ensures p >= 1
  {
    if k == 0 then 1 else 2 * Pow2(k - 1)
  }

  /** Python's `a & b` for a non-negative `b`. Python integers behave as
      infinite two's complement, so bit 0 of `a` is `a % 2` and `a >> 1` is
      `a // 2` (floor division); Dafny's `/` and `%` by 2 agree with both,
      also for negative `a`. The recursion stops when the mask runs out of bits. */
  function BitAnd(a: int, b: nat): (r: nat)
    decreases b
  {
    if b == 0 then 0
    else 2 * BitAnd(a / 2, b / 2) + (if a % 2 == 1 && b % 2 == 1 then 1 else 0)
  }

  /** Splitting off the lowest bit: the low k+1 bits of x are bit 0 of x below
      the low k bits of x // 2. */
  lemma LowBitsSplit(x: int, m: nat)
    requires m > 0
    ensures 2 * ((x / 2) % m) + x % 2 == x % (2 * m)
  {
    var q, r := x / 2, x % 2;
    var t, s := q / m, q % m;
    assert x == 2 * m * t + (2 * s + r);
    var u := 2 * s + r;
    assert 0 <= u < 2 * m;
    assert x / (2 * m) == t && x % (2 * m) == u by {
      DivModUnique(x, 2 * m, t, u);
    }
  }

  /** Euclidean division is determined by its quotient and remainder. */
  lemma DivModUnique(x: int, d: int, t: int, u: int)
    requires d > 0 && x == d * t + u && 0 <= u < d
    ensures x / d == t && x % d == u
  {
    var t', u' := x / d, x % d;
    var k := t' - t;
    assert d * k == u - u' by {
      assert d * t' - d * t == d * (t' - t);
    }
  }

  /** Python's `x >> k`: floor division by 2^k, one bit at a time. */
  function ShiftRight(x: int, k: nat): (r: int)
    decreases k
  {
    if k == 0 then x else ShiftRight(x / 2, k - 1)
  }

  /** Doubling a division by p with remainder and putting back the low bit
      gives a division of twice the size. */
  lemma DoubleDivision(x: int, p: int, h: int, low: int)
    requires x / 2 == p * h + low
    ensures x == (2 * p) * h + (2 * low + x % 2)
  {
    assert (2 * p) * h == 2 * (p * h);
  }

  /** A mask of k one-bits keeps exactly the low k bits: x is its high part
      `x >> k` times 2^k plus the masked part, which is below 2^k. This is the
      Euclidean division of x by 2^k. */
  lemma {:induction false} BitAndLowOnes(x: int, k: nat)
    decreases k
    ensures x == Pow2(k) * ShiftRight(x, k) + BitAnd(x, Pow2(k) - 1)
    ensures BitAnd(x, Pow2(k) - 1) < Pow2(k)
  {
    if k > 0 {
      var p, h := Pow2(k - 1), ShiftRight(x / 2, k - 1);
      var mask := 2 * p - 1;
      assert Pow2(k) == 2 * p && ShiftRight(x, k) == h && Pow2(k) - 1 == mask;
      assert mask / 2 == p - 1 && mask % 2 == 1 by {
        DivModUnique(mask, 2, p - 1, 1);
      }
      var low := BitAnd(x / 2, p - 1);
      assert BitAnd(x, mask) == 2 * low + x % 2;
      BitAndLowOnes(x / 2, k - 1);
      DoubleDivision(x, p, h, low);
    }
  }

  /** `w & 0xfe` keeps bits 1 to 7: twice the low seven bits of `w // 2`. */
  lemma MaskKeepsBits1To7(w: int)
    ensures BitAnd(w, 0xFE) == 2 * ((w / 2) % 128)
  {
    assert BitAnd(w, 0xFE) == 2 * BitAnd(w / 2, 127);
    BitAndLowOnes(w / 2, 7);
    assert Pow2(7) == 128;
    DivModUnique(w / 2, 128, ShiftRight(w / 2, 7), BitAnd(w / 2, 127));
  }

  /** `w & 0xfe` as Python evaluates it: bit 0 cleared AND every bit above
      bit 7 cleared. It is "truncate down to an even number" only for
      0 <= w < 256. */
  lemma MaskFE(w: int)
    ensures BitAnd(w, 0xFE) == w % 256 - w % 2
    ensures BitAnd(w, 0xFE) % 2 == 0
    ensures 0 <= BitAnd(w, 0xFE) <= 254
    ensures 0 <= w ==> BitAnd(w, 0xFE) <= w
    ensures 0 <= w < 256 ==> BitAnd(w, 0xFE) == w - w % 2
  {
    var m := (w / 2) % 128;
    MaskKeepsBits1To7(w);
    LowBitsSplit(w, 128);
    assert 2 * m + w % 2 == w % 256;
    if 0 <= w {
      assert w == 256 * (w / 256) + w % 256;
      assert w / 256 >= 0;
    }
    if 0 <= w < 256 {
      DivModUnique(w, 256, 0, w);
    }
  }

  /** Two concrete widths: 21 becomes 20, as documented; 300 becomes 44, since
      bits above bit 7 are cleared too. */
  lemma MaskExamples()
    ensures BitAnd(21, 0xFE) == 20
    ensures BitAnd(300, 0xFE) == 44
    ensures BitAnd(-1, 0xFE) == 254
  {
    MaskFE(21);
    assert 21 % 256 - 21 % 2 == 20;
    MaskFE(300);
    assert 300 % 256 - 300 % 2 == 44;
    MaskFE(-1);
    assert -1 % 256 - -1 % 2 == 254;
  }

  /** Python's `int(x)` on a float: truncation toward zero. */
  function Trunc(r: real): (n: int)
    ensures 0.0 <= r ==> n as real <= r < n as real + 1.0
    ensures r < 0.0 ==> n as real - 1.0 < r <= n as real
  {
    if r >= 0.0 then r.Floor else -((-r).Floor)
  }

  /** Truncation toward zero never reverses an order. */
  lemma TruncMonotone(a: real, b: real)
    requires a <= b
    ensures Trunc(a) <= Trunc(b)
  {
    if a < 0.0 && 0.0 <= b {
      assert Trunc(a) <= 0 <= Trunc(b);
    }
  }

  /** Truncation leaves whole numbers alone. */
  lemma TruncOfInt(k: int)
    ensures Trunc(k as real) == k
  {
  }

  /** Python's `round(x)` on a float: to the nearest integer, ties to the even one. */
  function RoundHalfEven(r: real): (n: int)
    ensures n as real - 0.5 <= r <= n as real + 0.5
    ensures (r == n as real - 0.5 || r == n as real + 0.5) ==> n % 2 == 0
  {
    var f := r.Floor;
    var frac := r - f as real;
    if frac < 0.5 then f
    else if frac > 0.5 then f + 1
    else if f % 2 == 0 then f
    else f + 1
  }

  /** Rounding to the nearest integer stays between any two integer bounds of
      its argument. */
  lemma RoundWithin(r: real, lo: int, hi: int)
    requires lo as real <= r <= hi as real
    ensures lo <= RoundHalfEven(r) <= hi
  {
  }

  /** Rounding leaves whole numbers alone. */
  lemma RoundOfInt(k: int)
    ensures RoundHalfEven(k as real) == k
  {
    RoundWithin(k as real, k, k);
  }

  /** Ties go to the even neighbour: 46.5 rounds down, 47.5 rounds up. */
  lemma RoundExamples()
    ensures RoundHalfEven(46.5) == 46
    ensures RoundHalfEven(47.5) == 48
    ensures RoundHalfEven(-0.5) == 0
  {
  }
}
