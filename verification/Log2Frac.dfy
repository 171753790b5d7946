/**
  log2_frac of celt/cwrs.c: a binary logarithm with `frac` fractional bits that
  never comes out too small, computed by repeated squaring of a 17-bit mantissa.
 */
module Log2Frac {
  import opened Powers

  /** v raised to 2^n. */
  function SquareUp(v: nat, n: nat): nat
  {
    if n == 0 then v else SquareUp(v, n - 1) * SquareUp(v, n - 1)
  }

  predicate IsPowerOfTwo(v: nat)
  {
    v > 0 && v == Pow2(Ilog(v) - 1)
  }

  /**
    The loop invariant: after some squarings, `power` is at most 2^e times the
    mantissa, whose scale is 2^15.
   */
  predicate Bounded(power: nat, e: nat, val: nat)
  {
    power * 0x8000 <= Pow2(e) * val
  }

  /** In the other direction, all the roundings so far add at most `ex` parts in 2^15. */
  predicate Tight(power: nat, e: nat, val: nat, ex: nat)
  {
    Pow2(e) * val <= power * (0x8000 + ex)
  }

  /** What halving adds to the excess, and squaring. */
  function Halved(ex: nat): (r: nat)
    ensures ex <= r && (0x8000 + ex) * 0x1_0001 <= 0x1_0000 * (0x8000 + r)
  {
    ex + (0x8000 + ex) / 0x1_0000 + 1
  }

  function Squared(ex: nat): (r: nat)
    ensures (0x8000 + ex) * (0x8000 + ex) * 0x8001 <= 0x8000 * 0x8000 * (0x8000 + r)
  {
    var all := (0x8000 + ex) * (0x8000 + ex) * 0x8001;
    assert all >= 0x8000 * 0x8000 * 0x8000;
    all / 0x4000_0000 + 1 - 0x8000
  }

  function Excess(n: nat): nat
  {
    if n == 0 then 1 else Squared(Halved(Excess(n - 1)))
  }

  lemma TightHalved(power: nat, e: nat, val: nat, b: nat, ex: nat)
    requires Tight(power, e, val, ex) && b == val / 0x1_0000 <= 1
    ensures Tight(power, e + b, (val + b) / Pow2(b), Halved(ex))
  {
    hide Halved;
    assert Pow2(0) == 1 && Pow2(1) == 2 && Pow2(e + 1) == 2 * Pow2(e);
    hide Pow2;
    MulLe(power, 0x8000 + ex, 0x8000 + Halved(ex));
    if b == 1 {
      HalfTight(power, Pow2(e), val, ex, Halved(ex));
    }
  }

  lemma HalfTight(power: nat, p: nat, val: nat, ex: nat, r: nat)
    requires p * val <= power * (0x8000 + ex) && val >= 0x1_0000
    requires (0x8000 + ex) * 0x1_0001 <= 0x1_0000 * (0x8000 + r)
    ensures 2 * p * ((val + 1) / 2) <= power * (0x8000 + r)
  {
    HalfUp(p, val, (val + 1) / 2);
    MulLe(power, (0x8000 + ex) * 0x1_0001, 0x1_0000 * (0x8000 + r));
    MulShuffle(power, 0x1_0001, 0x8000 + ex);
    MulShuffle(power, 0x1_0000, 0x8000 + r);
    CancelHalf(2 * p * ((val + 1) / 2), p * val, power * (0x8000 + ex), power * (0x8000 + r));
  }

  lemma HalfUp(p: nat, val: nat, half: nat)
    requires val >= 0x1_0000 && 2 * half <= val + 1
    ensures 0x1_0000 * (2 * p * half) <= p * val * 0x1_0001
  {
    MulLe(p, 2 * half, val + 1);
    MulLe(p, 0x1_0000, val);
    assert p * (2 * half) == 2 * p * half && p * (val + 1) == p * val + p;
  }

  lemma CancelHalf(x: nat, y: nat, z: nat, w: nat)
    requires 0x1_0000 * x <= y * 0x1_0001 && y <= z && z * 0x1_0001 <= 0x1_0000 * w
    ensures x <= w
  {
  }

  lemma TightSquared(power: nat, e: nat, val: nat, ex: nat)
    requires Tight(power, e, val, ex) && val >= 0x8000
    ensures Tight(power * power, 2 * e, (val * val + 0x7FFF) / 0x8000, Squared(ex))
  {
    hide Squared, Pow2;
    var next, p, r := (val * val + 0x7FFF) / 0x8000, Pow2(e), Squared(ex);
    SquareMonotone(0x8000, val);
    SquareMonotone(p * val, power * (0x8000 + ex));
    SquareOfProduct(p, val);
    SquareOfProduct(power, 0x8000 + ex);
    Pow2Add(e, e);
    assert 0x8000 * 0x8000 * next <= val * val * 0x8001;
    MulLe(p * p, 0x8000 * 0x8000 * next, val * val * 0x8001);
    MulLe(power * power, (0x8000 + ex) * (0x8000 + ex) * 0x8001, 0x8000 * 0x8000 * (0x8000 + r));
    CancelSquare(p * p, next, val * val, power * power, (0x8000 + ex) * (0x8000 + ex), 0x8000 + r);
  }

  lemma CancelSquare(p: nat, next: nat, v: nat, q: nat, x: nat, r: nat)
    requires p * (0x8000 * 0x8000 * next) <= p * (v * 0x8001)
    requires p * v <= q * x && q * (x * 0x8001) <= q * (0x8000 * 0x8000 * r)
    ensures p * next <= q * r
  {
    MulShuffle(p, 0x8000 * 0x8000, next);
    MulShuffle(p, 0x8001, v);
    MulShuffle(q, 0x8001, x);
    MulShuffle(q, 0x8000 * 0x8000, r);
  }

  /** Halving the mantissa, rounded up, moves one bit into the exponent. */
  lemma HalveMantissa(power: nat, e: nat, val: nat, b: nat)
    requires Bounded(power, e, val) && b == val / 0x1_0000 <= 1
    ensures Bounded(power, e + b, (val + b) / Pow2(b))
  {
    if b == 1 {
      assert Pow2(1) == 2;
      var half := (val + 1) / 2;
      MulLe(Pow2(e), val, 2 * half);
      MulShuffle(Pow2(e), 2, half);
      MulAssoc(2, Pow2(e), half);
    } else {
      assert Pow2(0) == 1;
    }
  }

  lemma SquareOfProduct(a: nat, b: nat)
    ensures (a * b) * (a * b) == (a * a) * (b * b)
  {
  }

  /** Squaring the mantissa, rounded up, doubles the exponent. */
  lemma SquareMantissa(power: nat, e: nat, val: nat)
    requires Bounded(power, e, val)
    ensures Bounded(power * power, 2 * e, (val * val + 0x7FFF) / 0x8000)
  {
    var next := (val * val + 0x7FFF) / 0x8000;
    assert val * val <= 0x8000 * next;
    SquareMonotone(power * 0x8000, Pow2(e) * val);
    SquareOfProduct(power, 0x8000);
    SquareOfProduct(Pow2(e), val);
    Pow2Add(e, e);
    var p := Pow2(2 * e);
    MulLe(p, val * val, 0x8000 * next);
    MulShuffle(p, 0x8000, next);
    CancelScale(power * power, p * next);
  }

  lemma CancelScale(x: nat, y: nat)
    requires x * (0x8000 * 0x8000) <= 0x8000 * y
    ensures x * 0x8000 <= y
  {
  }

  /** The seventeen-bit range is closed under a turn of the loop. */
  lemma MantissaRange(val: nat)
    requires val <= 0x1FFFD
    ensures val / 0x1_0000 <= 1
    ensures var b := val / 0x1_0000;
      var half := (val + b) / Pow2(b);
      half <= 0xFFFF && half * half + 0x7FFF < 0x1_0000_0000 && (half * half + 0x7FFF) / 0x8000 <= 0x1FFFD
  {
    assert Pow2(0) == 1 && Pow2(1) == 2;
    var b := val / 0x1_0000;
    var half := (val + b) / Pow2(b);
    assert half <= 0xFFFF;
    SquareMonotone(half, 0xFFFF);
  }

  lemma RootOfBound(power: nat, e: nat)
    requires power * power <= Pow2(2 * e)
    ensures power <= Pow2(e)
  {
    hide Pow2;
    Pow2Add(e, e);
    RootMonotone(power, Pow2(e));
  }

  lemma RootMonotone(a: nat, b: nat)
    requires a * a <= b * b
    ensures a <= b
  {
    if a > b {
      MulLe(a, b + 1, a);
      MulLe(b, b, a);
    }
  }

  /** What the final rounding needs. */
  lemma FinalRounding(power: nat, e: nat, val: nat)
    requires Bounded(power * power, 2 * e, val) && val <= 0x1FFFD
    ensures power <= Pow2(e + if val > 0x8000 then 1 else 0)
  {
    if val > 0x8000 {
      assert Pow2(2 * e + 2) == 4 * Pow2(2 * e);
      MulLe(Pow2(2 * e), val, 4 * 0x8000);
      RootOfBound(power, e + 1);
    } else {
      MulLe(Pow2(2 * e), val, 0x8000);
      RootOfBound(power, e);
    }
  }

  lemma FourfoldPower(n: nat)
    ensures Pow2(2 * (n + 1)) == 4 * Pow2(2 * n)
  {
    assert Pow2(2 * n + 1) == 2 * Pow2(2 * n);
  }

  /** What the final rounding leaves: less than one more than the roundings before it. */
  lemma FinalExcess(power: nat, e: nat, val: nat, ex: nat, result: nat)
    requires Tight(power * power, 2 * e, val, ex) && val >= 0x8000 && result == e + if val > 0x8000 then 1 else 0
    ensures Close(power, result, ex)
  {
    var p := Pow2(2 * e);
    if val > 0x8000 {
      MulLe(p, 0x8001, val);
    } else if result > 0 {
      FourfoldPower(e - 1);
    }
  }

  /** The result is less than one too large, but for the excess: 2^(2 (result - 1)) < power^2 (1 + ex / 2^15). */
  predicate Close(power: nat, result: nat, ex: nat)
  {
    result > 0 ==> Pow2(2 * (result - 1)) * 0x8000 < power * power * (0x8000 + ex)
  }

  lemma ExactIsClose(power: nat, result: nat, ex: nat)
    requires power == Pow2(result)
    ensures Close(power, result, ex)
  {
    if result > 0 {
      Pow2Add(result, result);
      FourfoldPower(result - 1);
      MulLe(power * power, 0x8000, 0x8000 + ex);
    }
  }

  /** With four fractional bits the excess is below one part in two hundred. */
  lemma FourBits()
    ensures Excess(5) < 0x8000 / 200
  {
    assert Excess(0) == 1;
    ExcessStep(0, 2, 6);
    ExcessStep(1, 7, 16);
    ExcessStep(2, 17, 36);
    ExcessStep(3, 37, 76);
    ExcessStep(4, 77, 156);
  }

  lemma ExcessStep(n: nat, half: nat, next: nat)
    requires half == Halved(Excess(n)) && next == Squared(half)
    ensures Excess(n + 1) == next
  {
  }

  /** The mantissa the loop starts with is the value scaled to 16 bits, rounded up. */
  lemma FirstMantissa(v: nat)
    requires v > 0
    ensures Ilog(v) >= 1
    ensures 0x8000 <= Normalized(v, Ilog(v)) <= 0x1_0000
    ensures Bounded(v, Ilog(v) - 1, Normalized(v, Ilog(v))) && Tight(v, Ilog(v) - 1, Normalized(v, Ilog(v)), 1)
  {
    IlogBounds(v);
    if Ilog(v) > 16 {
      ScaledDown(v, Ilog(v));
    } else {
      ScaledUp(v, Ilog(v));
    }
  }

  lemma ScaledDown(v: nat, l: nat)
    requires l > 16 && Pow2(l - 1) <= v < Pow2(l)
    ensures 0x8000 <= (v - 1) / Pow2(l - 16) + 1 <= 0x1_0000
    ensures Bounded(v, l - 1, (v - 1) / Pow2(l - 16) + 1) && Tight(v, l - 1, (v - 1) / Pow2(l - 16) + 1, 1)
  {
    hide Pow2;
    Sixteen();
    var p := Pow2(l - 16);
    var q := (v - 1) / p;
    Pow2Add(l - 16, 16);
    QuotientBound(v, p, q, 0x1_0000);
    Pow2Add(l - 16, 15);
    MulShuffle(p, 0x8000, q + 1);
    MulAssoc(p, 0x8000, q + 1);
    QuotientTight(v, p, q);
  }

  lemma QuotientTight(v: nat, p: nat, q: nat)
    requires p > 0 && p * 0x8000 <= v && q == (v - 1) / p
    ensures 0x8000 <= q + 1 && p * 0x8000 * (q + 1) <= v * 0x8001
  {
    var r := (v - 1) % p;
    assert v - 1 == p * q + r;
    MulDistribute(p, q, 1);
    if q + 1 < 0x8000 {
      MulLe(p, q + 2, 0x8000);
      MulDistribute(p, q + 1, 1);
      assert false;
    }
    assert p * (q + 1) <= v + p;
    MulShuffle(p, 0x8000, q + 1);
    MulAssoc(p, 0x8000, q + 1);
  }

  lemma QuotientBound(v: nat, p: nat, q: nat, top: nat)
    requires p > 0 && v > 0 && v < p * top && q == (v - 1) / p
    ensures q < top && v <= p * (q + 1)
  {
    var r := (v - 1) % p;
    assert v - 1 == p * q + r;
    MulDistribute(p, q, 1);
    MulLt(p, q, top);
  }

  lemma ScaledUp(v: nat, l: nat)
    requires 1 <= l <= 16 && Pow2(l - 1) <= v < Pow2(l)
    ensures 0x8000 <= v * Pow2(16 - l) <= 0x1_0000
    ensures Bounded(v, l - 1, v * Pow2(16 - l)) && Tight(v, l - 1, v * Pow2(16 - l), 1)
  {
    hide Pow2;
    Sixteen();
    Pow2Add(l, 16 - l);
    Pow2Add(l - 1, 16 - l);
    MulLe(Pow2(16 - l), v, Pow2(l));
    MulLe(Pow2(16 - l), Pow2(l - 1), v);
    MulShuffle(Pow2(l - 1), v, Pow2(16 - l));
  }

  lemma Sixteen()
    ensures Pow2(16) == 0x1_0000 && Pow2(15) == 0x8000
  {
    ByteValues();
    Pow2Add(8, 8);
  }

  lemma {:induction false} PowersAreExact(m: nat, n: nat)
    ensures SquareUp(Pow2(m), n) == Pow2(m * Pow2(n))
  {
    if n == 0 {
      assert Pow2(0) == 1;
    } else {
      PowersAreExact(m, n - 1);
      Pow2Add(m * Pow2(n - 1), m * Pow2(n - 1));
      MulShuffle(m, 2, Pow2(n - 1));
    }
  }

  /**
    val^(2^frac) <= 2^result, exactly so for powers of two, and the result is less
    than one too large but for what rounding the mantissa adds.
   */
  method Log2(val0: nat, frac0: nat) returns (result: nat)
    requires 0 < val0 < 0x1_0000_0000
    ensures SquareUp(val0, frac0) <= Pow2(result)
    ensures IsPowerOfTwo(val0) ==> SquareUp(val0, frac0) == Pow2(result)
    ensures Close(SquareUp(val0, frac0), result, Excess(frac0 + 1))
  {
    hide SquareUp, Pow2, Bounded, Ilog, Normalized, Tight, Close, Excess;
    var val: nat, frac: nat := val0, frac0;
    FirstMantissa(val);
    var l: nat := Ilog(val);
    if val != Pow2(l - 1) {
      val := Normalized(val, l);
      ghost var e: nat := l - 1;
      l := (l - 1) * Pow2(frac);
      NoSquaring(val0);
      NoExcess();
      while frac > 0
        invariant frac <= frac0 && 0x8000 <= val <= 0x1FFFD && l == e * Pow2(frac)
        invariant Bounded(SquareUp(val0, frac0 - frac), e, val)
        invariant Tight(SquareUp(val0, frac0 - frac), e, val, Excess(frac0 - frac))
      {
        e, l, val := Squaring(e, l, val, val0, frac, frac0);
        frac := frac - 1;
      }
      e, l, val := LastSquaring(e, l, val, val0, frac0);
      FinalRounding(SquareUp(val0, frac0), e, val);
      result := l + if val > 0x8000 then 1 else 0;
      FinalExcess(SquareUp(val0, frac0), e, val, Excess(frac0 + 1), result);
    } else {
      PowersAreExact(l - 1, frac);
      result := (l - 1) * Pow2(frac);
      ExactIsClose(SquareUp(val0, frac0), result, Excess(frac0 + 1));
    }
  }

  /** The value scaled to 16 bits, rounded up. */
  function Normalized(v: nat, l: nat): nat
    requires v > 0
  {
    if l > 16 then Shr(v - 1, l - 16) + 1 else v * Pow2(16 - l)
  }

  lemma NoSquaring(v: nat)
    ensures SquareUp(v, 0) == v
  {
  }

  /** A turn of the loop that is not the last. */
  method Squaring(ghost e0: nat, l0: nat, val0: nat, ghost v: nat, frac: nat, ghost whole: nat)
    returns (ghost e: nat, l: nat, val: nat)
    requires 0 < frac <= whole && 0x8000 <= val0 <= 0x1FFFD && l0 == e0 * Pow2(frac)
    requires Bounded(SquareUp(v, whole - frac), e0, val0)
    requires Tight(SquareUp(v, whole - frac), e0, val0, Excess(whole - frac))
    ensures l == e * Pow2(frac - 1) && 0x8000 <= val <= 0x1FFFD
    ensures Bounded(SquareUp(v, whole - (frac - 1)), e, val)
    ensures Tight(SquareUp(v, whole - (frac - 1)), e, val, Excess(whole - (frac - 1)))
  {
    hide Bounded, Pow2, Tight, Halved, Squared;
    MantissaRange(val0);
    TurnTight(SquareUp(v, whole - frac), e0, val0, whole - frac);
    var b := val0 / 0x1_0000;
    l := l0 + b * Pow2(frac);
    HalveMantissa(SquareUp(v, whole - frac), e0, val0, b);
    val := (val0 + b) / Pow2(b);
    SquareMantissa(SquareUp(v, whole - frac), e0 + b, val);
    val := (val * val + 0x7FFF) / 0x8000;
    e := 2 * (e0 + b);
    DoubleExponent(e0 + b, frac);
    MulDistribute(Pow2(frac), e0, b);
  }

  lemma TurnTight(power: nat, e: nat, val: nat, n: nat)
    requires Tight(power, e, val, Excess(n)) && 0x8000 <= val <= 0x1FFFD
    ensures var b := val / 0x1_0000;
      var half := (val + b) / Pow2(b);
      && half >= 0x8000 && (half * half + 0x7FFF) / 0x8000 >= 0x8000
      && Tight(power * power, 2 * (e + b), (half * half + 0x7FFF) / 0x8000, Excess(n + 1))
  {
    assert Pow2(0) == 1 && Pow2(1) == 2;
    hide Pow2, Tight, Halved, Squared;
    var b := val / 0x1_0000;
    var half := (val + b) / Pow2(b);
    SquareMonotone(0x8000, half);
    TightHalved(power, e, val, b, Excess(n));
    TightSquared(power, e + b, half, Halved(Excess(n)));
  }

  lemma NoExcess()
    ensures Excess(0) == 1
  {
  }

  lemma DoubleExponent(e: nat, frac: nat)
    requires frac > 0
    ensures e * Pow2(frac) == 2 * e * Pow2(frac - 1)
  {
    MulShuffle(e, 2, Pow2(frac - 1));
    MulAssoc(2, e, Pow2(frac - 1));
  }

  /** The last turn, with no fractional bit left to place. */
  method LastSquaring(ghost e0: nat, l0: nat, val0: nat, ghost v: nat, ghost whole: nat)
    returns (ghost e: nat, l: nat, val: nat)
    requires 0x8000 <= val0 <= 0x1FFFD && l0 == e0 * Pow2(0)
    requires Bounded(SquareUp(v, whole), e0, val0) && Tight(SquareUp(v, whole), e0, val0, Excess(whole))
    ensures l == e && 0x8000 <= val <= 0x1FFFD
    ensures Bounded(SquareUp(v, whole) * SquareUp(v, whole), 2 * e, val)
    ensures Tight(SquareUp(v, whole) * SquareUp(v, whole), 2 * e, val, Excess(whole + 1))
  {
    hide Bounded, SquareUp, Tight, Halved, Squared;
    assert Pow2(0) == 1;
    hide Pow2;
    MantissaRange(val0);
    TurnTight(SquareUp(v, whole), e0, val0, whole);
    var b := val0 / 0x1_0000;
    l := l0 + b;
    HalveMantissa(SquareUp(v, whole), e0, val0, b);
    val := (val0 + b) / Pow2(b);
    SquareMantissa(SquareUp(v, whole), e0 + b, val);
    val := (val * val + 0x7FFF) / 0x8000;
    e := e0 + b;
  }
}
