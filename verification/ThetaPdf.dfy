/**
  The triangular probability of the band-splitting angle (celt/bands.c) and the
  exact integer square root its decoder inverts it with (celt/mathops.c).
 */
module ThetaPdf {
  import opened Powers

  lemma SquareStep(g: nat, b: nat)
    ensures (g + b) * (g + b) == g * g + (2 * g + b) * b
  {
  }

  /** What setting the digit `b` of the root `g` adds to its square. */
  function Trial(g: nat, b: nat): nat { (2 * g + b) * b }

  /** While the root and the digit above fit in 16 bits, the trial value fits in 32. */
  lemma TrialFits(g: nat, b: nat)
    requires b > 0 && g + 2 * b <= 0x1_0000
    ensures Trial(g, b) < 0x1_0000_0000
  {
    SquareStep(g, b);
    SquareMonotone(g + b, 0xFFFF);
  }

  /** isqrt32: the exact floor of the square root, one binary digit at a time, in 32-bit arithmetic. */
  method Isqrt32(val0: nat) returns (g: nat)
    requires 0 < val0 < 0x1_0000_0000
    ensures g * g <= val0 < (g + 1) * (g + 1) && g < 0x1_0000
  {
    hide Pow2, Ilog;
    IlogBounds(val0);
    var val: nat := val0;
    var bshift: nat := (Ilog(val) - 1) / 2;
    FirstDigit(val0, bshift);
    DigitsFit(val0, bshift);
    g := 0;
    var b: nat := Pow2(bshift);
    g, val := RootDigit(val0, g, val, bshift);
    while bshift > 0
      invariant b == Pow2(bshift) && b > 0 && g + b <= 0x1_0000
      invariant g * g <= val0 && val == val0 - g * g && val0 < (g + b) * (g + b)
    {
      HalfPower(bshift);
      b := b / 2;
      bshift := bshift - 1;
      g, val := RootDigit(val0, g, val, bshift);
    }
    PowZero();
  }

  lemma PowZero()
    ensures Pow2(0) == 1
  {
  }

  /** The root has at most half as many digits as the value. */
  lemma FirstDigit(v: nat, n: nat)
    requires v > 0 && n == (Ilog(v) - 1) / 2
    ensures v < (2 * Pow2(n)) * (2 * Pow2(n))
  {
    IlogBounds(v);
    Pow2Add(n + 1, n + 1);
    Pow2Monotone(Ilog(v), 2 * n + 2);
  }

  lemma DigitsFit(v: nat, n: nat)
    requires 0 < v < 0x1_0000_0000 && n == (Ilog(v) - 1) / 2
    ensures 2 * Pow2(n) <= 0x1_0000
  {
    hide Pow2, Ilog;
    IlogBounds(v);
    WordValues();
    if Ilog(v) > 32 {
      Pow2Monotone(32, Ilog(v) - 1);
    }
    HalfPower(n + 1);
    Pow2Monotone(n + 1, 16);
  }

  /** One turn of the loop decides the digit 2^n. */
  method RootDigit(v: nat, g0: nat, val0: nat, n: nat) returns (g: nat, val: nat)
    requires g0 * g0 <= v && val0 == v - g0 * g0
    requires v < (g0 + 2 * Pow2(n)) * (g0 + 2 * Pow2(n)) && g0 + 2 * Pow2(n) <= 0x1_0000
    ensures g * g <= v && val == v - g * g && g + Pow2(n) <= 0x1_0000
    ensures v < (g + Pow2(n)) * (g + Pow2(n))
  {
    var b := Pow2(n);
    hide Pow2;
    g, val := g0, val0;
    SquareStep(g, b);
    TrialFits(g, b);
    var t := Trial(g, b);
    assert t < 0x1_0000_0000;
    if t <= val {
      g := g + b;
      val := val - t;
    }
  }

  /** The weight of angle `x` out of 0 .. qn: rising to the middle, then falling. */
  function Fs(qn: nat, x: nat): nat
    requires x <= qn
  {
    if x <= qn / 2 then x + 1 else qn + 1 - x
  }

  /** Where the weights of angle `x` start, in the closed form both sides use. */
  function Fl(qn: nat, x: nat): int
    requires x <= qn
  {
    if x <= qn / 2 then x * (x + 1) / 2
    else Total(qn) - (qn + 1 - x) * (qn + 2 - x) / 2
  }

  function Total(qn: nat): nat
  {
    (qn / 2 + 1) * (qn / 2 + 1)
  }

  /** x (x + 1) / 2 */
  function Triangle(x: nat): (t: nat)
    ensures 2 * t == x * (x + 1)
  {
    EvenProduct(x);
    x * (x + 1) / 2
  }

  lemma {:induction false} EvenProduct(x: nat)
    ensures x * (x + 1) % 2 == 0
  {
    if x > 0 {
      EvenProduct(x - 1);
      assert x * (x + 1) == (x - 1) * x + 2 * x;
    }
  }

  lemma TriangleStep(x: nat)
    ensures Triangle(x + 1) == Triangle(x) + x + 1
  {
    assert (x + 1) * (x + 2) == x * (x + 1) + 2 * (x + 1);
  }

  /** The closed form in triangular numbers. */
  lemma FlIs(qn: nat, x: nat)
    requires x <= qn && qn % 2 == 0
    ensures Total(qn) == Triangle(qn / 2) + Triangle(qn / 2 + 1)
    ensures x <= qn / 2 ==> Fl(qn, x) == Triangle(x)
    ensures x >= qn / 2 ==> Fl(qn, x) == Total(qn) - Triangle(qn + 1 - x)
  {
    var h := qn / 2;
    TriangleStep(h);
    assert (h + 1) * (h + 1) == h * (h + 1) + (h + 1);
  }

  /** The weights tile [0, (qn/2 + 1)^2) without gap or overlap. */
  lemma WeightsTile(qn: nat, x: nat)
    requires x <= qn && qn % 2 == 0
    ensures Fl(qn, 0) == 0
    ensures x < qn ==> Fl(qn, x + 1) == Fl(qn, x) + Fs(qn, x)
    ensures x == qn ==> Fl(qn, x) + Fs(qn, x) == Total(qn)
  {
    hide Fl, Triangle;
    FlIs(qn, 0);
    FlIs(qn, x);
    TriangleZero();
    if x < qn {
      FlIs(qn, x + 1);
    }
    TriangleStep(x);
    TriangleStep(qn - x);
  }

  lemma TriangleZero()
    ensures Triangle(0) == 0
  {
  }

  lemma {:induction false} WeightsOrdered(qn: nat, x: nat, y: nat)
    requires x < y <= qn && qn % 2 == 0
    ensures Fl(qn, x) + Fs(qn, x) <= Fl(qn, y)
    decreases y
  {
    hide Fl;
    WeightsTile(qn, y - 1);
    if x < y - 1 {
      WeightsOrdered(qn, x, y - 1);
    }
  }

  /** The angle a frequency belongs to. */
  predicate Owns(qn: nat, x: nat, fm: nat)
  {
    x <= qn && Fl(qn, x) <= fm < Fl(qn, x) + Fs(qn, x)
  }

  lemma OwnerUnique(qn: nat, x: nat, y: nat, fm: nat)
    requires qn % 2 == 0 && Owns(qn, x, fm) && Owns(qn, y, fm)
    ensures x == y
  {
    hide Fl;
    if x < y {
      WeightsOrdered(qn, x, y);
    } else if y < x {
      WeightsOrdered(qn, y, x);
    }
  }

  /** Inverting x (x + 1) / 2 with an exact square root of 8 fm + 1. */
  lemma RootOfTriangle(fm: nat, s: nat)
    requires s * s <= 8 * fm + 1 < (s + 1) * (s + 1)
    ensures s >= 1
    ensures Triangle((s - 1) / 2) <= fm < Triangle((s - 1) / 2 + 1)
    ensures (s + 1) / 2 >= 1 && Triangle((s + 1) / 2 - 1) <= fm < Triangle((s + 1) / 2)
  {
    if s == 0 {
      assert false;
    }
    var x := (s - 1) / 2;
    OddSquares(x, s, fm);
    assert (s + 1) / 2 == x + 1;
  }

  lemma OddSquares(x: nat, s: nat, fm: nat)
    requires s >= 1 && x == (s - 1) / 2
    requires s * s <= 8 * fm + 1 < (s + 1) * (s + 1)
    ensures Triangle(x) <= fm < Triangle(x + 1)
  {
    SquareMonotone(2 * x + 1, s);
    SquareMonotone(s + 1, 2 * x + 3);
    OddSquare(x);
    OddSquare(x + 1);
  }

  lemma OddSquare(x: nat)
    ensures (2 * x + 1) * (2 * x + 1) == 8 * Triangle(x) + 1
  {
    assert (2 * x + 1) * (2 * x + 1) == 4 * (x * (x + 1)) + 1;
  }

  lemma {:induction false} TriangleMonotone(x: nat, y: nat)
    requires x <= y
    ensures Triangle(x) <= Triangle(y)
    decreases y
  {
    if x < y {
      TriangleStep(y - 1);
      TriangleMonotone(x, y - 1);
    }
  }

  /**
    The decoder's formulas: for every frequency below the total, the square root
    finds the one angle that owns it, with the fl and fs the encoder used.
   */
  method DecodeAngle(qn: nat, fm: nat) returns (itheta: nat, fl: nat, fs: nat)
    requires qn % 2 == 0 && 0 < qn <= 256 && fm < Total(qn)
    ensures Owns(qn, itheta, fm)
    ensures fl == Fl(qn, itheta) && fs == Fs(qn, itheta)
  {
    hide Fl, Fs, Owns, Total;
    var h, ft := qn / 2, Total(qn);
    TotalSmall(qn);
    if fm < h * (h + 1) / 2 {
      var s := Isqrt32(8 * fm + 1);
      itheta := (s - 1) / 2;
      LowAngle(qn, fm, s);
      fs := itheta + 1;
      fl := itheta * (itheta + 1) / 2;
    } else {
      var s := Isqrt32(8 * (ft - fm - 1) + 1);
      HighAngle(qn, fm, s);
      itheta := (2 * (qn + 1) - s) / 2;
      fs := qn + 1 - itheta;
      fl := ft - (qn + 1 - itheta) * (qn + 2 - itheta) / 2;
    }
  }

  lemma TotalSmall(qn: nat)
    requires qn <= 256
    ensures Total(qn) <= 16641
  {
    SquareMonotone(qn / 2 + 1, 129);
  }

  lemma LowAngle(qn: nat, fm: nat, s: nat)
    requires qn % 2 == 0 && fm < qn / 2 * (qn / 2 + 1) / 2
    requires s * s <= 8 * fm + 1 < (s + 1) * (s + 1)
    ensures s >= 1 && (s - 1) / 2 < qn / 2 && Owns(qn, (s - 1) / 2, fm)
    ensures var x := (s - 1) / 2; Fs(qn, x) == x + 1 && Fl(qn, x) == x * (x + 1) / 2 >= 0
  {
    RootOfTriangle(fm, s);
    var h, x := qn / 2, (s - 1) / 2;
    assert Triangle(h) == h * (h + 1) / 2;
    if x >= h {
      TriangleMonotone(h, x);
    }
    hide Fl, Triangle;
    FlIs(qn, x);
    TriangleStep(x);
  }

  lemma HighAngle(qn: nat, fm: nat, s: nat)
    requires qn % 2 == 0 && qn / 2 * (qn / 2 + 1) / 2 <= fm < Total(qn)
    requires var r := Total(qn) - fm - 1; s * s <= 8 * r + 1 < (s + 1) * (s + 1)
    ensures 0 <= 2 * (qn + 1) - s
    ensures (2 * (qn + 1) - s) / 2 <= qn
    ensures var x := (2 * (qn + 1) - s) / 2;
      && qn / 2 <= x && Owns(qn, x, fm)
      && Fs(qn, x) == qn + 1 - x
      && Fl(qn, x) == Total(qn) - (qn + 1 - x) * (qn + 2 - x) / 2 >= 0
  {
    var r, h := Total(qn) - fm - 1, qn / 2;
    RootOfTriangle(r, s);
    var y := (s + 1) / 2;
    assert Triangle(h) == h * (h + 1) / 2;
    FlIs(qn, h);
    if y > h + 1 {
      TriangleMonotone(h + 1, y - 1);
    }
    var x := qn + 1 - y;
    assert x == (2 * (qn + 1) - s) / 2;
    FlIs(qn, x);
    assert Triangle(qn + 1 - x) == (qn + 1 - x) * (qn + 2 - x) / 2;
    TriangleMonotone(y, h + 1);
    hide Fl, Triangle;
    TriangleStep(y - 1);
  }
}
