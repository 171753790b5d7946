/**
  ec_tell_frac (celt/entcode.c): the bits used so far in eighths.  The table the
  source uses and the squaring loop it replaced count the same.
 */
module TellFrac {
  import opened Powers
  import opened RangeIntervals
  import opened RangeFinish

  /** r * r >> 15 */
  function Squared(r: nat): (q: nat)
    requires 0x8000 <= r < 0x1_0000
    ensures 0x8000 <= q < 0x2_0000
  {
    SquareInRange(r);
    r * r / 0x8000
  }

  /** The first `n` binary digits of the logarithm of r / 2^15, each found by squaring. */
  function LogDigits(r: nat, n: nat): (d: nat)
    requires 0x8000 <= r < 0x1_0000
    ensures d < Pow2(n)
    decreases n
  {
    if n == 0 then 0
    else
      var q := Squared(r);
      if q >= 0x1_0000 then Pow2(n - 1) + LogDigits(q / 2, n - 1) else LogDigits(q, n - 1)
  }

  lemma SquareInRange(r: nat)
    requires 0x8000 <= r < 0x1_0000
    ensures 0x8000 <= r * r / 0x8000 < 0x2_0000
  {
    SquareMonotone(0x8000, r);
    SquareMonotone(r, 0xFFFF);
  }

  lemma SquaredMonotone(r: nat, s: nat)
    requires 0x8000 <= r <= s < 0x1_0000
    ensures Squared(r) <= Squared(s)
  {
    SquareMonotone(r, s);
  }

  lemma {:induction false} DigitsMonotone(r: nat, s: nat, n: nat)
    requires 0x8000 <= r <= s < 0x1_0000
    ensures LogDigits(r, n) <= LogDigits(s, n)
    decreases n
  {
    hide Squared;
    if n > 0 {
      SquaredMonotone(r, s);
      var p, q := Squared(r), Squared(s);
      if q < 0x1_0000 {
        DigitsMonotone(p, q, n - 1);
      } else if p >= 0x1_0000 {
        DigitsMonotone(p / 2, q / 2, n - 1);
      }
    }
  }

  const Correction: seq<nat> := [35733, 38967, 42495, 46340, 50535, 55109, 60097, 65535]

  /** The eighth a mantissa falls in, by its leading digits and one comparison. */
  function Eighth(r: nat): nat
    requires 0x8000 <= r < 0x1_0000
  {
    var b := r / 0x1000 - 8;
    if r > Correction[b] then b + 1 else b
  }

  function Halved(q: nat): nat { if q >= 0x1_0000 then q / 2 else q }
  function Digit(q: nat): nat { if q >= 0x1_0000 then 1 else 0 }

  /** Three squarings, each given by its result. */
  lemma ThreeDigits(r: nat, p: nat, q: nat, t: nat)
    requires 0x8000 <= r < 0x1_0000 && p == r * r / 0x8000
    requires 0x8000 <= p < 0x2_0000 && q == Halved(p) * Halved(p) / 0x8000
    requires 0x8000 <= q < 0x2_0000 && t == Halved(q) * Halved(q) / 0x8000
    ensures LogDigits(r, 3) == 4 * Digit(p) + 2 * Digit(q) + Digit(t)
  {
    assert p == Squared(r) && q == Squared(Halved(p)) && t == Squared(Halved(q));
    hide Squared;
    PowersBelow();
    assert LogDigits(Halved(q), 1) == Digit(t);
    assert LogDigits(Halved(p), 2) == 2 * Digit(q) + LogDigits(Halved(q), 1);
  }

  lemma PowersBelow()
    ensures Pow2(0) == 1 && Pow2(1) == 2 && Pow2(2) == 4
  {
  }

  /** Each entry of the table is the last mantissa before the next eighth. */
  lemma LastMantissa(b: nat)
    requires b < 8
    ensures LogDigits(Correction[b], 3) == b
  {
    hide LogDigits;
    match b
    case 0 => ThreeDigits(35733, 38966, 46336, 65522);
    case 1 => ThreeDigits(38967, 46338, 65527, 131036);
    case 2 => ThreeDigits(42495, 55109, 92681, 65533);
    case 3 => ThreeDigits(46340, 65533, 131060, 131048);
    case 4 => ThreeDigits(50535, 77935, 46338, 65527);
    case 5 => ThreeDigits(55109, 92681, 65533, 131060);
    case 6 => ThreeDigits(60097, 110218, 92681, 65533);
    case _ => ThreeDigits(65535, 131068, 131064, 131056);
  }

  lemma NextMantissa(b: nat)
    requires b < 7
    ensures LogDigits(Correction[b] + 1, 3) == b + 1
  {
    hide LogDigits;
    match b
    case 0 => ThreeDigits(35734, 38968, 46341, 65536);
    case 1 => ThreeDigits(38968, 46341, 65536, 32768);
    case 2 => ThreeDigits(42496, 55112, 92692, 65550);
    case 3 => ThreeDigits(46341, 65536, 32768, 32768);
    case 4 => ThreeDigits(50536, 77938, 46343, 65541);
    case 5 => ThreeDigits(55110, 92685, 65538, 32770);
    case _ => ThreeDigits(60098, 110222, 92688, 65544);
  }

  /** The table gives the digits the loop finds, for every mantissa. */
  lemma EighthIsLog(r: nat)
    requires 0x8000 <= r < 0x1_0000
    ensures Eighth(r) == LogDigits(r, 3)
  {
    hide LogDigits;
    var b := r / 0x1000 - 8;
    LastMantissa(b);
    if r > Correction[b] {
      NextMantissa(b);
      DigitsMonotone(Correction[b] + 1, r, 3);
      LastMantissa(b + 1);
      DigitsMonotone(r, Correction[b + 1], 3);
    } else {
      DigitsMonotone(r, Correction[b], 3);
      if b > 0 {
        NextMantissa(b - 1);
        DigitsMonotone(Correction[b - 1] + 1, r, 3);
      }
    }
  }

  /** rng >> (l - 16): the range as a 16-bit mantissa. */
  function Mantissa(rng: nat): (r: nat)
    requires Normal(Interval(0, rng, 0))
    ensures 0x8000 <= r < 0x1_0000
  {
    MantissaBits(rng);
    Shr(rng, Ilog(rng) - 16)
  }

  lemma MantissaBits(rng: nat)
    requires Normal(Interval(0, rng, 0))
    ensures Ilog(rng) >= 24 && 0x8000 <= Shr(rng, Ilog(rng) - 16) < 0x1_0000
  {
    hide Pow2, Ilog;
    FinalMaskWidth(rng);
    IlogBounds(rng);
    WordValues();
    var n := Ilog(rng) - 16;
    HalfPower(16);
    Pow2Add(n, 16);
    Pow2Add(n, 15);
    QuotientAtLeast(rng, Pow2(n), Pow2(15));
    QuotientAtLeast(rng, Pow2(n), Pow2(16));
  }

  /** ec_tell_frac: never more than ec_tell, and less than a bit below it. */
  function TellEighths(nbitsTotal: nat, rng: nat): (t: int)
    requires Normal(Interval(0, rng, 0))
    ensures 8 * (Tell(nbitsTotal, rng) - 1) < t <= 8 * Tell(nbitsTotal, rng)
  {
    8 * nbitsTotal - (8 * Ilog(rng) + Eighth(Mantissa(rng)))
  }

  /** The loop the table replaced. */
  method TellByLoop(nbitsTotal: nat, rng: nat) returns (t: int)
    requires Normal(Interval(0, rng, 0))
    ensures t == TellEighths(nbitsTotal, rng)
  {
    hide Ilog, Eighth, Squared;
    var l, r, i := Ilog(rng), Mantissa(rng), 3;
    EighthIsLog(r);
    while i > 0
      invariant 0 <= i <= 3 && 0x8000 <= r < 0x1_0000
      invariant l * Pow2(i) + LogDigits(r, i) == Ilog(rng) * Pow2(3) + Eighth(Mantissa(rng))
    {
      HalfPower(i);
      r := Squared(r);
      var b := r / 0x1_0000;
      l := 2 * l + b;
      r := r / (1 + b);
      i := i - 1;
    }
    t := 8 * nbitsTotal - l;
  }
}
