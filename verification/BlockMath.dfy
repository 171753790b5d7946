/**
  Sixteen-byte blocks as numbers: exclusive or, shifts across bytes and doubling
  in GF(2^128) (lib/mumble/ocb_aes.c, utility functions).
 */
module BlockMath {
  import opened Powers
  import opened ByteStreams

  /** a ^ b */
  function Xor(a: nat, b: nat): nat
  {
    if a == 0 && b == 0 then 0 else 2 * Xor(a / 2, b / 2) + (a % 2 + b % 2) % 2
  }

  lemma XorStep(a: nat, b: nat)
    ensures Xor(a, b) == 2 * Xor(a / 2, b / 2) + (a % 2 + b % 2) % 2
    ensures Xor(a, b) / 2 == Xor(a / 2, b / 2) && Xor(a, b) % 2 == (a % 2 + b % 2) % 2
  {
  }

  lemma {:induction false} XorCommutes(a: nat, b: nat)
    ensures Xor(a, b) == Xor(b, a)
  {
    if a != 0 || b != 0 {
      XorCommutes(a / 2, b / 2);
    }
  }

  lemma {:induction false} XorCancels(a: nat, b: nat)
    ensures Xor(Xor(a, b), b) == a
    decreases a + b
  {
    hide Xor;
    if a != 0 || b != 0 {
      XorCancels(a / 2, b / 2);
      XorStep(a, b);
      XorStep(Xor(a, b), b);
      BitCancels(a % 2, b % 2);
      FromHalves(a);
    } else {
      XorZero(0);
    }
  }

  lemma BitCancels(a: nat, b: nat)
    requires a < 2 && b < 2
    ensures ((a + b) % 2 + b) % 2 == a
  {
  }

  lemma FromHalves(a: nat)
    ensures a == 2 * (a / 2) + a % 2
  {
  }

  lemma {:induction false} XorZero(a: nat)
    ensures Xor(a, 0) == a && Xor(a, a) == 0
  {
    if a != 0 {
      XorZero(a / 2);
    }
  }

  lemma {:induction false} XorFits(a: nat, b: nat, n: nat)
    requires a < Pow2(n) && b < Pow2(n)
    ensures Xor(a, b) < Pow2(n)
  {
    if n > 0 {
      XorFits(a / 2, b / 2, n - 1);
    }
  }

  /** Exclusive or works on high and low parts separately. */
  lemma {:induction false} XorParts(h: nat, l: nat, k: nat, c: nat, n: nat)
    requires l < Pow2(n) && c < Pow2(n)
    ensures Xor(Pow2(n) * h + l, Pow2(n) * k + c) == Pow2(n) * Xor(h, k) + Xor(l, c)
    decreases n
  {
    hide Xor;
    if n == 0 {
      XorZero(0);
    } else {
      var p := Pow2(n - 1);
      Halve(p, h, l);
      Halve(p, k, c);
      XorParts(h, l / 2, k, c / 2, n - 1);
      XorStep(Pow2(n) * h + l, Pow2(n) * k + c);
      XorStep(l, c);
      MulAssoc(2, p, Xor(h, k));
    }
  }

  lemma Halve(p: nat, h: nat, l: nat)
    ensures 2 * p * h + l >= 0
    ensures (2 * p * h + l) / 2 == p * h + l / 2 && (2 * p * h + l) % 2 == l % 2
  {
    MulAssoc(2, p, h);
    NatMul(p, h);
  }

  lemma NatMul(a: nat, b: nat)
    ensures a * b >= 0
  {
  }

  function XorByte(a: byte, b: byte): (r: byte)
  {
    ByteFits(a, b);
    Xor(a, b)
  }

  lemma XorByteCancels(a: byte, b: byte)
    ensures XorByte(XorByte(a, b), b) == a && XorByte(a, b) == XorByte(b, a)
  {
    XorCancels(a, b);
    XorCommutes(a, b);
  }

  lemma ByteFits(a: byte, b: byte)
    ensures Xor(a, b) < 256
  {
    ByteValues();
    XorFits(a, b, 8);
  }

  /** xor_block_ex */
  function XorBlock(a: seq<byte>, b: seq<byte>): (r: seq<byte>)
    requires |a| == |b|
    ensures |r| == |a|
  {
    seq(|a|, i requires 0 <= i < |a| => XorByte(a[i], b[i]))
  }

  lemma XorBlockCancels(a: seq<byte>, b: seq<byte>)
    requires |a| == |b|
    ensures XorBlock(XorBlock(a, b), b) == a && XorBlock(a, b) == XorBlock(b, a)
  {
    hide XorByte;
    forall i | 0 <= i < |a| ensures XorByte(XorByte(a[i], b[i]), b[i]) == a[i] && XorByte(a[i], b[i]) == XorByte(b[i], a[i]) {
      XorByteCancels(a[i], b[i]);
    }
  }

  /** The bits of `x` that stay in its byte when it moves up `r` places, and those that go on to the next. */
  function Staying(x: byte, r: nat): nat
    requires r < 8
  {
    x * Pow2(r) % 256
  }

  function Leaving(x: byte, r: nat): nat
    requires r < 8
  {
    QuotientNat(x, Pow2(8 - r));
    x / Pow2(8 - r)
  }

  /** One byte of left_shift: `x` moved up, filled from `y`. */
  function ShiftByte(x: byte, y: byte, r: nat): (b: byte)
    requires r < 8
  {
    ShiftByteFits(x, y, r);
    Staying(x, r) + Leaving(y, r)
  }

  /** The two parts have no bit in common, so adding them is the same as or-ing them. */
  lemma ShiftByteFits(x: byte, y: byte, r: nat)
    requires r < 8
    ensures Pow2(r) * Pow2(8 - r) == 256
    ensures Staying(x, r) == Pow2(r) * (x % Pow2(8 - r)) && Leaving(y, r) < Pow2(r)
    ensures 0 <= Staying(x, r) + Leaving(y, r) < 256
    ensures x * Pow2(r) == Leaving(x, r) * 256 + Staying(x, r)
  {
    hide Pow2;
    ByteValues();
    Pow2Add(r, 8 - r);
    ShiftParts(x, y, Pow2(r), Pow2(8 - r));
  }

  lemma ShiftParts(x: byte, y: byte, p: nat, q: nat)
    requires p > 0 && q > 0 && p * q == 256
    ensures x * p % 256 == p * (x % q) && y / q < p
    ensures p * (x % q) + y / q < 256
    ensures x * p == x / q * 256 + x * p % 256
  {
    var d, m := x / q, x % q;
    assert x == q * d + m;
    MulLe(p, m, q - 1);
    MulDistribute(p, q, -1);
    assert x * p == d * 256 + p * m by {
      assert x * p == (q * d + m) * p;
      assert (q * d + m) * p == q * d * p + m * p;
      assert q * d * p == d * (p * q);
    }
    assert 0 <= p * m < 256;
    DivModUnique(x * p, 256, d, p * m);
    assert y == q * (y / q) + y % q;
    if y / q >= p {
      MulLe(q, p, y / q);
    }
  }

  function After(s: seq<byte>, i: nat): byte
  {
    if i < |s| then s[i] else 0
  }

  /** left_shift by fewer than eight bits. */
  function BitShift(s: seq<byte>, r: nat): (t: seq<byte>)
    requires r < 8
    ensures |t| == |s|
  {
    seq(|s|, i requires 0 <= i < |s| => ShiftByte(s[i], After(s, i + 1), r))
  }

  /** left_shift by whole bytes. */
  function ByteShift(s: seq<byte>, q: nat): (t: seq<byte>)
    ensures |t| == |s|
  {
    if q <= |s| then s[q..] + Zeros(q) else Zeros(|s|)
  }

  /** left_shift */
  function LeftShift(s: seq<byte>, bits: nat): (t: seq<byte>)
    ensures |t| == |s|
  {
    BitShift(ByteShift(s, bits / 8), bits % 8)
  }

  lemma {:induction false} BigSplit(a: seq<byte>, b: seq<byte>)
    ensures Big(a + b) == Big(a) * Pow256(|b|) + Big(b)
  {
    if b == [] {
      assert a + b == a;
    } else {
      var c := b[..|b| - 1];
      BigSplit(a, c);
      assert (a + b)[..|a + b| - 1] == a + c;
      Pow256Step(|c|);
      MulAssoc(Big(a), Pow256(|c|), 256);
      assert Big(a) * Pow256(|b|) == Big(a) * Pow256(|c|) * 256;
    }
  }

  lemma {:induction false} BigBound(s: seq<byte>)
    ensures Big(s) < Pow256(|s|)
  {
    if s != [] {
      BigBound(s[..|s| - 1]);
      MulLe(256, Big(s[..|s| - 1]) + 1, Pow256(|s| - 1));
    }
  }

  lemma {:induction false} BigZeros(n: nat)
    ensures Big(Zeros(n)) == 0
  {
    if n > 0 {
      BigZeros(n - 1);
      assert Zeros(n)[..n - 1] == Zeros(n - 1);
    }
  }

  /** Shifting bits multiplies by a power of two; what falls off the top is the high bits of the first byte. */
  lemma {:induction false} BitShiftValue(s: seq<byte>, r: nat)
    requires r < 8
    ensures Big(s) * Pow2(r) == Leaving(After(s, 0), r) * Pow256(|s|) + Big(BitShift(s, r))
    decreases |s|
  {
    hide Pow2, Pow256, Big, ShiftByte, BitShift, Leaving, Staying;
    BitShiftFront(s, r);
    if s == [] {
      NoBytes();
      ZeroLeaves(r);
    } else {
      BitShiftValue(s[1..], r);
      BitShiftFirst(s[0], s[1..], r);
      assert s == [s[0]] + s[1..];
    }
  }

  lemma ZeroLeaves(r: nat)
    requires r < 8
    ensures Leaving(0, r) == 0 && Staying(0, r) == 0
  {
    hide Pow2;
    DivModUnique(0, Pow2(8 - r), 0, 0);
  }

  /** The value of a shift, one byte further to the left. */
  lemma BitShiftFirst(x: byte, rest: seq<byte>, r: nat)
    requires r < 8
    requires Big(rest) * Pow2(r) == Leaving(After(rest, 0), r) * Pow256(|rest|) + Big(BitShift(rest, r))
    ensures Big([x] + rest) * Pow2(r)
         == Leaving(x, r) * Pow256(|rest| + 1) + Big([ShiftByte(x, After(rest, 0), r)] + BitShift(rest, r))
  {
    hide Pow2, Pow256, Big, ShiftByte, BitShift, Leaving, Staying;
    var y := After(rest, 0);
    ShiftByteFits(x, y, r);
    BigSplit([x], rest);
    BigSplit([ShiftByte(x, y, r)], BitShift(rest, r));
    BigOne(x);
    BigOne(ShiftByte(x, y, r));
    Pow256Step(|rest|);
    ShiftByteIs(x, y, r);
    ShiftSum(x, Pow256(|rest|), Big(rest), Pow2(r), Leaving(x, r), Staying(x, r), Leaving(y, r), Big(BitShift(rest, r)));
  }

  lemma BitShiftFront(s: seq<byte>, r: nat)
    requires r < 8
    ensures s == [] ==> BitShift(s, r) == []
    ensures s != [] ==> BitShift(s, r) == [ShiftByte(s[0], After(s, 1), r)] + BitShift(s[1..], r)
  {
    hide ShiftByte;
  }

  lemma NoBytes()
    ensures Big([]) == 0
  {
  }

  lemma ShiftByteIs(x: byte, y: byte, r: nat)
    requires r < 8
    ensures ShiftByte(x, y, r) == Staying(x, r) + Leaving(y, r)
  {
  }

  lemma BigOne(x: byte)
    ensures Big([x]) == x
  {
    assert [x][..0] == [];
  }

  lemma ShiftSum(x: nat, p: nat, v: nat, m: nat, top: nat, low: nat, carry: nat, w: nat)
    requires x * m == top * 256 + low && v * m == carry * p + w
    ensures (x * p + v) * m == top * (256 * p) + ((low + carry) * p + w)
  {
    assert (x * p + v) * m == x * p * m + v * m;
    assert x * p * m == (x * m) * p;
    assert (top * 256 + low) * p == top * (256 * p) + low * p;
    assert (low + carry) * p == low * p + carry * p;
  }

  lemma ByteShiftValue(s: seq<byte>, q: nat)
    ensures Big(ByteShift(s, q)) == Big(s) * Pow256(q) % Pow256(|s|)
  {
    hide Pow256, Big;
    var n := |s|;
    BigZeros(if q <= n then q else n);
    BigBound(ByteShift(s, q));
    if q <= n {
      BigSplit(s[..q], s[q..]);
      assert s == s[..q] + s[q..];
      BigSplit(s[q..], Zeros(q));
      Pow256Add(n - q, q);
      ShiftedOut(Big(s), Big(ByteShift(s, q)), Big(s[..q]), Big(s[q..]), Pow256(n - q), Pow256(q), Pow256(n));
    } else {
      Pow256Add(n, q - n);
      AllOut(Big(s), Pow256(n), Pow256(q - n), Pow256(q));
    }
  }

  lemma AllOut(v: nat, m: nat, k: nat, p: nat)
    requires m > 0 && p == m * k
    ensures v * p % m == 0
  {
    MulShuffle(v, m, k);
    DivAddMultiple(0, m, v * k);
  }

  lemma ShiftedOut(v: nat, t: nat, a: nat, b: nat, u: nat, p: nat, m: nat)
    requires m == u * p && v == a * u + b && t == b * p && t < m
    ensures t == v * p % m
  {
    assert v * p == a * m + t by {
      assert (a * u + b) * p == a * u * p + b * p;
      MulAssoc(a, u, p);
    }
    DivModUnique(v * p, m, a, t);
  }

  /** left_shift is a shift of the whole number, what passes the top being lost. */
  lemma LeftShiftValue(s: seq<byte>, bits: nat)
    ensures Big(LeftShift(s, bits)) == Big(s) * Pow2(bits) % Pow256(|s|)
  {
    hide Pow2, Pow256, Big, BitShift, ByteShift;
    var q, r := bits / 8, bits % 8;
    var t := ByteShift(s, q);
    ByteShiftValue(s, q);
    BitShiftValue(t, r);
    BigBound(LeftShift(s, bits));
    Pow2Add(8 * q, r);
    Pow256IsPow2(q);
    TwoShifts(Big(s), Big(t), Big(LeftShift(s, bits)), Leaving(After(t, 0), r), Pow256(q), Pow2(r), Pow256(|s|), Pow2(bits));
  }

  lemma TwoShifts(v: nat, t: nat, w: nat, top: nat, p: nat, r: nat, m: nat, pr: nat)
    requires m > 0 && pr == p * r && t == v * p % m && t * r == top * m + w && w < m
    ensures w == v * pr % m
  {
    var d := v * p / m;
    Regrouped(v, p, r, m, d, t);
    MulAssoc(v, p, r);
    assert v * p == m * d + t;
    DivModUnique(v * pr, m, d * r + top, w);
  }

  lemma Regrouped(v: nat, p: nat, r: nat, m: nat, d: nat, t: nat)
    requires v * p == m * d + t
    ensures v * p * r == (d * r) * m + t * r
  {
    assert (m * d + t) * r == m * d * r + t * r;
    MulAssoc(m, d, r);
  }

  /** double_block */
  function Double(s: seq<byte>): (t: seq<byte>)
    requires |s| == 16
    ensures |t| == 16
  {
    var t := LeftShift(s, 1);
    if s[0] >= 128 then t[15 := XorByte(t[15], 0x87)] else t
  }

  /** triple_block */
  function Triple(s: seq<byte>): (t: seq<byte>)
    requires |s| == 16
    ensures |t| == 16
  {
    XorBlock(s, Double(s))
  }

  /** Multiplication by x of polynomials over GF(2) modulo x^128 + x^7 + x^2 + x + 1. */
  function TimesX(v: nat): nat
  {
    if 2 * v < Pow2(128) then 2 * v else Xor(2 * v, Pow2(128) + 0x87)
  }

  lemma DoubleIsTimesX(s: seq<byte>)
    requires |s| == 16
    ensures Big(Double(s)) == TimesX(Big(s)) < Pow2(128)
  {
    hide Pow2, Pow256, LeftShift, Big, Xor;
    var v, m, t := Big(s), Pow2(128), LeftShift(s, 1);
    Pow256IsPow2(16);
    LeftShiftValue(s, 1);
    ByteValues();
    TopBit(s);
    BigBound(s);
    BigBound(Double(s));
    if s[0] < 128 {
      DivModUnique(2 * v, m, 0, 2 * v);
    } else {
      DivModUnique(2 * v, m, 1, 2 * v - m);
      LastByte(t, 0x87);
      LowConstant();
      XorParts(1, 2 * v - m, 1, 0x87, 128);
      XorZero(1);
    }
  }

  lemma LowConstant()
    ensures 0x87 < Pow2(128)
  {
    hide Pow2;
    ByteValues();
    Pow2Monotone(8, 128);
  }

  /** The top bit of the first byte says whether doubling overflows. */
  lemma TopBit(s: seq<byte>)
    requires |s| == 16
    ensures s[0] >= 128 <==> 2 * Big(s) >= Pow2(128)
  {
    hide Pow2, Pow256, Big;
    assert s == [s[0]] + s[1..];
    BigSplit([s[0]], s[1..]);
    BigOne(s[0]);
    BigBound(s[1..]);
    Pow256Step(15);
    Pow256IsPow2(16);
    FirstDigit(s[0], Pow256(15), Big(s[1..]));
  }

  lemma FirstDigit(x: nat, p: nat, l: nat)
    requires l < p
    ensures x >= 128 <==> 2 * (x * p + l) >= 256 * p
  {
    if x >= 128 {
      MulLe(p, 128, x);
    } else {
      MulLe(p, x, 127);
    }
  }

  /** Exclusive or into the last byte is exclusive or into the number. */
  lemma LastByte(t: seq<byte>, c: byte)
    requires t != []
    ensures Big(t[|t| - 1 := XorByte(t[|t| - 1], c)]) == Xor(Big(t), c)
  {
    hide Pow2, Xor;
    var n := |t| - 1;
    var u := t[n := XorByte(t[n], c)];
    assert u[..n] == t[..n];
    ByteValues();
    XorParts(Big(t[..n]), t[n], 0, c, 8);
    XorZero(Big(t[..n]));
  }
}
