/**
  The frequency slots behind each kind of symbol the coder offers: totals that
  are powers of two, single bits, inverse cumulative tables, uniform integers.
 */
module RangeModels {
  import opened Powers
  import opened ByteStreams
  import opened RangeIntervals

  lemma CodePowers()
    ensures Pow2(23) == CODE_BOT && Pow2(31) == CODE_TOP && Pow2(32) == 0x1_0000_0000
  {
    Pow2Add(8, 8);
    assert Pow2(8) == 256;
    Pow2Add(16, 7);
    assert Pow2(7) == 128;
    Pow2Add(23, 8);
  }

  lemma SmallPower(bits: nat)
    requires bits <= 23
    ensures Pow2(bits) <= CODE_BOT
  {
    Pow2Monotone(bits, 23);
    CodePowers();
  }

  function BinSlot(fl: nat, fh: nat, bits: nat): (k: Slot)
    requires bits <= 23 && fl < fh <= Pow2(bits)
    ensures SlotOk(k)
  {
    SmallPower(bits);
    Slot(fl, fh, Pow2(bits))
  }

  /** A bit that is set with probability 2^-logp. */
  function BitSlot(bit: bool, logp: nat): (k: Slot)
    requires 1 <= logp <= 23
    ensures SlotOk(k)
  {
    SmallPower(logp);
    if bit then Slot(Pow2(logp) - 1, Pow2(logp), Pow2(logp)) else Slot(0, Pow2(logp) - 1, Pow2(logp))
  }

  /** An inverse cumulative table: non-increasing, below 2^ftb, ending in zero. */
  predicate IcdfOk(icdf: seq<byte>, ftb: nat)
  {
    && ftb <= 23
    && |icdf| > 0 && icdf[0] < Pow2(ftb) && icdf[|icdf| - 1] == 0
    && forall i, j :: 0 <= i <= j < |icdf| ==> icdf[i] >= icdf[j]
  }

  predicate IcdfCodable(icdf: seq<byte>, ftb: nat, k: nat)
  {
    IcdfOk(icdf, ftb) && k < |icdf| && (k > 0 ==> icdf[k - 1] > icdf[k])
  }

  function IcdfSlot(icdf: seq<byte>, ftb: nat, k: nat): (slot: Slot)
    requires IcdfCodable(icdf, ftb, k)
    ensures SlotOk(slot)
  {
    SmallPower(ftb);
    var t := Pow2(ftb);
    assert icdf[0] >= icdf[k] && (k > 0 ==> icdf[0] >= icdf[k - 1]);
    Slot(if k > 0 then t - icdf[k - 1] else 0, t - icdf[k], t)
  }

  /** ec_enc_uint range-codes at most this many leading bits. */
  const UINT_BITS: nat := 8

  /** How many low bits of a uniform value below `total` are sent raw. */
  function UintRawBits(total: nat): nat
    requires total > 1
  {
    var ftb := Ilog(total - 1);
    if ftb > UINT_BITS then ftb - UINT_BITS else 0
  }

  /** How many leading parts a uniform value below `total` can have. */
  function UintHeads(total: nat): nat
    requires total > 1
  {
    Shr(total - 1, UintRawBits(total)) + 1
  }

  /** s << ftb | t */
  function UintJoin(head: nat, low: nat, total: nat): (r: nat)
    requires total > 1
    ensures r == head * Pow2(UintRawBits(total)) + low
  {
    head * Pow2(UintRawBits(total)) + low
  }

  /** The leading part of a uniform value, out of the number of leading parts. */
  function UintSlot(value: nat, total: nat): (k: Slot)
    requires value < total && 1 < total < 0x1_0000_0000
    ensures SlotOk(k)
  {
    UintSplit(value, total);
    var n := UintRawBits(total);
    Slot(Shr(value, n), Shr(value, n) + 1, UintHeads(total))
  }

  /** A uniform value splits into a range-coded head and at most 24 raw bits. */
  lemma UintSplit(value: nat, total: nat)
    requires value < total && 1 < total < 0x1_0000_0000
    ensures UintRawBits(total) <= 24
    ensures Shr(value, UintRawBits(total)) <= Shr(total - 1, UintRawBits(total)) < 256
    ensures UintRawBits(total) == 0 ==> total <= 256
  {
    UintBitsBound(total);
    QuotientBelow(total - 1, Pow2(UintRawBits(total)), 256);
    QuotientMonotone(value, total - 1, Pow2(UintRawBits(total)));
  }

  lemma UintBitsBound(total: nat)
    requires 1 < total < 0x1_0000_0000
    ensures UintRawBits(total) <= 24
    ensures total - 1 < Pow2(UintRawBits(total)) * 256
    ensures UintRawBits(total) == 0 ==> total <= 256
  {
    var n := Ilog(total - 1);
    IlogBounds(total - 1);
    CodePowers();
    if n > 32 {
      Pow2Monotone(32, n - 1);
    }
    assert Pow2(8) == 256;
    if n <= 8 {
      Pow2Monotone(n, 8);
    } else {
      Pow2Add(n - 8, 8);
    }
  }

  lemma QuotientBelow(a: nat, p: nat, q: nat)
    requires p > 0 && a < p * q
    ensures a / p < q
  {
    if q <= a / p {
      MulLe(p, q, a / p);
    }
  }

  lemma NothingRaw(x: nat)
    ensures Shr(x, 0) == x && LowBits(x, 0) == 0
  {
  }
}
