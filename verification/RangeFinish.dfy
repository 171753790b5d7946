/**
  Finishing a range-coded stream: the shortest run of bits every continuation of
  which stays inside the final interval.
 */
module RangeFinish {
  import opened Powers
  import opened ByteStreams
  import opened RangeIntervals
  import opened RangeModels
  import opened RawBits

  /** (x + msk) & ~msk for a mask of low bits: round up to a multiple of msk + 1. */
  function RoundUp(x: nat, msk: nat): (r: nat)
    ensures x <= r <= x + msk && r % (msk + 1) == 0
  {
    var q, m := (x + msk) / (msk + 1), (x + msk) % (msk + 1);
    assert x + msk == (msk + 1) * q + m;
    DivModUnique(x + msk - m, msk + 1, q, 0);
    x + msk - m
  }

  /** The mask ec_enc_done starts from. */
  function FinalMask(rng: nat): nat
    requires Normal(Interval(0, rng, 0))
  {
    FinalMaskWidth(rng);
    (CODE_TOP - 1) / Pow2(CODE_BITS - Ilog(rng))
  }

  lemma FinalMaskWidth(rng: nat)
    requires Normal(Interval(0, rng, 0))
    ensures 24 <= Ilog(rng) <= 32
  {
    IlogBounds(rng);
    CodePowers();
    if Ilog(rng) > 32 {
      Pow2Monotone(32, Ilog(rng) - 1);
    }
    if Ilog(rng) < 24 {
      Pow2Monotone(Ilog(rng), 23);
    }
  }

  /** Whether the first choice of mask leaves the interval. */
  predicate NeedsFinerMask(val: nat, rng: nat)
    requires Normal(Interval(0, rng, 0))
  {
    RoundUp(val, FinalMask(rng)) + FinalMask(rng) >= val + rng
  }

  /** The number of bits that end the stream, and their value at 31-bit scale. */
  function FinalBits(val: nat, rng: nat): (l: nat)
    requires Normal(Interval(0, rng, 0))
    ensures l <= 9
  {
    FinalMaskWidth(rng);
    CODE_BITS - Ilog(rng) + if NeedsFinerMask(val, rng) then 1 else 0
  }

  function FinalValue(val: nat, rng: nat): nat
    requires Normal(Interval(0, rng, 0))
  {
    if NeedsFinerMask(val, rng) then RoundUp(val, FinalMask(rng) / 2) else RoundUp(val, FinalMask(rng))
  }

  /** Dropping low bits of an all-ones word leaves an all-ones word. */
  lemma OnesShifted(p: nat, q: nat)
    requires p > 0 && q > 0
    ensures p * q > 0 && (p * q - 1) / p == q - 1
  {
    assert (q - 1) * p + (p - 1) == p * q - 1;
    DivModUnique(p * q - 1, p, q - 1, p - 1);
  }

  lemma MaskIsPower(l: nat)
    requires l <= 31
    ensures (CODE_TOP - 1) / Pow2(l) == Pow2(31 - l) - 1
  {
    CodePowers();
    Pow2Add(l, 31 - l);
    OnesShifted(Pow2(l), Pow2(31 - l));
  }

  /** Rounding to a block no wider than the range, or half that, stays inside. */
  lemma RoundingFits(val: nat, rng: nat, h: nat)
    requires 0 < 2 * h <= rng
    ensures RoundUp(val, 2 * h - 1) + 2 * h - 1 < val + rng || RoundUp(val, h - 1) + h <= val + rng
  {
  }

  /**
    The bits chosen lie in the interval whatever follows them: the block of
    2^(31-l) codes that share them is contained in [val, val + rng).
   */
  lemma FinalChoice(val: nat, rng: nat)
    requires Normal(Interval(0, rng, 0))
    ensures var l, end := FinalBits(val, rng), FinalValue(val, rng);
      && l <= 9
      && val <= end
      && end + Pow2(31 - l) <= val + rng
      && end % Pow2(31 - l) == 0
  {
    hide RoundUp, Pow2, Ilog;
    FinalMaskWidth(rng);
    IlogBounds(rng);
    MaskIsPower(CODE_BITS - Ilog(rng));
    HalfPower(Ilog(rng) - 1);
    RoundingFits(val, rng, Pow2(Ilog(rng) - 2));
  }

  /** One turn of the output loop uses up eight of the `l` significant bits. */
  lemma EndStep(end: nat, l: nat)
    requires 0 < l <= 9 && end % Pow2(31 - l) == 0
    ensures l > 8 ==> (end * 256) % CODE_TOP % Pow2(39 - l) == 0
    ensures l <= 8 ==> (end * 256) % CODE_TOP == 0
  {
    if l == 9 {
      EndStepNine(end);
    } else {
      EndStepLast(end, l);
    }
  }

  lemma EndStepNine(end: nat)
    requires end % Pow2(22) == 0
    ensures (end * 256) % CODE_TOP % Pow2(30) == 0
  {
    hide Pow2;
    CodePowers();
    HalfPower(23);
    HalfPower(31);
    var m := end / 0x40_0000;
    assert end * 256 == m * 0x4000_0000;
    ModMod(m * 0x4000_0000, 0x4000_0000, 2);
  }

  lemma EndStepLast(end: nat, l: nat)
    requires 0 < l <= 8 && end % Pow2(31 - l) == 0
    ensures (end * 256) % CODE_TOP == 0
  {
    hide Pow2;
    CodePowers();
    Pow2Add(31 - l, l);
    Pow2Add(l, 8 - l);
    ByteValues();
    var p, m := Pow2(31 - l), end / Pow2(31 - l);
    assert end == p * m;
    ShiftMultiple(m, p, Pow2(l), Pow2(8 - l));
  }

  lemma ShiftMultiple(m: nat, p: nat, a: nat, b: nat)
    requires p * a == CODE_TOP && a * b == 256
    ensures (p * m * 256) % CODE_TOP == 0
  {
    calc {
      p * m * 256;
      { MulAssoc(p * m, a, b); }
      p * m * a * b;
      { assert p * m * a == p * a * m; }
      CODE_TOP * m * b;
      { MulAssoc(CODE_TOP, m, b); }
      CODE_TOP * (m * b);
    }
    DivModUnique(CODE_TOP * (m * b), CODE_TOP, m * b, 0);
  }

  /**
    What the finished byte string `sent` is: `extra` bytes past the shifts
    already made, spelling exactly the low end of a block of 2^(31-l) codes
    that lies inside the interval.
   */
  predicate Finished(sent: seq<byte>, iv: Interval, start: nat, l: nat, extra: nat)
  {
    && l <= 9 && l <= 8 * extra < l + 8
    && |sent| == iv.shifts + extra
    && Big(sent) * CODE_TOP == start * Pow256(extra)
    && start % Pow2(31 - l) == 0
    && iv.low <= start && start + Pow2(31 - l) <= iv.low + iv.rng
  }

  /**
    The output loop of ec_enc_done between turns: `e` is the low end shifted by
    the bytes output so far, of which `l` significant bits are still to come.
   */
  predicate Finishing(iv: Interval, start: nat, l0: nat, e: Interval, end: nat, l: int, extra: nat)
  {
    && e == Interval(start * Pow256(extra), 1, iv.shifts + extra)
    && l == l0 - 8 * extra && -8 < l <= 9
    && (if l > 0 then end % Pow2(31 - l) == 0 else end == 0)
    && end < 0x1_0000_0000 - 1
  }

  /** With no bits to output, the whole register range is the block. */
  lemma NoEndBits(end: nat, l: nat)
    requires l <= 31 && end % Pow2(31 - l) == 0 && end + Pow2(31 - l) < 0x1_0000_0000
    ensures l == 0 ==> end == 0
    ensures end + 1 < 0x1_0000_0000
  {
    CodePowers();
  }

  lemma FinishingStep(iv: Interval, start: nat, l0: nat, e: Interval, end: nat, l: nat, extra: nat)
    requires Finishing(iv, start, l0, e, end, l, extra) && 0 < l <= 9
    ensures Finishing(iv, start, l0, Interval(256 * e.low, 1, e.shifts + 1), (end * 256) % CODE_TOP, l - 8, extra + 1)
  {
    hide Pow2;
    EndStep(end, l);
    assert Pow256(extra + 1) == 256 * Pow256(extra);
    MulAssoc(start, 256, Pow256(extra));
    ByteValues();
  }

  /** The unused low bits of the last byte are zero. */
  lemma SpareBitsClear(sent: seq<byte>, iv: Interval, start: nat, l: nat, extra: nat)
    requires Finished(sent, iv, start, l, extra)
    ensures Big(sent) % Pow2(8 * extra - l) == 0
    ensures |sent| > 0 ==> sent[|sent| - 1] % Pow2(8 * extra - l) == 0
    ensures extra == 0 ==> 8 * extra - l == 0
  {
    hide Pow2, Pow256;
    var spare := 8 * extra - l;
    CodePowers();
    Pow256IsPow2(extra);
    Pow2Add(31 - l, l);
    Pow2Add(l, spare);
    var p, m := Pow2(31 - l), start / Pow2(31 - l);
    CancelTop(Big(sent), m, p, Pow2(l), Pow2(spare));
    DivModUnique(Big(sent), Pow2(spare), m, 0);
    if |sent| > 0 {
      LastByteMultiple(Big(sent[..|sent| - 1]), sent[|sent| - 1], spare);
    }
  }

  lemma CancelTop(d: nat, m: nat, p: nat, a: nat, b: nat)
    requires p * a == CODE_TOP && d * CODE_TOP == (p * m) * (a * b)
    ensures d == m * b
  {
    assert (p * m) * (a * b) == (p * a) * (m * b);
  }

  lemma LastByteMultiple(hi: nat, b: byte, n: nat)
    requires n < 8 && (hi * 256 + b) % Pow2(n) == 0
    ensures b % Pow2(n) == 0
  {
    hide Pow2;
    Pow2Add(n, 8 - n);
    ByteValues();
    var p, q := Pow2(n), Pow2(8 - n);
    assert q * p == 256;
    assert hi * 256 == (hi * q) * p by {
      MulAssoc(hi, q, p);
    }
    DivAddMultiple(b, Pow2(n), hi * Pow2(8 - n));
  }

  /** Appending bytes to a prefix can only refine the number it spells. */
  lemma {:induction false} PrefixExtends(s: seq<byte>, m: nat, n: nat)
    requires m <= n
    ensures Prefix(s, m) * Pow256(n - m) <= Prefix(s, n) < (Prefix(s, m) + 1) * Pow256(n - m)
    decreases n
  {
    if m < n {
      PrefixExtends(s, m, n - 1);
      ExtendBounds(Prefix(s, m), Pow256(n - 1 - m), Prefix(s, n - 1), ByteAt(s, n - 1));
    }
  }

  lemma ExtendBounds(p: nat, q: nat, x: nat, b: byte)
    requires p * q <= x < (p + 1) * q
    ensures p * (256 * q) <= x * 256 + b < (p + 1) * (256 * q)
  {
    assert p * (256 * q) == 256 * (p * q);
    assert (p + 1) * (256 * q) == 256 * ((p + 1) * q);
  }

  /**
    Finalisation: a packet that starts with the finished bytes, whatever fills
    the spare bits of the last one and whatever follows, lies in the interval.
   */
  lemma FinishedHolds(s: seq<byte>, sent: seq<byte>, w: nat, iv: Interval, start: nat, l: nat, extra: nat)
    requires Finished(sent, iv, start, l, extra)
    requires w < Pow2(8 * extra - l)
    requires Prefix(s, |sent|) == Big(sent) + w
    ensures Holds(iv, s)
  {
    hide Pow2, Pow256, Prefix, Big;
    var spare := 8 * extra - l;
    PrefixExtends(s, |sent|, iv.shifts + 4);
    Pow256IsPow2(4 - extra);
    CodePowers();
    Pow256IsPow2(extra);
    Pow2Add(8 * extra, 32 - 8 * extra);
    Pow2Add(spare, 32 - 8 * extra);
    HalfPower(32 - l);
    BlockBounds(Big(sent), w, Pow2(spare), Pow2(32 - 8 * extra), Pow2(8 * extra), start, Prefix(s, iv.shifts + 4));
  }

  lemma BlockBounds(d: nat, w: nat, gap: nat, scale: nat, back: nat, start: nat, x: nat)
    requires d * CODE_TOP == start * back && back * scale == 2 * CODE_TOP && w < gap
    requires (d + w) * scale <= x < (d + w + 1) * scale
    ensures 2 * start <= x < 2 * start + gap * scale
  {
    assert d * scale == 2 * start by {
      calc {
        (d * scale) * CODE_TOP;
        (d * CODE_TOP) * scale;
        (start * back) * scale;
        { MulAssoc(start, back, scale); }
        (2 * start) * CODE_TOP;
      }
    }
    MulLe(scale, w + 1, gap);
    MulDistribute(scale, d, w);
    MulDistribute(scale, d, w + 1);
  }

  /** The raw bits survive at the back, the last few of them sharing a byte. */
  lemma FinishedCarries(s: seq<byte>, tail: seq<byte>, window: nat, used: nat, raw: Raw)
    requires Buffered(tail, window, used, raw) && used < 8
    requires |tail| <= |s| && (used > 0 ==> |tail| < |s|)
    requires forall j :: 0 <= j < |tail| ==> TailByteAt(s, j) == tail[j]
    requires used > 0 ==> TailByteAt(s, |tail|) % Pow2(used) == window
    ensures Carries(s, raw)
  {
    hide Pow2, Pow256, Little;
    TailIsLittle(s, tail);
    RawBound(raw, tail, window, used);
    DivModUnique(raw.value, Pow2(raw.bits), 0, raw.value);
    if used == 0 {
      ByteValues();
      assert Pow256(|tail|) * window == 0;
      TailTruncation(s, |tail|, raw.bits);
    } else {
      TailTruncation(s, |tail| + 1, raw.bits);
      Pow256IsPow2(|tail|);
      Pow2Add(8 * |tail|, used);
      var b := TailByteAt(s, |tail|);
      assert Tail(s, |tail| + 1) == Little(tail) + Pow256(|tail|) * b;
      TopByteRemainder(Little(tail), Pow256(|tail|), Pow2(used), b);
      assert raw.value == Little(tail) + Pow256(|tail|) * (b % Pow2(used));
    }
  }

  /** Only the low bits of the topmost byte count. */
  lemma TopByteRemainder(t: nat, p: nat, u: nat, b: nat)
    requires p > 0 && u > 0
    ensures p * u > 0
    ensures (t + p * b) % (p * u) == (t + p * (b % u)) % (p * u)
  {
    var q, r := b / u, b % u;
    assert b == u * q + r;
    assert p * b == p * r + q * (p * u) by {
      MulDistribute(p, u * q, r);
      MulAssoc(q, p, u);
      MulAssoc(p, u, q);
    }
    MulLe(p, 0, r);
    DivAddMultiple(t + p * r, p * u, q);
  }

  /** b | w when `w` only has bits where `b` has its `n` low zero bits. */
  function OrDisjoint(b: byte, w: nat, n: nat): (r: byte)
    requires n <= 8 && b % Pow2(n) == 0 && w < Pow2(n)
    ensures r == b + w
  {
    Pow2Add(n, 8 - n);
    ByteValues();
    OrFits(b, w, Pow2(n), Pow2(8 - n));
    b + w
  }

  lemma OrFits(b: byte, w: nat, p: nat, q: nat)
    requires p > 0 && p * q == 256 && b % p == 0 && w < p
    ensures b + w < 256
  {
    var k := b / p;
    assert b == p * k;
    MulLt(p, k, q);
    MulLe(p, k + 1, q);
  }

  /** The packet before the last few raw bits: both strings, zeros between. */
  predicate Laid(s: seq<byte>, sent: seq<byte>, tail: seq<byte>)
  {
    && |sent| + |tail| <= |s|
    && (forall i :: 0 <= i < |sent| ==> s[i] == sent[i])
    && (forall i :: |sent| <= i < |s| - |tail| ==> s[i] == 0)
    && (forall j :: 0 <= j < |tail| ==> TailByteAt(s, j) == tail[j])
  }

  /** How many low bits of the byte next to the raw bytes are free. */
  function FreeBits(s: seq<byte>, sent: seq<byte>, tail: seq<byte>, spare: nat): nat
  {
    if |sent| + |tail| >= |s| then spare else 8
  }

  lemma LaidPacked(s: seq<byte>, sent: seq<byte>, tail: seq<byte>, window: nat, spare: nat)
    requires Laid(s, sent, tail)
    ensures Packed(s, sent, tail, window, 0, spare)
  {
  }

  lemma MergePacked(s: seq<byte>, sent: seq<byte>, tail: seq<byte>, window: nat, used: nat, spare: nat)
    requires Laid(s, sent, tail) && |tail| < |s| && spare < 8
    requires |sent| > 0 ==> sent[|sent| - 1] % Pow2(spare) == 0
    requires window < Pow2(used) && 0 < used <= FreeBits(s, sent, tail, spare)
    ensures var at := |s| - |tail| - 1;
      && s[at] % Pow2(FreeBits(s, sent, tail, spare)) == 0
      && window < Pow2(FreeBits(s, sent, tail, spare))
      && s[at] + window < 256
      && Packed(s[at := s[at] + window], sent, tail, window, used, spare)
  {
    hide Pow2;
    var at, free := |s| - |tail| - 1, FreeBits(s, sent, tail, spare);
    Pow2Monotone(used, free);
    if |sent| + |tail| >= |s| {
      assert s[at] == sent[|sent| - 1];
    } else {
      DivModUnique(0, Pow2(free), 0, 0);
    }
    var b := OrDisjoint(s[at], window, free);
    LowBitsKept(s[at], window, used, free);
  }

  /** Bits or-ed into zeros can be read back. */
  lemma LowBitsKept(b: nat, window: nat, used: nat, free: nat)
    requires used <= free && b % Pow2(free) == 0 && window < Pow2(used)
    ensures (b + window) % Pow2(used) == window
  {
    hide Pow2;
    Pow2Add(used, free - used);
    ModMod(b, Pow2(used), Pow2(free - used));
    DivModUnique(0, Pow2(used), 0, 0);
    var k := b / Pow2(used);
    assert b == Pow2(used) * k;
    DivModUnique(b + window, Pow2(used), k, window);
  }

  /** How the finished packet is laid out: the two strings may share one byte. */
  predicate Packed(s: seq<byte>, sent: seq<byte>, tail: seq<byte>, window: nat, used: nat, spare: nat)
  {
    && |sent| + |tail| <= |s|
    && (forall i :: 0 <= i < |sent| - 1 ==> s[i] == sent[i])
    && (|sent| > 0 ==> sent[|sent| - 1] <= s[|sent| - 1] < sent[|sent| - 1] + Pow2(spare))
    && (forall j :: 0 <= j < |tail| ==> TailByteAt(s, j) == tail[j])
    && (used > 0 ==> |tail| < |s| && TailByteAt(s, |tail|) % Pow2(used) == window)
  }

  lemma PackedDecodes(s: seq<byte>, sent: seq<byte>, tail: seq<byte>, window: nat, used: nat, raw: Raw,
                      iv: Interval, start: nat, l: nat, extra: nat)
    requires Finished(sent, iv, start, l, extra)
    requires Buffered(tail, window, used, raw) && used < 8
    requires Packed(s, sent, tail, window, used, 8 * extra - l)
    ensures Holds(iv, s) && Carries(s, raw)
  {
    FinishedCarries(s, tail, window, used, raw);
    var n := |sent|;
    if n > 0 {
      var most := sent[..n - 1];
      assert forall i :: 0 <= i < |most| ==> most[i] == sent[i] == ByteAt(s, i);
      PrefixIsBig(s, most);
      FinishedHolds(s, sent, s[n - 1] - sent[n - 1], iv, start, l, extra);
    } else {
      FinishedHolds(s, sent, 0, iv, start, l, extra);
    }
  }

  /** ec_tell: bits used so far, rounded up, from quantities both sides track. */
  function Tell(nbitsTotal: nat, rng: nat): int
  {
    nbitsTotal - Ilog(rng)
  }

  /** ec_tell never undercounts the final packet, and overcounts by at most a bit. */
  lemma TellCoversEnd(nbitsTotal: nat, val: nat, rng: nat, shifts: nat, rawBits: nat)
    requires Normal(Interval(0, rng, 0)) && nbitsTotal == CODE_BITS + 1 + 8 * shifts + rawBits
    ensures var needed := 8 * shifts + FinalBits(val, rng) + rawBits;
      needed <= Tell(nbitsTotal, rng) <= needed + 1
  {
  }

  lemma RoundUpPeriodic(x: nat, msk: nat, k: nat)
    ensures RoundUp(x + k * (msk + 1), msk) == RoundUp(x, msk) + k * (msk + 1)
  {
    DivAddMultiple(x + msk, msk + 1, k);
  }

  /** The carry bit of the register does not influence how many bits end the stream. */
  lemma FinalBitsPeriodic(val: nat, rng: nat)
    requires Normal(Interval(0, rng, 0))
    ensures FinalBits(val + CODE_TOP, rng) == FinalBits(val, rng)
  {
    hide Pow2, RoundUp, Ilog, FinalMask;
    FinalMaskWidth(rng);
    MaskDividesTop(rng);
    RoundUpPeriodic(val, FinalMask(rng), Pow2(CODE_BITS - Ilog(rng)));
  }

  lemma MaskDividesTop(rng: nat)
    requires Normal(Interval(0, rng, 0))
    ensures 24 <= Ilog(rng) <= 32
    ensures Pow2(CODE_BITS - Ilog(rng)) * (FinalMask(rng) + 1) == CODE_TOP
  {
    hide Pow2, Ilog;
    FinalMaskWidth(rng);
    CodePowers();
    MaskIsPower(CODE_BITS - Ilog(rng));
    Pow2Add(CODE_BITS - Ilog(rng), Ilog(rng) - 1);
  }
}
