/**
  ec_enc_done writes the least number of bits: a run of bits after which every
  packet, whatever it goes on with, lies in the final interval exists from that
  length on, and for no shorter one.
 */
module RangeShortest {
  import opened Powers
  import opened ByteStreams
  import opened RangeIntervals
  import opened RangeModels
  import opened RangeFinish
  import opened RangeTranscripts

  /** `l` leading bits out of 31, followed by anything, stay in [val, val + rng). */
  predicate Ends(val: nat, rng: nat, l: nat, x: nat)
    requires l <= 31
  {
    x % Pow2(31 - l) == 0 && val <= x && x + Pow2(31 - l) <= val + rng
  }

  /** No multiple of the block lies between a number and that number rounded up. */
  lemma RoundUpLeast(val: nat, msk: nat, x: nat)
    requires val <= x && x % (msk + 1) == 0
    ensures RoundUp(val, msk) <= x
  {
    hide RoundUp;
    var b, r := msk + 1, RoundUp(val, msk);
    var p, q := r / b, x / b;
    assert r == b * p && x == b * q;
    if x < r {
      MulLe(b, q + 1, p);
      MulDistribute(b, q, 1);
    }
  }

  /** Fewer bits than ec_enc_done chooses leave the interval for some continuation. */
  lemma ShorterFails(val: nat, rng: nat, l: nat, x: nat)
    requires Normal(Interval(0, rng, 0)) && l < FinalBits(val, rng)
    ensures !Ends(val, rng, l, x)
  {
    hide RoundUp, Pow2, Ilog;
    FinalMaskWidth(rng);
    IlogBounds(rng);
    var least := CODE_BITS - Ilog(rng);
    if l < least {
      Pow2Monotone(Ilog(rng), 31 - l);
    } else if Ends(val, rng, l, x) {
      MaskIsPower(least);
      RoundUpLeast(val, FinalMask(rng), x);
    }
  }

  /** The bytes that spell `v`. */
  function Spelled(v: nat, n: nat): (s: seq<byte>)
    ensures |s| == n
  {
    if n == 0 then [] else Spelled(v / 256, n - 1) + [v % 256]
  }

  lemma {:induction false} SpelledIs(v: nat, n: nat)
    requires v < Pow256(n)
    ensures Big(Spelled(v, n)) == v
  {
    hide Big;
    if n == 0 {
      assert Big([]) == 0 by { BigNothing(); }
    } else {
      SpelledIs(v / 256, n - 1);
      BigAppend(Spelled(v / 256, n - 1), v % 256);
    }
  }

  lemma BigNothing()
    ensures Big([]) == 0
  {
  }

  /** Every code is the code of some packet. */
  lemma PacketOf(c: nat, shifts: nat) returns (s: seq<byte>)
    requires c < Pow2(31 + 8 * shifts)
    ensures Code(s, shifts) == c
  {
    hide Pow2, Pow256, Prefix, Big;
    HalfPower(32 + 8 * shifts);
    Pow256IsPow2(shifts + 4);
    s := Spelled(2 * c, shifts + 4);
    SpelledIs(2 * c, shifts + 4);
    PrefixIsBig(s, s);
  }

  /** The first `n` bits of the packet's code. */
  function Lead(s: seq<byte>, shifts: nat, n: nat): nat
    requires n <= 31 + 8 * shifts
  {
    QuotientNat(Code(s, shifts), Pow2(31 + 8 * shifts - n));
    Code(s, shifts) / Pow2(31 + 8 * shifts - n)
  }

  /** Starting with these `n` bits keeps every packet in the interval. */
  ghost predicate Settles(iv: Interval, n: nat, p: nat)
    requires n <= 31 + 8 * iv.shifts
  {
    p < Pow2(n) && forall s: seq<byte> :: Lead(s, iv.shifts, n) == p ==> Holds(iv, s)
  }

  /** What ec_enc_done outputs of the range coder, in bits. */
  function EndBits(iv: Interval): nat
    requires Normal(iv)
  {
    8 * iv.shifts + FinalBits(iv.low % CODE_TOP, iv.rng)
  }

  /** A block of codes inside the interval has to be as fine as ec_enc_done makes it. */
  lemma BlockFine(iv: Interval, n: nat, p: nat)
    requires Normal(iv) && n <= 31 + 8 * iv.shifts
    requires var b := Pow2(31 + 8 * iv.shifts - n); iv.low <= p * b && p * b + b <= iv.low + iv.rng
    ensures n >= EndBits(iv)
  {
    hide Pow2, FinalBits;
    CodePowers();
    var b := Pow2(31 + 8 * iv.shifts - n);
    if n < 8 * iv.shifts {
      Pow2Monotone(32, 31 + 8 * iv.shifts - n);
    } else if n < EndBits(iv) {
      var l := n - 8 * iv.shifts;
      Pow2Add(31 - l, l);
      var k, v := iv.low / CODE_TOP, iv.low % CODE_TOP;
      assert iv.low == CODE_TOP * k + v;
      var m := Pow2(l) * k;
      assert CODE_TOP * k == m * b by { MulAssoc(b, Pow2(l), k); }
      WithoutHigh(p, m, b, v);
      ShorterFails(v, iv.rng, l, p * b - m * b);
    }
  }

  lemma WithoutHigh(p: nat, m: nat, b: nat, v: nat)
    requires b > 0 && m * b + v <= p * b
    ensures p * b - m * b >= 0 && (p * b - m * b) % b == 0
  {
    MulDistribute(b, m, p - m);
    DivModUnique(p * b - m * b, b, p - m, 0);
  }

  /** The first and the last code of a block. */
  lemma BlockEnds(n: nat, p: nat, total: nat)
    requires n <= total && p < Pow2(n)
    ensures var b := Pow2(total - n);
      && p * b + b <= Pow2(total) && p * b >= 0
      && p * b / b == p && (p * b + (b - 1)) / b == p
  {
    hide Pow2;
    var b := Pow2(total - n);
    Pow2Add(n, total - n);
    MulLe(b, p + 1, Pow2(n));
    MulDistribute(b, p, 1);
    DivModUnique(p * b, b, p, 0);
    DivModUnique(p * b + (b - 1), b, p, b - 1);
  }

  /** Too few bits: some packet that starts with them is outside. */
  lemma TooFew(iv: Interval, n: nat, p: nat)
    requires Normal(iv) && n < EndBits(iv) && n <= 31 + 8 * iv.shifts
    ensures !Settles(iv, n, p)
  {
    hide Pow2, FinalBits, Code, EndBits, Normal;
    var total := 31 + 8 * iv.shifts;
    var b := Pow2(total - n);
    if Settles(iv, n, p) {
      BlockEnds(n, p, total);
      var s := PacketOf(p * b, iv.shifts);
      var t := PacketOf(p * b + (b - 1), iv.shifts);
      assert Lead(s, iv.shifts, n) == p && Lead(t, iv.shifts, n) == p;
      BlockFine(iv, n, p);
    }
  }

  /** The bits ec_enc_done chooses are enough. */
  lemma JustEnough(iv: Interval) returns (p: nat)
    requires Normal(iv) && iv.low + iv.rng <= Pow2(31 + 8 * iv.shifts)
    ensures EndBits(iv) <= 31 + 8 * iv.shifts && Settles(iv, EndBits(iv), p)
  {
    hide Pow2, FinalBits, FinalValue, Code;
    CodePowers();
    var v, k := iv.low % CODE_TOP, iv.low / CODE_TOP;
    assert iv.low == CODE_TOP * k + v;
    var l, end := FinalBits(v, iv.rng), FinalValue(v, iv.rng);
    FinalChoice(v, iv.rng);
    Pow2Add(31 - l, l);
    var b := Pow2(31 - l);
    p := Pow2(l) * k + end / b;
    BlockStart(k, Pow2(l), b, end);
    Pow2Add(EndBits(iv), 31 - l);
    BelowQuotient(p, b, Pow2(EndBits(iv)));
    BlockSettles(iv, EndBits(iv), p);
  }

  /** Where the chosen block starts, the part above the register included. */
  lemma BlockStart(k: nat, q: nat, b: nat, end: nat)
    requires b > 0 && end % b == 0
    ensures q * k + end / b >= 0 && (q * k + end / b) * b == b * q * k + end
  {
    var e := end / b;
    assert end == b * e;
    MulDistribute(b, q * k, e);
    MulAssoc(b, q, k);
    NatProducts(q, k);
  }

  lemma NatProducts(q: nat, k: nat)
    ensures q * k >= 0
  {
  }

  lemma BlockSettles(iv: Interval, n: nat, p: nat)
    requires n <= 31 + 8 * iv.shifts && p < Pow2(n)
    requires var b := Pow2(31 + 8 * iv.shifts - n); iv.low <= p * b && p * b + b <= iv.low + iv.rng
    ensures Settles(iv, n, p)
  {
    hide Pow2, Code;
    var b := Pow2(31 + 8 * iv.shifts - n);
    forall s: seq<byte> | Lead(s, iv.shifts, n) == p ensures Holds(iv, s) {
      var c := Code(s, iv.shifts);
      assert c == b * (c / b) + c % b;
    }
  }

  lemma BelowQuotient(p: nat, b: nat, q: nat)
    requires b > 0 && p * b < b * q
    ensures p < q
  {
    if q <= p {
      MulLe(b, q, p);
    }
  }

  /** More bits are enough too. */
  lemma OneMoreBit(iv: Interval, n: nat, p: nat)
    requires n < 31 + 8 * iv.shifts && Settles(iv, n, p)
    ensures Settles(iv, n + 1, 2 * p)
  {
    hide Pow2, Code;
    var b := Pow2(31 + 8 * iv.shifts - n - 1);
    HalfPower(31 + 8 * iv.shifts - n);
    HalfPower(n + 1);
    forall s: seq<byte> | Lead(s, iv.shifts, n + 1) == 2 * p ensures Holds(iv, s) {
      DivDiv(Code(s, iv.shifts), b, 2);
      assert Lead(s, iv.shifts, n) == p;
    }
  }

  lemma {:induction false} EnoughFrom(iv: Interval, n: nat) returns (p: nat)
    requires Normal(iv) && iv.low + iv.rng <= Pow2(31 + 8 * iv.shifts) && EndBits(iv) <= n <= 31 + 8 * iv.shifts
    ensures Settles(iv, n, p)
  {
    hide EndBits, Settles;
    if n == EndBits(iv) {
      p := JustEnough(iv);
    } else {
      var q := EnoughFrom(iv, n - 1);
      OneMoreBit(iv, n - 1, q);
      p := 2 * q;
    }
  }

  /** The length ec_enc_done gives the ending is the least at which the packet is settled. */
  lemma EndingShortest(iv: Interval, n: nat)
    requires Normal(iv) && iv.low + iv.rng <= Pow2(31 + 8 * iv.shifts) && n <= 31 + 8 * iv.shifts
    ensures (exists p :: Settles(iv, n, p)) <==> n >= EndBits(iv)
  {
    hide EndBits, Settles;
    if n >= EndBits(iv) {
      var p := EnoughFrom(iv, n);
    } else {
      forall p: nat ensures !Settles(iv, n, p) {
        TooFew(iv, n, p);
      }
    }
  }

  /** The interval of a run never leaves the range of codes. */
  lemma {:induction false} RunInRange(items: seq<Item>)
    requires AllCodable(items) && StateOk(Start)
    ensures var iv := RunFrom(Start, items).iv; iv.low + iv.rng <= Pow2(31 + 8 * iv.shifts)
  {
    hide Pow2, Step, SlotOf, Codable;
    CodePowers();
    if items != [] {
      var before, last := items[..|items| - 1], items[|items| - 1];
      RunInRange(before);
      var st := RunFrom(Start, before);
      if !last.model.RawField? {
        StepInRange(st.iv, SlotOf(last.model, last.value));
      }
    }
  }

  lemma StepInRange(iv: Interval, k: Slot)
    requires Normal(iv) && SlotOk(k) && iv.low + iv.rng <= Pow2(31 + 8 * iv.shifts)
    ensures var r := Step(iv, k); r.low + r.rng <= Pow2(31 + 8 * r.shifts)
  {
    hide Pow2;
    NarrowRange(iv, k);
    RenormInRange(Narrow(iv, k));
  }

  lemma {:induction false} RenormInRange(iv: Interval)
    requires 0 < iv.rng <= CODE_TOP && iv.low + iv.rng <= Pow2(31 + 8 * iv.shifts)
    ensures var r := Renorm(iv); r.low + r.rng <= Pow2(31 + 8 * r.shifts)
    decreases CODE_TOP - iv.rng
  {
    hide Pow2;
    if iv.rng <= CODE_BOT {
      ByteValues();
      Pow2Add(8, 31 + 8 * iv.shifts);
      RenormInRange(Interval(256 * iv.low, 256 * iv.rng, iv.shifts + 1));
    }
  }

  /**
    For any run of symbols: what BitsFor counts beside the raw bits is the least
    number of leading bits that settles the packet.
   */
  lemma RunEndsShortest(items: seq<Item>, n: nat)
    requires AllCodable(items) && StateOk(Start)
    requires n <= 31 + 8 * RunFrom(Start, items).iv.shifts
    ensures var st := RunFrom(Start, items);
      (exists p :: Settles(st.iv, n, p)) <==> n + st.raw.bits >= BitsFor(st)
  {
    hide Settles, RunFrom, FinalBits;
    RunInRange(items);
    EndingShortest(RunFrom(Start, items).iv, n);
  }
}
