/**
  The encoder's bookkeeping for carries.  Bytes that can no longer change are
  `sent`; one byte (`rem`, or -1 before the first) and a run of `ext` bytes 0xFF
  wait until it is known whether a carry will ripple through them.
 */
module RangeCarry {
  import opened Powers
  import opened ByteStreams
  import opened RangeIntervals
  import opened RangeModels

  datatype Pending = Pending(sent: seq<byte>, rem: int, ext: nat)

  predicate PendingOk(p: Pending)
  {
    -1 <= p.rem < 256 && (p.rem == -1 ==> p.sent == [])
  }

  function Repeat(n: nat, b: byte): (s: seq<byte>)
    ensures |s| == n
  {
    if n == 0 then [] else Repeat(n - 1, b) + [b]
  }

  /** How many symbols have been handed to the carry logic. */
  function Symbols(p: Pending): nat
  {
    |p.sent| + (if p.rem >= 0 then 1 else 0) + p.ext
  }

  /** One more than the number spelled by `sent` and `rem`. */
  function Lead(p: Pending): nat
    requires PendingOk(p)
  {
    if p.rem >= 0 then Big(p.sent) * 256 + p.rem + 1 else 1
  }

  /** The number spelled by everything output so far if no carry follows. */
  function OutValue(p: Pending): nat
    requires PendingOk(p)
  {
    MulLe(Lead(p), 1, Pow256(p.ext));
    Lead(p) * Pow256(p.ext) - 1
  }

  /** A nine-bit symbol is safe to output: if it carries, something can absorb it. */
  predicate CanTake(p: Pending, c: nat)
  {
    c < 512 && (c >= 256 ==> 0 <= p.rem < 255)
  }

  /** The bytes released when symbol `c` settles whether the run carries. */
  function Released(p: Pending, carry: nat): seq<byte>
    requires PendingOk(p) && carry <= 1 && (carry == 1 ==> 0 <= p.rem < 255)
  {
    (if p.rem >= 0 then [p.rem + carry] else []) + Repeat(p.ext, (255 + carry) % 256)
  }

  function Carry(p: Pending, c: nat): (r: Pending)
    requires PendingOk(p) && CanTake(p, c)
    ensures PendingOk(r) && Symbols(r) == Symbols(p) + 1
  {
    if c == 255 then p.(ext := p.ext + 1)
    else Pending(p.sent + Released(p, c / 256), c % 256, 0)
  }

  lemma BigEmpty()
    ensures Big([]) == 0
  {
  }

  lemma {:induction false} BigZeros(s: seq<byte>, n: nat)
    ensures Big(s + Repeat(n, 0)) == Big(s) * Pow256(n)
  {
    hide Big;
    if n == 0 {
      assert s + [] == s;
    } else {
      BigZeros(s, n - 1);
      Pow256Step(n - 1);
      MulShuffle(Big(s), 256, Pow256(n - 1));
      BigAppend(s + Repeat(n - 1, 0), 0);
      assert s + Repeat(n, 0) == s + Repeat(n - 1, 0) + [0];
    }
  }

  lemma {:induction false} BigOnes(s: seq<byte>, n: nat)
    ensures Big(s + Repeat(n, 255)) == (Big(s) + 1) * Pow256(n) - 1
  {
    if n == 0 {
      assert s + [] == s;
    } else {
      BigOnes(s, n - 1);
      MulShuffle(Big(s) + 1, 256, Pow256(n - 1));
      BigAppend(s + Repeat(n - 1, 255), 255);
      assert s + Repeat(n, 255) == s + Repeat(n - 1, 255) + [255];
    }
  }

  /** The released bytes spell the old output, plus one if the symbol carries. */
  lemma ReleasedValue(p: Pending, carry: nat)
    requires PendingOk(p) && carry <= 1 && (carry == 1 ==> 0 <= p.rem < 255)
    ensures Big(p.sent + Released(p, carry)) == OutValue(p) + carry
    ensures |p.sent + Released(p, carry)| == Symbols(p)
  {
    hide Pow256, Big, Repeat;
    var head := p.sent + (if p.rem >= 0 then [p.rem + carry] else []);
    assert p.sent + Released(p, carry) == head + Repeat(p.ext, (255 + carry) % 256);
    if p.rem >= 0 {
      BigAppend(p.sent, p.rem + carry);
    } else {
      assert head == [];
      BigEmpty();
    }
    BigZeros(head, p.ext);
    BigOnes(head, p.ext);
  }

  /** Outputting a symbol appends it to the exact output, carry included. */
  lemma CarryValue(p: Pending, c: nat)
    requires PendingOk(p) && CanTake(p, c)
    ensures OutValue(Carry(p, c)) == 256 * OutValue(p) + c
  {
    if c == 255 {
      assert Lead(p) * Pow256(p.ext + 1) == 256 * (Lead(p) * Pow256(p.ext));
    } else {
      ReleasedValue(p, c / 256);
    }
  }

  /** First value above everything the bytes already sent can still spell. */
  function Ceiling(p: Pending): nat
    requires PendingOk(p)
  {
    (Big(p.sent) + 1) * Pow256(Symbols(p) - |p.sent|)
  }

  /**
    The encoder invariant: written bytes, the waiting byte, the run of 0xFF and
    the 32-bit `val` denote the exact low end, and the whole interval lies where
    the bytes already sent stay correct.
   */
  predicate Denotes(p: Pending, val: nat, iv: Interval)
  {
    && PendingOk(p)
    && Symbols(p) == iv.shifts
    && iv.low == OutValue(p) * CODE_TOP + val
    && iv.low + iv.rng <= Ceiling(p) * CODE_TOP
  }

  /** With no byte able to absorb a carry, the output is already at its ceiling. */
  lemma FullCeiling(p: Pending)
    requires PendingOk(p) && (p.rem == -1 || p.rem == 255)
    ensures Ceiling(p) == OutValue(p) + 1
  {
    if p.rem == 255 {
      var b, e := Big(p.sent) + 1, Pow256(p.ext);
      assert Pow256(p.ext + 1) == 256 * e;
      assert (256 * b) * e == b * (256 * e);
    }
  }

  /** A carry always finds a byte below 0xFF to land in. */
  lemma CarryHasRoom(p: Pending, val: nat, iv: Interval)
    requires Denotes(p, val, iv) && iv.rng > 0
    requires val < 0x1_0000_0000
    ensures CanTake(p, val / CODE_BOT)
  {
    if p.rem == -1 || p.rem == 255 {
      FullCeiling(p);
    }
  }

  /** How the ceiling moves: fixed while 0xFFs queue up, tight after a release. */
  lemma CeilingStep(p: Pending, c: nat)
    requires PendingOk(p) && CanTake(p, c)
    ensures c == 255 ==> Ceiling(Carry(p, c)) == 256 * Ceiling(p)
    ensures c != 255 ==> Ceiling(Carry(p, c)) == OutValue(Carry(p, c)) + 256 - c % 256
  {
    var q := Carry(p, c);
    if c == 255 {
      var b, n := Big(p.sent) + 1, Symbols(p) - |p.sent|;
      MulShuffle(b, 256, Pow256(n));
    } else {
      ReleasedValue(p, c / 256);
      assert Symbols(q) - |q.sent| == 1;
      assert Pow256(0) == 1 && Pow256(1) == 256;
    }
  }

  lemma ShiftArithmetic(d: nat, ceiling: nat, d': nat, ceiling': nat, val: nat, iv: Interval)
    requires iv.low == d * CODE_TOP + val && iv.low + iv.rng <= ceiling * CODE_TOP
    requires 0 < iv.rng <= CODE_BOT && val + iv.rng < 0x1_0000_0000
    requires d' == 256 * d + val / CODE_BOT
    requires ceiling' == if val / CODE_BOT == 255 then 256 * ceiling else d' + 256 - (val / CODE_BOT) % 256
    ensures 256 * iv.low == d' * CODE_TOP + (val * 256) % CODE_TOP
    ensures 256 * iv.low + 256 * iv.rng <= ceiling' * CODE_TOP
    ensures (val * 256) % CODE_TOP + 256 * iv.rng < 0x1_0000_0000
  {
    assert (val * 256) % CODE_TOP == val * 256 - (val / CODE_BOT) * CODE_TOP;
  }

  /** Shifting out the top symbol of `val` multiplies the interval by 256. */
  lemma ShiftDenotes(p: Pending, val: nat, iv: Interval)
    requires Denotes(p, val, iv) && 0 < iv.rng <= CODE_BOT
    requires val + iv.rng < 0x1_0000_0000
    ensures PendingOk(p) && CanTake(p, val / CODE_BOT)
    ensures Denotes(Carry(p, val / CODE_BOT), (val * 256) % CODE_TOP,
                    Interval(256 * iv.low, 256 * iv.rng, iv.shifts + 1))
    ensures (val * 256) % CODE_TOP + 256 * iv.rng < 0x1_0000_0000
  {
    CarryHasRoom(p, val, iv);
    var c := val / CODE_BOT;
    CarryValue(p, c);
    CeilingStep(p, c);
    ShiftArithmetic(OutValue(p), Ceiling(p), OutValue(Carry(p, c)), Ceiling(Carry(p, c)), val, iv);
  }

  /** Moving the low end up within the interval only changes `val`. */
  lemma InsideDenotes(p: Pending, val: nat, iv: Interval, sub: Interval)
    requires Denotes(p, val, iv)
    requires iv.low <= sub.low && sub.low + sub.rng <= iv.low + iv.rng && sub.shifts == iv.shifts
    ensures Denotes(p, val + sub.low - iv.low, sub)
    ensures val + sub.low - iv.low + sub.rng <= val + iv.rng
  {
  }

  /** The registers after taking the slot [fl, fh) at `r` codes per unit. */
  lemma SlotRegisters(p: Pending, val: nat, iv: Interval, r: nat, fl: nat, fh: nat, ft: nat)
    requires Denotes(p, val, iv) && val + iv.rng < 0x1_0000_0000 && iv.rng <= CODE_TOP
    requires fl < fh <= ft && 0 < r && r * ft <= iv.rng
    ensures 0 <= r * (ft - fl) <= iv.rng && 0 <= r * (ft - fh) < iv.rng && r * (fh - fl) > 0
    ensures var sub := Slice(iv, r, fl, fh, ft);
      && sub.rng == (if fl > 0 then r * (fh - fl) else iv.rng - r * (ft - fh))
      && sub.low - iv.low == (if fl > 0 then iv.rng - r * (ft - fl) else 0)
      && 0 < sub.rng <= CODE_TOP
      && Denotes(p, val + sub.low - iv.low, sub)
      && val + (sub.low - iv.low) + sub.rng < 0x1_0000_0000
  {
    hide Denotes;
    SlotArithmetic(iv.rng, r, fl, fh, ft);
    SliceRange(iv, r, fl, fh, ft);
    InsideDenotes(p, val, iv, Slice(iv, r, fl, fh, ft));
  }

  /** The same for a single bit, whose slot is one unit or all but one. */
  lemma BitRegisters(p: Pending, val: nat, iv: Interval, s: nat, bit: bool, logp: nat)
    requires Denotes(p, val, iv) && val + iv.rng < 0x1_0000_0000 && iv.rng <= CODE_TOP
    requires 1 <= logp <= 23 && 0 < s && s * Pow2(logp) <= iv.rng
    ensures var k := BitSlot(bit, logp);
      var sub := Slice(iv, s, k.fl, k.fh, k.ft);
      && s < iv.rng
      && sub.rng == (if bit then s else iv.rng - s)
      && Denotes(p, if bit then val + (iv.rng - s) else val, sub)
      && 0 < sub.rng <= CODE_TOP
      && (if bit then val + (iv.rng - s) else val) + sub.rng < 0x1_0000_0000
  {
    hide Denotes;
    var k := BitSlot(bit, logp);
    SlotRegisters(p, val, iv, s, k.fl, k.fh, k.ft);
    assert bit ==> k.ft - k.fl == 1 && k.ft - k.fh == 0;
    assert !bit ==> k.ft - k.fh == 1 && k.fl == 0;
    assert s * 1 == s && s * 0 == 0;
    assert Pow2(logp) >= 2;
    MulLe(s, 2, Pow2(logp));
  }

  /** The exact low end ends in the same bits as the register. */
  lemma StartMultiple(p: Pending, val: nat, iv: Interval, end: nat, l: nat)
    requires Denotes(p, val, iv) && l <= 31 && val <= end && end % Pow2(31 - l) == 0
    ensures (iv.low + end - val) % Pow2(31 - l) == 0
  {
    hide Pow2, Pow256;
    CodePowers();
    Pow2Add(31 - l, l);
    var d, u := OutValue(p), Pow2(31 - l);
    assert iv.low + end - val == end + d * CODE_TOP;
    assert CODE_TOP == Pow2(l) * u;
    MulAssoc(d, Pow2(l), u);
    DivAddMultiple(end, u, d * Pow2(l));
  }
}
