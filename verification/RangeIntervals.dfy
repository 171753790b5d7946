/**
  What the range coder means, in exact integer arithmetic: a state stands for
  the half-open interval [low, low + rng) of (31 + 8 * shifts)-bit codes that
  still decode to the symbols seen so far.  The coder proper keeps only 32 bits
  of `low`; this module is the reference it is proved against.
 */
module RangeIntervals {
  import opened Powers
  import opened ByteStreams

  /** EC_CODE_TOP, EC_CODE_BOT and EC_CODE_BITS. */
  const CODE_TOP: nat := 0x8000_0000
  const CODE_BOT: nat := 0x80_0000
  const CODE_BITS: nat := 32

  datatype Interval = Interval(low: nat, rng: nat, shifts: nat)

  /** Symbol frequencies: the slot [fl, fh) out of a total of `ft`. */
  datatype Slot = Slot(fl: nat, fh: nat, ft: nat)

  predicate SlotOk(k: Slot)
  {
    k.fl < k.fh <= k.ft <= CODE_BOT
  }

  const InitialInterval := Interval(0, CODE_TOP, 0)

  predicate Normal(iv: Interval)
  {
    CODE_BOT < iv.rng <= CODE_TOP
  }

  /** The slot [fl, fh) out of `ft` when each unit of frequency is `r` codes wide. */
  function Slice(iv: Interval, r: nat, fl: nat, fh: nat, ft: nat): Interval
    requires fl < fh <= ft && 0 < r && r * ft <= iv.rng
  {
    SlotArithmetic(iv.rng, r, fl, fh, ft);
    if fl > 0 then Interval(iv.low + iv.rng - r * (ft - fl), r * (fh - fl), iv.shifts)
    else Interval(iv.low, iv.rng - r * (ft - fh), iv.shifts)
  }

  /** The width of one unit of frequency out of `ft`. */
  function Unit(rng: nat, ft: nat): (r: nat)
    requires 0 < ft <= rng
    ensures 0 < r && r * ft <= rng
  {
    rng / ft
  }

  /** The part of `iv` given to a slot. */
  function Narrow(iv: Interval, k: Slot): Interval
    requires k.fl < k.fh <= k.ft <= iv.rng
  {
    Slice(iv, Unit(iv.rng, k.ft), k.fl, k.fh, k.ft)
  }

  /** Appends whole bytes of precision until the range is back above CODE_BOT. */
  function Renorm(iv: Interval): (r: Interval)
    requires 0 < iv.rng <= CODE_TOP
    ensures Normal(r)
    decreases CODE_TOP - iv.rng
  {
    if iv.rng <= CODE_BOT then Renorm(Interval(256 * iv.low, 256 * iv.rng, iv.shifts + 1)) else iv
  }

  /** The code word at the precision of a state that has shifted `shifts` times. */
  function Code(s: seq<byte>, shifts: nat): nat
  {
    Prefix(s, shifts + 4) / 2
  }

  /** Codes of `n` bytes less one bit that the range [low, low + rng) covers. */
  predicate Covers(low: nat, rng: nat, n: nat, s: seq<byte>)
  {
    low <= Prefix(s, n) / 2 < low + rng
  }

  /** The packet `s` lies in the interval. */
  predicate Holds(iv: Interval, s: seq<byte>)
  {
    iv.low <= Code(s, iv.shifts) < iv.low + iv.rng
  }

  /**
    What ec_decode computes: the cumulative frequency at a code that is `val`
    below the top of the range (less one).
   */
  function FrequencyAt(rng: nat, val: nat, ft: nat): (fm: nat)
    requires 0 < ft <= rng
    ensures fm < ft
  {
    var s := val / Unit(rng, ft);
    if s + 1 < ft then ft - (s + 1) else 0
  }

  /** Distance from the top of the range, as the decoder keeps it. */
  function Distance(iv: Interval, s: seq<byte>): nat
    requires Holds(iv, s)
  {
    iv.low + iv.rng - 1 - Code(s, iv.shifts)
  }

  lemma SlotArithmetic(rng: nat, r: nat, fl: nat, fh: nat, ft: nat)
    requires fl < fh <= ft && 0 < r && r * ft <= rng
    ensures 0 < r * (fh - fl)
    ensures r * (ft - fl) - r * (fh - fl) == r * (ft - fh)
    ensures r * (ft - fh) < r * ft <= rng
    ensures r * (ft - fl) <= rng
  {
    MulLe(r, 1, fh - fl);
    MulLe(r, ft - fl, ft);
    MulLe(r, ft - fh, ft - 1);
  }

  lemma SliceRange(iv: Interval, r: nat, fl: nat, fh: nat, ft: nat)
    requires fl < fh <= ft && 0 < r && r * ft <= iv.rng
    ensures var s := Slice(iv, r, fl, fh, ft);
      && 0 < s.rng <= iv.rng
      && iv.low <= s.low
      && s.low + s.rng == iv.low + iv.rng - r * (ft - fh)
  {
    SlotArithmetic(iv.rng, r, fl, fh, ft);
  }

  lemma NarrowRange(iv: Interval, k: Slot)
    requires k.fl < k.fh <= k.ft <= iv.rng
    ensures var s := Narrow(iv, k);
      && 0 < s.rng <= iv.rng
      && iv.low <= s.low
      && s.low + s.rng <= iv.low + iv.rng
  {
    hide Slice, Unit;
    var r := Unit(iv.rng, k.ft);
    SliceRange(iv, r, k.fl, k.fh, k.ft);
    MulLe(r, 0, k.ft - k.fh);
  }

  /** The packet lies in `iv` and the decoder reads a frequency in the slot. */
  predicate PointsAt(iv: Interval, k: Slot, s: seq<byte>)
    requires 0 < k.ft <= iv.rng
  {
    Holds(iv, s) && k.fl <= FrequencyAt(iv.rng, Distance(iv, s), k.ft) < k.fh
  }

  /** The sub-interval that runs from `b` to `a` below the top. */
  lemma CutFromTop(iv: Interval, a: nat, b: nat, s: seq<byte>)
    requires b < a <= iv.rng
    ensures Holds(Interval(iv.low + iv.rng - a, a - b, iv.shifts), s) <==>
      Holds(iv, s) && b <= Distance(iv, s) < a
  {
  }

  /** A slot's interval, measured from the top of the enclosing one. */
  lemma SliceFromTop(iv: Interval, r: nat, fl: nat, fh: nat, ft: nat, s: seq<byte>)
    requires fl < fh <= ft && 0 < r && r * ft <= iv.rng
    ensures Holds(Slice(iv, r, fl, fh, ft), s) <==>
      Holds(iv, s) && r * (ft - fh) <= Distance(iv, s) && (fl > 0 ==> Distance(iv, s) < r * (ft - fl))
  {
    SlotArithmetic(iv.rng, r, fl, fh, ft);
    var a, b := if fl > 0 then r * (ft - fl) else iv.rng, r * (ft - fh);
    CutFromTop(iv, a, b, s);
  }

  /**
    The heart of decoding: among the slots of a model, the frequency computed
    from the code points at exactly the slot whose interval holds the code.
   */
  lemma FrequencyFindsSlot(iv: Interval, k: Slot, s: seq<byte>)
    requires k.fl < k.fh <= k.ft <= iv.rng
    ensures Holds(Narrow(iv, k), s) <==> PointsAt(iv, k, s)
  {
    var r := Unit(iv.rng, k.ft);
    SliceFromTop(iv, r, k.fl, k.fh, k.ft, s);
    if Holds(iv, s) {
      SlotOfQuotient(r, Distance(iv, s), k.fl, k.fh, k.ft);
    }
  }

  lemma SlotOfQuotient(r: nat, val: nat, fl: nat, fh: nat, ft: nat)
    requires fl < fh <= ft && r > 0
    ensures var s := val / r;
      (r * (ft - fh) <= val && (fl > 0 ==> val < r * (ft - fl))) <==>
      fl <= (if s + 1 < ft then ft - (s + 1) else 0) < fh
  {
    QuotientAtLeast(val, r, ft - fh);
    QuotientAtLeast(val, r, ft - fl);
  }

  lemma QuotientAtLeast(a: nat, r: nat, n: nat)
    requires r > 0
    ensures r * n <= a <==> n <= a / r
  {
    var q, m := a / r, a % r;
    assert a == r * q + m;
    if n <= q {
      MulLe(r, n, q);
    } else {
      MulLe(r, q + 1, n);
      assert r * (q + 1) == r * q + r;
    }
  }

  /** The seven-bit overlap: a code of 8n - 1 bits grows by eight bits. */
  lemma HalfShift(p: nat, a: byte, b: byte)
    ensures (256 * (256 * p + a) + b) / 2 == 256 * ((256 * p + a) / 2) + ((a * 256 + b) / 2) % 256
  {
    var h, e, c := a / 2, a % 2, b / 2;
    assert a == 2 * h + e;
    assert (a * 256 + b) / 2 == 256 * h + (128 * e + c);
    assert (256 * h + (128 * e + c)) % 256 == 128 * e + c;
    assert (256 * p + a) / 2 == 128 * p + h;
  }

  lemma PrefixStep(s: seq<byte>, n: nat)
    requires n > 0
    ensures Prefix(s, n + 1) / 2 == 256 * (Prefix(s, n) / 2) + ((ByteAt(s, n - 1) * 256 + ByteAt(s, n)) / 2) % 256
  {
    HalfShift(Prefix(s, n - 1), ByteAt(s, n - 1), ByteAt(s, n));
  }

  /** Rescaling loses nothing: the same packets lie in the rescaled interval. */
  lemma {:induction false} RenormHolds(iv: Interval, s: seq<byte>)
    requires 0 < iv.rng <= CODE_TOP
    ensures Holds(Renorm(iv), s) <==> Holds(iv, s)
    decreases CODE_TOP - iv.rng
  {
    if iv.rng <= CODE_BOT {
      PrefixStep(s, iv.shifts + 4);
      RenormHolds(Interval(256 * iv.low, 256 * iv.rng, iv.shifts + 1), s);
    }
  }

  /** The state after coding a slot. */
  function Step(iv: Interval, k: Slot): (r: Interval)
    requires Normal(iv) && SlotOk(k)
    ensures Normal(r)
  {
    NarrowRange(iv, k);
    Renorm(Narrow(iv, k))
  }

  /** Intervals only shrink, and the slot decoded is the slot coded. */
  lemma StepHolds(iv: Interval, k: Slot, s: seq<byte>)
    requires Normal(iv) && SlotOk(k)
    ensures Holds(Step(iv, k), s) <==> PointsAt(iv, k, s)
  {
    NarrowRange(iv, k);
    RenormHolds(Narrow(iv, k), s);
    FrequencyFindsSlot(iv, k, s);
  }

  /** Rescaling does not care where the count of bytes starts. */
  lemma {:induction false} RenormOffset(iv: Interval, k: nat)
    requires 0 < iv.rng <= CODE_TOP
    ensures Renorm(iv.(shifts := iv.shifts + k)) == Renorm(iv).(shifts := Renorm(iv).shifts + k)
    decreases CODE_TOP - iv.rng
  {
    if iv.rng <= CODE_BOT {
      RenormOffset(Interval(256 * iv.low, 256 * iv.rng, iv.shifts + 1), k);
    }
  }

  /** A 32-bit left shift by eight, before masking or within range. */
  lemma WrappedShift(x: nat)
    ensures (x * 256) % 0x1_0000_0000 % CODE_TOP == (x * 256) % CODE_TOP
    ensures x <= CODE_BOT ==> (x * 256) % 0x1_0000_0000 == 256 * x
  {
  }

  /** Reading one more byte: the decoder's shift of `val`. */
  lemma ReadStep(low: nat, rng: nat, n: nat, s: seq<byte>)
    requires Covers(low, rng, n, s) && 0 < rng <= CODE_BOT && n > 0
    ensures Covers(256 * low, 256 * rng, n + 1, s)
    ensures var val := low + rng - 1 - Prefix(s, n) / 2;
      var sym := (ByteAt(s, n - 1) * 256 + ByteAt(s, n)) / 2;
      (val * 256 + (255 - sym % 256)) % CODE_TOP == 256 * low + 256 * rng - 1 - Prefix(s, n + 1) / 2
  {
    hide Prefix;
    PrefixStep(s, n);
    var val := low + rng - 1 - Prefix(s, n) / 2;
    var sym := (ByteAt(s, n - 1) * 256 + ByteAt(s, n)) / 2;
    assert val * 256 + (255 - sym % 256) == 256 * low + 256 * rng - 1 - Prefix(s, n + 1) / 2;
  }

  /** The decoder's registers after taking the slot its frequency points at. */
  lemma SlotDistance(iv: Interval, k: Slot, s: seq<byte>)
    requires Normal(iv) && SlotOk(k) && PointsAt(iv, k, s)
    ensures var sub, r := Narrow(iv, k), Unit(iv.rng, k.ft);
      && Holds(sub, s) && sub.shifts == iv.shifts
      && 0 < sub.rng <= CODE_TOP
      && 0 <= r * (k.ft - k.fh) <= Distance(iv, s)
      && Distance(sub, s) == Distance(iv, s) - r * (k.ft - k.fh)
      && r * (k.fh - k.fl) > 0
      && sub.rng == (if k.fl > 0 then r * (k.fh - k.fl) else iv.rng - r * (k.ft - k.fh))
  {
    hide Unit, FrequencyAt, Prefix;
    FrequencyFindsSlot(iv, k, s);
    var r := Unit(iv.rng, k.ft);
    SliceFromTop(iv, r, k.fl, k.fh, k.ft, s);
    SliceWidth(iv, r, k.fl, k.fh, k.ft);
    hide Slice;
    TopCut(iv, Narrow(iv, k), r * (k.ft - k.fh), s);
  }

  /** How wide a slot's interval is, and how far its top lies below the top of the range. */
  lemma SliceWidth(iv: Interval, r: nat, fl: nat, fh: nat, ft: nat)
    requires fl < fh <= ft && 0 < r && r * ft <= iv.rng
    ensures var sub := Slice(iv, r, fl, fh, ft);
      && sub.shifts == iv.shifts && 0 < sub.rng <= iv.rng
      && sub.low + sub.rng == iv.low + iv.rng - r * (ft - fh)
      && sub.rng == (if fl > 0 then r * (fh - fl) else iv.rng - r * (ft - fh))
      && 0 <= r * (ft - fh) && r * (fh - fl) > 0
  {
    SlotArithmetic(iv.rng, r, fl, fh, ft);
    SliceRange(iv, r, fl, fh, ft);
  }

  /** The distance from a top that is `cut` lower. */
  lemma TopCut(iv: Interval, sub: Interval, cut: nat, s: seq<byte>)
    requires Holds(iv, s) && Holds(sub, s) && sub.shifts == iv.shifts
    requires sub.low + sub.rng == iv.low + iv.rng - cut
    ensures Distance(sub, s) == Distance(iv, s) - cut
  {
    hide Code;
  }
}
