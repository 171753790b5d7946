/**
  The end of interp_bits2pulses with its loops, and compute_allocation as a
  whole on both sides of the coder.
 */
module BitFinish {
  import opened Powers
  import opened RangeTranscripts
  import opened RangeRoundTrip
  import opened BitBudget
  import opened BitSkip
  import opened BitSplit
  import opened BitAllocation
  import RangeEncoder
  import RangeDecoder

  /** What the first of the two loops adds: percoeff for every coefficient. */
  method SpreadEvenly(g: Job, bits: array<int>, coded: nat, percoeff: int, ghost was: seq<int>)
    requires JobOk(g) && |was| == g.end && g.start < coded <= g.end <= bits.Length
    requires forall k :: g.start <= k < g.end ==> bits[k] == was[k]
    modifies bits
    ensures forall k :: g.start <= k < coded ==> bits[k] == was[k] + percoeff * Width(g, k)
    ensures forall k :: coded <= k < g.end ==> bits[k] == was[k]
    ensures forall k :: 0 <= k < bits.Length && !(g.start <= k < g.end) ==> bits[k] == old(bits[k])
  {
    for j := g.start to coded
      invariant forall k :: g.start <= k < j ==> bits[k] == was[k] + percoeff * Width(g, k)
      invariant forall k :: j <= k < g.end ==> bits[k] == was[k]
      invariant forall k :: 0 <= k < bits.Length && !(g.start <= k < g.end) ==> bits[k] == old(bits[k])
    {
      bits[j] := bits[j] + percoeff * (g.edges[j + 1] - g.edges[j]);
    }
  }

  /** What the second loop gives band `j` of `left` odd units: one a coefficient while they last. */
  function OddAt(g: Job, left: int, j: nat): int
    requires JobOk(g) && g.start <= j < g.end
  {
    Min(Max(left - (g.edges[j] - g.edges[g.start]), 0), Width(g, j))
  }

  method SpreadOdd(g: Job, bits: array<int>, coded: nat, left0: int)
    requires JobOk(g) && g.start < coded <= g.end <= bits.Length && left0 >= 0
    modifies bits
    ensures forall k :: g.start <= k < coded ==> bits[k] == old(bits[k]) + OddAt(g, left0, k)
    ensures forall k :: 0 <= k < bits.Length && !(g.start <= k < coded) ==> bits[k] == old(bits[k])
  {
    var left := left0;
    for j := g.start to coded
      invariant left == Max(left0 - (g.edges[j] - g.edges[g.start]), 0)
      invariant forall k :: g.start <= k < j ==> bits[k] == old(bits[k]) + OddAt(g, left0, k)
      invariant forall k :: 0 <= k < bits.Length && !(g.start <= k < j) ==> bits[k] == old(bits[k])
    {
      var tmp := Min(left, g.edges[j + 1] - g.edges[j]);
      bits[j] := bits[j] + tmp;
      left := left - tmp;
    }
  }

  /** The two loops that hand out what is left. */
  method SpreadBits(g: Job, bits: array<int>, coded: nat, left0: int, ghost was: seq<int>)
    requires JobOk(g) && Amounts(g, was) && g.start < coded <= g.end <= bits.Length && left0 >= 0
    requires bits[g.start..g.end] == was[g.start..]
    modifies bits
    ensures bits[g.start..g.end] == Spread(g, was, coded, left0)[g.start..]
    ensures forall k :: 0 <= k < bits.Length && !(g.start <= k < g.end) ==> bits[k] == old(bits[k])
  {
    hide SpreadAt, OddAt;
    var all := g.edges[coded] - g.edges[g.start];
    var left := left0;
    var percoeff := left / all;
    left := left - all * percoeff;
    ShareBounds(left0, all, all);
    assert forall k :: g.start <= k < g.end ==> bits[k] == bits[g.start..g.end][k - g.start];
    assert forall k :: g.start <= k < g.end ==> was[k] == was[g.start..][k - g.start];
    SpreadEvenly(g, bits, coded, percoeff, was);
    SpreadOdd(g, bits, coded, left);
    forall k | g.start <= k < coded ensures bits[k] == was[k] + SpreadAt(g, coded, left0, k) {
      BothLoops(g, coded, left0, k);
    }
  }

  lemma BothLoops(g: Job, coded: nat, left: int, k: nat)
    requires JobOk(g) && left >= 0 && g.start <= k < coded <= g.end
    ensures var all := g.edges[coded] - g.edges[g.start];
      all > 0 && SpreadAt(g, coded, left, k) == left / all * Width(g, k) + OddAt(g, left % all, k)
  {
  }

  /** One turn of the fine-energy loop. */
  method FineBand(g: Job, j: nat, bit: int, balance: int, intensity: int, dual: int)
    returns (bits: int, ebits: int, priority: bool, excess: int)
    requires JobOk(g) && j < g.end && bit >= 0
    ensures Fine(bits, ebits, priority, excess) == FineOf(g, j, bit, balance, intensity, dual)
  {
    hide Pow2, FineShare, Absorb, Width, JobOk;
    CapNotNegative(g, j);
    var n := Width(g, j) * Pow2(g.lm);
    if n > 1 {
      excess := Max(bit - g.cap[j], 0);
      bits := bit - excess;
      bits, ebits, priority := SplitBand(g, j, n, bits, g.chans == 2 && n > 2 && dual == 0 && j < intensity);
    } else {
      excess := Max(0, bit - 8 * g.chans);
      bits := bit - excess;
      ebits := 0;
      priority := true;
    }
    if excess > 0 {
      var extraFine := Absorbed(g, excess, ebits);
      ebits := ebits + extraFine;
      var extraBits := extraFine * g.chans * 8;
      Commute(extraFine, g.chans);
      priority := extraBits >= excess - balance;
      excess := excess - extraBits;
    }
  }

  lemma CapNotNegative(g: Job, j: nat)
    requires JobOk(g) && j < g.end
    ensures j < |g.cap| && g.cap[j] >= 0 && j < |g.logN|
  {
  }

  method Absorbed(g: Job, excess: int, ebits: int) returns (extraFine: int)
    requires JobOk(g) && excess >= 0 && 0 <= ebits <= MAX_FINE_BITS
    ensures extraFine == Absorb(g, excess, ebits)
  {
    extraFine := Min(PerChannel(g, excess) / 8, MAX_FINE_BITS - ebits);
  }

  lemma Commute(a: int, b: int)
    ensures a * b * 8 == 8 * b * a
    ensures a * b * 8 == 8 * a * b
  {
  }

  /** The fine bits of a band of several coefficients, taken off its share. */
  method SplitBand(g: Job, j: nat, n: int, bits0: int, extraDof: bool) returns (bits: int, ebits: int, priority: bool)
    requires JobOk(g) && j < g.end && bits0 >= 0 && n > 1
    ensures var share := FineShare(g, j, n, bits0, extraDof);
      ebits == share.0 && priority == share.1 && bits == bits0 - 8 * g.chans * share.0
  {
    hide Offset, Fair, Affordable, JobOk;
    CapNotNegative(g, j);
    var den := Dof(g, n, extraDof);
    var offset := FineOffset(bits0, n, den, g.logN[j] + 8 * g.lm);
    ebits := FineBits(g, bits0, offset, den);
    priority := ebits * (den * 8) >= bits0 + offset;
    Commute(g.chans, ebits);
    bits := bits0 - g.chans * ebits * 8;
  }

  /** NClogN and the offset made from it. */
  method FineOffset(bits0: int, n: int, den: int, logN: int) returns (offset: int)
    ensures offset == Offset(bits0, n, den, logN)
  {
    var nclog := den * logN;
    offset := nclog / 2 - den * FINE_OFFSET;
    if n == 2 {
      offset := offset + den * 8 / 4;
    }
    if bits0 + offset < den * 2 * 8 {
      offset := offset + nclog / 4;
    } else if bits0 + offset < den * 3 * 8 {
      offset := offset + nclog / 8;
    }
  }

  /** The division with rounding, and the limits on its result. */
  method FineBits(g: Job, bits0: int, offset: int, den: int) returns (ebits: int)
    requires JobOk(g) && bits0 >= 0 && den > 0
    ensures ebits == Affordable(g, bits0, Fair(bits0, offset, den))
  {
    ebits := Max(0, bits0 + offset + den * 4);
    ebits := ebits / den / 8;
    assert ebits == Fair(bits0, offset, den);
    if g.chans * ebits > bits0 / 8 {
      ebits := PerChannel(g, bits0) / 8;
    }
    ebits := Min(ebits, MAX_FINE_BITS);
  }

  /** The arrays hold the split of the bands. */
  ghost predicate Holds(r: seq<Fine>, bits: seq<int>, ebits: seq<int>, priority: seq<bool>, a: nat, b: nat)
  {
    && b <= |r| && b <= |bits| && b <= |ebits| && b <= |priority|
    && forall j :: a <= j < b ==> Fits(r[j], bits[j], ebits[j], priority[j])
  }

  /** The loop over coded bands. */
  method SplitCoded(g: Job, bits: array<int>, ebits: array<int>, priority: array<bool>, coded: nat, intensity: int, dual: int,
                    ghost was: seq<int>) returns (balance: int)
    requires JobOk(g) && Amounts(g, was) && g.start < coded <= g.end
    requires bits.Length >= g.end && ebits.Length >= g.end && priority.Length >= g.end && bits != ebits
    requires forall k :: g.start <= k < g.end ==> bits[k] == was[k]
    modifies bits, ebits, priority
    ensures forall k :: g.start <= k < coded ==> Fits(FineAt(g, was, intensity, dual, k), bits[k], ebits[k], priority[k])
    ensures forall k :: coded <= k < g.end ==> bits[k] == was[k]
    ensures balance == Balance(g, was, intensity, dual, coded)
  {
    hide FineOf, FineAt, Balance;
    balance := 0;
    BalanceAt(g, was, intensity, dual, g.start);
    for j := g.start to coded
      invariant balance == Balance(g, was, intensity, dual, j) && balance >= 0
      invariant forall k :: j <= k < g.end ==> bits[k] == was[k]
      invariant forall k :: g.start <= k < j ==> Fits(FineAt(g, was, intensity, dual, k), bits[k], ebits[k], priority[k])
    {
      BalanceAt(g, was, intensity, dual, j);
      bits[j], ebits[j], priority[j], balance := FineBand(g, j, bits[j] + balance, balance, intensity, dual);
      BalanceAt(g, was, intensity, dual, j + 1);
    }
  }

  predicate Fits(f: Fine, bits: int, ebits: int, priority: bool)
  {
    f.pulses == bits && f.ebits == ebits && f.priority == priority
  }

  lemma BalanceAt(g: Job, bits: seq<int>, intensity: int, dual: int, j: nat)
    requires JobOk(g) && Amounts(g, bits) && g.start <= j <= g.end
    ensures Balance(g, bits, intensity, dual, j) >= 0
    ensures j == g.start ==> Balance(g, bits, intensity, dual, j) == 0
    ensures j > g.start ==> Balance(g, bits, intensity, dual, j) == FineAt(g, bits, intensity, dual, j - 1).balance
    ensures j < g.end ==> bits[j] >= 0 && var b := Balance(g, bits, intensity, dual, j);
      FineAt(g, bits, intensity, dual, j) == FineOf(g, j, bits[j] + b, b, intensity, dual)
  {
    hide FineOf;
  }

  /** The last two loops: coded bands are split, skipped bands use their bits for fine energy. */
  method SplitBands(g: Job, bits: array<int>, ebits: array<int>, priority: array<bool>, coded: nat, intensity: int, dual: int,
                    ghost was: seq<int>) returns (balance: int)
    requires JobOk(g) && Amounts(g, was) && g.start < coded <= g.end
    requires bits.Length >= g.end && ebits.Length >= g.end && priority.Length >= g.end && bits != ebits
    requires bits[g.start..g.end] == was[g.start..]
    modifies bits, ebits, priority
    ensures Holds(Split(g, was, coded, intensity, dual), bits[..], ebits[..], priority[..], g.start, g.end)
    ensures balance == Balance(g, was, intensity, dual, coded)
  {
    hide FineOf, FineAt, Balance;
    assert forall k :: g.start <= k < g.end ==> bits[k] == bits[g.start..g.end][k - g.start];
    assert forall k :: g.start <= k < g.end ==> was[k] == was[g.start..][k - g.start];
    balance := SplitCoded(g, bits, ebits, priority, coded, intensity, dual, was);
    SplitSkipped(g, bits, ebits, priority, coded, was);
  }

  /** The bands past the last coded one: what they kept goes to fine energy. */
  method SplitSkipped(g: Job, bits: array<int>, ebits: array<int>, priority: array<bool>, coded: nat, ghost was: seq<int>)
    requires JobOk(g) && g.start < coded <= g.end && |was| >= g.end
    requires bits.Length >= g.end && ebits.Length >= g.end && priority.Length >= g.end && bits != ebits
    requires forall k :: coded <= k < g.end ==> bits[k] == was[k] && was[k] >= 0
    modifies bits, ebits, priority
    ensures forall k :: g.start <= k < coded ==>
      bits[k] == old(bits[k]) && ebits[k] == old(ebits[k]) && priority[k] == old(priority[k])
    ensures forall k :: coded <= k < g.end ==> Fits(FineSkipped(g, was[k]), bits[k], ebits[k], priority[k])
  {
    hide JobOk;
    for j := coded to g.end
      invariant forall k :: j <= k < g.end ==> bits[k] == was[k]
      invariant forall k :: g.start <= k < coded ==>
        bits[k] == old(bits[k]) && ebits[k] == old(ebits[k]) && priority[k] == old(priority[k])
      invariant forall k :: coded <= k < j ==> Fits(FineSkipped(g, was[k]), bits[k], ebits[k], priority[k])
    {
      ebits[j] := PerChannel(g, bits[j]) / 8;
      bits[j] := 0;
      priority[j] := ebits[j] < 1;
    }
  }

  /** The stereo parameters on the encoder's side. */
  method EncodeStereo(enc: RangeEncoder.Encoder, g: Job, ch: Choice, coded: nat, kept: nat, reserved: nat)
    returns (intensity: int, dual: int, dualKept: nat)
    requires enc.Valid() && StateOk(Coder(enc)) && JobOk(g) && ChoiceOk(g, ch) && g.start < coded <= g.end
    modifies enc, enc.buf
    ensures enc.Valid() && enc.buf == old(enc.buf) && enc.storage == old(enc.storage)
    ensures var t := StereoPlan(g, ch, coded, kept, reserved);
      && Coder(enc) == RunFrom(old(Coder(enc)), t.items)
      && intensity == t.intensity && dual == t.dual && dualKept == t.dualKept
  {
    hide RunFrom, Next, RangeEncoder.Encoder.Valid, IntensityItem;
    ghost var st := Coder(enc);
    ghost var sent: seq<Item> := [];
    EmptyRun(st);
    if kept > 0 {
      intensity := Min(ch.intensity, coded);
      var item := IntensityItem(g, coded, ch.intensity);
      EncodeNext(enc, item.model, item.value, st, sent);
      sent := sent + [item];
      assert sent == [item];
    } else {
      intensity := 0;
    }
    dualKept := reserved;
    if intensity <= g.start {
      dualKept := 0;
    }
    if dualKept > 0 {
      EncodeNext(enc, BitLogp(1), ch.dual, st, sent);
      dual := ch.dual;
    } else {
      dual := 0;
    }
  }

  /** The stereo parameters on the decoder's side. */
  method DecodeStereo(dec: RangeDecoder.Decoder, g: Job, coded: nat, kept: nat, reserved: nat,
                      ghost ch: Choice, ghost st: State, ghost extra: seq<Item>)
    returns (intensity: int, dual: int, dualKept: nat)
    requires At(dec, st) && JobOk(g) && ChoiceOk(g, ch) && g.start < coded <= g.end && AllCodable(extra)
    requires Conveys(dec.Stream(), RunFrom(st, StereoPlan(g, ch, coded, kept, reserved).items + extra))
    modifies dec
    ensures StateOk(st)
    ensures var t := StereoPlan(g, ch, coded, kept, reserved);
      && At(dec, RunFrom(st, t.items)) && Conveys(dec.Stream(), RunFrom(RunFrom(st, t.items), extra))
      && intensity == t.intensity && dual == t.dual && dualKept == t.dualKept
  {
    hide RunFrom, Next, At, Conveys, IntensityItem;
    AtState(dec, st);
    EmptyRun(st);
    ghost var t := StereoPlan(g, ch, coded, kept, reserved);
    ghost var cur := st;
    ghost var dualItems := if t.dualKept > 0 then [DualItem(ch.dual)] else [];
    if kept > 0 {
      ghost var item := IntensityItem(g, coded, ch.intensity);
      IntensityIs(g, coded, ch.intensity);
      assert t.items + extra == [item] + (dualItems + extra);
      RunAppend(st, [], item);
      assert [] + [item] == [item];
      var i := DecodeNext(dec, Uniform(coded + 1 - g.start), cur, item, dualItems + extra);
      cur := Next(cur, item.model, i);
      intensity := g.start + i;
    } else {
      assert t.items + extra == dualItems + extra;
      intensity := 0;
    }
    ghost var before := if kept > 0 then [IntensityItem(g, coded, ch.intensity)] else [];
    assert cur == RunFrom(st, before) && t.items == before + dualItems;
    dualKept := reserved;
    if intensity <= g.start {
      dualKept := 0;
    }
    if dualKept > 0 {
      RunAppend(st, before, DualItem(ch.dual));
      dual := DecodeNext(dec, BitLogp(1), cur, DualItem(ch.dual), extra);
    } else {
      assert dualItems + extra == extra;
      dual := 0;
    }
  }

  lemma IntensityIs(g: Job, coded: nat, intensity: int)
    requires JobOk(g) && g.start < coded <= g.end && intensity >= g.start
    ensures var i := IntensityItem(g, coded, intensity);
      i.model == Uniform(coded + 1 - g.start) && i.value == Min(intensity, coded) - g.start
  {
  }

  /** The last stretch of interp_bits2pulses, the same on both sides. */
  method Finish(g: Job, ghost d: Decided, coded: nat, psum: int, kept: nat, total: int, intensity: int, dual: int,
                bits: array<int>, ebits: array<int>, priority: array<bool>)
    returns (balance: int)
    requires SkipOk(g, d.total, d.skip) && Shows(g, d.skip, coded, psum, kept, bits[..])
    requires total == d.total && intensity == d.intensity && dual == d.dual
    requires bits.Length >= g.end && ebits.Length >= g.end && priority.Length >= g.end && bits != ebits
    modifies bits, ebits, priority
    ensures var fine := Split(g, Shares(g, d), d.skip.coded, d.intensity, d.dual);
      Holds(fine, bits[..], ebits[..], priority[..], g.start, g.end)
    ensures balance == Balance(g, Shares(g, d), d.intensity, d.dual, d.skip.coded)
  {
    hide Spread, Split, Balance;
    assert bits[..][g.start..g.end] == bits[g.start..g.end];
    SpreadBits(g, bits, coded, total - psum, d.skip.bits);
    balance := SplitBands(g, bits, ebits, priority, coded, intensity, dual, Shares(g, d));
  }

  /** The reservations compute_allocation makes first. */
  method Reserving(g: Job, total0: int) returns (r: Reserve)
    requires JobOk(g)
    ensures r == Reserved(g, total0)
  {
    var total := Max(total0, 0);
    var skipRsv: nat := if total >= 8 then 8 else 0;
    total := total - skipRsv;
    var intensityRsv: nat, dualRsv: nat := 0, 0;
    if g.chans == 2 {
      intensityRsv := ChoiceCost(g.end - g.start);
      if intensityRsv > total {
        intensityRsv := 0;
      } else {
        total := total - intensityRsv;
        dualRsv := if total >= 8 then 8 else 0;
        total := total - dualRsv;
      }
    }
    r := Reserve(total, skipRsv, intensityRsv, dualRsv);
  }

  /** compute_allocation with encode set. */
  method EncodeAllocation(enc: RangeEncoder.Encoder, g: Job, ch: Choice, total: int,
                          bits: array<int>, ebits: array<int>, priority: array<bool>)
    returns (coded: nat, intensity: int, dual: int, balance: int)
    requires enc.Valid() && StateOk(Coder(enc)) && JobOk(g) && ChoiceOk(g, ch)
    requires bits.Length >= g.end && ebits.Length >= g.end && priority.Length >= g.end
    requires bits != ebits && bits as object != enc.buf && ebits as object != enc.buf && priority as object != enc.buf
    modifies enc, enc.buf, bits, ebits, priority
    ensures enc.Valid() && enc.buf == old(enc.buf) && enc.storage == old(enc.storage)
    ensures var o := Allocate(g, ch, total);
      && Coder(enc) == RunFrom(old(Coder(enc)), o.decided.items)
      && coded == o.decided.skip.coded && intensity == o.decided.intensity && dual == o.decided.dual
      && balance == o.balance && Holds(o.fine, bits[..], ebits[..], priority[..], g.start, g.end)
  {
    hide RunFrom, RangeEncoder.Encoder.Valid, SkipPlan, StereoPlan, FirstSkip, Split, Balance, Shows, Holds, Shares, Reserved;
    ghost var st := Coder(enc);
    var r := Reserving(g, total);
    var psum := Begin(g, r, bits);
    ghost var s0 := FirstSkip(g, r);
    var kept, byFlag;
    coded, psum, kept, byFlag := EncodeSkip(enc, g, ch, r, bits, psum, s0);
    ghost var k := SkipPlan(g, ch, r.total, s0);
    ShownCoded(g, k.last, coded, psum, kept, bits[..]);
    var dualKept;
    intensity, dual, dualKept := EncodeStereo(enc, g, ch, coded, kept, r.dual);
    RunConcat(st, k.items, StereoPlan(g, ch, coded, kept, r.dual).items);
    ghost var d := Decide(g, ch, total);
    balance := Finish(g, d, coded, psum, kept, r.total + (if byFlag then 0 else r.skip) + r.dual - dualKept, intensity, dual, bits, ebits, priority);
  }

  /**
    compute_allocation with encode clear.  On a packet that conveys what the
    encoder sent it arrives at the very same allocation.
   */
  method DecodeAllocation(dec: RangeDecoder.Decoder, g: Job, total: int,
                          bits: array<int>, ebits: array<int>, priority: array<bool>,
                          ghost ch: Choice, ghost st: State, ghost extra: seq<Item>)
    returns (coded: nat, intensity: int, dual: int, balance: int)
    requires At(dec, st) && JobOk(g) && ChoiceOk(g, ch) && AllCodable(extra)
    requires bits.Length >= g.end && ebits.Length >= g.end && priority.Length >= g.end
    requires bits != ebits && bits as object != dec.buf && ebits as object != dec.buf && priority as object != dec.buf
    requires Conveys(dec.Stream(), RunFrom(st, Allocate(g, ch, total).decided.items + extra))
    modifies dec, bits, ebits, priority
    ensures StateOk(st)
    ensures var o := Allocate(g, ch, total);
      && At(dec, RunFrom(st, o.decided.items)) && Conveys(dec.Stream(), RunFrom(RunFrom(st, o.decided.items), extra))
      && coded == o.decided.skip.coded && intensity == o.decided.intensity && dual == o.decided.dual
      && balance == o.balance && Holds(o.fine, bits[..], ebits[..], priority[..], g.start, g.end)
  {
    hide RunFrom, At, Conveys, SkipPlan, StereoPlan, FirstSkip, Split, Balance, Shows, Holds, Shares, Reserved;
    AtState(dec, st);
    var r := Reserving(g, total);
    ghost var s0 := FirstSkip(g, r);
    ghost var k := SkipPlan(g, ch, r.total, s0);
    ghost var t := StereoPlan(g, ch, k.last.coded, k.last.kept, r.dual);
    ghost var d := Decide(g, ch, total);
    assert d.items + extra == k.items + (t.items + extra);
    RunConcat(st, k.items, t.items);
    assert allocated(dec.Stream());
    ghost var data := dec.Stream();
    var psum := Begin(g, r, bits);
    assert At(dec, st) && dec.Stream() == data;
    var kept, byFlag;
    ghost var cur;
    coded, psum, kept, byFlag, cur := DecodeSkip(dec, g, r, bits, psum, ch, s0, st, t.items + extra);
    ShownCoded(g, k.last, coded, psum, kept, bits[..]);
    var dualKept;
    intensity, dual, dualKept := DecodeStereo(dec, g, coded, kept, r.dual, ch, cur, extra);
    balance := Finish(g, d, coded, psum, kept, r.total + (if byFlag then 0 else r.skip) + r.dual - dualKept, intensity, dual, bits, ebits, priority);
  }
}
