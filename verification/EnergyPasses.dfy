/**
  quant_coarse_energy (celt/quant_bands.c): a frame may be coded twice, with and
  without prediction from the last frame, and the cheaper pass kept.  Only the
  encoder's registers are copied; both passes write to the same buffer.
 */
module EnergyPasses {
  import opened Powers
  import opened ByteStreams
  import opened RangeIntervals
  import opened RangeTranscripts
  import opened RangeRoundTrip
  import opened CoarseEnergy
  import opened EnergyCoder
  import opened TellFrac
  import RangeEncoder

  /** How far an energy may fall in one frame. */
  function MaxDecay(f: Frame, available: nat): int
  {
    var limit := if f.end - f.start > 10 then Min(16384, available * 128) else 16384;
    if f.lfe then 3 else limit
  }

  /** What a restless frame adds to the price of prediction, in unsigned 32-bit arithmetic. */
  function IntraBias(f: Frame, delayedIntra: nat, lossRate: nat): int
    requires f.chans > 0
  {
    f.budget * delayedIntra * lossRate % 0x1_0000_0000 / (f.chans * 512)
  }

  /** The frame one of the passes codes. */
  function PassFrame(f: Frame, available: nat, intra: bool): (g: Frame)
    ensures FrameOk(f) ==> FrameOk(g) && Size(g) == Size(f)
  {
    f.(intra := intra, maxDecay := MaxDecay(f, available))
  }

  method CopyArray(from: array<int>, to: array<int>, size: nat)
    requires from != to && size <= from.Length && size <= to.Length
    modifies to
    ensures to[..] == from[..size] + old(to[size..])
  {
    var k := 0;
    while k < size
      invariant k <= size
      invariant forall i :: 0 <= i < to.Length ==> to[i] == if i < k then from[i] else old(to[i])
    {
      to[k] := from[k];
      k := k + 1;
    }
  }

  /** The encoder, energies and errors are those of one pass alone, on the frame as it came. */
  ghost predicate PassAlone(f: Frame, x: seq<int>, st0: State, past0: seq<int>, error0: seq<int>,
                            st: State, past: seq<int>, error: seq<int>, badness: int)
  {
    && StateOk(st0) && FrameOk(f) && |x| >= Size(f) && |past0| >= Size(f) && |error0| >= Size(f)
    && var p := Whole(f, x, st0, past0, error0);
       && st == RunFrom(st0, p.items) && past == p.sent.energy.past
       && |p.sent.error| >= Size(f) && |error| >= Size(f) && error[..Size(f)] == p.sent.error[..Size(f)]
       && badness == if f.lfe then 0 else p.sent.badness
  }

  /** A pass on copies, whose errors start from whatever is in the new array. */
  method PassOnCopies(enc: RangeEncoder.Encoder, f: Frame, x: seq<int>, past: array<int>)
    returns (past1: array<int>, error1: array<int>, badness: int, ghost error0: seq<int>)
    requires enc.Valid() && StateOk(Coder(enc)) && FrameOk(f) && |x| >= Size(f) && past.Length >= Size(f)
    modifies enc, enc.buf
    ensures enc.Valid() && enc.buf == old(enc.buf) && enc.storage == old(enc.storage) && enc.FrontGrew()
    ensures fresh(past1) && fresh(error1) && past1.Length == past.Length && error1.Length == Size(f)
    ensures PassAlone(f, x, old(Coder(enc)), old(past[..]), error0, Coder(enc), past1[..], error1[..], badness)
  {
    hide RangeEncoder.Encoder.Valid, Whole, RunFrom, StateOk;
    past1 := new int[past.Length];
    error1 := new int[Size(f)];
    CopyArray(past, past1, past.Length);
    assert past1[..] == past[..];
    error0 := error1[..];
    ghost var prev;
    badness, prev := QuantCoarseEnergy(enc, f, x, past1, error1);
  }

  /** The pass in place. */
  method PassInPlace(enc: RangeEncoder.Encoder, f: Frame, x: seq<int>, past: array<int>, error: array<int>)
    returns (badness: int)
    requires enc.Valid() && StateOk(Coder(enc)) && FrameOk(f)
    requires past != error && past as object != enc.buf && error as object != enc.buf
    requires |x| >= Size(f) && past.Length >= Size(f) && error.Length >= Size(f)
    modifies enc, enc.buf, past, error
    ensures enc.Valid() && enc.buf == old(enc.buf) && enc.storage == old(enc.storage) && enc.FrontGrew()
    ensures PassAlone(f, x, old(Coder(enc)), old(past[..]), old(error[..]), Coder(enc), past[..], error[..], badness)
  {
    hide RangeEncoder.Encoder.Valid, Whole, RunFrom, StateOk;
    ghost var prev;
    badness, prev := QuantCoarseEnergy(enc, f, x, past, error);
  }

  /** Keeps what the first pass wrote, goes back to `start` and makes the other pass. */
  method SecondPass(enc: RangeEncoder.Encoder, start: RangeEncoder.Saved, ghost known: RangeEncoder.Exact,
                    f: Frame, x: seq<int>, past: array<int>, error: array<int>)
    returns (middle: RangeEncoder.Saved, ghost known1: RangeEncoder.Exact, bits: seq<byte>, badness: int)
    requires enc.Valid() && enc.Since(start, known)
    requires RangeEncoder.Sound(start, known) && enc.Backed(start, known)
    requires StateOk(State(known.iv, known.raw)) && FrameOk(f)
    requires past != error && past as object != enc.buf && error as object != enc.buf
    requires |x| >= Size(f) && past.Length >= Size(f) && error.Length >= Size(f)
    modifies enc, enc.buf, past, error
    ensures enc.Valid() && enc.buf == old(enc.buf) && enc.storage == old(enc.storage)
    ensures middle == old(enc.Registers()) && known1 == old(enc.Known()) && RangeEncoder.Sound(middle, known1)
    ensures enc.BackedBut(middle, known1, start.offs) && bits == known1.sent[start.offs..middle.offs]
    ensures PassAlone(f, x, State(known.iv, known.raw), old(past[..]), old(error[..]),
                      Coder(enc), past[..], error[..], badness)
  {
    hide PassAlone, RangeEncoder.Sound;
    middle, known1 := enc.Save();
    bits := enc.buf[start.offs..middle.offs];
    assert bits == known1.sent[start.offs..middle.offs];
    assert known.sent <= known1.sent && known.tail == known1.tail && middle.endOffs == start.endOffs;
    enc.Restore(start, known);
    badness := PassInPlace(enc, f, x, past, error);
    assert enc.Since(start, known);
    enc.WrittenBefore(start, known, middle, known1);
  }

  /** Puts the results of the pass on copies in place. */
  method KeepCopies(past1: array<int>, error1: array<int>, past: array<int>, error: array<int>, size: nat)
    requires past1 != past && error1 != error && past1 != error && error1 != past && past != error
    requires past1.Length == past.Length && error1.Length == size <= error.Length
    modifies past, error
    ensures past[..] == past1[..] && error[..size] == error1[..]
  {
    CopyArray(past1, past, past.Length);
    CopyArray(error1, error, size);
  }

  /** ec_tell_frac in a state of the coder. */
  function StateEighths(st: State): int
    requires StateOk(st)
  {
    TellEighths(CODE_BITS + 1 + 8 * st.iv.shifts + st.raw.bits, st.iv.rng)
  }

  method EncoderEighths(enc: RangeEncoder.Encoder) returns (t: int)
    requires enc.Valid() && StateOk(Coder(enc))
    ensures t == StateEighths(Coder(enc))
  {
    t := TellEighths(enc.nbitsTotal, enc.rng);
  }

  /** What the caller asks for, before the budget has its say. */
  datatype Wish = Wish(forceIntra: bool, twoPass: bool, delayedIntra: nat, available: nat, lossRate: nat)

  predicate AsksIntra(f: Frame, w: Wish)
  {
    || w.forceIntra
    || (!w.twoPass && w.delayedIntra > 2 * f.chans * (f.end - f.start) && w.available > (f.end - f.start) * f.chans)
  }

  /** The pass without prediction moved fewer deltas, or as many for fewer bits. */
  predicate IntraCheaper(badness1: int, eighths1: int, badness2: int, eighths2: int, bias: int)
  {
    badness1 < badness2 || (badness1 == badness2 && eighths2 + bias > eighths1)
  }

  predicate FirstCheaper(f: Frame, w: Wish, x: seq<int>, st: State, past: seq<int>, error1: seq<int>, error2: seq<int>)
    requires StateOk(st) && FrameOk(f) && |x| >= Size(f) && |past| >= Size(f)
    requires |error1| >= Size(f) && |error2| >= Size(f)
  {
    var p1 := Whole(PassFrame(f, w.available, true), x, st, past, error1);
    var p2 := Whole(PassFrame(f, w.available, false), x, st, past, error2);
    IntraCheaper(if f.lfe then 0 else p1.sent.badness, StateEighths(RunFrom(st, p1.items)),
                 if f.lfe then 0 else p2.sent.badness, StateEighths(RunFrom(st, p2.items)),
                 IntraBias(f, w.delayedIntra, w.lossRate))
  }

  /** Which of the two passes is kept. */
  predicate KeepsIntra(f: Frame, w: Wish, x: seq<int>, st: State, past: seq<int>, error1: seq<int>, error2: seq<int>)
    requires StateOk(st) && FrameOk(f) && |x| >= Size(f) && |past| >= Size(f)
    requires |error1| >= Size(f) && |error2| >= Size(f)
  {
    StateTell(st) + 3 <= f.budget && (AsksIntra(f, w) || (w.twoPass && FirstCheaper(f, w, x, st, past, error1, error2)))
  }

  /** The badness and the eighth bits of one pass. */
  function Price(f: Frame, w: Wish, intra: bool, x: seq<int>, st: State, past: seq<int>, error: seq<int>): (p: (int, int))
    requires StateOk(st) && FrameOk(f) && |x| >= Size(f) && |past| >= Size(f) && |error| >= Size(f)
  {
    var p := Whole(PassFrame(f, w.available, intra), x, st, past, error);
    (if f.lfe then 0 else p.sent.badness, StateEighths(RunFrom(st, p.items)))
  }

  /**
    When both passes were made, the one kept moved no more deltas than the other;
    if as many, it took no more bits, prediction being charged for lost packets.
   */
  lemma KeptNoWorse(f: Frame, w: Wish, x: seq<int>, st: State, past: seq<int>, error1: seq<int>, error2: seq<int>)
    requires StateOk(st) && FrameOk(f) && |x| >= Size(f) && |past| >= Size(f)
    requires |error1| >= Size(f) && |error2| >= Size(f)
    requires StateTell(st) + 3 <= f.budget && w.twoPass && !w.forceIntra
    ensures var intra := KeepsIntra(f, w, x, st, past, error1, error2);
      var alone, ahead := Price(f, w, true, x, st, past, error1), Price(f, w, false, x, st, past, error2);
      var charged := ahead.1 + IntraBias(f, w.delayedIntra, w.lossRate);
      if intra then alone.0 < ahead.0 || (alone.0 == ahead.0 && alone.1 < charged)
      else ahead.0 < alone.0 || (ahead.0 == alone.0 && charged <= alone.1)
  {
    hide Whole, StateEighths, RunFrom, StateTell, IntraBias;
  }

  /** The pass without prediction, kept without a trial of the other. */
  method OnlyIntra(enc: RangeEncoder.Encoder, f: Frame, x: seq<int>, past: array<int>, error: array<int>)
    returns (badness: int, ghost spare: seq<int>)
    requires enc.Valid() && StateOk(Coder(enc)) && FrameOk(f)
    requires past != error && past as object != enc.buf && error as object != enc.buf
    requires |x| >= Size(f) && past.Length >= Size(f) && error.Length >= Size(f)
    modifies enc, enc.buf, past, error
    ensures enc.Valid() && enc.buf == old(enc.buf) && enc.storage == old(enc.storage) && |spare| >= Size(f)
    ensures PassAlone(f, x, old(Coder(enc)), old(past[..]), spare, Coder(enc), past[..], error[..], badness)
  {
    hide RangeEncoder.Encoder.Valid, Whole, RunFrom, StateOk;
    var past1, error1;
    past1, error1, badness, spare := PassOnCopies(enc, f, x, past);
    KeepCopies(past1, error1, past, error, Size(f));
  }

  /** Both passes, of which the cheaper is kept. */
  method BothPasses(enc: RangeEncoder.Encoder, f: Frame, w: Wish, x: seq<int>, past: array<int>, error: array<int>)
    returns (intra: bool, badness: int, ghost spare: seq<int>)
    requires enc.Valid() && StateOk(Coder(enc)) && FrameOk(f)
    requires past != error && past as object != enc.buf && error as object != enc.buf
    requires |x| >= Size(f) && past.Length >= Size(f) && error.Length >= Size(f)
    modifies enc, enc.buf, past, error
    ensures enc.Valid() && enc.buf == old(enc.buf) && enc.storage == old(enc.storage) && |spare| >= Size(f)
    ensures intra <==> FirstCheaper(f, w, x, old(Coder(enc)), old(past[..]), spare, old(error[..]))
    ensures PassAlone(PassFrame(f, w.available, intra), x, old(Coder(enc)), old(past[..]),
                      if intra then spare else old(error[..]), Coder(enc), past[..], error[..], badness)
  {
    hide RangeEncoder.Encoder.Valid, RangeEncoder.Sound, Whole, RunFrom, StateOk, StateEighths;
    var start, known := enc.Save();
    var past1, error1, badness1;
    past1, error1, badness1, spare := PassOnCopies(enc, PassFrame(f, w.available, true), x, past);
    enc.WrittenBefore(start, known, start, known);
    var eighths1 := EncoderEighths(enc);
    var middle, known1, bits, badness2 := SecondPass(enc, start, known, PassFrame(f, w.available, false), x, past, error);
    var eighths2 := EncoderEighths(enc);
    intra := IntraCheaper(badness1, eighths1, badness2, eighths2, IntraBias(f, w.delayedIntra, w.lossRate));
    badness := badness2;
    if intra {
      enc.RestoreWith(middle, known1, start.offs, bits);
      KeepCopies(past1, error1, past, error, Size(f));
      badness := badness1;
    }
  }

  /**
    quant_coarse_energy.  Whichever pass is kept, the encoder, the buffer and the
    energies are as if that pass alone had been made; `spare` is what the errors
    of a pass on copies start from.
   */
  method QuantCoarse(enc: RangeEncoder.Encoder, f: Frame, w: Wish, x: seq<int>, past: array<int>, error: array<int>)
    returns (intra: bool, badness: int, ghost spare: seq<int>)
    requires enc.Valid() && StateOk(Coder(enc)) && FrameOk(f)
    requires past != error && past as object != enc.buf && error as object != enc.buf
    requires |x| >= Size(f) && past.Length >= Size(f) && error.Length >= Size(f)
    modifies enc, enc.buf, past, error
    ensures enc.Valid() && enc.buf == old(enc.buf) && enc.storage == old(enc.storage) && |spare| >= Size(f)
    ensures intra <==> KeepsIntra(f, w, x, old(Coder(enc)), old(past[..]), spare, old(error[..]))
    ensures PassAlone(PassFrame(f, w.available, intra), x, old(Coder(enc)), old(past[..]),
                      if intra then spare else old(error[..]), Coder(enc), past[..], error[..], badness)
  {
    hide RangeEncoder.Encoder.Valid, RangeEncoder.Sound, PassAlone, FirstCheaper, StateOk, StateTell;
    var tell := EncoderTell(enc);
    var fits := tell + 3 <= f.budget;
    if fits && AsksIntra(f, w) {
      intra := true;
      badness, spare := OnlyIntra(enc, PassFrame(f, w.available, true), x, past, error);
    } else if fits && w.twoPass {
      intra, badness, spare := BothPasses(enc, f, w, x, past, error);
    } else {
      intra, spare := false, error[..];
      var start, known := enc.Save();
      var middle, bits;
      ghost var known1;
      middle, known1, bits, badness := SecondPass(enc, start, known, PassFrame(f, w.available, false), x, past, error);
    }
  }
}
