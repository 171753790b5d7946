/**
  quant_coarse_energy_impl and unquant_coarse_energy over the range coder, with
  the flag that tells which prediction was used.
 */
module EnergyCoder {
  import opened Powers
  import opened ByteStreams
  import opened RangeTranscripts
  import opened RangeRoundTrip
  import opened CoarseEnergy
  import opened EnergyLockstep
  import LaplaceCoder
  import RangeEncoder
  import RangeDecoder

  /** Midway through a pass: `sent` is behind, the plan from band `i`, channel `c` ahead. */
  ghost predicate Along(f: Frame, x: seq<int>, st0: State, plan: Plan, sent: seq<Item>,
                        cur: State, q: Quantised, d: Energy, i: nat, c: nat)
  {
    && StateOk(st0) && StateOk(cur) && Ready(f, x, q, d) && AllCodable(sent) && cur == RunFrom(st0, sent)
    && var rest := Pass(f, x, cur, q, d, i, c);
       plan.items == sent + rest.items && plan.sent == rest.sent && plan.heard == rest.heard
  }

  lemma AlongStart(f: Frame, x: seq<int>, cur: State, q: Quantised, d: Energy)
    requires StateOk(cur) && Ready(f, x, q, d)
    ensures Along(f, x, cur, Pass(f, x, cur, q, d, f.start, 0), [], cur, q, d, f.start, 0)
  {
    hide Pass;
    EmptyRun(cur);
  }

  lemma AlongCell(f: Frame, x: seq<int>, st0: State, plan: Plan, sent: seq<Item>,
                  cur: State, q: Quantised, d: Energy, i: nat, c: nat)
    requires Along(f, x, st0, plan, sent, cur, q, d, i, c) && i < f.end && c < f.chans
    ensures var s := Cell(f, x, cur, q, i, c);
      Along(f, x, st0, plan, sent + s.items, RunFrom(cur, s.items), Quantise(f, x, q, i, c, s.used),
            Apply(f, d, i, c, s.heard), i, c + 1)
  {
    hide RunFrom, Cell, Quantise, Apply;
    var s := Cell(f, x, cur, q, i, c);
    RunConcat(st0, sent, s.items);
    var rest := Pass(f, x, RunFrom(cur, s.items), Quantise(f, x, q, i, c, s.used), Apply(f, d, i, c, s.heard), i, c + 1);
    assert sent + (s.items + rest.items) == sent + s.items + rest.items;
  }

  lemma AlongBand(f: Frame, x: seq<int>, st0: State, plan: Plan, sent: seq<Item>,
                  cur: State, q: Quantised, d: Energy, i: nat, c: nat)
    requires Along(f, x, st0, plan, sent, cur, q, d, i, c) && i < f.end && c >= f.chans
    ensures Along(f, x, st0, plan, sent, cur, q, d, i + 1, 0)
  {
    hide RunFrom;
  }

  lemma AlongEnd(f: Frame, x: seq<int>, st0: State, plan: Plan, sent: seq<Item>,
                 cur: State, q: Quantised, d: Energy, i: nat, c: nat)
    requires Along(f, x, st0, plan, sent, cur, q, d, i, c) && i >= f.end
    ensures plan == Plan(sent, q, d)
  {
    hide RunFrom;
  }

  /** Codes one delta by the means that still fits. */
  method EncodeDelta(enc: RangeEncoder.Encoder, f: Frame, i: nat, tell: int, want: int) returns (used: int)
    requires enc.Valid() && StateOk(Coder(enc)) && FrameOk(f) && tell == StateTell(Coder(enc))
    modifies enc, enc.buf
    ensures enc.Valid() && enc.buf == old(enc.buf) && enc.storage == old(enc.storage) && enc.FrontGrew()
    ensures var s := Code(f, i, tell, want);
      used == s.used && Coder(enc) == RunFrom(old(Coder(enc)), s.items)
  {
    hide RunFrom, Next, StateTell, LaplaceCoder.Nearest, RangeEncoder.Encoder.Valid;
    ghost var st := Coder(enc);
    ghost var s := Code(f, i, tell, want);
    EmptyRun(st);
    if s.items != [] {
      RunAppend(st, [], s.items[0]);
      assert [] + [s.items[0]] == s.items;
    }
    if f.budget - tell >= 15 {
      var m := BandModel(f, i);
      used := EncodeLaplace(enc, want, m.fs0, m.decay);
    } else if f.budget - tell >= 2 {
      SmallIcdfOk();
      used := Max(-1, Min(want, 1));
      EncodeItem(enc, Icdf(SmallIcdf, 2), Folded(used));
    } else if f.budget - tell >= 1 {
      used := Min(0, want);
      EncodeItem(enc, BitLogp(1), if used != 0 then 1 else 0);
    } else {
      used := -1;
    }
  }

  /** The prediction, the residual, the rounded delta qi0 and what the clamps make of it. */
  method ChooseDelta(f: Frame, x: seq<int>, past: array<int>, prev: seq<int>, i: nat, c: nat, tell: int)
    returns (base: int, residual: int, qi0: int, qi: int)
    requires EnergyOk(f, Energy(past[..], prev)) && |x| >= Size(f) && i < f.end && c < f.chans
    ensures var e := Energy(past[..], prev);
      && base == Predicted(f, e, i, c) && residual == Residual(f, x, e, i, c)
      && qi0 == Rounded(f, x, e, i, c) && qi == Wanted(f, x, e, i, c, tell)
  {
    var k := Index(f, i, c);
    base := Round8(Coef(f) * Max(-9216, past[k])) + prev[c];
    residual := x[k] * 128 - base;
    qi0 := (residual + 65536) / 131072;
    var bound := Max(-28672, past[k] - f.maxDecay);
    if qi0 < 0 && x[k] < bound {
      qi0 := qi0 + (bound - x[k]) / 1024;
      qi0 := if qi0 > 0 then 0 else qi0;
    }
    qi := qi0;
    var left := f.budget - tell - 3 * f.chans * (f.end - i);
    if i != f.start && left < 30 {
      if left < 24 { qi := Min(1, qi); }
      if left < 16 { qi := Max(-1, qi); }
    }
    if f.lfe && i >= 2 { qi := Min(qi, 0); }
  }

  /** One channel of one band on the encoder's side. */
  method EncodeCell(enc: RangeEncoder.Encoder, f: Frame, x: seq<int>, past: array<int>, error: array<int>,
                    prev0: seq<int>, badness0: int, i: nat, c: nat,
                    ghost st0: State, ghost plan: Plan, ghost sent0: seq<Item>, ghost d0: Energy)
    returns (prev: seq<int>, badness: int, ghost sent: seq<Item>, ghost d: Energy)
    requires enc.Valid() && i < f.end && c < f.chans
    requires past != error && past as object != enc.buf && error as object != enc.buf
    requires Along(f, x, st0, plan, sent0, Coder(enc), Quantised(Energy(past[..], prev0), error[..], badness0), d0, i, c)
    modifies enc, enc.buf, past, error
    ensures enc.Valid() && enc.buf == old(enc.buf) && enc.storage == old(enc.storage) && enc.FrontGrew()
    ensures Along(f, x, st0, plan, sent, Coder(enc), Quantised(Energy(past[..], prev), error[..], badness), d, i, c + 1)
  {
    hide RunFrom, Code, StateTell, Pass, RangeEncoder.Encoder.Valid, Rounded, Wanted, Residual;
    ghost var st := Coder(enc);
    ghost var q := Quantised(Energy(past[..], prev0), error[..], badness0);
    AlongCell(f, x, st0, plan, sent0, st, q, d0, i, c);
    var k := Index(f, i, c);
    var tell := EncoderTell(enc);
    var base, residual, qi0, qi := ChooseDelta(f, x, past, prev0, i, c, tell);
    qi := EncodeDelta(enc, f, i, tell, qi);
    ghost var s := Cell(f, x, st, q, i, c);
    assert qi == s.used;
    error[k] := Round7(residual) - qi * 1024;
    badness := badness0 + Abs(qi0 - qi);
    past[k] := Round7(Max(-3670016, base + qi * 131072));
    prev := prev0[c := prev0[c] + qi * 131072 - Beta(f) * Round8(qi * 1024)];
    sent, d := sent0 + s.items, Apply(f, d0, i, c, s.heard);
    assert Quantised(Energy(past[..], prev), error[..], badness) == Quantise(f, x, q, i, c, s.used);
  }

  /** The band loop of quant_coarse_energy_impl, from wherever the coder is. */
  method QuantBands(enc: RangeEncoder.Encoder, f: Frame, x: seq<int>, past: array<int>, error: array<int>)
    returns (badness: int, ghost prev: seq<int>)
    requires enc.Valid() && StateOk(Coder(enc)) && FrameOk(f)
    requires past != error && past as object != enc.buf && error as object != enc.buf
    requires |x| >= Size(f) && past.Length >= Size(f) && error.Length >= Size(f)
    modifies enc, enc.buf, past, error
    ensures enc.Valid() && enc.buf == old(enc.buf) && enc.storage == old(enc.storage) && enc.FrontGrew()
    ensures var e := Energy(old(past[..]), [0, 0]);
      var p := Pass(f, x, old(Coder(enc)), Quantised(e, old(error[..]), 0), e, f.start, 0);
      && Coder(enc) == RunFrom(old(Coder(enc)), p.items)
      && p.sent == Quantised(Energy(past[..], prev), error[..], badness)
  {
    hide RunFrom, Pass, StateTell, Along, Ready, RangeEncoder.Encoder.Valid;
    ghost var st0 := Coder(enc);
    ghost var d := Energy(past[..], [0, 0]);
    assert Ready(f, x, Quantised(d, error[..], 0), d) by { StartReady(f, x, d, error[..]); }
    ghost var plan := Pass(f, x, st0, Quantised(d, error[..], 0), d, f.start, 0);
    AlongStart(f, x, st0, Quantised(d, error[..], 0), d);
    ghost var sent: seq<Item> := [];
    var sums := [0, 0];
    badness := 0;
    for i := f.start to f.end
      invariant enc.Valid() && enc.buf == old(enc.buf) && enc.storage == old(enc.storage) && enc.FrontGrew()
      invariant Along(f, x, st0, plan, sent, Coder(enc), Quantised(Energy(past[..], sums), error[..], badness), d, i, 0)
    {
      var c := 0;
      while c < f.chans
        invariant enc.Valid() && enc.buf == old(enc.buf) && enc.storage == old(enc.storage) && enc.FrontGrew()
        invariant Along(f, x, st0, plan, sent, Coder(enc), Quantised(Energy(past[..], sums), error[..], badness), d, i, c)
      {
        sums, badness, sent, d := EncodeCell(enc, f, x, past, error, sums, badness, i, c, st0, plan, sent, d);
        c := c + 1;
      }
      AlongBand(f, x, st0, plan, sent, Coder(enc), Quantised(Energy(past[..], sums), error[..], badness), d, i, c);
    }
    AlongFact(f, x, st0, plan, sent, Coder(enc), Quantised(Energy(past[..], sums), error[..], badness), d, f.end, 0);
    AlongEnd(f, x, st0, plan, sent, Coder(enc), Quantised(Energy(past[..], sums), error[..], badness), d, f.end, 0);
    prev := sums;
  }

  lemma StartReady(f: Frame, x: seq<int>, d: Energy, error: seq<int>)
    requires FrameOk(f) && |d.past| >= Size(f) && |x| >= Size(f) && |error| >= Size(f) && d.prev == [0, 0]
    ensures Ready(f, x, Quantised(d, error, 0), d)
  {
  }

  lemma AlongFact(f: Frame, x: seq<int>, st0: State, plan: Plan, sent: seq<Item>,
                  cur: State, q: Quantised, d: Energy, i: nat, c: nat)
    requires Along(f, x, st0, plan, sent, cur, q, d, i, c)
    ensures StateOk(st0) && AllCodable(sent) && cur == RunFrom(st0, sent)
  {
  }

  /** The intra flag, when three bits are left for it. */
  function FlagItems(f: Frame, st: State): (items: seq<Item>)
    ensures |items| <= 1 && AllCodable(items)
  {
    if StateTell(st) + 3 <= f.budget then [Item(BitLogp(3), if f.intra then 1 else 0)] else []
  }

  /** Everything a frame's coarse energy sends, and where it leaves each side. */
  function Whole(f: Frame, x: seq<int>, st: State, past: seq<int>, error: seq<int>): (p: Plan)
    requires StateOk(st) && FrameOk(f) && |x| >= Size(f) && |past| >= Size(f) && |error| >= Size(f)
    ensures AllCodable(p.items)
  {
    var e := Energy(past, [0, 0]);
    var flag := FlagItems(f, st);
    var p := Pass(f, x, RunFrom(st, flag), Quantised(e, error, 0), e, f.start, 0);
    Plan(flag + p.items, p.sent, p.heard)
  }

  /** quant_coarse_energy_impl */
  method QuantCoarseEnergy(enc: RangeEncoder.Encoder, f: Frame, x: seq<int>, past: array<int>, error: array<int>)
    returns (badness: int, ghost prev: seq<int>)
    requires enc.Valid() && StateOk(Coder(enc)) && FrameOk(f)
    requires past != error && past as object != enc.buf && error as object != enc.buf
    requires |x| >= Size(f) && past.Length >= Size(f) && error.Length >= Size(f)
    modifies enc, enc.buf, past, error
    ensures enc.Valid() && enc.buf == old(enc.buf) && enc.storage == old(enc.storage) && enc.FrontGrew()
    ensures var p := Whole(f, x, old(Coder(enc)), old(past[..]), old(error[..]));
      && Coder(enc) == RunFrom(old(Coder(enc)), p.items)
      && p.sent.energy == Energy(past[..], prev) && p.sent.error == error[..]
      && badness == if f.lfe then 0 else p.sent.badness
  {
    hide RunFrom, Pass, StateTell, Next, RangeEncoder.Encoder.Valid;
    ghost var st := Coder(enc);
    EmptyRun(st);
    var tell := EncoderTell(enc);
    if tell + 3 <= f.budget {
      RunAppend(st, [], Item(BitLogp(3), if f.intra then 1 else 0));
      assert [] + FlagItems(f, st) == FlagItems(f, st);
      EncodeItem(enc, BitLogp(3), if f.intra then 1 else 0);
    }
    ghost var mid, e := Coder(enc), Energy(past[..], [0, 0]);
    assert mid == RunFrom(st, FlagItems(f, st));
    ghost var p := Pass(f, x, mid, Quantised(e, error[..], 0), e, f.start, 0);
    badness, prev := QuantBands(enc, f, x, past, error);
    RunConcat(st, FlagItems(f, st), p.items);
    badness := if f.lfe then 0 else badness;
  }

  /** Decodes one delta by the means the budget tells. */
  method DecodeDelta(dec: RangeDecoder.Decoder, f: Frame, i: nat, tell: int,
                     ghost st: State, ghost want: int, ghost rest: seq<Item>) returns (heard: int)
    requires At(dec, st) && FrameOk(f) && tell == StateTell(st) && AllCodable(rest)
    requires Conveys(dec.Stream(), RunFrom(st, Code(f, i, tell, want).items + rest))
    modifies dec
    ensures var s := Code(f, i, tell, want);
      && heard == s.heard
      && At(dec, RunFrom(st, s.items)) && Conveys(dec.Stream(), RunFrom(RunFrom(st, s.items), rest))
  {
    hide RunFrom, Next, StateTell, Conveys, At, LaplaceCoder.Nearest;
    ghost var s := Code(f, i, tell, want);
    AtOk(dec, st);
    EmptyRun(st);
    if s.items != [] {
      RunAppend(st, [], s.items[0]);
      assert [] + [s.items[0]] == s.items;
    } else {
      assert s.items + rest == rest;
    }
    if f.budget - tell >= 15 {
      heard := DecodeNext(dec, BandModel(f, i), st, s.items[0], rest);
    } else if f.budget - tell >= 2 {
      SmallIcdfOk();
      heard := DecodeNext(dec, Icdf(SmallIcdf, 2), st, s.items[0], rest);
      heard := Unfolded(heard);
    } else if f.budget - tell >= 1 {
      heard := DecodeNext(dec, BitLogp(1), st, s.items[0], rest);
      heard := -heard;
    } else {
      heard := -1;
    }
  }

  lemma AtOk(dec: RangeDecoder.Decoder, st: State)
    requires At(dec, st)
    ensures StateOk(st)
  {
  }

  /** The packet conveys the rest of the pass and then `extra`. */
  ghost predicate Ahead(s: seq<byte>, f: Frame, x: seq<int>, cur: State, q: Quantised, d: Energy, i: nat, c: nat, extra: seq<Item>)
  {
    && StateOk(cur) && Ready(f, x, q, d) && AllCodable(extra)
    && Conveys(s, RunFrom(cur, Pass(f, x, cur, q, d, i, c).items + extra))
  }

  lemma AheadCell(s: seq<byte>, f: Frame, x: seq<int>, cur: State, q: Quantised, d: Energy, i: nat, c: nat, extra: seq<Item>)
    returns (rest: seq<Item>)
    requires Ahead(s, f, x, cur, q, d, i, c, extra) && i < f.end && c < f.chans
    ensures AllCodable(rest)
    ensures var u := Cell(f, x, cur, q, i, c);
      && Conveys(s, RunFrom(cur, u.items + rest))
      && (Conveys(s, RunFrom(RunFrom(cur, u.items), rest)) ==>
            Ahead(s, f, x, RunFrom(cur, u.items), Quantise(f, x, q, i, c, u.used), Apply(f, d, i, c, u.heard), i, c + 1, extra))
  {
    hide RunFrom, Cell, Quantise, Apply, Conveys;
    var u := Cell(f, x, cur, q, i, c);
    var p := Pass(f, x, RunFrom(cur, u.items), Quantise(f, x, q, i, c, u.used), Apply(f, d, i, c, u.heard), i, c + 1);
    rest := p.items + extra;
    assert (u.items + p.items) + extra == u.items + rest;
  }

  lemma AheadBand(s: seq<byte>, f: Frame, x: seq<int>, cur: State, q: Quantised, d: Energy, i: nat, c: nat, extra: seq<Item>)
    requires Ahead(s, f, x, cur, q, d, i, c, extra) && i < f.end && c >= f.chans
    ensures Ahead(s, f, x, cur, q, d, i + 1, 0, extra)
  {
    hide RunFrom, Conveys;
  }

  lemma AheadEnd(s: seq<byte>, f: Frame, x: seq<int>, cur: State, q: Quantised, d: Energy, i: nat, c: nat, extra: seq<Item>)
    requires Ahead(s, f, x, cur, q, d, i, c, extra) && i >= f.end
    ensures StateOk(cur) && AllCodable(extra) && Conveys(s, RunFrom(cur, extra))
  {
    hide RunFrom, Conveys;
    assert [] + extra == extra;
  }

  /** One channel of one band on the decoder's side. */
  method DecodeCell(dec: RangeDecoder.Decoder, f: Frame, past: array<int>, prev0: seq<int>, i: nat, c: nat,
                    ghost x: seq<int>, ghost st0: State, ghost plan: Plan, ghost sent0: seq<Item>, ghost cur0: State,
                    ghost q0: Quantised, ghost extra: seq<Item>)
    returns (prev: seq<int>, ghost cur: State, ghost sent: seq<Item>, ghost q: Quantised)
    requires At(dec, cur0) && i < f.end && c < f.chans && past as object != dec.buf
    requires Along(f, x, st0, plan, sent0, cur0, q0, Energy(past[..], prev0), i, c)
    requires Ahead(dec.Stream(), f, x, cur0, q0, Energy(past[..], prev0), i, c, extra)
    modifies dec, past
    ensures At(dec, cur)
    ensures Along(f, x, st0, plan, sent, cur, q, Energy(past[..], prev), i, c + 1)
    ensures Ahead(dec.Stream(), f, x, cur, q, Energy(past[..], prev), i, c + 1, extra)
  {
    hide RunFrom, Code, StateTell, Pass, At, Conveys, Wanted, Quantise;
    ghost var d := Energy(past[..], prev0);
    AlongCell(f, x, st0, plan, sent0, cur0, q0, d, i, c);
    ghost var s := Cell(f, x, cur0, q0, i, c);
    ghost var rest := AheadCell(dec.Stream(), f, x, cur0, q0, d, i, c, extra);
    var tell := DecoderTell(dec, cur0);
    var qi := DecodeDelta(dec, f, i, tell, cur0, Wanted(f, x, q0.energy, i, c, tell), rest);
    cur, sent, q := RunFrom(cur0, s.items), sent0 + s.items, Quantise(f, x, q0, i, c, s.used);
    var k := Index(f, i, c);
    var base := Round8(Coef(f) * Max(-9216, past[k])) + prev0[c];
    past[k] := Round7(Max(-3670016, base + qi * 131072));
    prev := prev0[c := prev0[c] + qi * 131072 - Beta(f) * Round8(qi * 1024)];
    assert Energy(past[..], prev) == Apply(f, d, i, c, s.heard);
  }

  /** unquant_coarse_energy, on a packet that conveys the pass and then `extra`. */
  method UnquantBands(dec: RangeDecoder.Decoder, f: Frame, past: array<int>,
                      ghost x: seq<int>, ghost st: State, ghost q0: Quantised, ghost extra: seq<Item>)
    returns (ghost prev: seq<int>, ghost cur: State)
    requires At(dec, st) && FrameOk(f) && past as object != dec.buf && past.Length >= Size(f)
    requires Ready(f, x, q0, Energy(past[..], [0, 0]))
    requires Ahead(dec.Stream(), f, x, st, q0, Energy(past[..], [0, 0]), f.start, 0, extra)
    modifies dec, past
    ensures StateOk(st) && AllCodable(extra)
    ensures var p := Pass(f, x, st, q0, Energy(old(past[..]), [0, 0]), f.start, 0);
      && StateOk(cur) && cur == RunFrom(st, p.items) && At(dec, cur)
      && Conveys(dec.Stream(), RunFrom(cur, extra))
      && p.heard == Energy(past[..], prev)
  {
    hide RunFrom, Pass, StateTell, Along, Ahead, Ready, At, Conveys;
    AtOk(dec, st);
    ghost var q := q0;
    ghost var plan := Pass(f, x, st, q0, Energy(past[..], [0, 0]), f.start, 0);
    AlongStart(f, x, st, q0, Energy(past[..], [0, 0]));
    ghost var sent: seq<Item> := [];
    cur := st;
    var sums := [0, 0];
    for i := f.start to f.end
      invariant At(dec, cur)
      invariant Along(f, x, st, plan, sent, cur, q, Energy(past[..], sums), i, 0)
      invariant Ahead(dec.Stream(), f, x, cur, q, Energy(past[..], sums), i, 0, extra)
    {
      var c := 0;
      while c < f.chans
        invariant At(dec, cur)
        invariant Along(f, x, st, plan, sent, cur, q, Energy(past[..], sums), i, c)
        invariant Ahead(dec.Stream(), f, x, cur, q, Energy(past[..], sums), i, c, extra)
      {
        sums, cur, sent, q := DecodeCell(dec, f, past, sums, i, c, x, st, plan, sent, cur, q, extra);
        c := c + 1;
      }
      AlongBand(f, x, st, plan, sent, cur, q, Energy(past[..], sums), i, c);
      AheadBand(dec.Stream(), f, x, cur, q, Energy(past[..], sums), i, c, extra);
    }
    AlongFact(f, x, st, plan, sent, cur, q, Energy(past[..], sums), f.end, 0);
    AlongEnd(f, x, st, plan, sent, cur, q, Energy(past[..], sums), f.end, 0);
    AheadEnd(dec.Stream(), f, x, cur, q, Energy(past[..], sums), f.end, 0, extra);
    prev := sums;
  }

  /** The guard of EnergyLockstep, for a whole frame: bits run out on a fall in the first band. */
  predicate Mismatched(f: Frame, x: seq<int>, st: State, past: seq<int>, error: seq<int>)
    requires StateOk(st) && FrameOk(f) && |x| >= Size(f) && |past| >= Size(f) && |error| >= Size(f)
  {
    f.start < f.end && Tight(f, x, RunFrom(st, FlagItems(f, st)), Quantised(Energy(past, [0, 0]), error, 0), 0)
  }

  lemma WholeInStep(f: Frame, x: seq<int>, st: State, past: seq<int>, error: seq<int>)
    requires StateOk(st) && FrameOk(f) && |x| >= Size(f) && |past| >= Size(f) && |error| >= Size(f)
    ensures var p := Whole(f, x, st, past, error);
      p.sent.energy.past == p.heard.past <==> !Mismatched(f, x, st, past, error)
  {
    hide RunFrom, Pass, Tight;
    InStepExactly(f, x, RunFrom(st, FlagItems(f, st)), Quantised(Energy(past, [0, 0]), error, 0));
  }

  /** The intra flag costs at most three bits, and is sent only when they are there. */
  lemma FlagCost(f: Frame, st: State)
    requires StateOk(st)
    ensures var left, after := f.budget - StateTell(st), f.budget - StateTell(RunFrom(st, FlagItems(f, st)));
      if left >= 3 then after >= left - 3 else after == left
  {
    hide StateTell, Next;
    EmptyRun(st);
    if StateTell(st) + 3 <= f.budget {
      var item := Item(BitLogp(3), if f.intra then 1 else 0);
      RunAppend(st, [], item);
      assert [] + [item] == [item];
      NextCost(st, item.model, item.value, 3);
    }
  }

  /** Before a whole frame, flag included: with this many bits left, or none, the energies agree. */
  lemma EnoughBitsForFrame(f: Frame, x: seq<int>, st: State, past: seq<int>, error: seq<int>)
    requires StateOk(st) && FrameOk(f) && |x| >= Size(f) && |past| >= Size(f) && |error| >= Size(f)
    requires var left := f.budget - StateTell(st);
      left <= 0 || left >= 20 || (f.chans == 1 && (left == 2 || left >= 5))
    ensures var p := Whole(f, x, st, past, error); p.sent.energy.past == p.heard.past && !Mismatched(f, x, st, past, error)
  {
    hide RunFrom, Pass, StateTell, Tight;
    FlagCost(f, st);
    EnoughBitsInStep(f, x, RunFrom(st, FlagItems(f, st)), Quantised(Energy(past, [0, 0]), error, 0));
    WholeInStep(f, x, st, past, error);
  }

  /**
    The decoder's side of a frame, from the same energies: it reads the flag,
    follows the encoder bit for bit whatever was coded, and ends with the
    encoder's energies exactly when the guard above was not met.
    The encoder asks for intra prediction only when the flag fits.
   */
  method UnquantCoarseEnergy(dec: RangeDecoder.Decoder, known: Frame, past: array<int>,
                             ghost f: Frame, ghost x: seq<int>, ghost st: State, ghost error: seq<int>, ghost extra: seq<Item>)
    returns (intra: bool, ghost prev: seq<int>)
    requires At(dec, st) && FrameOk(f) && f == known.(intra := f.intra) && AllCodable(extra)
    requires past as object != dec.buf && past.Length >= Size(f) && |x| >= Size(f) && |error| >= Size(f)
    requires f.intra ==> StateTell(st) + 3 <= f.budget
    requires Conveys(dec.Stream(), RunFrom(st, Whole(f, x, st, past[..], error).items + extra))
    modifies dec, past
    ensures var p := Whole(f, x, st, old(past[..]), error);
      && intra == f.intra
      && At(dec, RunFrom(st, p.items))
      && Conveys(dec.Stream(), RunFrom(RunFrom(st, p.items), extra))
      && p.heard == Energy(past[..], prev)
      && (past[..] == p.sent.energy.past <==> !Mismatched(f, x, st, old(past[..]), error))
  {
    hide RunFrom, Pass, StateTell, Next, At, Conveys, Tight;
    AtOk(dec, st);
    ghost var e, flag := Energy(past[..], [0, 0]), FlagItems(f, st);
    ghost var mid := RunFrom(st, flag);
    ghost var p := Pass(f, x, mid, Quantised(e, error, 0), e, f.start, 0);
    assert (flag + p.items) + extra == flag + (p.items + extra);
    EmptyRun(st);
    var tell := DecoderTell(dec, st);
    intra := false;
    if tell + 3 <= known.budget {
      RunAppend(st, [], flag[0]);
      assert [] + [flag[0]] == flag;
      var bit := DecodeNext(dec, BitLogp(3), st, flag[0], p.items + extra);
      intra := bit == 1;
    } else {
      assert flag + (p.items + extra) == p.items + extra;
    }
    WholeInStep(f, x, st, past[..], error);
    RunConcat(st, flag, p.items);
    StartReady(f, x, e, error);
    ghost var cur;
    prev, cur := UnquantBands(dec, known.(intra := intra), past, x, mid, Quantised(e, error, 0), extra);
  }
}
