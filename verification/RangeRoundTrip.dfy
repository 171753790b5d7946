/**
  Whole runs of the range coder: any finite mix of symbols and raw bits that is
  encoded without error is decoded symbol by symbol, with both sides agreeing
  on the bits used so far after each one.
 */
module RangeRoundTrip {
  import opened Powers
  import opened ByteStreams
  import opened RangeIntervals
  import opened RangeModels
  import opened RangeFinish
  import opened RawBits
  import opened RangeTranscripts
  import RangeCarry
  import L = Laplace
  import LaplaceCoder
  import RangeEncoder
  import RangeDecoder

  /** The exact state of an encoder. */
  ghost function Coder(enc: RangeEncoder.Encoder): State
    reads enc
  {
    State(enc.iv, enc.raw)
  }

  /** ec_tell on the encoder. */
  method EncoderTell(enc: RangeEncoder.Encoder) returns (tell: int)
    requires enc.Valid()
    ensures tell == StateTell(Coder(enc))
  {
    tell := Tell(enc.nbitsTotal, enc.rng);
  }

  /** The decoder has read exactly up to the state `st`. */
  ghost predicate At(dec: RangeDecoder.Decoder, st: State): (r: bool)
    reads dec, dec.buf
    ensures r ==> StateOk(st) && dec.storage <= dec.buf.Length
  {
    dec.Valid() && StateOk(st) && dec.Iv() == st.iv && dec.consumed == st.raw.bits
  }

  /** ec_tell on the decoder. */
  method DecoderTell(dec: RangeDecoder.Decoder, ghost st: State) returns (tell: int)
    requires At(dec, st)
    ensures tell == StateTell(st)
  {
    tell := Tell(dec.nbitsTotal, dec.rng);
  }

  /** Codes one item with the call its model names. */
  method EncodeItem(enc: RangeEncoder.Encoder, m: Model, v: int)
    requires enc.Valid() && Codable(m, v) && StateOk(State(enc.iv, enc.raw))
    modifies enc, enc.buf
    ensures enc.Valid() && enc.buf == old(enc.buf) && enc.storage == old(enc.storage)
    ensures !m.Uniform? && !m.RawField? ==> enc.FrontGrew()
    ensures State(enc.iv, enc.raw) == Next(old(State(enc.iv, enc.raw)), m, v)
  {
    hide Step;
    NothingAppended(enc.raw);
    match m
    case Frequencies(cum) => EncodeSymbol(enc, m, v, cum[v], cum[v + 1], cum[|cum| - 1]);
    case BinFrequencies(cum, bits) =>
      assert cum[v + 1] <= cum[|cum| - 1];
      enc.EncodeBin(cum[v], cum[v + 1], bits);
    case BitLogp(logp) => enc.EncodeBitLogp(v == 1, logp);
    case Icdf(icdf, ftb) => enc.EncodeIcdf(v, icdf, ftb);
    case Uniform(total) => enc.EncodeUint(v, total);
    case RawField(bits) => enc.EncodeBits(v, bits);
    case Laplace(fs0, decay) => var _ := EncodeLaplace(enc, v, fs0, decay);
  }

  /** ec_laplace_encode: codes and reports the nearest value that has a place in the table. */
  method EncodeLaplace(enc: RangeEncoder.Encoder, value: int, fs0: nat, decay: nat) returns (coded: int)
    requires enc.Valid() && L.ParametersOk(fs0, decay) && StateOk(State(enc.iv, enc.raw))
    modifies enc, enc.buf
    ensures enc.Valid() && enc.buf == old(enc.buf) && enc.storage == old(enc.storage) && enc.FrontGrew()
    ensures coded == LaplaceCoder.Nearest(fs0, decay, value)
    ensures State(enc.iv, enc.raw) == Next(old(State(enc.iv, enc.raw)), Laplace(fs0, decay), coded)
  {
    hide Step, L.ShareOf, L.Representable, Next, StateOk, LaplaceCoder.Nearest, Pow2;
    ghost var st := State(enc.iv, enc.raw);
    FifteenBits();
    var fl, fh;
    fl, fh, coded := LaplaceCoder.Encode(value, fs0, decay);
    ShareFits(fs0, decay, coded, fl, fh);
    LaplaceCoder.NearestIs(fs0, decay, value, coded);
    NextLaplace(st, fs0, decay, coded, fl, fh);
    enc.EncodeBin(fl, fh, 15);
  }

  /** A delta whose share ends inside the total has one of its own. */
  lemma ShareFits(fs0: nat, decay: nat, v: int, fl: nat, fh: nat)
    requires L.ParametersOk(fs0, decay) && L.Share(fl, fh) == L.ShareOf(fs0, decay, v) && fh <= L.LAPLACE_TOTAL
    ensures L.Representable(fs0, decay, v)
  {
    hide L.ShareOf;
    assert L.ShareOf(fs0, decay, v).fh == fh;
  }

  /** What coding a delta does to the exact state, in terms of its share. */
  lemma NextLaplace(st: State, fs0: nat, decay: nat, v: int, fl: nat, fh: nat)
    requires StateOk(st) && Codable(Laplace(fs0, decay), v) && L.Share(fl, fh) == L.ShareOf(fs0, decay, v)
    ensures fl < fh <= Pow2(15)
    ensures Next(st, Laplace(fs0, decay), v) == State(Step(st.iv, BinSlot(fl, fh, 15)), st.raw)
  {
    hide Step, L.ShareOf, Pow2;
    FifteenBits();
    L.SharesDisjoint(fs0, decay, v, v + 1);
    NothingAppended(st.raw);
  }

  lemma NothingAppended(raw: Raw)
    ensures Append(raw, 0, 0) == raw
  {
  }

  /** The symbol whose slot a frequency falls in. */
  method FindSlot(cum: seq<nat>, fm: nat) returns (k: nat)
    requires CumOk(cum) && fm < cum[|cum| - 1]
    ensures k < |cum| - 1 && cum[k] <= fm < cum[k + 1]
  {
    k := 0;
    while fm >= cum[k + 1]
      invariant k < |cum| - 1 && cum[k] <= fm
      decreases |cum| - k
    {
      k := k + 1;
    }
  }

  /**
    Decodes one item with the calls its model names.  `st` is the exact state
    both sides are in and `v0` the value the packet holds there.
   */
  method DecodeItem(dec: RangeDecoder.Decoder, m: Model, ghost st: State, ghost v0: int) returns (v: int)
    requires dec.Valid() && dec.Iv() == st.iv && dec.consumed == st.raw.bits
    requires ModelOk(m) && StateOk(st) && Reads(dec.Stream(), st, m, v0)
    modifies dec
    ensures dec.Valid() && v == v0 && dec.error == old(dec.error)
    ensures dec.Iv() == Next(st, m, v0).iv && dec.consumed == Next(st, m, v0).raw.bits
  {
    hide Step, FieldAt, FrequencyAt, Tail, Prefix, Fetched;
    ghost var s := dec.Stream();
    match m
    case Frequencies(cum) =>
      v := DecodeFrequencies(dec, m, st, v0);
    case BinFrequencies(cum, bits) =>
      var fm := dec.DecodeBin(bits);
      v := FindAndUpdate(dec, m, cum, fm, st, v0);
    case BitLogp(logp) =>
      var bit := dec.DecodeBitLogp(logp);
      v := if bit then 1 else 0;
      FrequencyNames(s, st.iv, m, v, v0);
    case Icdf(icdf, ftb) =>
      v := dec.DecodeIcdf(icdf, ftb);
      FrequencyNames(s, st.iv, m, v, v0);
    case Uniform(total) =>
      v := DecodeUniform(dec, total, st, v0);
    case RawField(bits) =>
      v := dec.DecodeBits(bits);
    case Laplace(fs0, decay) =>
      v := DecodeLaplace(dec, fs0, decay, st, v0);
  }

  /** ec_decode, the caller's table search, ec_dec_update. */
  method DecodeFrequencies(dec: RangeDecoder.Decoder, m: Model, ghost st: State, ghost v0: int) returns (v: int)
    requires dec.Valid() && dec.Iv() == st.iv && dec.consumed == st.raw.bits
    requires m.Frequencies? && StateOk(st) && Reads(dec.Stream(), st, m, v0)
    modifies dec
    ensures dec.Valid() && v == v0 && dec.error == old(dec.error)
    ensures dec.Iv() == Next(st, m, v0).iv && dec.consumed == Next(st, m, v0).raw.bits
  {
    hide Step, FieldAt, FrequencyAt, Tail, Prefix, Fetched;
    var fm := dec.Decode(m.cum[|m.cum| - 1]);
    v := FindAndUpdate(dec, m, m.cum, fm, st, v0);
  }

  method FindAndUpdate(dec: RangeDecoder.Decoder, m: Model, cum: seq<nat>, fm: nat, ghost st: State, ghost v0: int)
    returns (v: int)
    requires dec.Valid() && dec.Iv() == st.iv && dec.consumed == st.raw.bits
    requires (m.Frequencies? || m.BinFrequencies?) && cum == m.cum
    requires StateOk(st) && Reads(dec.Stream(), st, m, v0)
    requires dec.ext == Unit(dec.rng, cum[|cum| - 1])
    requires Holds(st.iv, dec.Stream())
    requires fm == FrequencyAt(dec.rng, Distance(st.iv, dec.Stream()), cum[|cum| - 1])
    modifies dec
    ensures dec.Valid() && v == v0 && dec.error == old(dec.error)
    ensures dec.Iv() == Next(st, m, v0).iv && dec.consumed == Next(st, m, v0).raw.bits
  {
    hide Step, FieldAt, FrequencyAt, Tail, Prefix, Fetched;
    v := FindSlot(cum, fm);
    assert cum[v + 1] <= cum[|cum| - 1];
    UpdateSymbol(dec, m, cum, v, cum[v], cum[v + 1], cum[|cum| - 1], fm, st, v0);
  }

  /** ec_dec_update for the symbol the caller found the frequency to belong to. */
  method UpdateSymbol(dec: RangeDecoder.Decoder, ghost m: Model, ghost cum: seq<nat>, v: int, fl: nat, fh: nat, ft: nat, ghost fm: nat,
                      ghost st: State, ghost v0: int)
    requires dec.Valid() && dec.Iv() == st.iv && dec.consumed == st.raw.bits
    requires (m.Frequencies? || m.BinFrequencies?) && cum == m.cum
    requires StateOk(st) && Reads(dec.Stream(), st, m, v0)
    requires 0 <= v < |cum| - 1 && fl == cum[v] && fh == cum[v + 1] && ft == cum[|cum| - 1] && fl <= fm < fh <= ft
    requires dec.ext == Unit(dec.rng, ft)
    requires Holds(st.iv, dec.Stream())
    requires fm == FrequencyAt(dec.rng, Distance(st.iv, dec.Stream()), ft)
    modifies dec
    ensures dec.Valid() && v == v0 && dec.error == old(dec.error)
    ensures dec.Iv() == Next(st, m, v0).iv && dec.consumed == Next(st, m, v0).raw.bits
  {
    hide Step, FieldAt, FrequencyAt, Tail, Prefix, Fetched;
    ghost var s := dec.Stream();
    dec.Update(fl, fh, ft);
    FrequencyNames(s, st.iv, m, v, v0);
  }

  /** ec_encode for a symbol of a table, given by its interval. */
  method EncodeSymbol(enc: RangeEncoder.Encoder, ghost m: Model, ghost v: int, fl: nat, fh: nat, ft: nat)
    requires enc.Valid() && m.Frequencies? && Codable(m, v) && StateOk(State(enc.iv, enc.raw))
    requires fl == m.cum[v] && fh == m.cum[v + 1] && ft == m.cum[|m.cum| - 1]
    modifies enc, enc.buf
    ensures enc.Valid() && enc.buf == old(enc.buf) && enc.storage == old(enc.storage) && enc.FrontGrew()
    ensures State(enc.iv, enc.raw) == Next(old(State(enc.iv, enc.raw)), m, v)
  {
    hide Step;
    NothingAppended(enc.raw);
    assert m.cum[v + 1] <= m.cum[|m.cum| - 1];
    enc.Encode(fl, fh, ft);
  }

  /** ec_laplace_decode on an undamaged packet. */
  method DecodeLaplace(dec: RangeDecoder.Decoder, fs0: nat, decay: nat, ghost st: State, ghost v0: int) returns (v: int)
    requires dec.Valid() && dec.Iv() == st.iv && dec.consumed == st.raw.bits
    requires StateOk(st) && Reads(dec.Stream(), st, Laplace(fs0, decay), v0)
    modifies dec
    ensures dec.Valid() && v == v0 && dec.error == old(dec.error)
    ensures dec.Iv() == Next(st, Laplace(fs0, decay), v0).iv
    ensures dec.consumed == Next(st, Laplace(fs0, decay), v0).raw.bits
  {
    hide Step, FieldAt, FrequencyAt, Tail, Prefix, Fetched, L.ShareOf, L.Representable, Reads, Next, Holds;
    FifteenBits();
    LaplaceCodable(dec.Stream(), st, fs0, decay, v0);
    var fm := dec.DecodeBin(15);
    var fl, fh;
    v, fl, fh := LaplaceCoder.Decode(fm, fs0, decay);
    ShareFits(fs0, decay, v, fl, fh);
    LaplaceReads(dec.Stream(), st, fs0, decay, v, v0, fl, fh);
    dec.Update(fl, fh, 32768);
  }

  lemma LaplaceCodable(s: seq<byte>, st: State, fs0: nat, decay: nat, v0: int)
    requires StateOk(st) && Reads(s, st, Laplace(fs0, decay), v0)
    ensures Codable(Laplace(fs0, decay), v0)
  {
    hide PointsAt, FieldAt;
  }

  /** The owner of the frequency the code points at is the delta the packet holds. */
  lemma LaplaceReads(s: seq<byte>, st: State, fs0: nat, decay: nat, v: int, v0: int, fl: nat, fh: nat)
    requires StateOk(st) && Reads(s, st, Laplace(fs0, decay), v0)
    requires Codable(Laplace(fs0, decay), v) && L.Share(fl, fh) == L.ShareOf(fs0, decay, v) && fl < fh <= 32768
    requires PointsAt(st.iv, Slot(fl, fh, 32768), s)
    ensures v == v0 && Next(st, Laplace(fs0, decay), v0).raw.bits == st.raw.bits
    ensures Next(st, Laplace(fs0, decay), v0).iv == Step(st.iv, Slot(fl, fh, 32768))
  {
    hide Step, FieldAt, FrequencyAt, L.ShareOf, PointsAt, Next, Pow2;
    FifteenBits();
    NextLaplace(st, fs0, decay, v, fl, fh);
    assert SlotOf(Laplace(fs0, decay), v) == Slot(fl, fh, 32768);
    FrequencyNames(s, st.iv, Laplace(fs0, decay), v, v0);
  }

  /** ec_dec_uint on an undamaged packet. */
  method DecodeUniform(dec: RangeDecoder.Decoder, total: nat, ghost st: State, ghost v0: int) returns (v: int)
    requires dec.Valid() && dec.Iv() == st.iv && dec.consumed == st.raw.bits
    requires StateOk(st) && Reads(dec.Stream(), st, Uniform(total), v0)
    modifies dec
    ensures dec.Valid() && v == v0 && dec.error == old(dec.error)
    ensures dec.Iv() == Next(st, Uniform(total), v0).iv
    ensures dec.consumed == Next(st, Uniform(total), v0).raw.bits
  {
    hide Step, FieldAt, FrequencyAt, Tail, Prefix, Shr, LowBits, PointsAt, Holds, Append, Reads, Narrow, Fetched;
    UniformCodable(dec.Stream(), st, total, v0);
    JoinSplit(v0, total);
    ghost var head;
    v, head := dec.DecodeUint(total);
    UniformReads(dec.Stream(), st, total, v0, head);
  }

  lemma UniformCodable(s: seq<byte>, st: State, total: nat, v0: int)
    requires StateOk(st) && Reads(s, st, Uniform(total), v0)
    ensures 1 < total < 0x1_0000_0000 && 0 <= v0 < total
  {
  }

  /** The slot pointed at and the raw bits are those of the value. */
  lemma UniformReads(s: seq<byte>, st: State, total: nat, v0: int, head: nat)
    requires StateOk(st) && Reads(s, st, Uniform(total), v0)
    requires head < UintHeads(total) <= CODE_BOT && PointsAt(st.iv, Slot(head, head + 1, UintHeads(total)), s)
    ensures 0 <= v0 < total && head == Shr(v0, UintRawBits(total))
    ensures FieldAt(s, st.raw.bits, UintRawBits(total)) == LowBits(v0, UintRawBits(total))
    ensures Next(st, Uniform(total), v0).iv == Step(st.iv, Slot(head, head + 1, UintHeads(total)))
    ensures Next(st, Uniform(total), v0).raw.bits == st.raw.bits + UintRawBits(total)
  {
    hide Step, FieldAt, FrequencyAt, Tail, Prefix, Shr, LowBits, Holds;
    var k := UintSlot(v0, total);
    assert k.fl <= FrequencyAt(st.iv.rng, Distance(st.iv, s), k.ft) < k.fl + 1;
  }

  lemma JoinSplit(v: nat, total: nat)
    requires total > 1
    ensures UintJoin(Shr(v, UintRawBits(total)), LowBits(v, UintRawBits(total)), total) == v
  {
    hide Pow2;
    var p := Pow2(UintRawBits(total));
    assert v == p * (v / p) + v % p;
  }

  /** Two values of one model without raw bits, both pointed at, are the same. */
  lemma FrequencyNames(s: seq<byte>, iv: Interval, m: Model, v: int, w: int)
    requires Normal(iv) && Codable(m, v) && Codable(m, w) && !m.RawField? && !m.Uniform?
    requires PointsAt(iv, SlotOf(m, v), s) && PointsAt(iv, SlotOf(m, w), s)
    ensures v == w
  {
    if v < w {
      ValuesApart(m, v, w);
    } else if w < v {
      ValuesApart(m, w, v);
    }
  }

  lemma NothingRun(items: seq<Item>)
    ensures RunFrom(Start, items[..0]) == Start && StateOk(Start)
  {
    ByteValues();
  }

  lemma OneMore(items: seq<Item>, i: nat)
    requires AllCodable(items) && i < |items| && StateOk(Start)
    ensures Codable(items[i].model, items[i].value) && ModelOk(items[i].model)
    ensures RunFrom(Start, items[..i + 1]) == Next(RunFrom(Start, items[..i]), items[i].model, items[i].value)
    ensures Tells(items)[..i + 1] == Tells(items)[..i] + [StateTell(RunFrom(Start, items[..i + 1]))]
    ensures Values(items)[..i + 1] == Values(items)[..i] + [items[i].value]
  {
    hide Next, StateTell;
    RunStep(Start, items, i);
  }

  method EncodeAll(enc: RangeEncoder.Encoder, items: seq<Item>) returns (tells: seq<int>)
    requires enc.Valid() && AllCodable(items)
    requires enc.iv == InitialInterval && enc.raw == Raw(0, 0)
    modifies enc, enc.buf
    ensures enc.Valid() && enc.buf == old(enc.buf) && enc.storage == old(enc.storage)
    ensures State(enc.iv, enc.raw) == RunFrom(Start, items)
    ensures tells == Tells(items)
  {
    hide Step, RunFrom, Next, Tells;
    NothingRun(items);
    tells := [];
    for i := 0 to |items|
      invariant enc.Valid() && enc.buf == old(enc.buf) && enc.storage == old(enc.storage)
      invariant State(enc.iv, enc.raw) == RunFrom(Start, items[..i])
      invariant tells == Tells(items)[..i]
    {
      EncodeItem(enc, items[i].model, items[i].value);
      OneMore(items, i);
      tells := tells + [Tell(enc.nbitsTotal, enc.rng)];
    }
    assert items[..|items|] == items;
  }

  method DecodeAll(dec: RangeDecoder.Decoder, models: seq<Model>, ghost items: seq<Item>)
    returns (values: seq<int>, tells: seq<int>)
    requires dec.Valid() && AllCodable(items) && models == Models(items)
    requires dec.Iv() == InitialInterval && dec.consumed == 0
    requires Conveys(dec.Stream(), RunFrom(Start, items))
    modifies dec
    ensures dec.Valid() && dec.error == old(dec.error)
    ensures values == Values(items)
    ensures tells == Tells(items)
  {
    hide Step, Conveys, Reads, RunFrom, Next, Tells, Values, Fetched, Prefix, Tail, Codable, ModelOk;
    NothingRun(items);
    values, tells := [], [];
    ghost var s := dec.Stream();
    for i := 0 to |models|
      invariant dec.Valid() && dec.Stream() == s && dec.error == old(dec.error)
      invariant dec.Iv() == RunFrom(Start, items[..i]).iv && dec.consumed == RunFrom(Start, items[..i]).raw.bits
      invariant values == Values(items)[..i]
      invariant tells == Tells(items)[..i]
    {
      PrefixConveys(s, Start, items, i);
      OneMore(items, i);
      var v := DecodeItem(dec, models[i], RunFrom(Start, items[..i]), items[i].value);
      values := values + [v];
      tells := tells + [Tell(dec.nbitsTotal, dec.rng)];
    }
  }

  /**
    The round trip.  Encoding succeeds exactly when the bits fit in the packet,
    surely when ec_tell says they do, and then decoding with the same models
    returns the same values and the same ec_tell after each one, and reports no
    error.
   */
  method RoundTrip(items: seq<Item>, size: nat)
    returns (ok: bool, values: seq<int>, encoderTells: seq<int>, decoderTells: seq<int>, error: int)
    requires AllCodable(items)
    ensures ok <==> BitsFor(RunFrom(Start, items)) <= 8 * size
    ensures StateTell(RunFrom(Start, items)) <= 8 * size ==> ok
    ensures ok ==> values == Values(items) && decoderTells == encoderTells == Tells(items) && error == 0
  {
    hide Step, RunFrom, FinalBits, Buffered, Prefix, Tail, Fetched, Tells, Values, RangeCarry.Denotes;
    var buf := new byte[size];
    var enc := new RangeEncoder.Encoder(buf, size);
    encoderTells := EncodeAll(enc, items);
    RangeEncoder.RegisterIsLow(enc.Waiting(), enc.val, enc.iv);
    TellCoversEnd(enc.nbitsTotal, enc.val, enc.rng, enc.iv.shifts, enc.raw.bits);
    enc.Done();
    ok := enc.error == 0;
    values, decoderTells, error := [], [], enc.error;
    if ok {
      var dec := new RangeDecoder.Decoder(buf, size);
      values, decoderTells := DecodeAll(dec, Models(items), items);
      error := dec.error;
    }
  }

  /** Codes the next item of a run and moves on. */
  method EncodeNext(enc: RangeEncoder.Encoder, m: Model, v: int, ghost st0: State, ghost sent: seq<Item>)
    requires enc.Valid() && Codable(m, v) && StateOk(st0)
    requires AllCodable(sent) && Coder(enc) == RunFrom(st0, sent)
    modifies enc, enc.buf
    ensures enc.Valid() && enc.buf == old(enc.buf) && enc.storage == old(enc.storage)
    ensures AllCodable(sent + [Item(m, v)]) && Coder(enc) == RunFrom(st0, sent + [Item(m, v)])
    ensures Coder(enc) == Next(old(Coder(enc)), m, v)
  {
    hide Next, RunFrom, Codable;
    RunAppend(st0, sent, Item(m, v));
    EncodeItem(enc, m, v);
  }

  /** Decodes the first item of a run a packet conveys and moves on. */
  method DecodeNext(dec: RangeDecoder.Decoder, m: Model, ghost st: State, ghost item: Item, ghost rest: seq<Item>)
    returns (v: int)
    requires At(dec, st) && item.model == m && Codable(m, item.value) && AllCodable([item] + rest)
    requires Conveys(dec.Stream(), RunFrom(st, [item] + rest))
    modifies dec
    ensures v == item.value && AllCodable(rest) && dec.error == old(dec.error)
    ensures At(dec, Next(st, m, v)) && Conveys(dec.Stream(), RunFrom(Next(st, m, v), rest))
  {
    hide Next, RunFrom, Conveys, Reads, Fetched, Tail, Prefix;
    TailCodable(item, rest);
    ConveysHead(dec.Stream(), st, item, rest);
    ModelOfCodable(m, item.value);
    v := DecodeItem(dec, m, st, item.value);
  }

  lemma TailCodable(item: Item, rest: seq<Item>)
    requires AllCodable([item] + rest)
    ensures AllCodable(rest) && Codable(item.model, item.value)
  {
    hide Codable;
    var items := [item] + rest;
    assert forall i :: 0 <= i < |rest| ==> rest[i] == items[i + 1];
    assert items[0] == item;
  }

  lemma ModelOfCodable(m: Model, v: int)
    requires Codable(m, v)
    ensures ModelOk(m)
  {
  }
}
