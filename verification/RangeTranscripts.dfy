/**
  Transcripts: finite mixes of symbols and raw bits, the exact state a coder is
  in after one, and why a packet that conveys that state can be read back in
  only one way.
 */
module RangeTranscripts {
  import opened Powers
  import opened ByteStreams
  import opened RangeIntervals
  import opened RangeModels
  import opened RangeFinish
  import opened RawBits
  import L = Laplace

  /** What both sides know about a symbol before it is coded. */
  datatype Model =
    | Frequencies(cum: seq<nat>)
    | BinFrequencies(cum: seq<nat>, bits: nat)
    | BitLogp(logp: nat)
    | Icdf(icdf: seq<byte>, ftb: nat)
    | Uniform(total: nat)
    | RawField(bits: nat)
    | Laplace(fs0: nat, decay: nat)

  datatype Item = Item(model: Model, value: int)

  /** A cumulative frequency table over |cum| - 1 symbols. */
  predicate CumOk(cum: seq<nat>)
  {
    && |cum| > 1 && cum[0] == 0
    && forall i, j :: 0 <= i <= j < |cum| ==> cum[i] <= cum[j]
  }

  predicate ModelOk(m: Model)
  {
    match m
    case Frequencies(cum) => CumOk(cum) && 0 < cum[|cum| - 1] <= CODE_BOT
    case BinFrequencies(cum, bits) => CumOk(cum) && bits <= 23 && cum[|cum| - 1] == Pow2(bits)
    case BitLogp(logp) => 1 <= logp <= 23
    case Icdf(icdf, ftb) => IcdfOk(icdf, ftb)
    case Uniform(total) => 1 < total < 0x1_0000_0000
    case RawField(bits) => 1 <= bits <= 25
    case Laplace(fs0, decay) => L.ParametersOk(fs0, decay)
  }

  /** The value is one the model can code: its range is not empty. */
  predicate Codable(m: Model, v: int)
  {
    && ModelOk(m)
    && (v >= 0 || m.Laplace?)
    && match m
       case Frequencies(cum) => v < |cum| - 1 && cum[v] < cum[v + 1]
       case BinFrequencies(cum, _) => v < |cum| - 1 && cum[v] < cum[v + 1]
       case BitLogp(_) => v < 2
       case Icdf(icdf, ftb) => IcdfCodable(icdf, ftb, v)
       case Uniform(total) => v < total
       case RawField(bits) => v < Pow2(bits)
       case Laplace(fs0, decay) => L.Representable(fs0, decay, v)
  }

  function SlotOf(m: Model, v: int): (k: Slot)
    requires Codable(m, v) && !m.RawField?
    ensures SlotOk(k)
  {
    match m
    case Frequencies(cum) => assert cum[v + 1] <= cum[|cum| - 1]; Slot(cum[v], cum[v + 1], cum[|cum| - 1])
    case BinFrequencies(cum, bits) => assert cum[v + 1] <= cum[|cum| - 1]; BinSlot(cum[v], cum[v + 1], bits)
    case BitLogp(logp) => BitSlot(v == 1, logp)
    case Icdf(icdf, ftb) => IcdfSlot(icdf, ftb, v)
    case Uniform(total) => UintSlot(v, total)
    case Laplace(fs0, decay) => LaplaceSlot(fs0, decay, v)
  }

  function LaplaceSlot(fs0: nat, decay: nat, v: int): (k: Slot)
    requires L.ParametersOk(fs0, decay) && L.Representable(fs0, decay, v)
    ensures SlotOk(k) && k.ft == Pow2(15) == L.LAPLACE_TOTAL
  {
    var share := L.ShareOf(fs0, decay, v);
    L.SharesDisjoint(fs0, decay, v, v + 1);
    FifteenBits();
    BinSlot(share.fl, share.fh, 15)
  }

  lemma FifteenBits()
    ensures Pow2(15) == L.LAPLACE_TOTAL
  {
    Pow2Add(8, 7);
    ByteValues();
    assert Pow2(7) == 128;
  }

  function RawCount(m: Model): nat
    requires ModelOk(m)
  {
    match m
    case Uniform(total) => UintRawBits(total)
    case RawField(bits) => bits
    case _ => 0
  }

  function RawValue(m: Model, v: int): (r: nat)
    requires Codable(m, v)
    ensures r < Pow2(RawCount(m))
  {
    match m
    case Uniform(total) => LowBits(v, UintRawBits(total))
    case RawField(_) => v
    case _ => 0
  }

  /** Everything the coder's output has to convey. */
  datatype State = State(iv: Interval, raw: Raw)

  predicate StateOk(st: State)
  {
    Normal(st.iv) && st.raw.value < Pow2(st.raw.bits)
  }

  const Start := State(InitialInterval, Raw(0, 0))

  function Next(st: State, m: Model, v: int): (r: State)
    requires StateOk(st) && Codable(m, v)
    ensures StateOk(r)
  {
    Pow2Add(st.raw.bits, RawCount(m));
    FieldFits(st.raw.value, Pow2(st.raw.bits), RawValue(m, v), Pow2(RawCount(m)));
    State(if m.RawField? then st.iv else Step(st.iv, SlotOf(m, v)),
          Append(st.raw, RawValue(m, v), RawCount(m)))
  }

  predicate AllCodable(items: seq<Item>)
  {
    forall i :: 0 <= i < |items| ==> Codable(items[i].model, items[i].value)
  }

  /** The state after coding `items` from state `st`. */
  function RunFrom(st: State, items: seq<Item>): (r: State)
    requires StateOk(st) && AllCodable(items)
    ensures StateOk(r)
  {
    if items == [] then st
    else Next(RunFrom(st, items[..|items| - 1]), items[|items| - 1].model, items[|items| - 1].value)
  }

  /** The packet conveys the state. */
  predicate Conveys(s: seq<byte>, st: State)
  {
    Holds(st.iv, s) && Carries(s, st.raw)
  }

  /** What a decoder in state `st` reads off the packet `s` under the model `m`. */
  predicate Reads(s: seq<byte>, st: State, m: Model, v: int)
    requires Normal(st.iv)
  {
    && Codable(m, v)
    && (!m.RawField? ==> PointsAt(st.iv, SlotOf(m, v), s))
    && FieldAt(s, st.raw.bits, RawCount(m)) == RawValue(m, v)
  }

  /** Different values of one model have slots apart, or the same slot and different raw bits. */
  lemma ValuesApart(m: Model, v: int, w: int)
    requires Codable(m, v) && Codable(m, w) && v < w && !m.RawField?
    ensures var a, b := SlotOf(m, v), SlotOf(m, w);
      a.ft == b.ft && (a.fh <= b.fl || b.fh <= a.fl || (a == b && RawValue(m, v) != RawValue(m, w)))
  {
    match m
    case Frequencies(cum) =>
    case BinFrequencies(cum, bits) =>
    case BitLogp(logp) =>
    case Icdf(icdf, ftb) =>
      assert icdf[w - 1] <= icdf[v];
    case Uniform(total) =>
      SplitsApart(v, w, UintRawBits(total));
    case Laplace(fs0, decay) =>
      L.SharesDisjoint(fs0, decay, v, w);
  }

  lemma SplitsApart(v: nat, w: nat, n: nat)
    requires v < w
    ensures Shr(v, n) < Shr(w, n) || (Shr(v, n) == Shr(w, n) && LowBits(v, n) != LowBits(w, n))
  {
    QuotientMonotone(v, w, Pow2(n));
    assert v == Pow2(n) * Shr(v, n) + LowBits(v, n);
    assert w == Pow2(n) * Shr(w, n) + LowBits(w, n);
  }

  /** At most one value can be read. */
  lemma ReadsUnique(s: seq<byte>, st: State, m: Model, v: int, w: int)
    requires Normal(st.iv) && Reads(s, st, m, v) && Reads(s, st, m, w)
    ensures v == w
  {
    if v < w && !m.RawField? {
      ValuesApart(m, v, w);
    } else if w < v && !m.RawField? {
      ValuesApart(m, w, v);
    }
  }

  /** A packet that conveys the later state conveys the earlier one, and the value between. */
  lemma ConveysBack(s: seq<byte>, st: State, m: Model, v: int)
    requires StateOk(st) && Codable(m, v)
    requires Conveys(s, Next(st, m, v))
    ensures Conveys(s, st) && Reads(s, st, m, v)
  {
    FieldSurvives(s, st.raw, RawValue(m, v), RawCount(m));
    if !m.RawField? {
      StepHolds(st.iv, SlotOf(m, v), s);
    }
  }

  lemma RunStep(st: State, items: seq<Item>, i: nat)
    requires StateOk(st) && AllCodable(items) && i < |items|
    ensures Codable(items[i].model, items[i].value)
    ensures RunFrom(st, items[..i + 1]) == Next(RunFrom(st, items[..i]), items[i].model, items[i].value)
  {
    hide Next;
    assert items[..i + 1][..i] == items[..i];
  }

  lemma RunAppend(st: State, items: seq<Item>, item: Item)
    requires StateOk(st) && AllCodable(items) && Codable(item.model, item.value)
    ensures AllCodable(items + [item])
    ensures RunFrom(st, items + [item]) == Next(RunFrom(st, items), item.model, item.value)
  {
    hide Next;
    assert (items + [item])[..|items|] == items;
  }

  /** A packet that conveys the whole run conveys every prefix and reads back every value. */
  lemma {:induction false} PrefixConveys(s: seq<byte>, st: State, items: seq<Item>, n: nat)
    requires StateOk(st) && AllCodable(items) && Conveys(s, RunFrom(st, items)) && n <= |items|
    ensures Conveys(s, RunFrom(st, items[..n]))
    ensures n < |items| ==> Reads(s, RunFrom(st, items[..n]), items[n].model, items[n].value)
    decreases |items|
  {
    hide Conveys, Reads, Next;
    if n == |items| {
      assert items[..n] == items;
    } else {
      var before, last := items[..|items| - 1], items[|items| - 1];
      ConveysBack(s, RunFrom(st, before), last.model, last.value);
      PrefixConveys(s, st, before, n);
      assert before[..n] == items[..n];
    }
  }

  predicate SameModels(a: seq<Item>, b: seq<Item>)
  {
    |a| == |b| && forall i :: 0 <= i < |a| ==> a[i].model == b[i].model
  }

  /** Unique decoding: one packet conveys at most one message under given models. */
  lemma {:induction false} UniquelyDecodable(s: seq<byte>, a: seq<Item>, b: seq<Item>, n: nat)
    requires AllCodable(a) && AllCodable(b) && SameModels(a, b) && n <= |a|
    requires Conveys(s, RunFrom(Start, a)) && Conveys(s, RunFrom(Start, b))
    ensures a[..n] == b[..n]
  {
    hide Conveys, Reads, RunFrom;
    if n > 0 {
      UniquelyDecodable(s, a, b, n - 1);
      PrefixConveys(s, Start, a, n - 1);
      PrefixConveys(s, Start, b, n - 1);
      ReadsUnique(s, RunFrom(Start, a[..n - 1]), a[n - 1].model, a[n - 1].value, b[n - 1].value);
      assert a[..n] == a[..n - 1] + [a[n - 1]];
      assert b[..n] == b[..n - 1] + [b[n - 1]];
    }
  }

  function Values(items: seq<Item>): (vs: seq<int>)
    ensures |vs| == |items|
  {
    seq(|items|, i requires 0 <= i < |items| => items[i].value)
  }

  function Models(items: seq<Item>): (ms: seq<Model>)
    ensures |ms| == |items|
  {
    seq(|items|, i requires 0 <= i < |items| => items[i].model)
  }

  /** What ec_tell reports in a state: bits used so far, rounded up. */
  function StateTell(st: State): int
  {
    Tell(CODE_BITS + 1 + 8 * st.iv.shifts + st.raw.bits, st.iv.rng)
  }

  /** What ec_tell reports after each symbol of a run. */
  function Tells(items: seq<Item>): (ts: seq<int>)
    requires AllCodable(items)
    ensures |ts| == |items|
  {
    seq(|items|, i requires 0 <= i < |items| => StateTell(RunFrom(Start, items[..i + 1])))
  }

  /** The bits a whole run needs once finished. */
  function BitsFor(st: State): nat
    requires Normal(st.iv)
  {
    8 * st.iv.shifts + FinalBits(st.iv.low % CODE_TOP, st.iv.rng) + st.raw.bits
  }

  /** A run can also be split after its first item. */
  lemma {:induction false} RunCons(st: State, item: Item, rest: seq<Item>)
    requires StateOk(st) && Codable(item.model, item.value) && AllCodable(rest)
    ensures AllCodable([item] + rest)
    ensures RunFrom(st, [item] + rest) == RunFrom(Next(st, item.model, item.value), rest)
  {
    hide Next, Codable;
    var items := [item] + rest;
    if rest == [] {
      assert items == [] + [item];
      assert items[..0] == [];
      assert RunFrom(st, items) == Next(RunFrom(st, items[..0]), item.model, item.value);
    } else {
      var before, last := rest[..|rest| - 1], rest[|rest| - 1];
      RunCons(st, item, before);
      assert items[..|items| - 1] == [item] + before;
    }
  }

  /** What a decoder learns from a packet about the first item of a run. */
  lemma ConveysHead(s: seq<byte>, st: State, item: Item, rest: seq<Item>)
    requires StateOk(st) && Codable(item.model, item.value) && AllCodable(rest) && AllCodable([item] + rest)
    requires Conveys(s, RunFrom(st, [item] + rest))
    ensures Reads(s, st, item.model, item.value)
    ensures Conveys(s, RunFrom(Next(st, item.model, item.value), rest))
  {
    hide Next, Conveys, Reads, Codable;
    var items := [item] + rest;
    PrefixConveys(s, st, items, 0);
    assert items[..0] == [];
    RunCons(st, item, rest);
  }

  lemma {:induction false} RunConcat(st: State, a: seq<Item>, b: seq<Item>)
    requires StateOk(st) && AllCodable(a) && AllCodable(b)
    ensures AllCodable(a + b)
    ensures RunFrom(st, a + b) == RunFrom(RunFrom(st, a), b)
  {
    hide Next, Codable;
    if b == [] {
      assert a + b == a;
    } else {
      var before := b[..|b| - 1];
      RunConcat(st, a, before);
      assert (a + b)[..|a + b| - 1] == a + before;
    }
  }

  lemma EmptyRun(st: State)
    requires StateOk(st)
    ensures RunFrom(st, []) == st
  {
  }

  lemma {:induction false} IlogShift(v: nat, n: nat)
    requires v > 0
    ensures Pow2(n) * v > 0 && Ilog(Pow2(n) * v) == Ilog(v) + n
  {
    if n > 0 {
      IlogShift(v, n - 1);
      MulAssoc(2, Pow2(n - 1), v);
    }
  }

  /** Rescaling does not change what ec_tell reports. */
  lemma {:induction false} RenormTell(iv: Interval)
    requires 0 < iv.rng <= CODE_TOP
    ensures 8 * Renorm(iv).shifts - Ilog(Renorm(iv).rng) == 8 * iv.shifts - Ilog(iv.rng)
    decreases CODE_TOP - iv.rng
  {
    hide Ilog, Pow2;
    if iv.rng <= CODE_BOT {
      ByteValues();
      IlogShift(iv.rng, 8);
      RenormTell(Interval(256 * iv.low, 256 * iv.rng, iv.shifts + 1));
    }
  }

  /** A slot of at least 2^k units out of 2^n leaves at least that share of the range, up to rounding. */
  lemma SlotShare(iv: Interval, s: Slot, n: nat, k: nat)
    requires Normal(iv) && SlotOk(s) && s.ft == Pow2(n) && Pow2(k) <= s.fh - s.fl
    ensures 0 < Narrow(iv, s).rng <= CODE_TOP && Ilog(iv.rng) + k <= Ilog(Narrow(iv, s).rng) + n
  {
    hide Ilog, Pow2, Unit, Slice;
    NarrowRange(iv, s);
    var r := Unit(iv.rng, s.ft);
    SliceAtLeast(iv, r, s.fl, s.fh, s.ft, Pow2(k));
    UnitBounds(iv.rng, s.ft);
    NextPower(s.ft, r, n, iv.rng);
    IlogShift(r, k);
    IlogGrows(Pow2(k) * r, Narrow(iv, s).rng);
  }

  lemma UnitBounds(rng: nat, ft: nat)
    requires 0 < ft <= rng
    ensures var r := Unit(rng, ft); r > 0 && ft * r <= rng < ft * (r + 1)
  {
    assert rng == ft * (rng / ft) + rng % ft;
  }

  /** A slot is at least as wide as its units. */
  lemma SliceAtLeast(iv: Interval, r: nat, fl: nat, fh: nat, ft: nat, w: nat)
    requires fl < fh <= ft && 0 < r && r * ft <= iv.rng && w <= fh - fl
    ensures Slice(iv, r, fl, fh, ft).rng >= w * r
  {
    SliceWidth(iv, r, fl, fh, ft);
    MulLe(r, w, fh - fl);
    MulDistribute(r, ft - fh, fh);
  }

  /** Below the next multiple of 2^n a number has no more bits than the multiple before. */
  lemma NextPower(p: nat, r: nat, n: nat, v: nat)
    requires p == Pow2(n) && r > 0 && p * r <= v < p * (r + 1)
    ensures Ilog(v) == Ilog(r) + n
  {
    hide Ilog, Pow2;
    IlogBounds(r);
    var b := Ilog(r);
    Pow2Add(n, b - 1);
    Pow2Add(n, b);
    MulLe(p, Pow2(b - 1), r);
    MulLe(p, r + 1, Pow2(b));
    IlogUnique(v, b + n);
  }

  /** A symbol with 2^k units or more out of 2^n costs at most n - k bits. */
  lemma ShareCost(st: State, m: Model, v: int, n: nat, k: nat)
    requires StateOk(st) && Codable(m, v) && !m.RawField? && RawCount(m) == 0
    requires SlotOf(m, v).ft == Pow2(n) && Pow2(k) <= SlotOf(m, v).fh - SlotOf(m, v).fl
    ensures StateTell(Next(st, m, v)) <= StateTell(st) + n - k
  {
    hide Ilog, Pow2, SlotOf, RawValue;
    var s := SlotOf(m, v);
    SlotShare(st.iv, s, n, k);
    RenormTell(Narrow(st.iv, s));
  }

  /** A symbol of a model whose total is 2^n costs at most n bits. */
  lemma NextCost(st: State, m: Model, v: int, n: nat)
    requires StateOk(st) && Codable(m, v) && !m.RawField? && RawCount(m) == 0 && SlotOf(m, v).ft == Pow2(n)
    ensures StateTell(Next(st, m, v)) <= StateTell(st) + n
  {
    hide SlotOf, Next, StateTell;
    ByteValues();
    ShareCost(st, m, v, n, 0);
  }

  /** A flag costs at most one bit when it is not raised, however many it costs when it is. */
  lemma LogpCost(st: State, logp: nat, v: int)
    requires StateOk(st) && Codable(BitLogp(logp), v)
    ensures StateTell(Next(st, BitLogp(logp), v)) <= StateTell(st) + if v == 0 then 1 else logp
  {
    hide Next, StateTell;
    if v == 0 {
      HalfPower(logp);
      ShareCost(st, BitLogp(logp), v, logp, logp - 1);
    } else {
      NextCost(st, BitLogp(logp), v, logp);
    }
  }
}
