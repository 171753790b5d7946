/**
  compute_allocation and interp_bits2pulses of celt/rate.c with their loops and
  arrays, on the encoder's and the decoder's side: both end with the same
  allocation, the one of BitSplit.
 */
module BitAllocation {
  import opened Powers
  import opened ByteStreams
  import opened RangeTranscripts
  import opened RangeRoundTrip
  import opened BitBudget
  import opened BitSkip
  import RangeEncoder
  import RangeDecoder

  /** The inner loop of the first search. */
  method RowUse(g: Job, r: nat) returns (psum: int)
    requires JobOk(g) && r < |g.rows|
    ensures psum == Usage(g, RowBits(g, r), g.end, false)
  {
    hide Thresh, Tilted;
    var j, done := g.end, false;
    psum := 0;
    while j > g.start
      invariant g.start <= j <= g.end
      invariant psum + Usage(g, RowBits(g, r), j, done) == Usage(g, RowBits(g, r), g.end, false)
    {
      j := j - 1;
      var bitsj := Tilted(g, r, j) + g.offsets[j];
      if bitsj >= Thresh(g, j) || done {
        done := true;
        psum := psum + Min(bitsj, g.cap[j]);
      } else if bitsj >= Floor(g) {
        psum := psum + Floor(g);
      }
    }
  }

  /** The search over the rows of the allocation table. */
  method FindRow(g: Job, total: int) returns (r: nat)
    requires JobOk(g) && total >= 0
    ensures r < |g.rows| && r == SearchRow(g, total, 1, |g.rows| - 1)
    ensures r == |g.rows| - 1 || Usage(g, RowBits(g, r + 1), g.end, false) > total
  {
    hide Usage, JobOk;
    var lo: int, hi := 1, |g.rows| - 1;
    while lo <= hi
      invariant 1 <= lo <= hi + 1 <= |g.rows|
      invariant lo == 1 || RowFits(g, total, lo - 1)
      invariant hi == |g.rows| - 1 || !RowFits(g, total, hi + 1)
      invariant SearchRow(g, total, lo, hi) == SearchRow(g, total, 1, |g.rows| - 1)
      decreases hi - lo
    {
      var mid := (lo + hi) / 2;
      var psum := RowUse(g, mid);
      if psum > total {
        hi := mid - 1;
      } else {
        lo := mid + 1;
      }
    }
    r := lo - 1;
  }

  /** The inner loop of the second search. */
  method MixUse(g: Job, low: seq<int>, step: seq<int>, mid: nat) returns (psum: int)
    requires JobOk(g) && Amounts(g, low) && Amounts(g, step)
    ensures psum == Usage(g, Mixed(g, low, step, mid), g.end, false)
  {
    hide Thresh;
    var j, done := g.end, false;
    psum := 0;
    while j > g.start
      invariant g.start <= j <= g.end
      invariant psum + Usage(g, Mixed(g, low, step, mid), j, done) == Usage(g, Mixed(g, low, step, mid), g.end, false)
    {
      j := j - 1;
      var tmp := low[j] + mid * step[j] / 64;
      if tmp >= Thresh(g, j) || done {
        done := true;
        psum := psum + Min(tmp, g.cap[j]);
      } else if tmp >= Floor(g) {
        psum := psum + Floor(g);
      }
    }
  }

  /** One halving, as the source makes it. */
  lemma Halving(g: Job, low: seq<int>, step: seq<int>, total: int, lo: nat, hi: nat, n: nat)
    requires JobOk(g) && Amounts(g, low) && Amounts(g, step) && n > 0 && hi == lo + Pow2(n) <= 64
    requires MixFits(g, low, step, total, lo) && (hi == 64 || !MixFits(g, low, step, total, hi))
    ensures var mid := (lo + hi) / 2;
      && hi == mid + Pow2(n - 1) && mid == lo + Pow2(n - 1)
      && (MixFits(g, low, step, total, mid) <==> Usage(g, Mixed(g, low, step, mid), g.end, false) <= total)
      && SearchMix(g, low, step, total, lo, hi, n) ==
           if MixFits(g, low, step, total, mid) then SearchMix(g, low, step, total, mid, hi, n - 1)
           else SearchMix(g, low, step, total, lo, mid, n - 1)
  {
    hide Usage, Mixed, JobOk;
    HalfPower(n);
  }

  lemma HalvingsDone(g: Job, low: seq<int>, step: seq<int>, total: int, lo: nat, hi: nat)
    requires JobOk(g) && Amounts(g, low) && Amounts(g, step) && hi == lo + Pow2(0) <= 64
    requires MixFits(g, low, step, total, lo) && (hi == 64 || !MixFits(g, low, step, total, hi))
    ensures SearchMix(g, low, step, total, lo, hi, 0) == lo
    ensures lo == 63 || Usage(g, Mixed(g, low, step, lo + 1), g.end, false) > total
  {
    hide Usage, Mixed, JobOk;
  }

  /** Six halvings between two rows. */
  method FindMix(g: Job, low: seq<int>, step: seq<int>, total: int) returns (lo: nat)
    requires JobOk(g) && Amounts(g, low) && Amounts(g, step)
    requires MixFits(g, low, step, total, 0)
    ensures lo == SearchMix(g, low, step, total, 0, 64, 6)
    ensures lo == 63 || Usage(g, Mixed(g, low, step, lo + 1), g.end, false) > total
  {
    hide Usage, Mixed, JobOk, MixFits, SearchMix, Pow2;
    SixHalvings();
    lo := 0;
    var hi: nat := 64;
    for i := 0 to 6
      invariant hi == lo + Pow2(6 - i) <= 64 && MixFits(g, low, step, total, lo)
      invariant hi == 64 || !MixFits(g, low, step, total, hi)
      invariant SearchMix(g, low, step, total, lo, hi, 6 - i) == SearchMix(g, low, step, total, 0, 64, 6)
    {
      Halving(g, low, step, total, lo, hi, 6 - i);
      var mid := (lo + hi) / 2;
      var psum := MixUse(g, low, step, mid);
      if psum > total {
        hi := mid;
      } else {
        lo := mid;
      }
    }
    HalvingsDone(g, low, step, total, lo, hi);
  }

  /** The bits each band starts with, filled in from the top. */
  method GiveBits(g: Job, mix: seq<int>, bits: array<int>) returns (psum: int)
    requires JobOk(g) && Amounts(g, mix) && bits.Length >= g.end
    modifies bits
    ensures bits[g.start..g.end] == Given(g, mix, g.end, false)[g.start..]
    ensures psum == Sum(Given(g, mix, g.end, false), g.start, g.end)
    ensures forall k :: 0 <= k < bits.Length && !(g.start <= k < g.end) ==> bits[k] == old(bits[k])
  {
    hide Thresh, Sum;
    ghost var all := Given(g, mix, g.end, false);
    var j, done := g.end, false;
    psum := 0;
    NoSum(all, g.end);
    while j > g.start
      invariant g.start <= j <= g.end
      invariant Given(g, mix, j, done) == all[..j]
      invariant bits[j..g.end] == all[j..]
      invariant psum == Sum(all, j, g.end)
      invariant forall k :: 0 <= k < bits.Length && !(g.start <= k < g.end) ==> bits[k] == old(bits[k])
    {
      ghost var was := bits[j..g.end];
      ghost var given := Given(g, mix, j, done);
      j := j - 1;
      var tmp := mix[j];
      if tmp < Thresh(g, j) && !done {
        tmp := if tmp >= Floor(g) then Floor(g) else 0;
      } else {
        done := true;
      }
      tmp := Min(tmp, g.cap[j]);
      bits[j] := tmp;
      psum := psum + tmp;
      assert given == Given(g, mix, j, done) + [tmp];
      assert all[j] == given[j] && all[..j] == given[..j];
      assert bits[j..g.end] == [tmp] + was;
      SumFront(all, j, g.end);
    }
  }

  lemma NoSum(s: seq<int>, a: nat)
    requires a <= |s|
    ensures Sum(s, a, a) == 0
  {
  }

  lemma SumFront(s: seq<int>, a: nat, b: nat)
    requires a < b <= |s|
    ensures Sum(s, a, b) == s[a] + Sum(s, a + 1, b)
  {
    SumSplit(s, a, a + 1, b);
    assert Sum(s, a, a + 1) == Sum(s, a, a) + s[a];
  }

  /** The state of the skip loop, seen in its variables. */
  ghost predicate Shows(g: Job, s: Skip, coded: int, psum: int, kept: int, bits: seq<int>)
  {
    && s.coded == coded && s.psum == psum && s.kept == kept
    && |bits| >= g.end && |s.bits| == g.end && g.start <= g.end && bits[g.start..g.end] == s.bits[g.start..]
  }

  /** Both searches, and the skip loop's starting state. */
  method Begin(g: Job, r: Reserve, bits: array<int>) returns (psum: int)
    requires JobOk(g) && r.total >= 0 && bits.Length >= g.end
    requires r.intensity == 0 || r.intensity == ChoiceCost(g.end - g.start)
    modifies bits
    ensures Shows(g, FirstSkip(g, r), g.end, psum, r.intensity, bits[..])
    ensures forall k :: 0 <= k < bits.Length && !(g.start <= k < g.end) ==> bits[k] == old(bits[k])
  {
    hide SearchRow, SearchMix, Given, Sum, BaseBits, StepBits, Mixed;
    LowFits(g, r.total);
    var row := FindRow(g, r.total);
    var low, step := BaseBits(g, row), StepBits(g, row);
    var lo := FindMix(g, low, step, r.total);
    psum := GiveBits(g, Mixed(g, low, step, lo), bits);
    assert bits[..][g.start..g.end] == bits[g.start..g.end];
  }

  /** What the topmost band would have: band_bits. */
  method TopOf(g: Job, total: int, coded: nat, psum: int, bits: array<int>, ghost s: Skip, ghost kept: int) returns (bandBits: int)
    requires SkipOk(g, total, s) && Shows(g, s, coded, psum, kept, bits[..])
    ensures bandBits == TopBits(g, total, s)
  {
    var j := coded - 1;
    assert bits[..][g.start..g.end][j - g.start] == s.bits[g.start..][j - g.start];
    var left := total - psum;
    var percoeff := left / (g.edges[coded] - g.edges[g.start]);
    left := left - (g.edges[coded] - g.edges[g.start]) * percoeff;
    var rem := Max(left - (g.edges[j] - g.edges[g.start]), 0);
    var bandWidth := g.edges[coded] - g.edges[j];
    bandBits := bits[j] + percoeff * bandWidth + rem;
  }

  /** The rest of a turn of the skip loop: the band's bits are taken back. */
  method Drop(g: Job, total: int, coded: nat, psum0: int, kept0: nat, bandBits: int, flagged: bool, bits: array<int>, ghost s: Skip)
    returns (psum: int, kept: nat)
    requires SkipOk(g, total, s) && Shows(g, s, coded, psum0, kept0, bits[..]) && coded - 1 > g.start
    requires bandBits == TopBits(g, total, s) && (flagged ==> bandBits >= Floor(g) + 8)
    modifies bits
    ensures Shows(g, Dropped(g, total, s, flagged), coded - 1, psum, kept, bits[..])
    ensures forall k :: 0 <= k < bits.Length && !(g.start <= k < g.end) ==> bits[k] == old(bits[k])
  {
    hide TopBits, Share, JobOk, SkipOk;
    SkipFacts(g, total, s);
    var j := coded - 1;
    ghost var was := bits[..];
    assert was[g.start..g.end][j - g.start] == s.bits[g.start..][j - g.start];
    var top := bandBits;
    psum, kept := psum0, kept0;
    if flagged {
      psum := psum + 8;
      top := top - 8;
    }
    psum := psum - (bits[j] + kept);
    if kept > 0 {
      kept := ChoiceCost(j - g.start);
    }
    psum := psum + kept;
    if top >= Floor(g) {
      psum := psum + Floor(g);
      bits[j] := Floor(g);
    } else {
      bits[j] := 0;
    }
    assert bits[..] == was[j := bits[j]];
    assert bits[..][g.start..g.end] == was[g.start..g.end][j - g.start := bits[j]];
  }

  /** The source finds the last boosted band on the way through the bands. */
  method FindSkipStart(g: Job) returns (r: nat)
    requires JobOk(g)
    ensures r == SkipStart(g, g.end)
  {
    r := g.start;
    for j := g.start to g.end
      invariant r == SkipStart(g, j)
    {
      if g.offsets[j] > 0 {
        r := j;
      }
    }
  }

  /** Midway through the skip loop: `sent` is behind, the plan from `s` ahead. */
  ghost predicate Along(g: Job, ch: Choice, total: int, st0: State, plan: Skipped, sent: seq<Item>, cur: State, s: Skip)
  {
    && SkipOk(g, total, s) && StateOk(st0) && StateOk(cur) && AllCodable(sent) && cur == RunFrom(st0, sent)
    && var rest := SkipPlan(g, ch, total, s);
       plan.items == sent + rest.items && plan.last == rest.last && plan.byFlag == rest.byFlag
  }

  lemma AlongStart(g: Job, ch: Choice, total: int, cur: State, s: Skip)
    requires SkipOk(g, total, s) && StateOk(cur)
    ensures Along(g, ch, total, cur, SkipPlan(g, ch, total, s), [], cur, s)
  {
    hide SkipPlan;
    EmptyRun(cur);
  }

  lemma AlongForced(g: Job, ch: Choice, total: int, st0: State, plan: Skipped, sent: seq<Item>, cur: State, s: Skip)
    requires Along(g, ch, total, st0, plan, sent, cur, s) && s.coded - 1 > SkipStart(g, g.end)
    requires !Flagged(g, TopBits(g, total, s), s.coded - 1)
    ensures Along(g, ch, total, st0, plan, sent, cur, Dropped(g, total, s, false))
  {
    hide Dropped, TopBits, Flagged, RunFrom, Keeps;
  }

  lemma AlongFlagged(g: Job, ch: Choice, total: int, st0: State, plan: Skipped, sent: seq<Item>, cur: State, s: Skip)
    requires Along(g, ch, total, st0, plan, sent, cur, s) && s.coded - 1 > SkipStart(g, g.end)
    requires Flagged(g, TopBits(g, total, s), s.coded - 1) && !Keeps(g, ch, s.coded, TopBits(g, total, s))
    ensures TopBits(g, total, s) >= Floor(g) + 8 && AllCodable([FlagItem(false)]) && StateOk(cur)
    ensures Along(g, ch, total, st0, plan, sent + [FlagItem(false)], Next(cur, BitLogp(1), 0), Dropped(g, total, s, true))
  {
    hide Dropped, TopBits, RunFrom, Keeps, Next;
    RunAppend(st0, sent, FlagItem(false));
  }

  lemma AlongKept(g: Job, ch: Choice, total: int, st0: State, plan: Skipped, sent: seq<Item>, cur: State, s: Skip)
    requires Along(g, ch, total, st0, plan, sent, cur, s) && s.coded - 1 > SkipStart(g, g.end)
    requires Flagged(g, TopBits(g, total, s), s.coded - 1) && Keeps(g, ch, s.coded, TopBits(g, total, s))
    ensures plan == Skipped(sent + [FlagItem(true)], s, true) && AllCodable([FlagItem(true)]) && StateOk(cur)
    ensures Next(cur, BitLogp(1), 1) == RunFrom(st0, plan.items)
  {
    hide Dropped, TopBits, RunFrom, Keeps, Next;
    RunAppend(st0, sent, FlagItem(true));
  }

  lemma AlongEnd(g: Job, ch: Choice, total: int, st0: State, plan: Skipped, sent: seq<Item>, cur: State, s: Skip)
    requires Along(g, ch, total, st0, plan, sent, cur, s) && s.coded - 1 <= SkipStart(g, g.end)
    ensures plan == Skipped(sent, s, false) && cur == RunFrom(st0, plan.items)
  {
    hide RunFrom;
  }

  /** The skip loop on the encoder's side. */
  method EncodeSkip(enc: RangeEncoder.Encoder, g: Job, ch: Choice, r: Reserve, bits: array<int>, psum0: int, ghost s0: Skip)
    returns (coded: nat, psum: int, kept: nat, byFlag: bool)
    requires enc.Valid() && StateOk(Coder(enc)) && bits as object != enc.buf
    requires SkipOk(g, r.total, s0) && Shows(g, s0, g.end, psum0, r.intensity, bits[..])
    modifies enc, enc.buf, bits
    ensures enc.Valid() && enc.buf == old(enc.buf) && enc.storage == old(enc.storage)
    ensures var k := SkipPlan(g, ch, r.total, s0);
      && Coder(enc) == RunFrom(old(Coder(enc)), k.items) && byFlag == k.byFlag
      && Shows(g, k.last, coded, psum, kept, bits[..])
    ensures forall k :: 0 <= k < bits.Length && !(g.start <= k < g.end) ==> bits[k] == old(bits[k])
  {
    hide SkipPlan, Along, RunFrom, Next, TopBits, Flagged, Keeps, SkipOk, Shows, Dropped, RangeEncoder.Encoder.Valid;
    ghost var st0, plan := Coder(enc), SkipPlan(g, ch, r.total, s0);
    ghost var s, sent: seq<Item> := s0, [];
    SkipJob(g, r.total, s);
    AlongStart(g, ch, r.total, st0, s);
    var skipStart := FindSkipStart(g);
    coded, psum, kept, byFlag := g.end, psum0, r.intensity, false;
    ShownCoded(g, s, coded, psum, kept, bits[..]);
    while coded - 1 > skipStart
      invariant enc.Valid() && enc.buf == old(enc.buf) && enc.storage == old(enc.storage)
      invariant SkipOk(g, r.total, s) && Shows(g, s, coded, psum, kept, bits[..]) && s.coded == coded && g.start < coded <= g.end
      invariant Along(g, ch, r.total, st0, plan, sent, Coder(enc), s)
      invariant forall k :: 0 <= k < bits.Length && !(g.start <= k < g.end) ==> bits[k] == old(bits[k])
      decreases coded
    {
      var top := TopOf(g, r.total, coded, psum, bits, s, kept);
      FlagFits(g, r.total, s);
      var flagged := top >= Max(Thresh(g, coded - 1), Floor(g) + 8);
      assert flagged == Flagged(g, top, coded - 1) by { FlaggedIs(g, top, coded - 1); }
      if flagged {
        if Keeps(g, ch, coded, top) {
          AlongKept(g, ch, r.total, st0, plan, sent, Coder(enc), s);
          EncodeBit(enc, true);
          byFlag := true;
          return;
        }
        AlongFlagged(g, ch, r.total, st0, plan, sent, Coder(enc), s);
        EncodeBit(enc, false);
        sent := sent + [FlagItem(false)];
      } else {
        AlongForced(g, ch, r.total, st0, plan, sent, Coder(enc), s);
      }
      psum, kept := Drop(g, r.total, coded, psum, kept, top, flagged, bits, s);
      s := Dropped(g, r.total, s, flagged);
      DroppedKeeps(g, r.total, s);
      coded := coded - 1;
      ShownCoded(g, s, coded, psum, kept, bits[..]);
    }
    AlongEnd(g, ch, r.total, st0, plan, sent, Coder(enc), s);
  }

  lemma FlaggedIs(g: Job, top: int, j: nat)
    requires JobOk(g) && j < g.end
    ensures Flagged(g, top, j) <==> top >= Max(Thresh(g, j), Floor(g) + 8)
  {
  }

  lemma SkipJob(g: Job, total: int, s: Skip)
    requires SkipOk(g, total, s)
    ensures JobOk(g) && g.start < s.coded <= g.end && Amounts(g, s.bits)
  {
  }

  lemma ShownCoded(g: Job, s: Skip, coded: int, psum: int, kept: int, bits: seq<int>)
    requires Shows(g, s, coded, psum, kept, bits)
    ensures s.coded == coded && s.psum == psum && s.kept == kept
  {
  }

  lemma DroppedKeeps(g: Job, total: int, s: Skip)
    requires SkipOk(g, total, s)
    ensures g.start < s.coded <= g.end
  {
  }

  /** ec_enc_bit_logp(ec, bit, 1) */
  method EncodeBit(enc: RangeEncoder.Encoder, bit: bool)
    requires enc.Valid() && StateOk(Coder(enc))
    modifies enc, enc.buf
    ensures enc.Valid() && enc.buf == old(enc.buf) && enc.storage == old(enc.storage)
    ensures Codable(BitLogp(1), if bit then 1 else 0)
    ensures Coder(enc) == Next(old(Coder(enc)), BitLogp(1), if bit then 1 else 0)
  {
    hide Next;
    EncodeItem(enc, BitLogp(1), if bit then 1 else 0);
  }

  /** The packet conveys the rest of the skip flags and then `extra`. */
  ghost predicate Ahead(data: seq<byte>, g: Job, ch: Choice, total: int, cur: State, s: Skip, extra: seq<Item>)
  {
    && SkipOk(g, total, s) && StateOk(cur) && AllCodable(extra)
    && Conveys(data, RunFrom(cur, SkipPlan(g, ch, total, s).items + extra))
  }

  lemma AheadStart(data: seq<byte>, g: Job, ch: Choice, total: int, cur: State, s: Skip, extra: seq<Item>)
    requires SkipOk(g, total, s) && StateOk(cur) && AllCodable(extra)
    requires Conveys(data, RunFrom(cur, SkipPlan(g, ch, total, s).items + extra))
    ensures Ahead(data, g, ch, total, cur, s, extra)
  {
  }

  lemma AheadForced(data: seq<byte>, g: Job, ch: Choice, total: int, cur: State, s: Skip, extra: seq<Item>)
    requires Ahead(data, g, ch, total, cur, s, extra) && s.coded - 1 > SkipStart(g, g.end)
    requires !Flagged(g, TopBits(g, total, s), s.coded - 1)
    ensures Ahead(data, g, ch, total, cur, Dropped(g, total, s, false), extra)
  {
    hide Dropped, TopBits, Flagged, RunFrom, Keeps, Conveys;
  }

  /** A flag is next; after it, the rest. */
  lemma AheadFlag(data: seq<byte>, g: Job, ch: Choice, total: int, cur: State, s: Skip, extra: seq<Item>)
    returns (rest: seq<Item>)
    requires Ahead(data, g, ch, total, cur, s, extra) && s.coded - 1 > SkipStart(g, g.end)
    requires Flagged(g, TopBits(g, total, s), s.coded - 1)
    ensures var keep := Keeps(g, ch, s.coded, TopBits(g, total, s));
      && Codable(BitLogp(1), if keep then 1 else 0) && AllCodable([FlagItem(keep)] + rest) && AllCodable(rest)
      && Conveys(data, RunFrom(cur, [FlagItem(keep)] + rest))
      && (keep ==> rest == extra)
      && (!keep ==> TopBits(g, total, s) >= Floor(g) + 8)
      && (!keep && Conveys(data, RunFrom(Next(cur, BitLogp(1), 0), rest)) ==>
            Ahead(data, g, ch, total, Next(cur, BitLogp(1), 0), Dropped(g, total, s, true), extra))
  {
    hide Dropped, TopBits, RunFrom, Keeps, Next, Conveys;
    if Keeps(g, ch, s.coded, TopBits(g, total, s)) {
      rest := extra;
    } else {
      rest := SkipPlan(g, ch, total, Dropped(g, total, s, true)).items + extra;
      assert [FlagItem(false)] + SkipPlan(g, ch, total, Dropped(g, total, s, true)).items + extra == [FlagItem(false)] + rest;
    }
  }

  lemma AheadEnd(data: seq<byte>, g: Job, ch: Choice, total: int, cur: State, s: Skip, extra: seq<Item>)
    requires Ahead(data, g, ch, total, cur, s, extra) && s.coded - 1 <= SkipStart(g, g.end)
    ensures Conveys(data, RunFrom(cur, extra))
  {
    hide RunFrom, Conveys;
    assert [] + extra == extra;
  }

  /** The skip loop on the decoder's side; `extra` is whatever was sent after the flags. */
  method DecodeSkip(dec: RangeDecoder.Decoder, g: Job, r: Reserve, bits: array<int>, psum0: int,
                    ghost ch: Choice, ghost s0: Skip, ghost st: State, ghost extra: seq<Item>)
    returns (coded: nat, psum: int, kept: nat, byFlag: bool, ghost cur: State)
    requires At(dec, st) && bits as object != dec.buf && AllCodable(extra)
    requires SkipOk(g, r.total, s0) && Shows(g, s0, g.end, psum0, r.intensity, bits[..])
    requires Conveys(dec.Stream(), RunFrom(st, SkipPlan(g, ch, r.total, s0).items + extra))
    modifies dec, bits
    ensures StateOk(st)
    ensures var k := SkipPlan(g, ch, r.total, s0);
      && StateOk(cur) && cur == RunFrom(st, k.items) && At(dec, cur) && Conveys(dec.Stream(), RunFrom(cur, extra))
      && byFlag == k.byFlag && Shows(g, k.last, coded, psum, kept, bits[..])
    ensures forall k :: 0 <= k < bits.Length && !(g.start <= k < g.end) ==> bits[k] == old(bits[k])
  {
    hide SkipPlan, Along, Ahead, RunFrom, Next, TopBits, Flagged, Keeps, SkipOk, Shows, Dropped, At, Conveys;
    AtState(dec, st);
    ghost var plan := SkipPlan(g, ch, r.total, s0);
    ghost var s, sent: seq<Item> := s0, [];
    cur := st;
    SkipJob(g, r.total, s);
    AlongStart(g, ch, r.total, st, s);
    AheadStart(dec.Stream(), g, ch, r.total, st, s, extra);
    var skipStart := FindSkipStart(g);
    coded, psum, kept, byFlag := g.end, psum0, r.intensity, false;
    ShownCoded(g, s, coded, psum, kept, bits[..]);
    while coded - 1 > skipStart
      invariant At(dec, cur) && StateOk(cur)
      invariant SkipOk(g, r.total, s) && Shows(g, s, coded, psum, kept, bits[..]) && s.coded == coded && g.start < coded <= g.end
      invariant Along(g, ch, r.total, st, plan, sent, cur, s)
      invariant Ahead(dec.Stream(), g, ch, r.total, cur, s, extra)
      invariant forall k :: 0 <= k < bits.Length && !(g.start <= k < g.end) ==> bits[k] == old(bits[k])
      decreases coded
    {
      var top := TopOf(g, r.total, coded, psum, bits, s, kept);
      FlagFits(g, r.total, s);
      var flagged := top >= Max(Thresh(g, coded - 1), Floor(g) + 8);
      assert flagged == Flagged(g, top, coded - 1) by { FlaggedIs(g, top, coded - 1); }
      if flagged {
        ghost var rest := AheadFlag(dec.Stream(), g, ch, r.total, cur, s, extra);
        var bit := DecodeNext(dec, BitLogp(1), cur, FlagItem(Keeps(g, ch, coded, top)), rest);
        if bit == 1 {
          AlongKept(g, ch, r.total, st, plan, sent, cur, s);
          cur := Next(cur, BitLogp(1), 1);
          byFlag := true;
          return;
        }
        AlongFlagged(g, ch, r.total, st, plan, sent, cur, s);
        cur := Next(cur, BitLogp(1), 0);
        sent := sent + [FlagItem(false)];
      } else {
        AlongForced(g, ch, r.total, st, plan, sent, cur, s);
        AheadForced(dec.Stream(), g, ch, r.total, cur, s, extra);
      }
      psum, kept := Drop(g, r.total, coded, psum, kept, top, flagged, bits, s);
      s := Dropped(g, r.total, s, flagged);
      DroppedKeeps(g, r.total, s);
      coded := coded - 1;
      ShownCoded(g, s, coded, psum, kept, bits[..]);
    }
    AlongEnd(g, ch, r.total, st, plan, sent, cur, s);
    AheadEnd(dec.Stream(), g, ch, r.total, cur, s, extra);
  }

  lemma AtState(dec: RangeDecoder.Decoder, st: State)
    requires At(dec, st)
    ensures StateOk(st)
  {
  }
}
