/**
  The end of celt/rate.c: the bands' shares are divided between fine energy and
  pulses, overruns move on to the next band, and nothing is lost.
 */
module BitSplit {
  import opened Powers
  import opened RangeTranscripts
  import opened BitBudget
  import opened BitSkip

  /** What is handed out evenly, and then one unit a coefficient from below until it is gone. */
  function Spread(g: Job, bits: seq<int>, coded: nat, left: int): (r: seq<int>)
    requires JobOk(g) && Amounts(g, bits) && g.start < coded <= g.end && left >= 0
    ensures Amounts(g, r)
    ensures forall j :: coded <= j < g.end ==> r[j] == bits[j]
  {
    seq(g.end, j requires 0 <= j < g.end =>
      bits[j] + if g.start <= j < coded then SpreadAt(g, coded, left, j) else 0)
  }

  function SpreadAt(g: Job, coded: nat, left: int, j: nat): (r: int)
    requires JobOk(g) && left >= 0 && g.start <= j < coded <= g.end
    ensures r >= 0
  {
    var all := g.edges[coded] - g.edges[g.start];
    EdgesRise(g, j, coded);
    ShareBounds(left, all, Width(g, j));
    left / all * Width(g, j) + Min(Max(left % all - (g.edges[j] - g.edges[g.start]), 0), Width(g, j))
  }

  /** The loop hands out all of it. */
  lemma {:induction false} SpreadSum(g: Job, bits: seq<int>, coded: nat, left: int, j: nat)
    requires JobOk(g) && Amounts(g, bits) && g.start <= j <= coded <= g.end && g.start < coded && left >= 0
    ensures g.edges[j] <= g.edges[coded] && g.edges[g.start] < g.edges[coded]
    ensures var all, before := g.edges[coded] - g.edges[g.start], g.edges[j] - g.edges[g.start];
      Sum(Spread(g, bits, coded, left), g.start, j)
        == Sum(bits, g.start, j) + left / all * before + Min(left % all, before)
    decreases j
  {
    var all := g.edges[coded] - g.edges[g.start];
    if j == g.start {
      assert left / all * 0 == 0;
    } else {
      SpreadSum(g, bits, coded, left, j - 1);
      MulDistribute(left / all, g.edges[j - 1] - g.edges[g.start], Width(g, j - 1));
    }
  }

  lemma SpreadConserves(g: Job, bits: seq<int>, coded: nat, left: int)
    requires JobOk(g) && Amounts(g, bits) && g.start < coded <= g.end && left >= 0
    ensures Sum(Spread(g, bits, coded, left), g.start, g.end) == Sum(bits, g.start, g.end) + left
  {
    hide Spread;
    SpreadSum(g, bits, coded, left, coded);
    SumSplit(bits, g.start, coded, g.end);
    SumSplit(Spread(g, bits, coded, left), g.start, coded, g.end);
    SumSame(bits, Spread(g, bits, coded, left), coded, g.end);
  }

  const MAX_FINE_BITS: int := 8
  const FINE_OFFSET: int := 21

  /** A band's split: pulses, fine bits per channel, whether it comes second (`fine_priority`) for spare bits, and the overrun. */
  datatype Fine = Fine(pulses: int, ebits: int, priority: bool, balance: int)

  /** bits >> stereo */
  function PerChannel(g: Job, x: int): int
  {
    if g.chans > 1 then x / 2 else x
  }

  /** Degrees of freedom of a band over its channels. */
  function Dof(g: Job, n: int, extraDof: bool): (den: int)
    requires JobOk(g) && n > 1
    ensures den > 0
  {
    NatProduct(g.chans - 1, n);
    assert (g.chans - 1) * n == g.chans * n - n;
    g.chans * n + if extraDof then 1 else 0
  }

  /** How far fine bits stray from the band's fair share, for `bits` eighth bits. */
  function Offset(bits: int, n: int, den: int, logN: int): int
  {
    var nclog := den * logN;
    var offset := nclog / 2 - den * FINE_OFFSET + if n == 2 then den * 8 / 4 else 0;
    offset + if bits + offset < den * 16 then nclog / 4 else if bits + offset < den * 24 then nclog / 8 else 0
  }

  function Fair(bits: int, offset: int, den: int): (e: int)
    requires den > 0
    ensures e >= 0
  {
    Max(0, bits + offset + den * 4) / den / 8
  }

  /** No more than the bits there are, and no more than pulses can follow. */
  function Affordable(g: Job, bits: int, fair: int): (e: int)
    requires JobOk(g) && bits >= 0 && fair >= 0
    ensures 0 <= e <= MAX_FINE_BITS && 8 * g.chans * e <= bits
  {
    Min(if g.chans * fair > bits / 8 then PerChannel(g, bits) / 8 else fair, MAX_FINE_BITS)
  }

  /** The fine bits a band of several coefficients gets for `bits`, and whether that is no less than its share. */
  function FineShare(g: Job, j: nat, n: int, bits: int, extraDof: bool): (r: (int, bool))
    requires JobOk(g) && j < g.end && bits >= 0 && n > 1
    ensures 0 <= r.0 <= MAX_FINE_BITS && 8 * g.chans * r.0 <= bits
  {
    hide Offset, Affordable, Fair;
    var den := Dof(g, n, extraDof);
    var offset := Offset(bits, n, den, g.logN[j] + 8 * g.lm);
    var e := Affordable(g, bits, Fair(bits, offset, den));
    (e, e * (den * 8) >= bits + offset)
  }

  /** An overrun goes to fine bits first, and what they cannot take is left over. */
  function Absorb(g: Job, excess: int, ebits: int): (extra: int)
    requires JobOk(g) && excess >= 0 && 0 <= ebits <= MAX_FINE_BITS
    ensures 0 <= extra && ebits + extra <= MAX_FINE_BITS && 8 * g.chans * extra <= excess
  {
    Min(PerChannel(g, excess) / 8, MAX_FINE_BITS - ebits)
  }

  function FineOf(g: Job, j: nat, bit: int, balance: int, intensity: int, dual: int): (f: Fine)
    requires JobOk(g) && j < g.end && bit >= 0
    ensures f.pulses >= 0 && 0 <= f.ebits <= MAX_FINE_BITS && f.balance >= 0
    ensures f.pulses + 8 * g.chans * f.ebits + f.balance == bit
  {
    hide FineShare, Absorb, Pow2;
    var n := Width(g, j) * Pow2(g.lm);
    var several := n > 1;
    var excess := Max(bit - if several then g.cap[j] else 8 * g.chans, 0);
    var kept := bit - excess;
    var share := if several then FineShare(g, j, n, kept, g.chans == 2 && n > 2 && dual == 0 && j < intensity) else (0, true);
    var pulses := kept - 8 * g.chans * share.0;
    if excess > 0 then
      var extra := Absorb(g, excess, share.0);
      MulDistribute(8 * g.chans, share.0, extra);
      Fine(pulses, share.0 + extra, 8 * g.chans * extra >= excess - balance, excess - 8 * g.chans * extra)
    else Fine(pulses, share.0, share.1, excess)
  }

  /** The overrun that reaches band `j`. */
  function Balance(g: Job, bits: seq<int>, intensity: int, dual: int, j: nat): (b: int)
    requires JobOk(g) && Amounts(g, bits) && g.start <= j <= g.end
    ensures b >= 0
    decreases j, 0
  {
    if j == g.start then 0 else FineAt(g, bits, intensity, dual, j - 1).balance
  }

  function FineAt(g: Job, bits: seq<int>, intensity: int, dual: int, j: nat): (f: Fine)
    requires JobOk(g) && Amounts(g, bits) && g.start <= j < g.end
    ensures f.pulses >= 0 && f.ebits >= 0 && f.balance >= 0
    decreases j, 1
  {
    var b := Balance(g, bits, intensity, dual, j);
    FineOf(g, j, bits[j] + b, b, intensity, dual)
  }

  /** A skipped band spends all it kept on fine energy. */
  function FineSkipped(g: Job, bits: int): (f: Fine)
    requires bits >= 0
    ensures f.pulses == 0 && f.ebits >= 0
    ensures bits == 0 || (bits == Floor(g) && 1 <= g.chans <= 2) ==> 8 * g.chans * f.ebits == bits
  {
    var e := PerChannel(g, bits) / 8;
    Fine(0, e, e < 1, 0)
  }

  function Split(g: Job, bits: seq<int>, coded: nat, intensity: int, dual: int): (r: seq<Fine>)
    requires JobOk(g) && Amounts(g, bits) && g.start < coded <= g.end
    ensures |r| == g.end && forall j :: g.start <= j < g.end ==> r[j].pulses >= 0 && r[j].ebits >= 0
  {
    seq(g.end, j requires 0 <= j < g.end =>
      if j < g.start then Fine(0, 0, false, 0)
      else if j < coded then FineAt(g, bits, intensity, dual, j)
      else FineSkipped(g, bits[j]))
  }

  /** What a stretch of bands uses: pulses and the fine bits of every channel. */
  function Used(g: Job, r: seq<Fine>, a: nat, b: nat): int
    requires a <= b <= |r|
    decreases b
  {
    if a == b then 0 else Used(g, r, a, b - 1) + r[b - 1].pulses + 8 * g.chans * r[b - 1].ebits
  }

  lemma {:induction false} CodedUse(g: Job, bits: seq<int>, coded: nat, intensity: int, dual: int, j: nat)
    requires JobOk(g) && Amounts(g, bits) && g.start < coded <= g.end && g.start <= j <= coded
    ensures Used(g, Split(g, bits, coded, intensity, dual), g.start, j) + Balance(g, bits, intensity, dual, j)
         == Sum(bits, g.start, j)
    decreases j
  {
    hide FineOf, FineSkipped;
    if j > g.start {
      CodedUse(g, bits, coded, intensity, dual, j - 1);
      FineAdds(g, bits, intensity, dual, j - 1);
    }
  }

  lemma FineAdds(g: Job, bits: seq<int>, intensity: int, dual: int, j: nat)
    requires JobOk(g) && Amounts(g, bits) && g.start <= j < g.end
    ensures var f := FineAt(g, bits, intensity, dual, j);
      f.pulses + 8 * g.chans * f.ebits + f.balance == bits[j] + Balance(g, bits, intensity, dual, j)
  {
    hide FineOf;
  }

  lemma {:induction false} SkippedUse(g: Job, bits: seq<int>, coded: nat, intensity: int, dual: int, j: nat)
    requires JobOk(g) && Amounts(g, bits) && g.start < coded <= j <= g.end
    requires forall k :: coded <= k < g.end ==> bits[k] == 0 || bits[k] == Floor(g)
    ensures Used(g, Split(g, bits, coded, intensity, dual), coded, j) == Sum(bits, coded, j)
    decreases j
  {
    hide FineAt, FineSkipped;
    if j > coded {
      SkippedUse(g, bits, coded, intensity, dual, j - 1);
    }
  }

  lemma {:induction false} UsedSplit(g: Job, r: seq<Fine>, a: nat, m: nat, b: nat)
    requires a <= m <= b <= |r|
    ensures Used(g, r, a, b) == Used(g, r, a, m) + Used(g, r, m, b)
    decreases b
  {
    if m < b {
      UsedSplit(g, r, a, m, b - 1);
    }
  }

  /** The whole result of compute_allocation. */
  datatype Outcome = Outcome(decided: Decided, fine: seq<Fine>, balance: int)

  function Shares(g: Job, d: Decided): (bits: seq<int>)
    requires SkipOk(g, d.total, d.skip)
    ensures Amounts(g, bits)
  {
    Spread(g, d.skip.bits, d.skip.coded, d.total - d.skip.psum)
  }

  function Allocate(g: Job, ch: Choice, total: int): (o: Outcome)
    requires JobOk(g) && ChoiceOk(g, ch)
    ensures AllCodable(o.decided.items) && |o.fine| == g.end
  {
    var d := Decide(g, ch, total);
    var bits := Shares(g, d);
    Outcome(d, Split(g, bits, d.skip.coded, d.intensity, d.dual), Balance(g, bits, d.intensity, d.dual, d.skip.coded))
  }

  /** The skip flags that did skip. */
  function SkipFlags(g: Job, ch: Choice, total: int): nat
    requires JobOk(g) && ChoiceOk(g, ch)
  {
    var r := Reserved(g, total);
    var k := SkipPlan(g, ch, r.total, FirstSkip(g, r));
    |k.items| - if k.byFlag then 1 else 0
  }

  lemma DecideSpends(g: Job, ch: Choice, total: int)
    requires JobOk(g) && ChoiceOk(g, ch)
    ensures var d, r := Decide(g, ch, total), Reserved(g, total);
      && Spent(g, d.skip) == 8 * SkipFlags(g, ch, total) - r.intensity
      && d.total + d.dualKept + (if d.byFlag then r.skip else 0) == r.total + r.skip + r.dual
  {
    hide SkipPlan, FirstShares;
    var r := Reserved(g, total);
    SkipSpends(g, ch, r.total, FirstSkip(g, r));
  }

  /**
    Conservation.  Pulses, fine bits, the balance carried out, one bit for every
    band skipped by a flag and the reservations that were kept make up the total
    exactly, and none of them is negative.
   */
  lemma NothingLost(g: Job, ch: Choice, total: int)
    requires JobOk(g) && ChoiceOk(g, ch)
    ensures var o, r := Allocate(g, ch, total), Reserved(g, total);
      && Used(g, o.fine, g.start, g.end) + o.balance + 8 * SkipFlags(g, ch, total)
           + (if o.decided.byFlag then r.skip else 0) + o.decided.skip.kept + o.decided.dualKept
         == Max(total, 0)
      && o.balance >= 0
      && forall j :: g.start <= j < g.end ==> o.fine[j].pulses >= 0 && 0 <= o.fine[j].ebits
  {
    hide Decide, Reserved, Spread, Split, SkipFlags, Balance, SkipPlan, FirstSkip;
    var d := Decide(g, ch, total);
    var bits := Shares(g, d);
    var left := d.total - d.skip.psum;
    DecideSpends(g, ch, total);
    SpreadConserves(g, d.skip.bits, d.skip.coded, left);
    var fine := Split(g, bits, d.skip.coded, d.intensity, d.dual);
    CodedUse(g, bits, d.skip.coded, d.intensity, d.dual, d.skip.coded);
    SkippedUse(g, bits, d.skip.coded, d.intensity, d.dual, g.end);
    SumSplit(bits, g.start, d.skip.coded, g.end);
    UsedSplit(g, fine, g.start, d.skip.coded, g.end);
  }
}
