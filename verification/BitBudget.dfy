/**
  The bit allocator of celt/rate.c as a computation: how many eighth bits each
  band gets, from tables and the bits left, before anything about the coder.
 */
module BitBudget {
  import opened Powers

  /** LOG2_FRAC_TABLE: what coding one of n + 1 choices costs, in eighth bits. */
  function ChoiceCost(n: nat): nat
    requires n < 24
  {
    [0, 8, 13, 16, 19, 21, 23, 24, 26, 27, 28, 29, 30, 31, 32, 32, 33, 34, 34, 35, 36, 36, 37, 37][n]
  }

  lemma ChoiceCostGrows(i: nat, j: nat)
    requires i <= j < 24
    ensures ChoiceCost(i) <= ChoiceCost(j)
  {
  }

  /** Everything both sides know: the mode's tables, the bands in use, boosts, caps and the trim. */
  datatype Job = Job(edges: seq<int>, logN: seq<int>, rows: seq<seq<int>>, start: nat, end: nat,
                     offsets: seq<int>, cap: seq<int>, trim: int, chans: nat, lm: nat)

  predicate JobOk(g: Job)
  {
    && g.start < g.end && g.end - g.start < 24 && 1 <= g.chans <= 2 && g.lm <= 3
    && |g.edges| > g.end && |g.logN| >= g.end && |g.offsets| >= g.end && |g.cap| >= g.end
    && (forall i, j :: 0 <= i < j <= g.end ==> g.edges[i] < g.edges[j])
    && (forall j :: 0 <= j < g.end ==> g.offsets[j] >= 0 && g.cap[j] >= 0)
    && |g.rows| >= 2
    && (forall r :: 0 <= r < |g.rows| ==> |g.rows[r]| >= g.end)
    && (forall r, j :: 0 <= r < |g.rows| && 0 <= j < g.end ==> g.rows[r][j] >= 0)
    && (forall j :: 0 <= j < g.end ==> g.rows[0][j] == 0)
  }

  function Width(g: Job, j: nat): (w: int)
    requires JobOk(g) && j < g.end
    ensures w > 0
  {
    g.edges[j + 1] - g.edges[j]
  }

  /** One fine bit per channel, in eighth bits. */
  function Floor(g: Job): nat
  {
    8 * g.chans
  }

  function Thresh(g: Job, j: nat): (t: int)
    requires JobOk(g) && j < g.end
    ensures t >= Floor(g)
  {
    Max(8 * g.chans, 3 * Width(g, j) * Pow2(g.lm) * 8 / 16)
  }

  function TrimOffset(g: Job, j: nat): int
    requires JobOk(g) && j < g.end
  {
    g.chans * Width(g, j) * (g.trim - 5 - g.lm) * (g.end - j - 1) * Pow2(g.lm + 3) / 64
    - if Width(g, j) * Pow2(g.lm) == 1 then 8 * g.chans else 0
  }

  /** A row of the allocation table, tilted but not boosted. */
  function Tilted(g: Job, r: nat, j: nat): (b: int)
    requires JobOk(g) && r < |g.rows| && j < g.end
    ensures b >= 0 && (r == 0 ==> b == 0)
  {
    RowShare(g, r, j);
    var b := g.chans * Width(g, j) * g.rows[r][j] * Pow2(g.lm) / 4;
    if b > 0 then Max(0, b + TrimOffset(g, j)) else b
  }

  lemma RowShare(g: Job, r: nat, j: nat)
    requires JobOk(g) && r < |g.rows| && j < g.end
    ensures g.chans * Width(g, j) * g.rows[r][j] * Pow2(g.lm) / 4 >= 0
    ensures r == 0 ==> g.chans * Width(g, j) * g.rows[r][j] * Pow2(g.lm) / 4 == 0
  {
    hide Pow2;
    var a := g.chans * Width(g, j);
    NatProduct(g.chans, Width(g, j));
    NatProduct(a, g.rows[r][j]);
    NatProduct(a * g.rows[r][j], Pow2(g.lm));
  }

  lemma NatProduct(a: int, b: int)
    requires a >= 0 && b >= 0
    ensures a * b >= 0 && (b == 0 ==> a * b == 0) && (a == 0 ==> a * b == 0)
  {
  }

  /** What row `r` would give each band, for the search over rows. */
  function RowBits(g: Job, r: nat): (bits: seq<int>)
    requires JobOk(g) && r < |g.rows|
    ensures |bits| == g.end && forall j :: 0 <= j < g.end ==> bits[j] >= 0
  {
    seq(g.end, j requires 0 <= j < g.end => Tilted(g, r, j) + g.offsets[j])
  }

  /** The lower end of the interpolation; row 0 is not boosted. */
  function BaseBits(g: Job, r: nat): (bits: seq<int>)
    requires JobOk(g) && r < |g.rows|
    ensures |bits| == g.end && forall j :: 0 <= j < g.end ==> bits[j] >= 0
    ensures r > 0 ==> bits == RowBits(g, r)
  {
    seq(g.end, j requires 0 <= j < g.end => Tilted(g, r, j) + if r > 0 then g.offsets[j] else 0)
  }

  /** The step from there to the next row, or to the caps above the last. */
  function StepBits(g: Job, r: nat): (bits: seq<int>)
    requires JobOk(g) && r < |g.rows|
    ensures |bits| == g.end && forall j :: 0 <= j < g.end ==> bits[j] >= 0
  {
    seq(g.end, j requires 0 <= j < g.end =>
      Max(0, HighBits(g, r + 1, j) + g.offsets[j] - BaseBits(g, r)[j]))
  }

  function HighBits(g: Job, r: nat, j: nat): int
    requires JobOk(g) && r <= |g.rows| && j < g.end
  {
    if r < |g.rows| then Tilted(g, r, j)
    else if g.cap[j] > 0 then Max(0, g.cap[j] + TrimOffset(g, j)) else g.cap[j]
  }

  predicate Amounts(g: Job, bits: seq<int>)
  {
    |bits| == g.end && forall j :: 0 <= j < |bits| ==> bits[j] >= 0
  }

  /** What an allocation uses, from band `j - 1` down: bands below their threshold get only the floor until one is above. */
  function Usage(g: Job, bits: seq<int>, j: nat, done: bool): (sum: int)
    requires JobOk(g) && Amounts(g, bits) && g.start <= j <= g.end
    ensures sum >= 0
    decreases j
  {
    if j == g.start then 0
    else if bits[j - 1] >= Thresh(g, j - 1) || done then Min(bits[j - 1], g.cap[j - 1]) + Usage(g, bits, j - 1, true)
    else (if bits[j - 1] >= Floor(g) then Floor(g) else 0) + Usage(g, bits, j - 1, false)
  }

  /** The bits the bands are given, before skipping. */
  function Given(g: Job, bits: seq<int>, j: nat, done: bool): (r: seq<int>)
    requires JobOk(g) && Amounts(g, bits) && g.start <= j <= g.end
    ensures |r| == j && forall k :: 0 <= k < j ==> r[k] >= 0
    decreases j
  {
    if j == g.start then seq(j, k => 0)
    else
      var now := bits[j - 1] >= Thresh(g, j - 1) || done;
      var tmp := if now then bits[j - 1] else if bits[j - 1] >= Floor(g) then Floor(g) else 0;
      Given(g, bits, j - 1, now) + [Min(tmp, g.cap[j - 1])]
  }

  function Sum(s: seq<int>, a: nat, b: nat): int
    requires a <= b <= |s|
    decreases b
  {
    if a == b then 0 else Sum(s, a, b - 1) + s[b - 1]
  }

  lemma {:induction false} SumSame(s: seq<int>, t: seq<int>, a: nat, b: nat)
    requires a <= b <= |s| && b <= |t| && forall k :: a <= k < b ==> s[k] == t[k]
    ensures Sum(s, a, b) == Sum(t, a, b)
    decreases b
  {
    if a < b {
      SumSame(s, t, a, b - 1);
    }
  }

  lemma {:induction false} SumSplit(s: seq<int>, a: nat, m: nat, b: nat)
    requires a <= m <= b <= |s|
    ensures Sum(s, a, b) == Sum(s, a, m) + Sum(s, m, b)
    decreases b
  {
    if m < b {
      SumSplit(s, a, m, b - 1);
    }
  }

  lemma {:induction false} GivenWithin(g: Job, bits: seq<int>, j: nat, done: bool)
    requires JobOk(g) && Amounts(g, bits) && g.start <= j <= g.end
    ensures 0 <= Sum(Given(g, bits, j, done), g.start, j) <= Usage(g, bits, j, done)
    decreases j
  {
    hide Thresh;
    if j > g.start {
      var now := bits[j - 1] >= Thresh(g, j - 1) || done;
      GivenWithin(g, bits, j - 1, now);
      SumSame(Given(g, bits, j, done), Given(g, bits, j - 1, now), g.start, j - 1);
    }
  }

  /** Row `r` fits the total, and does not. */
  predicate RowFits(g: Job, total: int, r: nat)
    requires JobOk(g) && r < |g.rows|
  {
    Usage(g, RowBits(g, r), g.end, false) <= total
  }

  /** The search over rows, as the source searches: a row that fits below one that does not, or the last. */
  function SearchRow(g: Job, total: int, lo: nat, hi: int): (r: nat)
    requires JobOk(g) && 1 <= lo <= hi + 1 <= |g.rows|
    requires lo == 1 || RowFits(g, total, lo - 1)
    requires hi == |g.rows| - 1 || !RowFits(g, total, hi + 1)
    ensures r < |g.rows| && (r > 0 ==> RowFits(g, total, r))
    ensures r == |g.rows| - 1 || !RowFits(g, total, r + 1)
    decreases hi - lo + 1
  {
    hide JobOk, RowFits;
    if lo > hi then lo - 1
    else
      var mid := (lo + hi) / 2;
      if RowFits(g, total, mid) then SearchRow(g, total, mid + 1, hi) else SearchRow(g, total, lo, mid - 1)
  }

  /** Between two rows, `mid` sixty-fourths of the way. */
  function Mixed(g: Job, low: seq<int>, step: seq<int>, mid: nat): (bits: seq<int>)
    requires Amounts(g, low) && Amounts(g, step)
    ensures Amounts(g, bits)
  {
    seq(g.end, j requires 0 <= j < g.end => NatProduct(mid, step[j]); low[j] + mid * step[j] / 64)
  }

  /** The mixture of `mid` sixty-fourths fits the total. */
  predicate MixFits(g: Job, low: seq<int>, step: seq<int>, total: int, mid: nat)
    requires JobOk(g) && Amounts(g, low) && Amounts(g, step)
  {
    Usage(g, Mixed(g, low, step, mid), g.end, false) <= total
  }

  /** The search between the two rows, `n` more halvings: it fits, and one sixty-fourth more does not. */
  function SearchMix(g: Job, low: seq<int>, step: seq<int>, total: int, lo: nat, hi: nat, n: nat): (r: nat)
    requires JobOk(g) && Amounts(g, low) && Amounts(g, step) && hi == lo + Pow2(n) <= 64
    requires MixFits(g, low, step, total, lo) && (hi == 64 || !MixFits(g, low, step, total, hi))
    ensures r < 64 && MixFits(g, low, step, total, r)
    ensures r == 63 || !MixFits(g, low, step, total, r + 1)
    decreases n
  {
    hide JobOk, MixFits;
    if n == 0 then lo
    else
      var mid := (lo + hi) / 2;
      if MixFits(g, low, step, total, mid) then SearchMix(g, low, step, total, mid, hi, n - 1)
      else SearchMix(g, low, step, total, lo, mid, n - 1)
  }

  lemma SixHalvings()
    ensures Pow2(6) == 64
  {
  }

  lemma {:induction false} NothingUsed(g: Job, bits: seq<int>, j: nat, done: bool)
    requires JobOk(g) && Amounts(g, bits) && g.start <= j <= g.end
    requires forall k :: 0 <= k < g.end ==> bits[k] == 0
    ensures Usage(g, bits, j, done) == 0
    decreases j
  {
    hide Thresh;
    if j > g.start {
      NothingUsed(g, bits, j - 1, bits[j - 1] >= Thresh(g, j - 1) || done);
    }
  }

  lemma NotMixed(g: Job, low: seq<int>, step: seq<int>)
    requires Amounts(g, low) && Amounts(g, step)
    ensures Mixed(g, low, step, 0) == low
  {
  }

  /** The start of the second search fits: it is the row the first search found, or nothing at all. */
  lemma LowFits(g: Job, total: int)
    requires JobOk(g) && total >= 0
    ensures var r := SearchRow(g, total, 1, |g.rows| - 1);
      MixFits(g, BaseBits(g, r), StepBits(g, r), total, 0)
  {
    hide Mixed, Usage, RowBits;
    var r := SearchRow(g, total, 1, |g.rows| - 1);
    NotMixed(g, BaseBits(g, r), StepBits(g, r));
    if r == 0 {
      NothingUsed(g, BaseBits(g, 0), g.end, false);
    }
  }

  /** What both searches arrive at: a row, and how far to go from it to the next. */
  function Found(g: Job, total: int): (f: (nat, nat))
    requires JobOk(g) && total >= 0
    ensures f.0 < |g.rows| && f.1 < 64
  {
    LowFits(g, total);
    SixHalvings();
    var r := SearchRow(g, total, 1, |g.rows| - 1);
    (r, SearchMix(g, BaseBits(g, r), StepBits(g, r), total, 0, 64, 6))
  }

  /** The mixture both searches arrive at. */
  function FirstMix(g: Job, total: int): (mix: seq<int>)
    requires JobOk(g) && total >= 0
    ensures Amounts(g, mix)
  {
    var f := Found(g, total);
    Mixed(g, BaseBits(g, f.0), StepBits(g, f.0), f.1)
  }

  /** The bits the bands start with. */
  function FirstShares(g: Job, total: int): (bits: seq<int>)
    requires JobOk(g) && total >= 0
    ensures Amounts(g, bits) && 0 <= Sum(bits, g.start, g.end) <= total
  {
    hide Found;
    FirstMaximal(g, total);
    GivenWithin(g, FirstMix(g, total), g.end, false);
    Given(g, FirstMix(g, total), g.end, false)
  }

  /**
    The mixture the shares are taken from fits the total and cannot be raised:
    one sixty-fourth more does not fit, or it is the last below the next row, and
    that row, unless there is none, does not fit itself.
   */
  lemma FirstMaximal(g: Job, total: int)
    requires JobOk(g) && total >= 0
    ensures var f := Found(g, total);
      var low, step := BaseBits(g, f.0), StepBits(g, f.0);
      && Usage(g, FirstMix(g, total), g.end, false) <= total
      && (f.1 == 63 || Usage(g, Mixed(g, low, step, f.1 + 1), g.end, false) > total)
      && (f.0 == |g.rows| - 1 || Usage(g, RowBits(g, f.0 + 1), g.end, false) > total)
      && (f.0 > 0 ==> Usage(g, RowBits(g, f.0), g.end, false) <= total)
  {
    hide Usage, Mixed, BaseBits, StepBits, RowBits, JobOk;
    LowFits(g, total);
    SixHalvings();
  }

  /** A band is reached once one at or above it is over its threshold. */
  predicate Reached(g: Job, bits: seq<int>, k: nat, j: nat, done: bool)
    requires JobOk(g) && Amounts(g, bits) && j <= g.end
  {
    done || exists m :: k <= m < j && bits[m] >= Thresh(g, m)
  }

  /** What each band is given: its bits up to the cap once reached from above, before that one fine bit a channel or nothing. */
  lemma {:induction false} GivenIs(g: Job, bits: seq<int>, j: nat, done: bool, k: nat)
    requires JobOk(g) && Amounts(g, bits) && g.start <= k < j <= g.end
    ensures Given(g, bits, j, done)[k] == Min(g.cap[k],
      if Reached(g, bits, k, j, done) then bits[k] else if bits[k] >= Floor(g) then Floor(g) else 0)
    decreases j
  {
    hide Thresh, JobOk;
    var now := bits[j - 1] >= Thresh(g, j - 1) || done;
    if k < j - 1 {
      GivenIs(g, bits, j - 1, now, k);
      assert Reached(g, bits, k, j - 1, now) <==> Reached(g, bits, k, j, done);
    }
  }
}
