/**
  What the division of the bits is good for (celt/rate.c): leftovers go out
  evenly, the skip test looks at what the band would end up with, and fine
  energy gets the affordable number of bits nearest its fair share.
 */
module BitShape {
  import opened Powers
  import opened BitBudget
  import opened BitSkip
  import opened BitSplit

  /** What a band of `w` coefficients gets out of `left`, with `before` of all the coefficients below it. */
  function Handed(left: int, all: int, before: int, w: int): int
    requires all > 0
  {
    left / all * w + Min(Max(left % all - before, 0), w)
  }

  lemma HandedBounds(left: int, all: int, before: int, w: int)
    requires left >= 0 && 0 <= before && 0 < w && before + w <= all
    ensures var q, inc := left / all, Handed(left, all, before, w);
      && q >= 0 && q * w <= inc <= (q + 1) * w
      && (inc < (q + 1) * w ==> left % all < before + w)
      && (left % all <= before ==> inc == q * w)
  {
    var q := left / all;
    assert (q + 1) * w == q * w + w;
  }

  lemma SpreadIs(g: Job, bits: seq<int>, coded: nat, left: int, j: nat)
    requires JobOk(g) && Amounts(g, bits) && g.start <= j < coded <= g.end && left >= 0
    ensures |g.edges| > coded && |Spread(g, bits, coded, left)| == g.end
    ensures var all, before := g.edges[coded] - g.edges[g.start], g.edges[j] - g.edges[g.start];
      && 0 <= before && 0 < Width(g, j) && before + Width(g, j) <= all
      && Spread(g, bits, coded, left)[j] - bits[j] == Handed(left, all, before, Width(g, j))
  {
    EdgesRise(g, j, coded);
  }

  /**
    Every coded band gets the same number of eighth bits a coefficient, or up to
    one more; only the lowest bands get more.  With SpreadConserves this leaves
    one way to hand out what is left.
   */
  lemma SpreadFair(g: Job, bits: seq<int>, coded: nat, left: int, j: nat, k: nat)
    requires JobOk(g) && Amounts(g, bits) && g.start <= j < k < coded <= g.end && left >= 0
    ensures g.edges[g.start] < g.edges[coded]
    ensures var q, r := left / (g.edges[coded] - g.edges[g.start]), Spread(g, bits, coded, left);
      && q * Width(g, j) <= r[j] - bits[j] <= (q + 1) * Width(g, j)
      && q * Width(g, k) <= r[k] - bits[k] <= (q + 1) * Width(g, k)
      && (r[j] - bits[j] < (q + 1) * Width(g, j) ==> r[k] - bits[k] == q * Width(g, k))
  {
    hide Spread, Handed;
    SpreadIs(g, bits, coded, left, j);
    SpreadIs(g, bits, coded, left, k);
    EdgesApart(g, j, k);
    var all, first := g.edges[coded] - g.edges[g.start], g.edges[g.start];
    HandedBounds(left, all, g.edges[j] - first, Width(g, j));
    HandedBounds(left, all, g.edges[k] - first, Width(g, k));
  }

  lemma EdgesApart(g: Job, j: nat, k: nat)
    requires JobOk(g) && j < k <= g.end
    ensures g.edges[j] + Width(g, j) <= g.edges[k]
  {
    assert j + 1 == k || g.edges[j + 1] < g.edges[k];
  }

  /** What the skip test looks at is what the topmost band ends up with if skipping stops there. */
  lemma TopIsFinal(g: Job, total: int, s: Skip)
    requires SkipOk(g, total, s)
    ensures TopBits(g, total, s) == Spread(g, s.bits, s.coded, total - s.psum)[s.coded - 1]
  {
    hide JobOk, Spread, Handed;
    SkipFacts(g, total, s);
    SpreadIs(g, s.bits, s.coded, total - s.psum, s.coded - 1);
    TopHanded(total - s.psum, g.edges[s.coded] - g.edges[g.start], g.edges[s.coded - 1] - g.edges[g.start]);
  }

  lemma TopHanded(left: int, all: int, before: int)
    requires left >= 0 && 0 <= before < all
    ensures Handed(left, all, before, all - before) ==
      left / all * (all - before) + Max(left - all * (left / all) - before, 0)
  {
  }

  /** More left over never makes a band's share smaller. */
  lemma HandedGrows(all: int, before: int, w: int, a: int, b: int)
    requires 0 <= a <= b && 0 <= before && 0 < w && before + w <= all
    ensures Handed(a, all, before, w) <= Handed(b, all, before, w)
  {
    var p, q := a / all, b / all;
    DivisionGrows(a, b, all);
    if p < q {
      MulLe(w, p + 1, q);
      assert (p + 1) * w == p * w + w;
    }
  }

  lemma DivisionGrows(a: int, b: int, n: int)
    requires 0 <= a <= b && n > 0
    ensures a / n <= b / n && (a / n == b / n ==> a % n <= b % n)
  {
    if a / n > b / n {
      MulLe(n, b / n + 1, a / n);
      assert false;
    }
  }

  /** The topmost band has its flag sent, and the encoder wants it. */
  predicate FlagStops(g: Job, ch: Choice, total: int, s: Skip)
    requires SkipOk(g, total, s)
  {
    Flagged(g, TopBits(g, total, s), s.coded - 1) && Keeps(g, ch, s.coded, TopBits(g, total, s))
  }

  /** Where the skip loop stops: at the lowest band it may reach, or above it at one whose flag was worth sending. */
  lemma {:induction false} SkipStops(g: Job, ch: Choice, total: int, s: Skip)
    requires SkipOk(g, total, s) && SkipStart(g, g.end) < s.coded
    ensures var r, low := SkipPlan(g, ch, total, s), SkipStart(g, g.end);
      if r.byFlag then low < r.last.coded - 1 && FlagStops(g, ch, total, r.last) else low == r.last.coded - 1
    decreases s.coded
  {
    hide TopBits, Dropped, Keeps, SkipStart, Flagged;
    if s.coded - 1 > SkipStart(g, g.end) {
      FlagFits(g, total, s);
      var top := TopBits(g, total, s);
      if Flagged(g, top, s.coded - 1) {
        if !Keeps(g, ch, s.coded, top) {
          SkipStops(g, ch, total, Dropped(g, total, s, true));
        }
      } else {
        SkipStops(g, ch, total, Dropped(g, total, s, false));
      }
    }
  }

  /** Boosted bands are never skipped. */
  lemma {:induction false} BoostedCoded(g: Job, j: nat, k: nat)
    requires JobOk(g) && g.start <= k < j <= g.end && g.offsets[k] > 0
    ensures k <= SkipStart(g, j)
    decreases j
  {
    if g.offsets[j - 1] <= 0 {
      BoostedCoded(g, j - 1, k);
    }
  }

  /**
    The topmost coded band is the lowest that may be, or its flag was sent and its
    final share is over its threshold, with the flag paid for.
   */
  lemma TopWorthCoding(g: Job, ch: Choice, total: int)
    requires JobOk(g) && ChoiceOk(g, ch)
    ensures var d, low := Decide(g, ch, total), SkipStart(g, g.end);
      if d.byFlag
      then low < d.skip.coded - 1 && Shares(g, d)[d.skip.coded - 1] >= Max(Thresh(g, d.skip.coded - 1), Floor(g) + 8)
      else low == d.skip.coded - 1
  {
    hide SkipPlan, FirstShares, JobOk, Spread, Thresh, TopBits, SkipStart;
    var r := Reserved(g, total);
    var d := Decide(g, ch, total);
    SkipStops(g, ch, r.total, FirstSkip(g, r));
    TopIsFinal(g, r.total, d.skip);
    SharesGrow(g, d.skip, r.total, d.total);
  }

  /** Boosted bands are coded. */
  lemma BoostedKept(g: Job, ch: Choice, total: int, k: nat)
    requires JobOk(g) && ChoiceOk(g, ch) && g.start <= k < g.end && k < |g.offsets| && g.offsets[k] > 0
    ensures k < Decide(g, ch, total).skip.coded
  {
    hide SkipPlan, FirstShares, JobOk, SkipStart;
    var r := Reserved(g, total);
    SkipStops(g, ch, r.total, FirstSkip(g, r));
    BoostedCoded(g, g.end, k);
  }

  lemma SharesGrow(g: Job, s: Skip, total: int, more: int)
    requires SkipOk(g, total, s) && total <= more
    ensures Spread(g, s.bits, s.coded, total - s.psum)[s.coded - 1] <= Spread(g, s.bits, s.coded, more - s.psum)[s.coded - 1]
  {
    hide JobOk, Spread, Handed;
    var j := s.coded - 1;
    SkipFacts(g, total, s);
    SpreadIs(g, s.bits, s.coded, total - s.psum, j);
    SpreadIs(g, s.bits, s.coded, more - s.psum, j);
    HandedGrows(g.edges[s.coded] - g.edges[g.start], g.edges[j] - g.edges[g.start], Width(g, j), total - s.psum, more - s.psum);
  }

  /** Hysteresis: a band that is worth starting to code is worth going on with. */
  lemma KeptOn(g: Job, ch: Choice, prev: int, coded: nat, bandBits: int)
    requires JobOk(g) && g.start < coded <= g.end && ch.prev <= prev && Keeps(g, ch, coded, bandBits)
    ensures Keeps(g, ch.(prev := prev), coded, bandBits)
  {
    hide JobOk;
    var a, p := Width(g, coded - 1), Pow2(g.lm);
    NatProduct(a, p);
    assert 7 * a * p == 7 * (a * p) && 9 * a * p == 9 * (a * p);
  }

  lemma TwoDivisions(x: int, den: int)
    requires x >= 0 && den > 0
    ensures var e := x / den / 8; 8 * den * e <= x < 8 * den * e + 8 * den
  {
    var d := x / den;
    var e := d / 8;
    assert x == den * d + x % den;
    MulLe(den, 8 * e, d);
    MulLe(den, d, 8 * e + 7);
    assert den * (8 * e) == 8 * den * e && den * (8 * e + 7) == 8 * den * e + 7 * den;
  }

  /** Division with rounding. */
  lemma NearestEighths(bits: int, offset: int, den: int)
    requires den > 0
    ensures var e, want := Fair(bits, offset, den), bits + offset;
      (e > 0 ==> 8 * den * e <= want + 4 * den) && want < 8 * den * e + 4 * den
  {
    TwoDivisions(Max(0, bits + offset + den * 4), den);
  }

  /** What fine bits are measured against: the band's bits, shifted by the offset of its size. */
  function FairBits(g: Job, j: nat, n: int, bits: int, extraDof: bool): int
    requires JobOk(g) && j < g.end && n > 1
  {
    bits + Offset(bits, n, Dof(g, n, extraDof), g.logN[j] + 8 * g.lm)
  }

  /**
    A band gets the number of fine bits nearest its fair share, eight times the
    degrees of freedom for each, or as many fewer as it can afford; it
    comes second for spare bits exactly when that was not rounded down.
   */
  lemma FineNearest(g: Job, j: nat, n: int, bits: int, extraDof: bool)
    requires JobOk(g) && j < g.end && bits >= 0 && n > 1
    ensures var den, want := Dof(g, n, extraDof), FairBits(g, j, n, bits, extraDof);
      var r := FineShare(g, j, n, bits, extraDof);
      && (r.0 > 0 ==> 8 * den * r.0 <= want + 4 * den)
      && (want < 8 * den * r.0 + 4 * den || r.0 == MAX_FINE_BITS || 8 * g.chans * (r.0 + 1) > bits)
      && (r.1 <==> want <= 8 * den * r.0)
  {
    hide Offset, JobOk, Affordable, Fair, Dof;
    var den, want := Dof(g, n, extraDof), FairBits(g, j, n, bits, extraDof);
    var fair := Fair(bits, want - bits, den);
    NearestEighths(bits, want - bits, den);
    AffordableMost(g, bits, fair);
    Nearer(den, want, fair, Affordable(g, bits, fair));
  }

  lemma Nearer(den: int, want: int, fair: int, e: int)
    requires den > 0 && 0 <= e <= fair && (fair > 0 ==> 8 * den * fair <= want + 4 * den)
    ensures e > 0 ==> 8 * den * e <= want + 4 * den
    ensures e * (den * 8) == 8 * den * e
  {
    MulLe(8 * den, e, fair);
    assert e * (den * 8) == 8 * den * e;
  }

  /** As many as asked for, as fit the bits, or as are any use. */
  lemma AffordableMost(g: Job, bits: int, fair: int)
    requires JobOk(g) && bits >= 0 && fair >= 0
    ensures var e := Affordable(g, bits, fair);
      e <= fair && (e == fair || e == MAX_FINE_BITS || 8 * g.chans * (e + 1) > bits)
  {
    hide JobOk;
    assert 1 <= g.chans <= 2 by { OneOrTwo(g); }
  }

  lemma OneOrTwo(g: Job)
    requires JobOk(g)
    ensures 1 <= g.chans <= 2
  {
  }

  /**
    No band keeps more for pulses and fine bits than its cap, one sign bit a
    channel where it has one coefficient; what exceeds that becomes fine bits as
    far as they go, and only what cannot make another fine bit moves on.  A band
    over its limit comes second exactly when it passes on no more than came to it.
   */
  lemma OverrunUsed(g: Job, j: nat, bit: int, balance: int, intensity: int, dual: int)
    requires JobOk(g) && j < g.end && bit >= 0
    ensures var f := FineOf(g, j, bit, balance, intensity, dual);
      var limit := if Width(g, j) * Pow2(g.lm) > 1 then g.cap[j] else 8 * g.chans;
      && f.pulses <= limit
      && (bit <= limit ==> f.balance == 0)
      && (f.balance >= 8 * g.chans ==> f.ebits == MAX_FINE_BITS)
      && (bit > limit ==> (f.priority <==> f.balance <= balance))
  {
    hide JobOk, FineShare, Pow2;
    OneOrTwo(g);
  }

  lemma Steeper(a: int, b: int, p: int, s: int, t: int)
    requires a >= 0 && b >= 0 && p >= 0 && s <= t
    ensures a * s * b * p / 64 <= a * t * b * p / 64
    ensures b == 0 ==> a * s * b * p == 0 == a * t * b * p
  {
    NatProduct(a, t - s);
    NatProduct(a * (t - s), b);
    NatProduct(a * (t - s) * b, p);
    assert a * t == a * s + a * (t - s);
    assert a * t * b == a * s * b + a * (t - s) * b;
    assert a * t * b * p == a * s * b * p + a * (t - s) * b * p;
  }

  /** A higher trim takes nothing from any band of a row, and gives the topmost nothing. */
  lemma TrimTilts(g: Job, trim: int, r: nat, j: nat)
    requires JobOk(g) && g.trim <= trim && r < |g.rows| && j < g.end
    ensures JobOk(g.(trim := trim)) && Tilted(g, r, j) <= Tilted(g.(trim := trim), r, j)
    ensures j == g.end - 1 ==> Tilted(g, r, j) == Tilted(g.(trim := trim), r, j)
  {
    hide Pow2;
    var h := g.(trim := trim);
    assert JobOk(h);
    NatProduct(g.chans, Width(g, j));
    Steeper(g.chans * Width(g, j), g.end - j - 1, Pow2(g.lm + 3), g.trim - 5 - g.lm, trim - 5 - g.lm);
  }
}
