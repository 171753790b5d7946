/**
  The part of celt/rate.c that talks to the coder: bands are skipped from the
  top, their bits go to the bands below, and the stereo parameters are coded
  with the bits kept for them.
 */
module BitSkip {
  import opened Powers
  import opened RangeTranscripts
  import opened BitBudget

  /** How far skipping has got: bands coded, eighth bits in use, the shares, and the bits kept for intensity. */
  datatype Skip = Skip(coded: nat, psum: int, bits: seq<int>, kept: nat)

  ghost predicate SkipOk(g: Job, total: int, s: Skip)
  {
    && JobOk(g) && Amounts(g, s.bits) && g.start < s.coded <= g.end
    && s.psum <= total
    && (s.kept == 0 || s.kept == ChoiceCost(s.coded - g.start))
    && (forall k :: s.coded <= k < g.end ==> s.bits[k] == 0 || s.bits[k] == Floor(g))
  }

  /** Bits that do not reach any band: what has been spent on flags, and the ends of the reservation. */
  function Spent(g: Job, s: Skip): int
    requires JobOk(g) && Amounts(g, s.bits)
  {
    s.psum - Sum(s.bits, g.start, g.end) - s.kept
  }

  /** An even share of what is left over, with the odd units going to the lower bands first. */
  function Share(g: Job, left: int, coded: nat, j: nat): (r: int)
    requires JobOk(g) && left >= 0 && g.start <= j < coded <= g.end
    ensures 0 <= r <= left
  {
    var all := g.edges[coded] - g.edges[g.start];
    var w, before := Width(g, j), g.edges[j] - g.edges[g.start];
    EdgesRise(g, j, coded);
    ShareBounds(left, all, w);
    left / all * w + Max(left - all * (left / all) - before, 0)
  }

  lemma EdgesRise(g: Job, j: nat, coded: nat)
    requires JobOk(g) && g.start <= j < coded <= g.end
    ensures g.edges[g.start] <= g.edges[j] < g.edges[j + 1] <= g.edges[coded]
  {
    assert j + 1 == coded || g.edges[j + 1] < g.edges[coded];
  }

  lemma ShareBounds(left: int, all: int, w: int)
    requires left >= 0 && 0 < w <= all
    ensures 0 <= left / all * w <= left / all * all <= left
    ensures left - all * (left / all) == left % all
  {
    MulLe(left / all, w, all);
    assert left / all * w >= 0 by { NatProduct(left / all, w); }
  }

  /** What the topmost band would have if nothing more were skipped. */
  function TopBits(g: Job, total: int, s: Skip): int
    requires SkipOk(g, total, s)
  {
    s.bits[s.coded - 1] + Share(g, total - s.psum, s.coded, s.coded - 1)
  }

  /** The fine bit per channel a skipped band keeps if it can. */
  function KeepsFine(g: Job, top: int, flagged: bool): int
  {
    if top - (if flagged then 8 else 0) >= Floor(g) then Floor(g) else 0
  }

  /** The topmost band is skipped, after a flag or by force: `top` is what it would have had. */
  function Reclaim(g: Job, s: Skip, top: int, flagged: bool): (r: Skip)
    requires g.start < s.coded <= |s.bits| && s.coded - g.start < 24
  {
    var j := s.coded - 1;
    var flag := if flagged then 8 else 0;
    var kept := if s.kept > 0 then ChoiceCost(j - g.start) else 0;
    var keeps := KeepsFine(g, top, flagged);
    Skip(j, s.psum + flag - (s.bits[j] + s.kept) + kept + keeps, s.bits[j := keeps], kept)
  }

  function Dropped(g: Job, total: int, s: Skip, flagged: bool): (r: Skip)
    requires SkipOk(g, total, s) && s.coded - 1 > g.start
    requires flagged ==> TopBits(g, total, s) >= Floor(g) + 8
    ensures SkipOk(g, total, r) && r.coded == s.coded - 1
  {
    hide TopBits, JobOk, SkipOk, Reclaim;
    SkipFacts(g, total, s);
    DroppedFits(g, total, s, flagged);
    Reclaim(g, s, TopBits(g, total, s), flagged)
  }

  lemma DroppedFits(g: Job, total: int, s: Skip, flagged: bool)
    requires SkipOk(g, total, s) && s.coded - 1 > g.start
    requires flagged ==> TopBits(g, total, s) >= Floor(g) + 8
    ensures s.coded <= |s.bits| && s.coded - g.start < 24
    ensures var r := Reclaim(g, s, TopBits(g, total, s), flagged); SkipOk(g, total, r) && r.coded == s.coded - 1
  {
    hide TopBits, JobOk, ChoiceCost;
    SkipFacts(g, total, s);
    ChoiceCostGrows(s.coded - 1 - g.start, s.coded - g.start);
    TopWithin(g, total, s);
  }

  lemma SkipFacts(g: Job, total: int, s: Skip)
    requires SkipOk(g, total, s)
    ensures g.start < s.coded <= g.end && g.end - g.start < 24 && Amounts(g, s.bits) && s.bits[s.coded - 1] >= 0
  {
  }

  lemma TopWithin(g: Job, total: int, s: Skip)
    requires SkipOk(g, total, s)
    ensures 0 <= s.bits[s.coded - 1] <= TopBits(g, total, s) <= s.bits[s.coded - 1] + (total - s.psum)
  {
    hide Share;
  }

  lemma {:induction false} SumUpdate(s: seq<int>, a: nat, b: nat, j: nat, x: int)
    requires a <= j < b <= |s|
    ensures Sum(s[j := x], a, b) == Sum(s, a, b) - s[j] + x
    decreases b
  {
    if j == b - 1 {
      SumSame(s, s[j := x], a, b - 1);
    } else {
      SumUpdate(s, a, b - 1, j, x);
    }
  }

  /** A skip spends its flag, and nothing else. */
  lemma DroppedSpends(g: Job, total: int, s: Skip, flagged: bool)
    requires SkipOk(g, total, s) && s.coded - 1 > g.start
    requires flagged ==> TopBits(g, total, s) >= Floor(g) + 8
    ensures Spent(g, Dropped(g, total, s, flagged)) == Spent(g, s) + if flagged then 8 else 0
  {
    hide Share, ChoiceCost;
    var keeps := if TopBits(g, total, s) - (if flagged then 8 else 0) >= Floor(g) then Floor(g) else 0;
    SumUpdate(s.bits, g.start, g.end, s.coded - 1, keeps);
  }

  /** What the encoder alone goes by. */
  datatype Choice = Choice(prev: int, bandwidth: int, intensity: int, dual: int)

  /** The encoder's wish to keep a band, with some hysteresis. */
  predicate Keeps(g: Job, ch: Choice, coded: nat, bandBits: int)
    requires JobOk(g) && g.start < coded <= g.end
  {
    var j := coded - 1;
    || coded <= g.start + 2
    || (bandBits > (if j < ch.prev then 7 else 9) * Width(g, j) * Pow2(g.lm) * 8 / 16 && j <= ch.bandwidth)
  }

  /** Where skipping has to stop: the last boosted band, or the first. */
  function SkipStart(g: Job, j: nat): (r: nat)
    requires JobOk(g) && g.start <= j <= g.end
    ensures g.start <= r < g.end
    decreases j
  {
    if j == g.start then g.start
    else if g.offsets[j - 1] > 0 then j - 1
    else SkipStart(g, j - 1)
  }

  predicate Flagged(g: Job, bandBits: int, j: nat)
    requires JobOk(g) && j < g.end
  {
    bandBits >= Max(Thresh(g, j), Floor(g) + 8)
  }

  function FlagItem(keep: bool): Item
  {
    Item(BitLogp(1), if keep then 1 else 0)
  }

  /** The flags that are sent, where they leave the bits, and whether a flag ended it. */
  datatype Skipped = Skipped(items: seq<Item>, last: Skip, byFlag: bool)

  function SkipPlan(g: Job, ch: Choice, total: int, s: Skip): (r: Skipped)
    requires SkipOk(g, total, s)
    ensures SkipOk(g, total, r.last) && AllCodable(r.items)
    ensures r.byFlag ==> r.items != []
    decreases s.coded
  {
    if s.coded - 1 <= SkipStart(g, g.end) then Skipped([], s, false)
    else
      var top := TopBits(g, total, s);
      if Flagged(g, top, s.coded - 1) then
        if Keeps(g, ch, s.coded, top) then Skipped([FlagItem(true)], s, true)
        else
          var rest := SkipPlan(g, ch, total, Dropped(g, total, s, true));
          Skipped([FlagItem(false)] + rest.items, rest.last, rest.byFlag)
      else SkipPlan(g, ch, total, Dropped(g, total, s, false))
  }

  /** The flags that skip are paid for out of the shares; the one that stops was reserved. */
  lemma {:induction false} SkipSpends(g: Job, ch: Choice, total: int, s: Skip)
    requires SkipOk(g, total, s)
    ensures var r := SkipPlan(g, ch, total, s);
      Spent(g, r.last) == Spent(g, s) + 8 * (|r.items| - if r.byFlag then 1 else 0)
    decreases s.coded
  {
    hide TopBits, Dropped, Keeps, Spent, SkipStart, Flagged;
    if s.coded - 1 > SkipStart(g, g.end) {
      FlagFits(g, total, s);
      var top := TopBits(g, total, s);
      if Flagged(g, top, s.coded - 1) {
        if !Keeps(g, ch, s.coded, top) {
          SkipSpends(g, ch, total, Dropped(g, total, s, true));
          DroppedSpends(g, total, s, true);
        }
      } else {
        SkipSpends(g, ch, total, Dropped(g, total, s, false));
        DroppedSpends(g, total, s, false);
      }
    }
  }

  lemma FlagFits(g: Job, total: int, s: Skip)
    requires SkipOk(g, total, s) && s.coded - 1 > SkipStart(g, g.end)
    ensures s.coded - 1 > g.start
    ensures Flagged(g, TopBits(g, total, s), s.coded - 1) ==> TopBits(g, total, s) >= Floor(g) + 8
  {
  }

  /** The bits set aside before anything else: for the last skip flag, intensity and dual stereo. */
  datatype Reserve = Reserve(total: int, skip: nat, intensity: nat, dual: nat)

  function Reserved(g: Job, total: int): (r: Reserve)
    requires JobOk(g)
    ensures r.total >= 0 && r.total + r.skip + r.intensity + r.dual == Max(total, 0)
    ensures r.intensity == 0 || r.intensity == ChoiceCost(g.end - g.start)
  {
    var t0 := Max(total, 0);
    var skip := if t0 >= 8 then 8 else 0;
    var t1 := t0 - skip;
    if g.chans != 2 || ChoiceCost(g.end - g.start) > t1 then Reserve(t1, skip, 0, 0)
    else
      var t2 := t1 - ChoiceCost(g.end - g.start);
      var dual := if t2 >= 8 then 8 else 0;
      Reserve(t2 - dual, skip, ChoiceCost(g.end - g.start), dual)
  }

  function FirstSkip(g: Job, r: Reserve): (s: Skip)
    requires JobOk(g) && r.total >= 0
    requires r.intensity == 0 || r.intensity == ChoiceCost(g.end - g.start)
    ensures SkipOk(g, r.total, s)
  {
    var bits := FirstShares(g, r.total);
    Skip(g.end, Sum(bits, g.start, g.end), bits, r.intensity)
  }

  /** Everything that is coded, and what is decided by it. */
  datatype Decided = Decided(items: seq<Item>, skip: Skip, byFlag: bool, intensity: int, dual: int, total: int, dualKept: nat)

  predicate ChoiceOk(g: Job, ch: Choice)
  {
    ch.intensity >= g.start && 0 <= ch.dual <= 1
  }

  function IntensityItem(g: Job, coded: nat, intensity: int): (i: Item)
    requires JobOk(g) && g.start < coded <= g.end && intensity >= g.start
    ensures Codable(i.model, i.value)
  {
    Item(Uniform(coded + 1 - g.start), Min(intensity, coded) - g.start)
  }

  function DualItem(dual: int): Item
  {
    Item(BitLogp(1), dual)
  }

  /** The stereo parameters: what is sent, what both sides go by, and whether the dual-stereo bit stays reserved. */
  datatype Stereo = Stereo(items: seq<Item>, intensity: int, dual: int, dualKept: nat)

  function StereoPlan(g: Job, ch: Choice, coded: nat, kept: nat, reserved: nat): (t: Stereo)
    requires JobOk(g) && ChoiceOk(g, ch) && g.start < coded <= g.end
    ensures AllCodable(t.items) && t.dualKept <= reserved
  {
    var intensity := if kept > 0 then Min(ch.intensity, coded) else 0;
    var items := if kept > 0 then [IntensityItem(g, coded, ch.intensity)] else [];
    if intensity > g.start && reserved > 0
    then Stereo(items + [DualItem(ch.dual)], intensity, ch.dual, reserved)
    else Stereo(items, intensity, 0, 0)
  }

  function Decide(g: Job, ch: Choice, total: int): (d: Decided)
    requires JobOk(g) && ChoiceOk(g, ch)
    ensures AllCodable(d.items) && SkipOk(g, d.total, d.skip)
  {
    var r := Reserved(g, total);
    var k := SkipPlan(g, ch, r.total, FirstSkip(g, r));
    var t := StereoPlan(g, ch, k.last.coded, k.last.kept, r.dual);
    Decided(k.items + t.items, k.last, k.byFlag, t.intensity, t.dual,
            r.total + (if k.byFlag then 0 else r.skip) + r.dual - t.dualKept, t.dualKept)
  }
}
