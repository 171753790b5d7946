/**
  Coarse band energies (celt/quant_bands.c, fixed point): each band's energy is
  predicted from the previous frame and the bands below, and the delta is coded
  by whichever of four means still fits the budget.

  One pass is followed on both sides at once, because each side predicts from
  what it believes was sent.
 */
module CoarseEnergy {
  import opened Powers
  import opened ByteStreams
  import opened RangeModels
  import opened RangeTranscripts
  import opened EnergyModel
  import LaplaceCoder

  datatype Frame = Frame(start: nat, end: nat, chans: nat, bands: nat, lm: nat, intra: bool,
                         lfe: bool, maxDecay: int, budget: int)

  predicate FrameOk(f: Frame)
  {
    f.start <= f.end <= f.bands && 1 <= f.chans <= 2 && f.lm < 4
  }

  /** PSHR32 by 7 and by 8: a rounded shift. */
  function Round7(a: int): int { (a + 64) / 128 }
  function Round8(a: int): int { (a + 128) / 256 }

  function Coef(f: Frame): int
    requires f.lm < 4
  {
    if f.intra then 0 else [29440, 26112, 21248, 16384][f.lm]
  }

  function Beta(f: Frame): int
    requires f.lm < 4
  {
    if f.intra then 4915 else [30147, 22282, 12124, 6554][f.lm]
  }

  /** Where band `i` of channel `c` is kept. */
  function Index(f: Frame, i: nat, c: nat): nat
  {
    if c == 0 then i else f.bands + i
  }

  function Size(f: Frame): nat
  {
    if f.chans == 1 then f.bands else 2 * f.bands
  }

  /** What either side predicts from: the energies so far and the running sum of deltas per channel. */
  datatype Energy = Energy(past: seq<int>, prev: seq<int>)

  predicate EnergyOk(f: Frame, e: Energy)
  {
    FrameOk(f) && |e.past| >= Size(f) && |e.prev| == 2
  }

  function Predicted(f: Frame, e: Energy, i: nat, c: nat): int
    requires EnergyOk(f, e) && i < f.end && c < f.chans
  {
    Round8(Coef(f) * Max(-9216, e.past[Index(f, i, c)])) + e.prev[c]
  }

  /** Both sides' update once the delta `qi` is known. */
  function Apply(f: Frame, e: Energy, i: nat, c: nat, qi: int): (r: Energy)
    requires EnergyOk(f, e) && i < f.end && c < f.chans
    ensures EnergyOk(f, r) && |r.past| == |e.past|
  {
    var level := Max(-3670016, Predicted(f, e, i, c) + qi * 131072);
    Energy(e.past[Index(f, i, c) := Round7(level)],
           e.prev[c := e.prev[c] + qi * 131072 - Beta(f) * Round8(qi * 1024)])
  }

  /** The distance to the prediction, in Q17. */
  function Residual(f: Frame, x: seq<int>, e: Energy, i: nat, c: nat): int
    requires EnergyOk(f, e) && |x| >= Size(f) && i < f.end && c < f.chans
  {
    x[Index(f, i, c)] * 128 - Predicted(f, e, i, c)
  }

  /** The rounded delta, kept from falling too fast: qi0 of the source. */
  function Rounded(f: Frame, x: seq<int>, e: Energy, i: nat, c: nat): int
    requires EnergyOk(f, e) && |x| >= Size(f) && i < f.end && c < f.chans
  {
    var k := Index(f, i, c);
    var qi := (Residual(f, x, e, i, c) + 65536) / 131072;
    var bound := Max(-28672, e.past[k] - f.maxDecay);
    if qi < 0 && x[k] < bound then Min(0, qi + (bound - x[k]) / 1024) else qi
  }

  /** The delta the encoder asks for once bits run short. */
  function Wanted(f: Frame, x: seq<int>, e: Energy, i: nat, c: nat, tell: int): int
    requires EnergyOk(f, e) && |x| >= Size(f) && i < f.end && c < f.chans
  {
    var q0 := Rounded(f, x, e, i, c);
    var left := f.budget - tell - 3 * f.chans * (f.end - i);
    var q1 := if i != f.start && left < 24 then Min(1, q0) else q0;
    var q2 := if i != f.start && left < 16 then Max(-1, q1) else q1;
    if f.lfe && i >= 2 then Min(q2, 0) else q2
  }

  /** What is sent for one delta, the delta the encoder goes on with, and the one the decoder hears. */
  datatype Sent = Sent(items: seq<Item>, used: int, heard: int)

  const SmallIcdf: seq<byte> := [2, 1, 0]

  lemma SmallIcdfOk()
    ensures forall k: nat :: k < 3 ==> IcdfCodable(SmallIcdf, 2, k)
  {
    assert IcdfOk(SmallIcdf, 2);
  }

  /** 0, -1, 1 as 0, 1, 2. */
  function Folded(q: int): int { if q < 0 then -2 * q - 1 else 2 * q }
  function Unfolded(s: int): int { if s % 2 == 1 then -(s / 2) - 1 else s / 2 }

  function BandModel(f: Frame, i: nat): (m: Model)
    requires FrameOk(f)
    ensures m.Laplace? && ModelOk(m)
  {
    var band := ProbModel(f.lm, f.intra)[if i < 20 then i else 20];
    Laplace(band.zero * 128, band.decay * 64)
  }

  function Code(f: Frame, i: nat, tell: int, want: int): (s: Sent)
    requires FrameOk(f)
    ensures |s.items| <= 1 && AllCodable(s.items)
  {
    var left := f.budget - tell;
    if left >= 15 then
      var m := BandModel(f, i);
      var q := LaplaceCoder.Nearest(m.fs0, m.decay, want);
      Sent([Item(m, q)], q, q)
    else if left >= 2 then
      SmallIcdfOk();
      var q := Max(-1, Min(want, 1));
      Sent([Item(Icdf(SmallIcdf, 2), Folded(q))], q, Unfolded(Folded(q)))
    else if left >= 1 then
      var q := Min(0, want);
      Sent([Item(BitLogp(1), if q != 0 then 1 else 0)], q, if q != 0 then -1 else 0)
    else Sent([], -1, -1)
  }

  /** The encoder's side: energies, quantisation errors and how far deltas were moved. */
  datatype Quantised = Quantised(energy: Energy, error: seq<int>, badness: int)

  predicate Ready(f: Frame, x: seq<int>, q: Quantised, d: Energy)
  {
    EnergyOk(f, q.energy) && EnergyOk(f, d) && |x| >= Size(f) && |q.error| >= Size(f)
  }

  function Quantise(f: Frame, x: seq<int>, q: Quantised, i: nat, c: nat, used: int): (r: Quantised)
    requires EnergyOk(f, q.energy) && |x| >= Size(f) && |q.error| >= Size(f) && i < f.end && c < f.chans
    ensures EnergyOk(f, r.energy) && |r.error| == |q.error|
  {
    var moved := Rounded(f, x, q.energy, i, c) - used;
    Quantised(Apply(f, q.energy, i, c, used),
              q.error[Index(f, i, c) := Round7(Residual(f, x, q.energy, i, c)) - used * 1024],
              q.badness + Abs(moved))
  }

  /** All that is sent from band `i`, channel `c` on, and where it leaves each side. */
  datatype Plan = Plan(items: seq<Item>, sent: Quantised, heard: Energy)

  function Cell(f: Frame, x: seq<int>, st: State, q: Quantised, i: nat, c: nat): (s: Sent)
    requires EnergyOk(f, q.energy) && |x| >= Size(f) && i < f.end && c < f.chans
    ensures |s.items| <= 1 && AllCodable(s.items)
  {
    Code(f, i, StateTell(st), Wanted(f, x, q.energy, i, c, StateTell(st)))
  }

  function Pass(f: Frame, x: seq<int>, st: State, q: Quantised, d: Energy, i: nat, c: nat): (p: Plan)
    requires StateOk(st) && Ready(f, x, q, d)
    ensures AllCodable(p.items)
    decreases f.end - i, f.chans - c
  {
    if i >= f.end then Plan([], q, d)
    else if c >= f.chans then Pass(f, x, st, q, d, i + 1, 0)
    else
      var s := Cell(f, x, st, q, i, c);
      var rest := Pass(f, x, RunFrom(st, s.items), Quantise(f, x, q, i, c, s.used), Apply(f, d, i, c, s.heard), i, c + 1);
      Plan(s.items + rest.items, rest.sent, rest.heard)
  }
}
