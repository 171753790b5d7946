/**
  When the two sides of a coarse-energy pass agree.  With exactly one bit left
  in the first band the encoder may go on with a delta below -1, of which the
  decoder hears only -1; in every other case both sides go on with the same.
 */
module EnergyLockstep {
  import opened Powers
  import opened RangeTranscripts
  import opened CoarseEnergy

  /** The branch that fails: one bit left for a first-band delta below -1. */
  predicate Starved(f: Frame, x: seq<int>, st: State, q: Quantised, c: nat)
    requires EnergyOk(f, q.energy) && |x| >= Size(f) && f.start < f.end && c < f.chans
  {
    StateTell(st) == f.budget - 1 && Wanted(f, x, q.energy, f.start, c, StateTell(st)) < -1
  }

  /** The guard, in turn, of the first band's channels. */
  predicate Tight(f: Frame, x: seq<int>, st: State, q: Quantised, c: nat)
    requires EnergyOk(f, q.energy) && |x| >= Size(f) && |q.error| >= Size(f) && StateOk(st) && f.start < f.end
    decreases f.chans - c
  {
    c < f.chans &&
    (|| Starved(f, x, st, q, c)
     || var s := Cell(f, x, st, q, f.start, c);
        Tight(f, x, RunFrom(st, s.items), Quantise(f, x, q, f.start, c, s.used), c + 1))
  }

  lemma CodeAgrees(f: Frame, i: nat, tell: int, want: int)
    requires FrameOk(f)
    ensures var s := Code(f, i, tell, want);
      s.used != s.heard <==> f.budget - tell == 1 && want < -1
    ensures f.budget - tell == 1 && want < -1 ==> Code(f, i, tell, want).used == want && Code(f, i, tell, want).heard == -1
  {
    hide LaplaceCoder.Nearest, BandModel;
  }

  /** Past the first band the source's own clamps exclude the failing branch. */
  lemma ClampedLater(f: Frame, x: seq<int>, e: Energy, i: nat, c: nat, tell: int)
    requires EnergyOk(f, e) && |x| >= Size(f) && f.start < i < f.end && c < f.chans && f.budget - tell == 1
    ensures Wanted(f, x, e, i, c, tell) >= -1
  {
    hide Rounded;
  }

  /** Sides that agree go on agreeing, unless the guard is met. */
  lemma {:induction false} StaysInStep(f: Frame, x: seq<int>, st: State, q: Quantised, i: nat, c: nat)
    requires StateOk(st) && Ready(f, x, q, q.energy) && f.start <= i
    requires i == f.start < f.end ==> !Tight(f, x, st, q, c)
    ensures var p := Pass(f, x, st, q, q.energy, i, c); p.sent.energy == p.heard
    decreases f.end - i, f.chans - c
  {
    hide Code, Quantise, Wanted, RunFrom, Apply, StateTell;
    if i >= f.end {
    } else if c >= f.chans {
      StaysInStep(f, x, st, q, i + 1, 0);
    } else {
      var tell := StateTell(st);
      var want := Wanted(f, x, q.energy, i, c, tell);
      CodeAgrees(f, i, tell, want);
      if i > f.start && f.budget - tell == 1 {
        ClampedLater(f, x, q.energy, i, c, tell);
      }
      var s := Cell(f, x, st, q, i, c);
      QuantiseApplies(f, x, q, i, c, s.used);
      StaysInStep(f, x, RunFrom(st, s.items), Quantise(f, x, q, i, c, s.used), i, c + 1);
    }
  }

  lemma QuantiseApplies(f: Frame, x: seq<int>, q: Quantised, i: nat, c: nat, used: int)
    requires EnergyOk(f, q.energy) && |x| >= Size(f) && |q.error| >= Size(f) && i < f.end && c < f.chans
    ensures Quantise(f, x, q, i, c, used).energy == Apply(f, q.energy, i, c, used)
    ensures forall k :: 0 <= k < |q.error| && k != Index(f, i, c) ==> Quantise(f, x, q, i, c, used).error[k] == q.error[k]
    ensures |Quantise(f, x, q, i, c, used).error| == |q.error|
  {
  }

  lemma ApplyElsewhere(f: Frame, e: Energy, i: nat, c: nat, qi: int, k: nat)
    requires EnergyOk(f, e) && i < f.end && c < f.chans && k < |e.past| && k != Index(f, i, c)
    ensures Apply(f, e, i, c, qi).past[k] == e.past[k]
  {
  }

  /** A band already coded is not written again. */
  lemma {:induction false} Settled(f: Frame, x: seq<int>, st: State, q: Quantised, d: Energy, i: nat, c: nat, i0: nat, c0: nat)
    requires StateOk(st) && Ready(f, x, q, d) && i0 < f.end && c0 < f.chans
    requires i0 < i || (i0 == i && c0 < c)
    ensures var p, k := Pass(f, x, st, q, d, i, c), Index(f, i0, c0);
      && Ready(f, x, p.sent, p.heard)
      && p.sent.energy.past[k] == q.energy.past[k] && p.heard.past[k] == d.past[k]
      && p.sent.error[k] == q.error[k]
    decreases f.end - i, f.chans - c
  {
    hide Quantise, Cell, RunFrom, Apply;
    if i >= f.end {
    } else if c >= f.chans {
      Settled(f, x, st, q, d, i + 1, 0, i0, c0);
    } else {
      var s := Cell(f, x, st, q, i, c);
      QuantiseApplies(f, x, q, i, c, s.used);
      ApplyElsewhere(f, q.energy, i, c, s.used, Index(f, i0, c0));
      ApplyElsewhere(f, d, i, c, s.heard, Index(f, i0, c0));
      Settled(f, x, RunFrom(st, s.items), Quantise(f, x, q, i, c, s.used), Apply(f, d, i, c, s.heard), i, c + 1, i0, c0);
    }
  }

  /** Different deltas in the first band give different energies: the floor of -28 is out of reach of -1. */
  lemma FirstBandDiffers(f: Frame, e: Energy, c: nat, used: int)
    requires EnergyOk(f, e) && f.start < f.end && c < f.chans && e.prev[c] == 0 && used < -1
    ensures var k := Index(f, f.start, c);
      Apply(f, e, f.start, c, used).past[k] < Apply(f, e, f.start, c, -1).past[k]
  {
    var k := Index(f, f.start, c);
    var o := Max(-9216, e.past[k]);
    assert Coef(f) * o >= 29440 * -9216 by {
      assert 0 <= Coef(f) <= 29440;
      ProductFloor(Coef(f), o);
    }
    var p := Predicted(f, e, f.start, c);
    assert p + -1 * 131072 >= -3670016 + 2048;
  }

  lemma ProductFloor(a: int, b: int)
    requires 0 <= a <= 29440 && b >= -9216
    ensures a * b >= 29440 * -9216
  {
    if b >= 0 {
      assert a * b >= 0;
    } else {
      assert a * -b <= 29440 * -b;
    }
  }

  lemma OtherChannelKept(f: Frame, e: Energy, c: nat, qi: int)
    requires EnergyOk(f, e) && f.start < f.end && c < f.chans
    ensures forall j :: 0 <= j < 2 && j != c ==> Apply(f, e, f.start, c, qi).prev[j] == e.prev[j]
  {
  }

  /** When the guard is met, the sides end with different energies. */
  lemma {:induction false} FallsOutOfStep(f: Frame, x: seq<int>, st: State, q: Quantised, c: nat)
    requires StateOk(st) && Ready(f, x, q, q.energy) && f.start < f.end
    requires forall j :: c <= j < 2 ==> q.energy.prev[j] == 0
    requires Tight(f, x, st, q, c)
    ensures var p := Pass(f, x, st, q, q.energy, f.start, c); p.sent.energy.past != p.heard.past
    decreases f.chans - c
  {
    hide Code, Quantise, Wanted, RunFrom, Apply, StateTell;
    var tell := StateTell(st);
    var want := Wanted(f, x, q.energy, f.start, c, tell);
    var s := Cell(f, x, st, q, f.start, c);
    CodeAgrees(f, f.start, tell, want);
    QuantiseApplies(f, x, q, f.start, c, s.used);
    var st', q', d' := RunFrom(st, s.items), Quantise(f, x, q, f.start, c, s.used), Apply(f, q.energy, f.start, c, s.heard);
    if Starved(f, x, st, q, c) {
      FirstBandDiffers(f, q.energy, c, s.used);
      Settled(f, x, st', q', d', f.start, c + 1, f.start, c);
    } else {
      OtherChannelKept(f, q.energy, c, s.used);
      FallsOutOfStep(f, x, st', q', c + 1);
    }
  }

  /**
    Both sides end with the same energies exactly when the guard is not met.
    The running sums start from zero, as in the source.
   */
  lemma InStepExactly(f: Frame, x: seq<int>, st: State, q: Quantised)
    requires StateOk(st) && Ready(f, x, q, q.energy) && q.energy.prev == [0, 0]
    ensures var p := Pass(f, x, st, q, q.energy, f.start, 0);
      p.sent.energy.past == p.heard.past <==> !(f.start < f.end && Tight(f, x, st, q, 0))
  {
    hide Tight, Pass;
    if f.start < f.end && Tight(f, x, st, q, 0) {
      FallsOutOfStep(f, x, st, q, 0);
    } else {
      StaysInStep(f, x, st, q, f.start, 0);
    }
  }

  /** A first-band delta coded with plenty of bits left costs at most fifteen of them. */
  lemma CodeCost(f: Frame, i: nat, st: State, want: int)
    requires FrameOk(f) && StateOk(st) && f.budget - StateTell(st) >= 15
    ensures StateTell(RunFrom(st, Code(f, i, StateTell(st), want).items)) <= StateTell(st) + 15
  {
    hide StateTell, Next, LaplaceCoder.Nearest;
    var item := Code(f, i, StateTell(st), want).items[0];
    EmptyRun(st);
    RunAppend(st, [], item);
    assert [] + [item] == [item];
    FifteenBits();
    NextCost(st, item.model, item.value, 15);
  }

  /** Bits left before the first band that rule the failing branch out, for any energies. */
  predicate EnoughLeft(chans: nat, left: int)
  {
    left <= 0 || left >= 17 || (chans == 1 && left != 1)
  }

  /** What a caller can check: with enough bits left, or none, both sides end with the same energies. */
  lemma EnoughBitsInStep(f: Frame, x: seq<int>, st: State, q: Quantised)
    requires StateOk(st) && Ready(f, x, q, q.energy) && q.energy.prev == [0, 0]
    requires EnoughLeft(f.chans, f.budget - StateTell(st))
    ensures var p := Pass(f, x, st, q, q.energy, f.start, 0); p.sent.energy.past == p.heard.past
  {
    hide Pass, Code, Wanted, Quantise, StateTell, RunFrom;
    InStepExactly(f, x, st, q);
    if f.start < f.end && f.chans == 2 {
      var tell := StateTell(st);
      var want := Wanted(f, x, q.energy, f.start, 0, tell);
      if f.budget - tell >= 17 {
        CodeCost(f, f.start, st, want);
      } else {
        NothingCoded(f, f.start, st, want);
      }
      var s := Cell(f, x, st, q, f.start, 0);
      TightLast(f, x, RunFrom(st, s.items), Quantise(f, x, q, f.start, 0, s.used), 1);
    }
  }

  lemma TightLast(f: Frame, x: seq<int>, st: State, q: Quantised, c: nat)
    requires EnergyOk(f, q.energy) && |x| >= Size(f) && |q.error| >= Size(f) && StateOk(st) && f.start < f.end
    requires c + 1 == f.chans
    ensures Tight(f, x, st, q, c) <==> Starved(f, x, st, q, c)
  {
    hide Cell, Starved, Quantise, RunFrom;
  }

  lemma NothingCoded(f: Frame, i: nat, st: State, want: int)
    requires FrameOk(f) && StateOk(st) && f.budget - StateTell(st) <= 0
    ensures RunFrom(st, Code(f, i, StateTell(st), want).items) == st
  {
    hide StateTell, LaplaceCoder.Nearest;
    EmptyRun(st);
  }

  /** An input that meets the guard: a fall of sixteen steps, of which the decoder hears one. */
  lemma OutOfStepExample(st: State)
    requires StateOk(st) && StateTell(st) == 7
    ensures var f := Frame(0, 1, 1, 1, 0, false, false, 16384, 8);
      var p := Pass(f, [-20480], st, Quantised(Energy([0], [0, 0]), [0], 0), Energy([0], [0, 0]), 0, 0);
      p.sent.energy.past == [-16384] && p.heard.past == [-1024]
  {
    hide RunFrom, StateTell;
    var f := Frame(0, 1, 1, 1, 0, false, false, 16384, 8);
    var x, e := [-20480], Energy([0], [0, 0]);
    assert Predicted(f, e, 0, 0) == 0;
    assert Residual(f, x, e, 0, 0) == -2621440;
    assert Wanted(f, x, e, 0, 0, 7) == -16;
    CodeAgrees(f, 0, 7, -16);
  }

  /** Such a state is reached after six raw bits. */
  lemma OutOfStepReachable()
    ensures StateOk(Start) && Codable(RawField(6), 0) && StateTell(Next(Start, RawField(6), 0)) == 7
  {
    hide Ilog, Pow2, Next;
    ByteValues();
    WordValues();
    Pow2Monotone(0, 6);
    RawFieldOnly(Start, 6, 0);
    IlogUnique(0x8000_0000, 32);
  }

  lemma RawFieldOnly(st: State, bits: nat, v: int)
    requires StateOk(st) && Codable(RawField(bits), v)
    ensures var r := Next(st, RawField(bits), v);
      r.iv == st.iv && r.raw.bits == st.raw.bits + bits
  {
    hide Pow2;
  }

  /** The recorded error is what is missing from the reconstruction, up to a rounding tie. */
  lemma ErrorOfCell(f: Frame, x: seq<int>, q: Quantised, i: nat, c: nat, used: int)
    requires EnergyOk(f, q.energy) && |x| >= Size(f) && |q.error| >= Size(f) && i < f.end && c < f.chans
    ensures var r, k := Quantise(f, x, q, i, c, used), Index(f, i, c);
      || r.energy.past[k] == -28672
      || 0 <= r.energy.past[k] + r.error[k] - x[k] <= 1
  {
  }

  predicate ErrorExplains(f: Frame, x: seq<int>, q: Quantised, k: nat)
    requires k < |q.energy.past| && k < |q.error| && k < |x|
  {
    q.energy.past[k] == -28672 || 0 <= q.energy.past[k] + q.error[k] - x[k] <= 1
  }

  /** After a pass this holds of every band, so the fine-energy stage starts from the right remainder. */
  lemma {:induction false} ErrorsExplain(f: Frame, x: seq<int>, st: State, q: Quantised, d: Energy, i: nat, c: nat, i0: nat, c0: nat)
    requires StateOk(st) && Ready(f, x, q, d) && i0 < f.end && c0 < f.chans
    requires i < i0 || (i == i0 && c <= c0)
    ensures var p := Pass(f, x, st, q, d, i, c);
      Ready(f, x, p.sent, p.heard) && ErrorExplains(f, x, p.sent, Index(f, i0, c0))
    decreases f.end - i, f.chans - c
  {
    hide Quantise, Cell, RunFrom, Apply;
    if c >= f.chans {
      ErrorsExplain(f, x, st, q, d, i + 1, 0, i0, c0);
    } else {
      var s := Cell(f, x, st, q, i, c);
      QuantiseApplies(f, x, q, i, c, s.used);
      var st', q', d' := RunFrom(st, s.items), Quantise(f, x, q, i, c, s.used), Apply(f, d, i, c, s.heard);
      if i == i0 && c == c0 {
        ErrorOfCell(f, x, q, i, c, s.used);
        Settled(f, x, st', q', d', i, c + 1, i0, c0);
      } else {
        ErrorsExplain(f, x, st', q', d', i, c + 1, i0, c0);
      }
    }
  }
}
