/**
  What one coarse-energy pass does to the signal and to the budget: deltas that
  are sent as asked are the nearest, energies do not fall too fast, and the bits
  left are never overdrawn.
 */
module EnergyQuality {
  import opened Powers
  import opened RangeTranscripts
  import opened CoarseEnergy
  import opened EnergyLockstep
  import L = Laplace
  import LaplaceCoder

  /** Where a pass stands when it comes to band `i0`, channel `c0`. */
  function Arrival(f: Frame, x: seq<int>, st: State, q: Quantised, i: nat, c: nat, i0: nat, c0: nat): (r: (State, Quantised))
    requires StateOk(st) && Ready(f, x, q, q.energy) && i0 < f.end && c0 < f.chans
    requires i < i0 || (i == i0 && c <= c0)
    ensures StateOk(r.0) && Ready(f, x, r.1, r.1.energy)
    decreases f.end - i, f.chans - c
  {
    if i == i0 && c == c0 then (st, q)
    else if c >= f.chans then Arrival(f, x, st, q, i + 1, 0, i0, c0)
    else
      var s := Cell(f, x, st, q, i, c);
      Arrival(f, x, RunFrom(st, s.items), Quantise(f, x, q, i, c, s.used), i, c + 1, i0, c0)
  }

  /** What the pass records for a band is what was decided on arrival there. */
  lemma {:induction false} RecordedOnArrival(f: Frame, x: seq<int>, st: State, q: Quantised, d: Energy,
                                             i: nat, c: nat, i0: nat, c0: nat)
    requires StateOk(st) && Ready(f, x, q, d) && i0 < f.end && c0 < f.chans
    requires i < i0 || (i == i0 && c <= c0)
    ensures var p, k := Pass(f, x, st, q, d, i, c), Index(f, i0, c0);
      var a := Arrival(f, x, st, q, i, c, i0, c0);
      var used := Cell(f, x, a.0, a.1, i0, c0).used;
      && Ready(f, x, p.sent, p.heard)
      && p.sent.error[k] == Round7(Residual(f, x, a.1.energy, i0, c0)) - used * 1024
      && p.sent.energy.past[k] == Apply(f, a.1.energy, i0, c0, used).past[k]
    decreases f.end - i, f.chans - c
  {
    hide Quantise, Cell, RunFrom, Apply, Residual, Round7;
    if c >= f.chans {
      RecordedOnArrival(f, x, st, q, d, i + 1, 0, i0, c0);
    } else {
      var s := Cell(f, x, st, q, i, c);
      QuantiseApplies(f, x, q, i, c, s.used);
      var st', q', d' := RunFrom(st, s.items), Quantise(f, x, q, i, c, s.used), Apply(f, d, i, c, s.heard);
      if i == i0 && c == c0 {
        ErrorRecorded(f, x, q, i, c, s.used);
        Settled(f, x, st', q', d', i, c + 1, i0, c0);
      } else {
        RecordedOnArrival(f, x, st', q', d', i, c + 1, i0, c0);
      }
    }
  }

  lemma ErrorRecorded(f: Frame, x: seq<int>, q: Quantised, i: nat, c: nat, used: int)
    requires EnergyOk(f, q.energy) && |x| >= Size(f) && |q.error| >= Size(f) && i < f.end && c < f.chans
    ensures Quantise(f, x, q, i, c, used).error[Index(f, i, c)] == Round7(Residual(f, x, q.energy, i, c)) - used * 1024
  {
  }

  /** How low a band may go in one frame. */
  function Bound(f: Frame, e: Energy, i: nat, c: nat): int
    requires EnergyOk(f, e) && i < f.end && c < f.chans
  {
    Max(-28672, e.past[Index(f, i, c)] - f.maxDecay)
  }

  /** The band falls by more than half a step, and below its bound. */
  predicate Falling(f: Frame, x: seq<int>, e: Energy, i: nat, c: nat)
    requires EnergyOk(f, e) && |x| >= Size(f) && i < f.end && c < f.chans
  {
    Residual(f, x, e, i, c) < -65536 && x[Index(f, i, c)] < Bound(f, e, i, c)
  }

  /**
    Of every band whose delta was sent as asked: what is missing after it is at
    most half a step, and where the band was kept from falling too fast it is
    raised to no more than half a step above its bound, by whole steps only.
   */
  lemma QuantisedNearest(f: Frame, x: seq<int>, st: State, q: Quantised, d: Energy, i0: nat, c0: nat)
    requires StateOk(st) && Ready(f, x, q, d) && f.start <= i0 < f.end && c0 < f.chans
    ensures var p, k := Pass(f, x, st, q, d, f.start, 0), Index(f, i0, c0);
      var a := Arrival(f, x, st, q, f.start, 0, i0, c0);
      var e, used := a.1.energy, Cell(f, x, a.0, a.1, i0, c0).used;
      && Ready(f, x, p.sent, p.heard)
      && (used == Rounded(f, x, e, i0, c0) ==>
            var lost, above := p.sent.error[k], Bound(f, e, i0, c0) - x[k];
            if !Falling(f, x, e, i0, c0) then -512 <= lost <= 512
            else used <= 0 && lost + above >= -512 && (used < 0 ==> lost + above < 1536))
  {
    hide Cell, Pass, Arrival, Residual, Bound;
    RecordedOnArrival(f, x, st, q, d, f.start, 0, i0, c0);
    var a := Arrival(f, x, st, q, f.start, 0, i0, c0);
    RoundedIs(f, x, a.1.energy, i0, c0);
    HalfStep(Residual(f, x, a.1.energy, i0, c0));
  }

  lemma RoundedIs(f: Frame, x: seq<int>, e: Energy, i: nat, c: nat)
    requires EnergyOk(f, e) && |x| >= Size(f) && i < f.end && c < f.chans
    ensures var near, above := (Residual(f, x, e, i, c) + 65536) / 131072, Bound(f, e, i, c) - x[Index(f, i, c)];
      Rounded(f, x, e, i, c) == if Falling(f, x, e, i, c) then Min(0, near + above / 1024) else near
  {
    hide Residual;
  }

  lemma HalfStep(r: int)
    ensures -512 <= Round7(r) - (r + 65536) / 131072 * 1024 <= 512
  {
  }

  predicate Ahead(f: Frame, i: nat, c: nat, i0: nat, c0: nat)
  {
    i0 < f.end && c0 < f.chans && (i < i0 || (i == i0 && c <= c0))
  }

  /** Band `i0` of channel `c0` gets the delta asked for. */
  predicate AsAsked(f: Frame, x: seq<int>, st: State, q: Quantised, i: nat, c: nat, i0: nat, c0: nat)
    requires StateOk(st) && Ready(f, x, q, q.energy) && Ahead(f, i, c, i0, c0)
  {
    var a := Arrival(f, x, st, q, i, c, i0, c0);
    Cell(f, x, a.0, a.1, i0, c0).used == Rounded(f, x, a.1.energy, i0, c0)
  }

  ghost predicate AllAsAsked(f: Frame, x: seq<int>, st: State, q: Quantised, i: nat, c: nat)
    requires StateOk(st) && Ready(f, x, q, q.energy)
  {
    forall i0, c0 :: Ahead(f, i, c, i0, c0) ==> AsAsked(f, x, st, q, i, c, i0, c0)
  }

  lemma NextBandAsked(f: Frame, x: seq<int>, st: State, q: Quantised, i: nat, c: nat)
    requires StateOk(st) && Ready(f, x, q, q.energy) && i < f.end && c >= f.chans
    ensures AllAsAsked(f, x, st, q, i, c) == AllAsAsked(f, x, st, q, i + 1, 0)
  {
    hide Quantise, Cell, RunFrom, Rounded;
    forall i0, c0 | Ahead(f, i, c, i0, c0) || Ahead(f, i + 1, 0, i0, c0)
      ensures Ahead(f, i, c, i0, c0) && Ahead(f, i + 1, 0, i0, c0)
      ensures AsAsked(f, x, st, q, i, c, i0, c0) == AsAsked(f, x, st, q, i + 1, 0, i0, c0)
    {
    }
    var j, k := i + 1, 0;
    assert AllAsAsked(f, x, st, q, i, c) ==> AllAsAsked(f, x, st, q, j, k) by {
      forall i0, c0 | AllAsAsked(f, x, st, q, i, c) && Ahead(f, j, k, i0, c0) ensures AsAsked(f, x, st, q, j, k, i0, c0) {
        assert AsAsked(f, x, st, q, i, c, i0, c0);
      }
    }
    assert AllAsAsked(f, x, st, q, j, k) ==> AllAsAsked(f, x, st, q, i, c) by {
      forall i0, c0 | AllAsAsked(f, x, st, q, j, k) && Ahead(f, i, c, i0, c0) ensures AsAsked(f, x, st, q, i, c, i0, c0) {
        assert AsAsked(f, x, st, q, j, k, i0, c0);
      }
    }
  }

  lemma NextChannelAsked(f: Frame, x: seq<int>, st: State, q: Quantised, i: nat, c: nat)
    requires StateOk(st) && Ready(f, x, q, q.energy) && i < f.end && c < f.chans
    ensures var s := Cell(f, x, st, q, i, c);
      AllAsAsked(f, x, st, q, i, c) <==>
        (&& s.used == Rounded(f, x, q.energy, i, c)
         && AllAsAsked(f, x, RunFrom(st, s.items), Quantise(f, x, q, i, c, s.used), i, c + 1))
  {
    hide Quantise, Cell, RunFrom, Rounded;
    var s := Cell(f, x, st, q, i, c);
    var st', q', k := RunFrom(st, s.items), Quantise(f, x, q, i, c, s.used), c + 1;
    assert AsAsked(f, x, st, q, i, c, i, c) <==> s.used == Rounded(f, x, q.energy, i, c);
    forall i0, c0 | Ahead(f, i, k, i0, c0)
      ensures Ahead(f, i, c, i0, c0) && AsAsked(f, x, st, q, i, c, i0, c0) == AsAsked(f, x, st', q', i, k, i0, c0)
    {
    }
    assert AllAsAsked(f, x, st, q, i, c) ==> AllAsAsked(f, x, st', q', i, k) by {
      forall i0, c0 | AllAsAsked(f, x, st, q, i, c) && Ahead(f, i, k, i0, c0) ensures AsAsked(f, x, st', q', i, k, i0, c0) {
        assert AsAsked(f, x, st, q, i, c, i0, c0);
      }
    }
    if AllAsAsked(f, x, st', q', i, k) && s.used == Rounded(f, x, q.energy, i, c) {
      forall i0, c0 | Ahead(f, i, c, i0, c0) ensures AsAsked(f, x, st, q, i, c, i0, c0) {
        assert (i0 == i && c0 == c) || Ahead(f, i, k, i0, c0);
      }
    }
  }

  /** The badness of a pass grows exactly when some delta is not sent as asked. */
  lemma {:induction false} BadnessMeans(f: Frame, x: seq<int>, st: State, q: Quantised, d: Energy, i: nat, c: nat)
    requires StateOk(st) && Ready(f, x, q, d)
    ensures var b := Pass(f, x, st, q, d, i, c).sent.badness;
      b >= q.badness && (b == q.badness <==> AllAsAsked(f, x, st, q, i, c))
    decreases f.end - i, f.chans - c
  {
    hide Quantise, Cell, RunFrom, Apply, Rounded, AsAsked;
    if c >= f.chans && i < f.end {
      BadnessMeans(f, x, st, q, d, i + 1, 0);
      NextBandAsked(f, x, st, q, i, c);
    } else if i < f.end {
      var s := Cell(f, x, st, q, i, c);
      var st', q', d' := RunFrom(st, s.items), Quantise(f, x, q, i, c, s.used), Apply(f, d, i, c, s.heard);
      BadnessGrows(f, x, q, i, c, s.used);
      BadnessMeans(f, x, st', q', d', i, c + 1);
      NextChannelAsked(f, x, st, q, i, c);
    }
  }

  lemma BadnessGrows(f: Frame, x: seq<int>, q: Quantised, i: nat, c: nat, used: int)
    requires EnergyOk(f, q.energy) && |x| >= Size(f) && |q.error| >= Size(f) && i < f.end && c < f.chans
    ensures var r := Quantise(f, x, q, i, c, used).badness;
      r >= q.badness && (r == q.badness <==> used == Rounded(f, x, q.energy, i, c))
  {
    hide Rounded, Apply, Residual;
  }

  /** A pass without badness leaves no band more than half a step from its energy, but for those that fall too fast. */
  lemma GoodPassNear(f: Frame, x: seq<int>, st: State, q: Quantised, d: Energy, i0: nat, c0: nat)
    requires StateOk(st) && Ready(f, x, q, d) && f.start <= i0 < f.end && c0 < f.chans
    requires Pass(f, x, st, q, d, f.start, 0).sent.badness == q.badness
    ensures var p, k := Pass(f, x, st, q, d, f.start, 0), Index(f, i0, c0);
      && Ready(f, x, p.sent, p.heard)
      && (Falling(f, x, Arrival(f, x, st, q, f.start, 0, i0, c0).1.energy, i0, c0) || -512 <= p.sent.error[k] <= 512)
  {
    hide Pass, Arrival, Cell, Rounded, Falling;
    assert Ahead(f, f.start, 0, i0, c0);
    BadnessMeans(f, x, st, q, d, f.start, 0);
    QuantisedNearest(f, x, st, q, d, i0, c0);
  }

  /** The delta asked for survives when bits are not short and the table has it. */
  lemma SentAsAsked(f: Frame, x: seq<int>, st: State, q: Quantised, i: nat, c: nat)
    requires StateOk(st) && Ready(f, x, q, q.energy) && i < f.end && c < f.chans
    requires f.budget - StateTell(st) >= 15
    requires i == f.start || f.budget - StateTell(st) - 3 * f.chans * (f.end - i) >= 24
    requires f.lfe && i >= 2 ==> Rounded(f, x, q.energy, i, c) <= 0
    requires Abs(Rounded(f, x, q.energy, i, c)) <= L.LAPLACE_NMIN
    ensures Cell(f, x, st, q, i, c).used == Rounded(f, x, q.energy, i, c)
  {
    hide Rounded, StateTell, L.Representable;
    var m := BandModel(f, i);
    LaplaceCoder.GuaranteedDeltas(m.fs0, m.decay, Rounded(f, x, q.energy, i, c));
  }

  /** What running short of bits, and the low-frequency channel, do to a delta. */
  lemma KeptSmall(f: Frame, x: seq<int>, st: State, q: Quantised, i: nat, c: nat)
    requires StateOk(st) && Ready(f, x, q, q.energy) && i < f.end && c < f.chans
    ensures var used, left := Cell(f, x, st, q, i, c).used, f.budget - StateTell(st) - 3 * f.chans * (f.end - i);
      && (i != f.start && left < 24 ==> used <= 1)
      && (i != f.start && left < 16 ==> used >= -1)
      && (f.lfe && i >= 2 ==> used <= 0)
      && (f.budget <= StateTell(st) ==> used == -1)
  {
    hide Rounded, StateTell, LaplaceCoder.Nearest;
    var m := BandModel(f, i);
    TowardsZero(m.fs0, m.decay, Wanted(f, x, q.energy, i, c, StateTell(st)));
  }

  /** The table only ever moves a delta towards zero. */
  lemma {:induction false} TowardsZero(fs0: nat, decay: nat, v: int)
    requires L.ParametersOk(fs0, decay)
    ensures var n := LaplaceCoder.Nearest(fs0, decay, v); if v < 0 then v <= n <= 0 else 0 <= n <= v
    decreases Abs(v)
  {
    hide L.Representable;
    LaplaceCoder.GuaranteedDeltas(fs0, decay, 0);
    if !L.Representable(fs0, decay, v) {
      TowardsZero(fs0, decay, if v < 0 then v + 1 else v - 1);
    }
  }

  /** One delta takes no more bits than are left. */
  lemma CodeWithin(f: Frame, i: nat, st: State, want: int)
    requires FrameOk(f) && StateOk(st)
    ensures StateTell(RunFrom(st, Code(f, i, StateTell(st), want).items)) <= Max(f.budget, StateTell(st))
  {
    hide StateTell, Next, LaplaceCoder.Nearest, SlotOf;
    var left, items := f.budget - StateTell(st), Code(f, i, StateTell(st), want).items;
    EmptyRun(st);
    if items != [] {
      RunAppend(st, [], items[0]);
      assert [] + [items[0]] == items;
      var n := if left >= 15 then 15 else if left >= 2 then 2 else 1;
      CodeTotal(f, i, st, want);
      NextCost(st, items[0].model, items[0].value, n);
    }
  }

  lemma CodeTotal(f: Frame, i: nat, st: State, want: int)
    requires FrameOk(f) && StateOk(st) && Code(f, i, StateTell(st), want).items != []
    ensures var left, item := f.budget - StateTell(st), Code(f, i, StateTell(st), want).items[0];
      && left >= 1 && !item.model.RawField? && RawCount(item.model) == 0
      && SlotOf(item.model, item.value).ft == Pow2(if left >= 15 then 15 else if left >= 2 then 2 else 1)
  {
    hide StateTell, LaplaceCoder.Nearest, Pow2, L.ShareOf;
    FifteenBits();
  }

  /** A pass never overdraws the budget. */
  lemma {:induction false} BudgetKept(f: Frame, x: seq<int>, st: State, q: Quantised, d: Energy, i: nat, c: nat)
    requires StateOk(st) && Ready(f, x, q, d)
    ensures StateTell(RunFrom(st, Pass(f, x, st, q, d, i, c).items)) <= Max(f.budget, StateTell(st))
    decreases f.end - i, f.chans - c
  {
    hide Code, Quantise, Wanted, RunFrom, Apply, StateTell;
    if i >= f.end {
      EmptyRun(st);
    } else if c >= f.chans {
      BudgetKept(f, x, st, q, d, i + 1, 0);
    } else {
      var s := Cell(f, x, st, q, i, c);
      var st', q', d' := RunFrom(st, s.items), Quantise(f, x, q, i, c, s.used), Apply(f, d, i, c, s.heard);
      CodeWithin(f, i, st, Wanted(f, x, q.energy, i, c, StateTell(st)));
      BudgetKept(f, x, st', q', d', i, c + 1);
      RunConcat(st, s.items, Pass(f, x, st', q', d', i, c + 1).items);
    }
  }
}
