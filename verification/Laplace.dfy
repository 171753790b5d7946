/**
  The Laplace-like code for coarse energy deltas (celt/laplace.c): a table of
  32768 units in which zero has `fs0` units, the values +-1, +-2, ... decay
  geometrically, and everything further out gets one unit each.
 */
module Laplace {
  import opened Powers

  const LAPLACE_MINP: nat := 1
  const LAPLACE_NMIN: nat := 16
  const LAPLACE_TOTAL: nat := 32768

  /** What the callers pass: a probability of zero and a decay of at most 11456. */
  predicate ParametersOk(fs0: nat, decay: nat)
  {
    0 < fs0 < LAPLACE_TOTAL - 2 * LAPLACE_MINP * LAPLACE_NMIN && 0 < decay <= 11456
  }

  /** ec_laplace_get_freq1 */
  function Freq1(fs0: nat, decay: nat): nat
    requires ParametersOk(fs0, decay)
  {
    (LAPLACE_TOTAL - 2 * LAPLACE_MINP * LAPLACE_NMIN - fs0) * (16384 - decay) / 32768
  }

  function Decayed(fs: nat, decay: nat): (r: nat)
    requires decay <= 11456
    ensures fs > 0 ==> r < fs
    ensures fs == 0 ==> r == 0
  {
    DecayBound(fs, decay);
    2 * fs * decay / 32768
  }

  lemma DecayBound(fs: nat, decay: nat)
    requires decay <= 11456
    ensures 0 <= 2 * fs * decay / 32768 <= fs && (fs > 0 ==> 2 * fs * decay / 32768 < fs)
  {
    MulLe(fs, decay, 11456);
    assert 2 * fs * decay == 2 * (fs * decay);
  }

  /** Units, beyond the guaranteed one, that each of +i and -i has. */
  function FsAt(fs0: nat, decay: nat, i: nat): nat
    requires ParametersOk(fs0, decay) && i >= 1
  {
    if i == 1 then Freq1(fs0, decay) else Decayed(FsAt(fs0, decay, i - 1), decay)
  }

  /** Where the units of -i start. */
  function FlAt(fs0: nat, decay: nat, i: nat): nat
    requires ParametersOk(fs0, decay) && i >= 1
  {
    if i == 1 then fs0 else FlAt(fs0, decay, i - 1) + 2 * (FsAt(fs0, decay, i - 1) + LAPLACE_MINP)
  }

  /** The first magnitude whose share has decayed to the guaranteed unit. */
  function CutoffFrom(fs0: nat, decay: nat, i: nat): (n: nat)
    requires ParametersOk(fs0, decay) && i >= 1
    ensures n >= i && FsAt(fs0, decay, n) == 0
    ensures forall j :: i <= j < n ==> FsAt(fs0, decay, j) > 0
    decreases FsAt(fs0, decay, i)
  {
    if FsAt(fs0, decay, i) == 0 then i else CutoffFrom(fs0, decay, i + 1)
  }

  function Cutoff(fs0: nat, decay: nat): nat
    requires ParametersOk(fs0, decay)
  {
    CutoffFrom(fs0, decay, 1)
  }

  /** Room in the flat tail: the assertion fl + fs <= 32768 of the source. */
  predicate TailFits(fs0: nat, decay: nat)
    requires ParametersOk(fs0, decay)
  {
    FlAt(fs0, decay, Cutoff(fs0, decay)) <= LAPLACE_TOTAL - 2
  }

  datatype Share = Share(fl: nat, fh: nat)

  /** First unit of a value other than zero, the share of its magnitude being `fs`. */
  function Units(fl: nat, fs: nat, negative: bool): Share
  {
    if negative then Share(fl, fl + fs + 1) else Share(fl + fs + 1, fl + 2 * (fs + 1))
  }

  /** The units of value `v`. */
  function ShareOf(fs0: nat, decay: nat, v: int): Share
    requires ParametersOk(fs0, decay)
  {
    var n, k := Cutoff(fs0, decay), Abs(v);
    if v == 0 then Share(0, fs0)
    else if k < n then Units(FlAt(fs0, decay, k), FsAt(fs0, decay, k), v < 0)
    else Units(FlAt(fs0, decay, n) + 2 * (k - n), 0, v < 0)
  }

  /** The value has a place in the table. */
  predicate Representable(fs0: nat, decay: nat, v: int)
    requires ParametersOk(fs0, decay)
  {
    ShareOf(fs0, decay, v).fh <= LAPLACE_TOTAL
  }

  /** Shares of larger magnitudes start further out. */
  lemma {:induction false} FlAtMonotone(fs0: nat, decay: nat, i: nat, j: nat)
    requires ParametersOk(fs0, decay) && 1 <= i < j
    ensures FlAt(fs0, decay, i) + 2 * (FsAt(fs0, decay, i) + 1) <= FlAt(fs0, decay, j)
    decreases j
  {
    if i + 1 < j {
      FlAtMonotone(fs0, decay, i, j - 1);
    }
  }

  lemma ZeroFirst(fs0: nat, decay: nat, i: nat)
    requires ParametersOk(fs0, decay) && 1 <= i
    ensures fs0 <= FlAt(fs0, decay, i)
  {
    if i > 1 {
      FlAtMonotone(fs0, decay, 1, i);
    }
  }

  /** The pair +-k, as one block, lies before the block of any larger magnitude. */
  lemma BlocksOrdered(fs0: nat, decay: nat, v: int, w: int)
    requires ParametersOk(fs0, decay) && Abs(v) < Abs(w)
    ensures ShareOf(fs0, decay, v).fh <= ShareOf(fs0, decay, w).fl
  {
    hide FlAt, FsAt;
    var n := Cutoff(fs0, decay);
    if v == 0 {
      ZeroFirst(fs0, decay, if Abs(w) < n then Abs(w) else n);
    } else if Abs(w) < n {
      FlAtMonotone(fs0, decay, Abs(v), Abs(w));
    } else if Abs(v) < n {
      FlAtMonotone(fs0, decay, Abs(v), n);
    }
  }

  /** No unit belongs to two values. */
  lemma SharesDisjoint(fs0: nat, decay: nat, v: int, w: int)
    requires ParametersOk(fs0, decay) && v != w
    ensures var a, b := ShareOf(fs0, decay, v), ShareOf(fs0, decay, w);
      a.fl < a.fh && (a.fh <= b.fl || b.fh <= a.fl)
  {
    if Abs(v) < Abs(w) {
      BlocksOrdered(fs0, decay, v, w);
    } else if Abs(w) < Abs(v) {
      BlocksOrdered(fs0, decay, w, v);
    }
  }

  /**
    While the shares decay, fl plus what a geometric tail would still add grows
    by at most the two guaranteed units a step; q is 16384 - decay.
   */
  lemma {:induction false} DecayPotential(fs0: nat, decay: nat, i: nat)
    requires ParametersOk(fs0, decay) && i >= 1
    ensures FlAt(fs0, decay, i) * (16384 - decay) + 32768 * FsAt(fs0, decay, i)
         <= (LAPLACE_TOTAL - 32 + 2 * (i - 1)) * (16384 - decay)
  {
    var q := 16384 - decay;
    if i == 1 {
      var ft := LAPLACE_TOTAL - 32 - fs0;
      assert 32768 * (ft * q / 32768) <= ft * q;
      assert fs0 * q + ft * q == (LAPLACE_TOTAL - 32) * q;
    } else {
      DecayPotential(fs0, decay, i - 1);
      var fl, fs := FlAt(fs0, decay, i - 1), FsAt(fs0, decay, i - 1);
      PotentialStep(fl, fs, Decayed(fs, decay), decay, LAPLACE_TOTAL - 32 + 2 * (i - 2));
    }
  }

  lemma PotentialStep(fl: nat, fs: nat, next: nat, decay: nat, bound: nat)
    requires 0 < decay <= 11456 && next == 2 * fs * decay / 32768
    requires fl * (16384 - decay) + 32768 * fs <= bound * (16384 - decay)
    ensures (fl + 2 * (fs + 1)) * (16384 - decay) + 32768 * next <= (bound + 2) * (16384 - decay)
  {
    var q := 16384 - decay;
    assert 32768 * next <= 2 * fs * decay;
    assert (fl + 2 * (fs + 1)) * q == fl * q + 2 * (fs * q) + 2 * q;
    assert fs * q == 16384 * fs - fs * decay;
  }
}
