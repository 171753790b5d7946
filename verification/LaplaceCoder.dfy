/**
  ec_laplace_encode and ec_laplace_decode up to their range-coder calls: each
  finds the share of a value, the one from the value and the other from a
  frequency in the share.
 */
module LaplaceCoder {
  import opened Powers
  import opened Laplace
  import opened LaplaceWindows

  /** Magnitudes within the decaying part are always representable. */
  lemma NearRepresentable(fs0: nat, decay: nat, v: int)
    requires ParametersOk(fs0, decay) && Abs(v) < Cutoff(fs0, decay)
    ensures Representable(fs0, decay, v)
  {
    hide FlAt, FsAt;
    TailAlwaysFits(fs0, decay);
    var n := Cutoff(fs0, decay);
    if v == 0 {
      ZeroFirst(fs0, decay, n);
    } else {
      FlAtMonotone(fs0, decay, Abs(v), n);
    }
  }

  /** LAPLACE_NMIN: sixteen deltas in either direction are coded as they are. */
  lemma GuaranteedDeltas(fs0: nat, decay: nat, v: int)
    requires ParametersOk(fs0, decay) && Abs(v) <= LAPLACE_NMIN
    ensures Representable(fs0, decay, v)
  {
    hide FlAt, FsAt;
    TailAlwaysFits(fs0, decay);
    var n := Cutoff(fs0, decay);
    if Abs(v) < n {
      NearRepresentable(fs0, decay, v);
    } else {
      DecayPotential(fs0, decay, n);
      MulLt(16384 - decay, FlAt(fs0, decay, n), LAPLACE_TOTAL - 32 + 2 * (n - 1) + 1);
    }
  }

  /**
    The search loop of ec_laplace_encode.  `coded` is the value itself when it
    has a place in the table, and otherwise the furthest value that has one.
   */
  method Encode(value: int, fs0: nat, decay: nat) returns (fl: nat, fh: nat, coded: int)
    requires ParametersOk(fs0, decay)
    ensures Share(fl, fh) == ShareOf(fs0, decay, coded) && fl < fh <= LAPLACE_TOTAL
    ensures Representable(fs0, decay, value) ==> coded == value
    ensures !Representable(fs0, decay, value) ==>
      && (coded < 0 <==> value < 0) && Abs(coded) < Abs(value)
      && !Representable(fs0, decay, if value < 0 then coded - 1 else coded + 1)
  {
    hide FlAt, FsAt, Decayed;
    TailAlwaysFits(fs0, decay);
    coded := value;
    if value == 0 {
      ZeroFirst(fs0, decay, Cutoff(fs0, decay));
      return 0, fs0, 0;
    }
    var s := if value < 0 then -1 else 0;
    var val := Abs(value);
    ghost var n := Cutoff(fs0, decay);
    var i, fs;
    i, fl, fs := EncodeSearch(val, fs0, decay);
    if fs == 0 {
      CutoffUnique(fs0, decay, i);
      var ndiMax := (LAPLACE_TOTAL - fl + LAPLACE_MINP - 1 - s) / 2;
      var di := if val - i < ndiMax - 1 then val - i else ndiMax - 1;
      fl := fl + (2 * di + 1 + s) * LAPLACE_MINP;
      fs := if LAPLACE_MINP < LAPLACE_TOTAL - fl then LAPLACE_MINP else LAPLACE_TOTAL - fl;
      coded := if value < 0 then -(i + di) else i + di;
    } else {
      NearRepresentable(fs0, decay, value);
      fs := fs + LAPLACE_MINP;
      fl := fl + if value < 0 then 0 else fs;
    }
    fh := fl + fs;
  }

  /** The value ec_laplace_encode reports back: the furthest representable one towards `v`. */
  function Nearest(fs0: nat, decay: nat, v: int): (r: int)
    requires ParametersOk(fs0, decay)
    ensures Representable(fs0, decay, r)
    decreases Abs(v)
  {
    if Representable(fs0, decay, v) then v
    else Nearest(fs0, decay, if v < 0 then v + 1 else v - 1)
  }

  lemma {:induction false} NearestIs(fs0: nat, decay: nat, v: int, coded: int)
    requires ParametersOk(fs0, decay) && Representable(fs0, decay, coded)
    requires v != coded ==>
      && (coded < 0 <==> v < 0) && Abs(coded) < Abs(v)
      && !Representable(fs0, decay, if v < 0 then coded - 1 else coded + 1)
    ensures Nearest(fs0, decay, v) == coded
    decreases Abs(v)
  {
    hide ShareOf;
    if v != coded {
      var beyond := if v < 0 then coded - 1 else coded + 1;
      if Abs(beyond) < Abs(v) {
        BlocksOrdered(fs0, decay, beyond, v);
        SharesDisjoint(fs0, decay, v, v + 1);
      }
      NearestIs(fs0, decay, if v < 0 then v + 1 else v - 1, coded);
    }
  }

  /** Walks out along the decaying shares to `val` or to the flat part. */
  method EncodeSearch(val: nat, fs0: nat, decay: nat) returns (i: nat, fl: nat, fs: nat)
    requires ParametersOk(fs0, decay) && val > 0
    ensures 1 <= i <= val && fl == FlAt(fs0, decay, i) && fs == FsAt(fs0, decay, i)
    ensures forall j :: 1 <= j < i ==> FsAt(fs0, decay, j) > 0
    ensures i < val ==> fs == 0
  {
    fl := fs0;
    fs := Freq1(fs0, decay);
    i := 1;
    while fs > 0 && i < val
      invariant 1 <= i <= val && fl == FlAt(fs0, decay, i) && fs == FsAt(fs0, decay, i)
      invariant forall j :: 1 <= j < i ==> FsAt(fs0, decay, j) > 0
      decreases val - i
    {
      var next := Decayed(fs, decay);
      fs := fs * 2;
      fl := fl + fs + 2 * LAPLACE_MINP;
      fs := next;
      i := i + 1;
    }
  }

  lemma {:induction false} CutoffFromUnique(fs0: nat, decay: nat, i: nat, n: nat)
    requires ParametersOk(fs0, decay) && 1 <= i <= n
    requires FsAt(fs0, decay, n) == 0 && forall j :: i <= j < n ==> FsAt(fs0, decay, j) > 0
    ensures CutoffFrom(fs0, decay, i) == n
    decreases n - i
  {
    if i < n {
      CutoffFromUnique(fs0, decay, i + 1, n);
    }
  }

  lemma CutoffUnique(fs0: nat, decay: nat, n: nat)
    requires ParametersOk(fs0, decay) && 1 <= n
    requires FsAt(fs0, decay, n) == 0 && forall j :: 1 <= j < n ==> FsAt(fs0, decay, j) > 0
    ensures Cutoff(fs0, decay) == n
  {
    CutoffFromUnique(fs0, decay, 1, n);
  }

  /**
    ec_laplace_decode after ec_decode_bin: the value whose share holds the
    frequency, for every frequency below 32768.
   */
  method Decode(fm: nat, fs0: nat, decay: nat) returns (val: int, fl: nat, fh: nat)
    requires ParametersOk(fs0, decay) && fm < LAPLACE_TOTAL
    ensures Share(fl, fh) == ShareOf(fs0, decay, val)
    ensures fl <= fm < fh <= LAPLACE_TOTAL
  {
    hide FlAt, FsAt, Decayed;
    TailAlwaysFits(fs0, decay);
    val, fl := 0, 0;
    var fs := fs0;
    if fm >= fs {
      val, fl, fs := DecodeSearch(fm, fs0, decay);
      ghost var k := val;
      if fs <= LAPLACE_MINP {
        CutoffUnique(fs0, decay, val);
        var di := (fm - fl) / 2;
        val := val + di;
        fl := fl + 2 * di * LAPLACE_MINP;
      } else {
        InsideDecay(fs0, decay, val);
      }
      if fm < fl + fs {
        val := -val;
      } else {
        fl := fl + fs;
      }
    } else {
      ZeroFirst(fs0, decay, Cutoff(fs0, decay));
    }
    fh := if fl + fs < LAPLACE_TOTAL then fl + fs else LAPLACE_TOTAL;
  }

  /** A magnitude with a decaying share lies before the cutoff and fits. */
  lemma InsideDecay(fs0: nat, decay: nat, k: nat)
    requires ParametersOk(fs0, decay) && k >= 1
    requires forall j :: 1 <= j <= k ==> FsAt(fs0, decay, j) > 0
    ensures k < Cutoff(fs0, decay)
    ensures FlAt(fs0, decay, k) + 2 * (FsAt(fs0, decay, k) + 1) <= LAPLACE_TOTAL - 2
  {
    hide FlAt, FsAt;
    TailAlwaysFits(fs0, decay);
    assert Cutoff(fs0, decay) > k;
    FlAtMonotone(fs0, decay, k, Cutoff(fs0, decay));
  }

  method DecodeSearch(fm: nat, fs0: nat, decay: nat) returns (val: nat, fl: nat, fs: nat)
    requires ParametersOk(fs0, decay) && fs0 <= fm < LAPLACE_TOTAL
    ensures val >= 1 && fl == FlAt(fs0, decay, val) <= fm && fs == FsAt(fs0, decay, val) + LAPLACE_MINP
    ensures forall j :: 1 <= j < val ==> FsAt(fs0, decay, j) > 0
    ensures fs > LAPLACE_MINP ==> fm < fl + 2 * fs
  {
    val, fl, fs := 1, fs0, Freq1(fs0, decay) + LAPLACE_MINP;
    while fs > LAPLACE_MINP && fm >= fl + 2 * fs
      invariant val >= 1 && fl == FlAt(fs0, decay, val) <= fm && fs == FsAt(fs0, decay, val) + LAPLACE_MINP
      invariant forall j :: 1 <= j < val ==> FsAt(fs0, decay, j) > 0
      decreases fs
    {
      var next := Decayed(fs - LAPLACE_MINP, decay);
      fs := fs * 2;
      fl := fl + fs;
      fs := next + LAPLACE_MINP;
      val := val + 1;
    }
  }
}
