/**
  icwrs and cwrsi of celt/cwrs.c, reading U from the table: the index of a pulse
  vector in one pass from its end, and the vector of an index with the searches
  for many pulses, for many dimensions, and the closed forms for the last two.
 */
module PulseCoder {
  import opened Powers
  import opened PulseCounts

  /** CELT_PVQ_U: the table is stored for n <= k only. */
  function TableU(n: nat, k: nat): (u: nat)
    ensures u == U(n, k) == U(k, n)
  {
    USymmetric(n, k);
    if n <= k then U(n, k) else U(k, n)
  }

  /** icwrs */
  method Icwrs(y: seq<int>) returns (i: nat)
    requires |y| >= 2
    ensures i == Index(y)
    ensures i < V(|y|, Pulses(y))
  {
    hide U, V, Index, Pulses;
    var n := |y|;
    var j := n - 1;
    i := if y[j] < 0 then 1 else 0;
    var k := Abs(y[j]);
    LastElement(y[j]);
    assert y[j..] == [y[j]];
    while j > 0
      invariant 0 <= j < n
      invariant i == Index(y[j..]) && k == Pulses(y[j..])
    {
      j := j - 1;
      SuffixStep(y, j);
      i := i + TableU(n - j, k);
      k := k + Abs(y[j]);
      if y[j] < 0 {
        i := i + TableU(n - j, k + 1);
      }
    }
    assert y[0..] == y;
    IndexInRange(y);
  }

  /** The search of cwrsi when there are at least as many pulses as dimensions. */
  method SearchManyPulses(n: nat, k0: nat, i: nat) returns (k: nat, p: nat)
    requires n > 0 && k0 >= n
    ensures k == PulsesLeft(n, k0, i) && p == U(n, k)
  {
    hide U;
    var q := TableU(n, n);
    k := k0;
    UAtZero(n);
    if q > i {
      k := n - 1;
      p := TableU(k, n);
      while p > i
        invariant k < n && p == U(n, k) && i < U(n, k + 1)
        decreases k
      {
        k := k - 1;
        p := TableU(k, n);
      }
    } else {
      p := TableU(n, k);
      while p > i
        invariant n <= k <= k0 && p == U(n, k) && (k < k0 ==> i < U(n, k + 1))
        decreases k
      {
        k := k - 1;
        p := TableU(n, k);
      }
    }
    PulsesLeftUnique(n, k0, i, k);
  }

  lemma UAtZero(n: nat)
    requires n > 0
    ensures U(n, 0) == 0
  {
  }

  /** One element of the vector, for n > 2. */
  method NextElement(n: nat, k0: nat, i0: nat) returns (val: int, k: nat, i: nat)
    requires n > 2 && i0 < V(n, k0)
    ensures val == HeadAt(n, k0, i0) && k == Left(n, k0, i0)
    ensures U(n, k) <= Folded(n, k0, i0) && i == Folded(n, k0, i0) - U(n, k)
  {
    hide U, V, PulsesLeft;
    HeadFits(n, k0, i0);
    i := i0;
    var p;
    if k0 >= n {
      p := TableU(n, k0 + 1);
      var s := if i >= p then -1 else 0;
      i := if s == 0 then i else i - p;
      k, p := SearchManyPulses(n, k0, i);
      i := i - p;
      val := if s == 0 then k0 - k else k - k0;
    } else {
      p := TableU(k0, n);
      var q := TableU(k0 + 1, n);
      if p <= i < q {
        PulsesLeftUnique(n, k0, i, k0);
        i := i - p;
        val, k := 0, k0;
      } else {
        var s := if i >= q then -1 else 0;
        i := if s == 0 then i else i - q;
        FewerPulses(n, k0, i0);
        k, p := SearchManyDimensions(n, k0, i);
        i := i - p;
        val := if s == 0 then k0 - k else k - k0;
      }
    }
  }

  /** A nonzero first element leaves fewer pulses. */
  lemma FewerPulses(n: nat, k: nat, i: nat)
    requires n > 2 && i < V(n, k) && !(U(n, k) <= i < U(n, k + 1))
    ensures k > 0 && Folded(n, k, i) < U(n, k)
  {
    hide PulsesLeft;
    UMonotone(n, k, k + 1);
  }

  method SearchManyDimensions(n: nat, k0: nat, i: nat) returns (k: nat, p: nat)
    requires 0 < k0 < n && i < U(n, k0)
    ensures k == PulsesLeft(n, k0, i) && p == U(n, k)
  {
    hide U;
    UAtZero(n);
    k := k0 - 1;
    p := TableU(k, n);
    while p > i
      invariant k < k0 && p == U(n, k) && i < U(n, k + 1)
      decreases k
    {
      k := k - 1;
      p := TableU(k, n);
    }
    PulsesLeftUnique(n, k0, i, k);
  }

  /** The last two elements, where U(2, k) is 2k - 1. */
  method LastTwo(k0: nat, i0: nat) returns (first: int, second: int)
    requires i0 < V(2, k0)
    ensures [first, second] == VectorAt(2, k0, i0)
  {
    hide PulsesLeft;
    UFirstRows(k0 + 1);
    HeadFits(2, k0, i0);
    var p := 2 * k0 + 1;
    var s := if i0 >= p then -1 else 0;
    var i := if s == 0 then i0 else i0 - p;
    var k := (i + 1) / 2;
    HalfLeft(k0, i);
    if k > 0 {
      i := i - (2 * k - 1);
    }
    first := if s == 0 then k0 - k else k - k0;
    second := if i == 0 then k else -k;
    assert VectorAt(2, k0, i0) == [HeadAt(2, k0, i0)] + VectorAt(1, k, i);
  }

  lemma HalfLeft(k: nat, i: nat)
    requires i < U(2, k + 1)
    ensures PulsesLeft(2, k, i) == (i + 1) / 2
    ensures U(2, (i + 1) / 2) == if (i + 1) / 2 == 0 then 0 else 2 * ((i + 1) / 2) - 1
  {
    var r := (i + 1) / 2;
    UFirstRows(k + 1);
    UFirstRows(r + 1);
    if r > 0 {
      UFirstRows(r);
    } else {
      UAtZero(2);
    }
    PulsesLeftUnique(2, k, i, r);
  }

  /** cwrsi: writes the vector at index `i` and returns the sum of its squares. */
  method Cwrsi(n0: nat, k0: nat, i0: nat, y: array<int>) returns (yy: nat)
    requires n0 > 1 && k0 > 0 && i0 < V(n0, k0) && y.Length >= n0
    modifies y
    ensures y[..n0] == VectorAt(n0, k0, i0)
    ensures y[n0..] == old(y[n0..])
    ensures yy == SumSquares(VectorAt(n0, k0, i0))
  {
    hide U, V, Left, HeadAt, Folded, SumSquares, VectorAt;
    var n: nat, k: nat, i: nat := n0, k0, i0;
    ghost var whole := VectorAt(n0, k0, i0);
    var at := 0;
    yy := 0;
    while n > 2
      invariant 2 <= n == n0 - at && i < V(n, k)
      invariant y[..at] == whole[..at] && whole[at..] == VectorAt(n, k, i)
      invariant y[n0..] == old(y[n0..])
      invariant yy + SumSquares(whole[at..]) == SumSquares(whole)
    {
      VectorUnfolds(n, k, i);
      var val;
      val, k, i := NextElement(n, k, i);
      SquareStep(whole, at);
      assert whole[at..] == [val] + VectorAt(n - 1, k, i);
      y[at] := val;
      assert y[..at + 1] == y[..at] + [val];
      yy := yy + val * val;
      at, n := at + 1, n - 1;
    }
    var first, second := LastTwo(k, i);
    y[at], y[at + 1] := first, second;
    assert whole[at..] == [first, second];
    assert y[..n0] == y[..at] + [first, second];
    SquareStep(whole, at);
    SquareStep(whole, at + 1);
    yy := yy + first * first;
    yy := yy + second * second;
    NoSquares(whole, n0);
  }

}
