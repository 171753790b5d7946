/**
  The small-footprint half of celt/cwrs.c: one row of U kept in an array and
  stepped in place to the next or the previous row.  It enumerates the same
  vectors in the same order as the table-driven half.
 */
module PulseRows {
  import opened Powers
  import opened PulseCounts

  /** Entries from .. to - 1 of `u` are those of row `n` of U. */
  predicate HoldsRow(u: seq<int>, from: nat, to: nat, n: nat)
  {
    to <= |u| && forall j :: from <= j < to ==> u[j] == U(n, j)
  }

  lemma Recurrence(n: nat, k: nat)
    requires n > 0 && k > 0
    ensures U(n, k) == U(n - 1, k) + U(n, k - 1) + U(n - 1, k - 1)
  {
  }

  /** unext, on the part of `u` that starts at `off`: steps to the next row, in place. */
  method Unext(u: array<int>, off: nat, len: nat, ui0: int, ghost n: nat)
    requires len >= 2 && HoldsRow(u[..], off, off + len, n) && ui0 == U(n + 1, off)
    modifies u
    ensures HoldsRow(u[..], off, off + len, n + 1)
    ensures forall j :: 0 <= j < u.Length && !(off <= j < off + len) ==> u[j] == old(u[j])
  {
    hide U;
    var carried, j := ui0, 1;
    while j < len
      invariant 1 <= j <= len && carried == U(n + 1, off + j - 1)
      invariant forall i :: off <= i < off + j - 1 ==> u[i] == U(n + 1, i)
      invariant forall i :: off + j - 1 <= i < off + len ==> u[i] == U(n, i)
      invariant forall i :: 0 <= i < u.Length && !(off <= i < off + len) ==> u[i] == old(u[i])
    {
      Recurrence(n + 1, off + j);
      var ui1 := u[off + j] + u[off + j - 1] + carried;
      u[off + j - 1] := carried;
      carried := ui1;
      j := j + 1;
    }
    u[off + j - 1] := carried;
  }

  /** uprev: turns a row of U back into the previous one, in place. */
  method Uprev(u: array<int>, len: nat, ui0: int, ghost n: nat)
    requires len >= 2 && n > 0 && HoldsRow(u[..], 0, len, n)
    modifies u
    ensures ui0 == U(n - 1, 0) ==> HoldsRow(u[..], 0, len, n - 1)
    ensures forall j :: len <= j < u.Length ==> u[j] == old(u[j])
  {
    hide U;
    var carried, j := ui0, 1;
    while j < len
      invariant 1 <= j <= len && (ui0 == U(n - 1, 0) ==> carried == U(n - 1, j - 1))
      invariant ui0 == U(n - 1, 0) ==> forall i :: 0 <= i < j - 1 ==> u[i] == U(n - 1, i)
      invariant forall i :: j - 1 <= i < len ==> u[i] == U(n, i)
      invariant forall i :: len <= i < u.Length ==> u[i] == old(u[i])
    {
      Recurrence(n, j);
      var ui1 := u[j] - u[j - 1] - carried;
      u[j - 1] := carried;
      carried := ui1;
      j := j + 1;
    }
    u[j - 1] := carried;
  }

  /** ncwrs_urow: fills the array with row `n` of U and counts the vectors. */
  method NcwrsUrow(n: nat, k: nat, u: array<int>) returns (count: int)
    requires n >= 2 && k > 0 && u.Length >= k + 2
    modifies u
    ensures HoldsRow(u[..], 0, k + 2, n) && count == V(n, k)
  {
    hide U;
    FirstColumns(2);
    u[0], u[1] := 0, 1;
    var i := 2;
    while i < k + 2
      invariant 2 <= i <= k + 2
      invariant forall j :: 0 <= j < i ==> u[j] == U(2, j)
    {
      UFirstRows(i);
      u[i] := 2 * i - 1;
      i := i + 1;
    }
    var m := 2;
    while m < n
      invariant 2 <= m <= n
      invariant HoldsRow(u[..], 0, k + 2, m)
    {
      FirstColumns(m);
      FirstColumns(m + 1);
      Unext(u, 1, k + 1, 1, m);
      m := m + 1;
    }
    count := u[k] + u[k + 1];
  }

  lemma FirstColumns(n: nat)
    requires n > 0
    ensures U(n, 0) == 0 && U(n, 1) == 1
  {
    USymmetric(n, 1);
    UFirstRows(n);
  }

  /** The row-stepping icwrs: the index of a vector and the number of vectors. */
  method IcwrsRows(y: seq<int>, k0: nat, u: array<int>) returns (i: int, nc: int)
    requires |y| >= 2 && k0 == Pulses(y) && k0 > 0 && u.Length >= k0 + 2
    modifies u
    ensures i == Index(y) && nc == V(|y|, k0)
  {
    hide U, V, Index, Pulses, Abs;
    var n := |y|;
    FillSecondRow(k0, u);
    var k := Abs(y[n - 1]);
    i := if y[n - 1] < 0 then 1 else 0;
    assert y[n - 1..] == [y[n - 1]];
    LastElement(y[n - 1]);
    var j := n - 2;
    SuffixPulses(y, j);
    SuffixStep(y, j);
    i := i + u[k];
    k := k + Abs(y[j]);
    if y[j] < 0 {
      i := i + u[k + 1];
    }
    while j > 0
      invariant 0 <= j <= n - 2
      invariant i == Index(y[j..]) && k == Pulses(y[j..]) <= k0
      invariant HoldsRow(u[..], 0, k0 + 2, n - j)
    {
      j := j - 1;
      SuffixPulses(y, j);
      SuffixStep(y, j);
      FirstColumns(n - j);
      Unext(u, 0, k0 + 2, 0, n - j - 1);
      i := i + u[k];
      k := k + Abs(y[j]);
      if y[j] < 0 {
        i := i + u[k + 1];
      }
    }
    assert y[0..] == y;
    nc := u[k] + u[k + 1];
    VIs(n, k);
  }

  lemma VIs(n: nat, k: nat)
    ensures V(n, k) == U(n, k) + U(n, k + 1)
  {
  }

  method FillSecondRow(k0: nat, u: array<int>)
    requires u.Length >= k0 + 2
    modifies u
    ensures HoldsRow(u[..], 0, k0 + 2, 2)
  {
    hide U;
    FirstColumns(2);
    u[0] := 0;
    var k := 1;
    while k <= k0 + 1
      invariant 1 <= k <= k0 + 2
      invariant forall j :: 0 <= j < k ==> u[j] == U(2, j)
    {
      UFirstRows(k);
      u[k] := 2 * k - 1;
      k := k + 1;
    }
  }

  lemma {:induction false} SuffixPulses(y: seq<int>, j: nat)
    requires j <= |y|
    ensures Pulses(y[j..]) <= Pulses(y)
  {
    if j > 0 {
      SuffixPulses(y, j - 1);
      assert y[j - 1..] == [y[j - 1]] + y[j..];
    } else {
      assert y[0..] == y;
    }
  }

  /** One turn of the row-stepping cwrsi. */
  method RowElement(n: nat, k0: nat, i0: nat, u: array<int>) returns (val: int, k: nat, i: nat)
    requires n > 0 && i0 < V(n, k0) && HoldsRow(u[..], 0, k0 + 2, n)
    modifies u
    ensures val == HeadAt(n, k0, i0) && k == Left(n, k0, i0)
    ensures U(n, k) <= Folded(n, k0, i0) && i == Folded(n, k0, i0) - U(n, k)
    ensures n > 1 ==> HoldsRow(u[..], 0, k + 2, n - 1)
  {
    hide U, V, PulsesLeft;
    var p := u[k0 + 1];
    var s := if i0 >= p then -1 else 0;
    i := if s == 0 then i0 else i0 - p;
    k := k0;
    FirstColumns(n);
    while u[k] > i
      invariant k <= k0 && (k < k0 ==> i < U(n, k + 1))
      decreases k
    {
      k := k - 1;
    }
    PulsesLeftUnique(n, k0, i, k);
    i := i - u[k];
    val := if s == 0 then k0 - k else k - k0;
    if n > 1 {
      FirstColumns(n - 1);
    }
    Uprev(u, k + 2, 0, n);
  }

  /** The row-stepping cwrsi: the same vector and the same sum of squares. */
  method CwrsiRows(n0: nat, k0: nat, i0: nat, y: array<int>, u: array<int>) returns (yy: nat)
    requires n0 > 0 && i0 < V(n0, k0) && y.Length >= n0 && y != u
    requires HoldsRow(u[..], 0, k0 + 2, n0)
    modifies y, u
    ensures y[..n0] == VectorAt(n0, k0, i0)
    ensures yy == SumSquares(VectorAt(n0, k0, i0))
  {
    hide U, V, Left, HeadAt, Folded, SumSquares, VectorAt, Pulses;
    ghost var whole := VectorAt(n0, k0, i0);
    var j: nat, k: nat, i: nat := 0, k0, i0;
    yy := 0;
    while j < n0
      invariant 0 <= j <= n0
      invariant j < n0 ==> i < V(n0 - j, k) && HoldsRow(u[..], 0, k + 2, n0 - j)
      invariant j < n0 ==> whole[j..] == VectorAt(n0 - j, k, i)
      invariant y[..j] == whole[..j]
      invariant yy + SumSquares(whole[j..]) == SumSquares(whole)
    {
      ghost var n, k1, i1 := n0 - j, k, i;
      if n > 1 {
        VectorUnfolds(n, k, i);
      } else {
        LastUnfolds(k, i);
      }
      var val;
      val, k, i := RowElement(n0 - j, k, i, u);
      SquareStep(whole, j);
      assert whole[j] == val by {
        assert whole[j] == VectorAt(n, k1, i1)[0];
      }
      y[j] := val;
      assert y[..j + 1] == y[..j] + [val];
      yy := yy + val * val;
      j := j + 1;
    }
    NoSquares(whole, n0);
  }

  lemma LastUnfolds(k: nat, i: nat)
    requires i < V(1, k)
    ensures VectorAt(1, k, i) == [HeadAt(1, k, i)]
  {
    hide U, V, PulsesLeft;
    UFirstRows(k + 1);
    FirstColumns(1);
    OneIndex(k, i);
    PulsesLeftUnique(1, k, 0, 0);
    assert Folded(1, k, i) == 0;
  }

  lemma OneIndex(k: nat, i: nat)
    requires i < V(1, k)
    ensures i <= 1 && (k == 0 ==> i == 0)
    ensures k > 0 ==> U(1, 1) == 1
  {
    UFirstRows(k + 1);
    if k > 0 {
      UFirstRows(k);
    }
  }

}
