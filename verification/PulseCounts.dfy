/**
  Counting pulse vectors (celt/cwrs.c): U(n, k) and V(n, k), and the index that
  enumerates the integer vectors of length n whose magnitudes sum to k.
 */
module PulseCounts {
  import opened Powers

  /** The meaning of the CELT_PVQ_U table. */
  function U(n: nat, k: nat): nat
  {
    if n == 0 then (if k == 0 then 1 else 0)
    else if k == 0 then 0
    else U(n - 1, k) + U(n, k - 1) + U(n - 1, k - 1)
  }

  /** CELT_PVQ_V: the number of vectors of length n with k pulses. */
  function V(n: nat, k: nat): nat
  {
    U(n, k) + U(n, k + 1)
  }

  /** The number of pulses in a vector. */
  function Pulses(y: seq<int>): nat
  {
    if y == [] then 0 else Abs(y[0]) + Pulses(y[1..])
  }

  function SumSquares(y: seq<int>): nat
  {
    if y == [] then 0 else y[0] * y[0] + SumSquares(y[1..])
  }

  /**
    The place of `y` in the enumeration: first by the sign of the first element,
    then by how many pulses are left after it, then by the rest.
   */
  function Index(y: seq<int>): nat
    requires |y| > 0
  {
    if |y| == 1 then (if y[0] < 0 then 1 else 0)
    else
      Index(y[1..]) + U(|y|, Pulses(y[1..])) + (if y[0] < 0 then U(|y|, Pulses(y) + 1) else 0)
  }

  lemma {:induction false} USymmetric(n: nat, k: nat)
    ensures U(n, k) == U(k, n)
    decreases n + k
  {
    if n > 0 && k > 0 {
      USymmetric(n - 1, k);
      USymmetric(n, k - 1);
      USymmetric(n - 1, k - 1);
    }
  }

  lemma {:induction false} UMonotone(n: nat, j: nat, k: nat)
    requires n > 0 && j <= k
    ensures U(n, j) <= U(n, k)
    decreases k - j
  {
    if j < k {
      UMonotone(n, j, k - 1);
    }
  }

  lemma {:induction false} UFirstRows(k: nat)
    requires k > 0
    ensures U(1, k) == 1 && U(2, k) == 2 * k - 1
  {
    if k > 1 {
      UFirstRows(k - 1);
    }
  }

  /** The vectors with exactly `k` pulses left are as many as U grows by. */
  lemma UGrows(n: nat, k: nat)
    requires n > 0
    ensures U(n, k + 1) == U(n, k) + V(n - 1, k)
  {
  }

  lemma {:induction false} UPositive(n: nat, k: nat)
    requires n > 0 && k > 0
    ensures U(n, k) > 0
    decreases n + k
  {
    if n == 1 {
      UFirstRows(k);
    } else {
      UPositive(n - 1, k);
    }
  }

  /** The index is below the number of vectors. */
  lemma {:induction false} IndexInRange(y: seq<int>)
    requires |y| > 0
    ensures Index(y) < V(|y|, Pulses(y))
    ensures |y| > 1 ==>
      Index(y[1..]) + U(|y|, Pulses(y[1..])) < U(|y|, Pulses(y[1..]) + 1) <= U(|y|, Pulses(y) + 1)
  {
    hide U;
    var n, k := |y|, Pulses(y);
    if n == 1 {
      assert y[1..] == [];
      UFirstRows(k + 1);
      if k > 0 {
        UFirstRows(k);
      }
    } else {
      var r := Pulses(y[1..]);
      IndexInRange(y[1..]);
      UGrows(n, r);
      UMonotone(n, r + 1, k + 1);
      if y[0] < 0 {
        UMonotone(n, r + 1, k);
      }
    }
  }

  /** The most pulses whose vectors all come at or before index `i`. */
  function PulsesLeft(n: nat, k: nat, i: nat): (r: nat)
    requires n > 0
    ensures r <= k && U(n, r) <= i && (r < k ==> i < U(n, r + 1))
  {
    if k == 0 || U(n, k) <= i then k else PulsesLeft(n, k - 1, i)
  }

  /** The index within the vectors whose first element is not negative. */
  function Folded(n: nat, k: nat, i: nat): nat
  {
    if i >= U(n, k + 1) then i - U(n, k + 1) else i
  }

  /** Pulses left after the first element of the vector at index `i`. */
  function Left(n: nat, k: nat, i: nat): (r: nat)
    requires n > 0
    ensures r <= k
  {
    PulsesLeft(n, k, Folded(n, k, i))
  }

  /** The first element of the vector at index `i`. */
  function HeadAt(n: nat, k: nat, i: nat): int
    requires n > 0
  {
    if i >= U(n, k + 1) then Left(n, k, i) - k else k - Left(n, k, i)
  }

  /** The vector at index `i` among those of length n with k pulses. */
  function VectorAt(n: nat, k: nat, i: nat): (y: seq<int>)
    requires n > 0 && i < V(n, k)
    ensures |y| == n
  {
    if n == 1 then (if i == 0 then [k] else [-(k as int)])
    else
      HeadFits(n, k, i);
      [HeadAt(n, k, i)] + VectorAt(n - 1, Left(n, k, i), Folded(n, k, i) - U(n, Left(n, k, i)))
  }

  lemma HeadFits(n: nat, k: nat, i: nat)
    requires n > 1 && i < V(n, k)
    ensures U(n, Left(n, k, i)) <= Folded(n, k, i) < U(n, Left(n, k, i)) + V(n - 1, Left(n, k, i))
    ensures HeadAt(n, k, i) < 0 <==> i >= U(n, k + 1)
    ensures Abs(HeadAt(n, k, i)) + Left(n, k, i) == k
  {
    hide U;
    UGrows(n, Left(n, k, i));
  }

  lemma IndexCons(head: int, rest: seq<int>)
    requires |rest| > 0
    ensures Pulses([head] + rest) == Abs(head) + Pulses(rest)
    ensures Index([head] + rest) == Index(rest) + U(|rest| + 1, Pulses(rest))
      + (if head < 0 then U(|rest| + 1, Abs(head) + Pulses(rest) + 1) else 0)
  {
    hide U, Abs;
    var y := [head] + rest;
    assert y[1..] == rest && y[0] == head && |y| == |rest| + 1;
    assert Pulses(y) == Abs(y[0]) + Pulses(y[1..]);
  }

  /** Every index names a vector with the right number of pulses, and is its index. */
  lemma {:induction false} IndexOfVector(n: nat, k: nat, i: nat)
    requires n > 0 && i < V(n, k)
    ensures Pulses(VectorAt(n, k, i)) == k && Index(VectorAt(n, k, i)) == i
  {
    if n == 1 {
      OneVector(k, i);
    } else {
      hide U, V, Left, Pulses, Index, Abs, HeadAt, Folded, VectorAt;
      HeadFits(n, k, i);
      IndexOfVector(n - 1, Left(n, k, i), Folded(n, k, i) - U(n, Left(n, k, i)));
      VectorUnfolds(n, k, i);
      IndexOfHead(n, k, i, VectorAt(n - 1, Left(n, k, i), Folded(n, k, i) - U(n, Left(n, k, i))));
    }
  }

  /** The head's share of the index, on top of that of the rest. */
  lemma IndexOfHead(n: nat, k: nat, i: nat, rest: seq<int>)
    requires n > 1 && i < V(n, k) && |rest| + 1 == n
    requires Pulses(rest) == Left(n, k, i) && Index(rest) == Folded(n, k, i) - U(n, Left(n, k, i))
    ensures Pulses([HeadAt(n, k, i)] + rest) == k && Index([HeadAt(n, k, i)] + rest) == i
  {
    hide U, V, Left, Pulses, Index, Abs, HeadAt, Folded;
    HeadFits(n, k, i);
    IndexCons(HeadAt(n, k, i), rest);
    FoldedIs(n, k, i);
  }

  lemma VectorUnfolds(n: nat, k: nat, i: nat)
    requires n > 1 && i < V(n, k)
    ensures U(n, Left(n, k, i)) <= Folded(n, k, i) < U(n, Left(n, k, i)) + V(n - 1, Left(n, k, i))
    ensures VectorAt(n, k, i) ==
      [HeadAt(n, k, i)] + VectorAt(n - 1, Left(n, k, i), Folded(n, k, i) - U(n, Left(n, k, i)))
  {
    hide U, V, Left, HeadAt, Folded;
    HeadFits(n, k, i);
  }

  lemma FoldedIs(n: nat, k: nat, i: nat)
    ensures i == Folded(n, k, i) + (if i >= U(n, k + 1) then U(n, k + 1) else 0)
  {
  }

  lemma OneVector(k: nat, i: nat)
    requires i < V(1, k)
    ensures Pulses(VectorAt(1, k, i)) == k && Index(VectorAt(1, k, i)) == i
  {
    UFirstRows(k + 1);
    if k > 0 {
      UFirstRows(k);
    }
    hide U;
    assert VectorAt(1, k, i)[1..] == [];
  }

  lemma PulsesLeftUnique(n: nat, k: nat, i: nat, r: nat)
    requires n > 0 && r <= k && U(n, r) <= i && (r < k ==> i < U(n, r + 1))
    ensures PulsesLeft(n, k, i) == r
  {
    hide U;
    var l := PulsesLeft(n, k, i);
    if l < r {
      UMonotone(n, l + 1, r);
    } else if r < l {
      UMonotone(n, r + 1, l);
    }
  }

  /** Every vector is the one its index names. */
  lemma {:induction false} VectorOfIndex(y: seq<int>)
    requires |y| > 0
    ensures Index(y) < V(|y|, Pulses(y))
    ensures VectorAt(|y|, Pulses(y), Index(y)) == y
  {
    hide U, V, Left, Index, HeadAt, Folded, Abs, VectorAt, Pulses;
    IndexInRange(y);
    PulsesFirst(y);
    assert y == [y[0]] + y[1..];
    if |y| == 1 {
      assert y == [y[0]];
      SingleElement(y[0]);
    } else {
      VectorOfIndex(y[1..]);
      HeadOfIndex(y[0], y[1..]);
      VectorUnfolds(|y|, Pulses(y), Index(y));
    }
  }

  lemma PulsesFirst(y: seq<int>)
    requires y != []
    ensures Pulses(y) == Abs(y[0]) + Pulses(y[1..])
  {
  }

  lemma SingleElement(x: int)
    ensures Index([x]) < V(1, Pulses([x])) && VectorAt(1, Pulses([x]), Index([x])) == [x]
  {
    IndexInRange([x]);
    hide U;
    assert [x][1..] == [];
  }

  lemma HeadOfIndex(head: int, rest: seq<int>)
    requires |rest| > 0
    ensures var n, r := |rest| + 1, Pulses(rest);
      var k, i := Abs(head) + r, Index([head] + rest);
      && HeadAt(n, k, i) == head && Left(n, k, i) == r && Folded(n, k, i) == Index(rest) + U(n, r)
  {
    hide U, V, Index, Pulses, PulsesLeft;
    var y, n, r := [head] + rest, |rest| + 1, Pulses(rest);
    var k := Abs(head) + r;
    IndexCons(head, rest);
    IndexInRange(y);
    assert y[1..] == rest;
    if head < 0 {
      RowsRise(n, r + 1, k);
    }
    PulsesLeftUnique(n, k, Index(rest) + U(n, r), r);
  }

  lemma RowsRise(n: nat, j: nat, k: nat)
    requires n > 0 && j <= k
    ensures U(n, j) <= U(n, k)
  {
    UMonotone(n, j, k);
  }

  lemma SuffixStep(y: seq<int>, j: nat)
    requires j + 1 < |y|
    ensures Pulses(y[j..]) == Abs(y[j]) + Pulses(y[j + 1..])
    ensures Index(y[j..]) == Index(y[j + 1..]) + U(|y| - j, Pulses(y[j + 1..]))
      + (if y[j] < 0 then U(|y| - j, Pulses(y[j..]) + 1) else 0)
  {
    hide U, Index, Pulses, Abs;
    assert y[j..] == [y[j]] + y[j + 1..];
    IndexCons(y[j], y[j + 1..]);
  }

  lemma LastElement(x: int)
    ensures Pulses([x]) == Abs(x) && Index([x]) == if x < 0 then 1 else 0
  {
    assert [x][1..] == [];
  }

  lemma SquareStep(y: seq<int>, at: nat)
    requires at < |y|
    ensures SumSquares(y[at..]) == y[at] * y[at] + SumSquares(y[at + 1..])
    ensures y[at..][1..] == y[at + 1..]
  {
  }

  lemma NoSquares(y: seq<int>, n: nat)
    requires |y| == n
    ensures SumSquares(y[n..]) == 0
  {
  }

  /** Heads in the order of the enumeration: k, k - 1, ..., 0, then -k, ..., -1. */
  predicate HeadBefore(a: int, b: int)
  {
    if (a < 0) == (b < 0) then Abs(a) > Abs(b) else a >= 0
  }

  predicate Before(x: seq<int>, y: seq<int>)
    requires |x| == |y|
  {
    x != [] && if x[0] == y[0] then Before(x[1..], y[1..]) else HeadBefore(x[0], y[0])
  }

  lemma HeadDecides(x: seq<int>, y: seq<int>)
    requires |x| == |y| > 0 && Pulses(x) == Pulses(y) && HeadBefore(x[0], y[0])
    ensures Index(x) < Index(y)
  {
    hide U, Pulses, Index;
    PulsesFirst(x);
    PulsesFirst(y);
    if |x| == 1 {
      assert x == [x[0]] && y == [y[0]];
      LastElement(x[0]);
      LastElement(y[0]);
    } else {
      assert x == [x[0]] + x[1..] && y == [y[0]] + y[1..];
      IndexCons(x[0], x[1..]);
      IndexCons(y[0], y[1..]);
      IndexInRange(x);
      if Abs(x[0]) > Abs(y[0]) {
        UMonotone(|x|, Pulses(x[1..]) + 1, Pulses(y[1..]));
      }
    }
  }

  /** The enumeration is in lexicographic order. */
  lemma {:induction false} IndexOrdered(x: seq<int>, y: seq<int>)
    requires |x| == |y| > 0 && Pulses(x) == Pulses(y)
    ensures Index(x) < Index(y) <==> Before(x, y)
    decreases |x|
  {
    hide U, Pulses, Index;
    PulsesFirst(x);
    PulsesFirst(y);
    if x[0] == y[0] && |x| == 1 {
      assert x == y;
    } else if x[0] == y[0] {
      assert x == [x[0]] + x[1..] && y == [y[0]] + y[1..];
      IndexCons(x[0], x[1..]);
      IndexCons(y[0], y[1..]);
      IndexOrdered(x[1..], y[1..]);
    } else if HeadBefore(x[0], y[0]) {
      HeadDecides(x, y);
    } else {
      LastPulses(x, y);
      HeadDecides(y, x);
    }
  }

  /** Different heads of one size differ in sign. */
  lemma LastPulses(x: seq<int>, y: seq<int>)
    requires |x| == |y| > 0 && x[0] != y[0] && !HeadBefore(x[0], y[0])
    ensures HeadBefore(y[0], x[0])
  {
  }
}
