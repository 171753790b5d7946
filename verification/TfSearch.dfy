/**
  The Viterbi search of tf_analysis (celt/celt_encoder.c): over all sequences of
  time-frequency flags, the one whose changes and mismatches cost least.
 */
module TfSearch {
  import opened Powers
  import opened TfCoding

  /** The measured resolutions (in Q1) and the prices the search trades off. */
  datatype Prices = Prices(metric: seq<int>, lambda: int, transient: bool, lm: nat)

  predicate PricesOk(c: Prices)
  {
    |c.metric| > 0 && c.lm < 4
  }

  predicate Path(p: seq<int>, n: nat)
  {
    |p| == n && Flags(p)
  }

  /** How far flag `b` at band `i` is from the measured resolution. */
  function Mismatch(c: Prices, sel: nat, i: nat, b: nat): nat
    requires PricesOk(c) && sel < 2 && b < 2 && i < |c.metric|
  {
    Abs(c.metric[i] - 2 * TfSelect(c.lm, Column(c.transient, sel, b)))
  }

  function StartCost(c: Prices, b: int): int
  {
    if b == 0 || c.transient then 0 else c.lambda
  }

  /** What a sequence of flags costs: its start, each change, and each mismatch past the first band. */
  function Cost(c: Prices, sel: nat, p: seq<int>): int
    requires PricesOk(c) && sel < 2 && 0 < |p| <= |c.metric| && Flags(p)
  {
    var n := |p| - 1;
    if n == 0 then StartCost(c, p[0])
    else Cost(c, sel, p[..n]) + (if p[n] != p[n - 1] then c.lambda else 0) + Mismatch(c, sel, n, p[n])
  }

  /** The cheapest way to have flag `b` at band `i`. */
  function Best(c: Prices, sel: nat, i: nat, b: nat): int
    requires PricesOk(c) && sel < 2 && i < |c.metric| && b < 2
  {
    if i == 0 then StartCost(c, b)
    else Min(Best(c, sel, i - 1, b), Best(c, sel, i - 1, 1 - b) + c.lambda) + Mismatch(c, sel, i, b)
  }

  /** The predecessor the forward pass records for flag `b` at band `i`. */
  function From(c: Prices, sel: nat, i: nat, b: nat): (r: nat)
    requires PricesOk(c) && sel < 2 && 0 < i < |c.metric| && b < 2
    ensures r < 2
  {
    var from0 := Best(c, sel, i - 1, 0) + if b == 0 then 0 else c.lambda;
    var from1 := Best(c, sel, i - 1, 1) + if b == 0 then c.lambda else 0;
    if from0 < from1 then 0 else 1
  }

  /** The flags the backward pass reads off, up to flag `b` at band `i`. */
  function Trace(c: Prices, sel: nat, i: nat, b: nat): (p: seq<int>)
    requires PricesOk(c) && sel < 2 && i < |c.metric| && b < 2
    ensures Path(p, i + 1) && p[i] == b
  {
    if i == 0 then [b] else Trace(c, sel, i - 1, From(c, sel, i, b)) + [b]
  }

  lemma CostExtends(c: Prices, sel: nat, p: seq<int>, b: nat)
    requires PricesOk(c) && sel < 2 && 0 < |p| < |c.metric| && Flags(p) && b < 2
    ensures Cost(c, sel, p + [b])
         == Cost(c, sel, p) + (if b != p[|p| - 1] then c.lambda else 0) + Mismatch(c, sel, |p|, b)
  {
    hide Mismatch;
    assert (p + [b])[..|p|] == p;
  }

  lemma BestVia(c: Prices, sel: nat, i: nat, b: nat)
    requires PricesOk(c) && sel < 2 && 0 < i < |c.metric| && b < 2
    ensures var p := From(c, sel, i, b);
      Best(c, sel, i, b) == Best(c, sel, i - 1, p) + (if b != p then c.lambda else 0) + Mismatch(c, sel, i, b)
  {
    hide Mismatch;
  }

  lemma {:induction false} TraceCosts(c: Prices, sel: nat, i: nat, b: nat)
    requires PricesOk(c) && sel < 2 && i < |c.metric| && b < 2
    ensures Cost(c, sel, Trace(c, sel, i, b)) == Best(c, sel, i, b)
  {
    hide Mismatch, Cost, Best, From;
    if i == 0 {
      TraceStarts(c, sel, b);
    } else {
      var p := From(c, sel, i, b);
      TraceCosts(c, sel, i - 1, p);
      CostExtends(c, sel, Trace(c, sel, i - 1, p), b);
      BestVia(c, sel, i, b);
    }
  }

  lemma TraceStarts(c: Prices, sel: nat, b: nat)
    requires PricesOk(c) && sel < 2 && b < 2
    ensures Cost(c, sel, Trace(c, sel, 0, b)) == Best(c, sel, 0, b)
  {
  }

  lemma {:induction false} NoneCheaper(c: Prices, sel: nat, p: seq<int>)
    requires PricesOk(c) && sel < 2 && 0 < |p| <= |c.metric| && Flags(p)
    ensures Best(c, sel, |p| - 1, p[|p| - 1]) <= Cost(c, sel, p)
  {
    hide Mismatch;
    if |p| > 1 {
      NoneCheaper(c, sel, p[..|p| - 1]);
    }
  }

  function Cheapest(c: Prices, sel: nat): int
    requires PricesOk(c) && sel < 2
  {
    Min(Best(c, sel, |c.metric| - 1, 0), Best(c, sel, |c.metric| - 1, 1))
  }

  /** The flags the search settles on. */
  function Chosen(c: Prices, sel: nat): (p: seq<int>)
    requires PricesOk(c) && sel < 2
    ensures Path(p, |c.metric|)
  {
    var n := |c.metric| - 1;
    Trace(c, sel, n, if Best(c, sel, n, 0) < Best(c, sel, n, 1) then 0 else 1)
  }

  /** The dynamic programme finds the minimum over all binary paths, and a path that has it. */
  lemma Optimal(c: Prices, sel: nat, p: seq<int>)
    requires PricesOk(c) && sel < 2 && Path(p, |c.metric|)
    ensures Cost(c, sel, Chosen(c, sel)) == Cheapest(c, sel) <= Cost(c, sel, p)
  {
    hide Best, Cost, Trace;
    var n := |c.metric| - 1;
    NoneCheaper(c, sel, p);
    TraceCosts(c, sel, n, if Best(c, sel, n, 0) < Best(c, sel, n, 1) then 0 else 1);
  }

  lemma {:induction false} TraceAt(c: Prices, sel: nat, i: nat, b: nat, k: nat)
    requires PricesOk(c) && sel < 2 && i < |c.metric| && b < 2 && k < i
    ensures Trace(c, sel, i, b)[k] == From(c, sel, k + 1, Trace(c, sel, i, b)[k + 1])
    decreases i
  {
    hide From;
    if k < i - 1 {
      TraceAt(c, sel, i - 1, From(c, sel, i, b), k);
    }
  }

  /** The cost pass for one setting of tf_select. */
  method SelectCost(c: Prices, sel: nat) returns (cost: int)
    requires PricesOk(c) && sel < 2
    ensures cost == Cheapest(c, sel)
  {
    hide Mismatch;
    var cost0, cost1 := 0, if c.transient then 0 else c.lambda;
    for i := 1 to |c.metric|
      invariant cost0 == Best(c, sel, i - 1, 0) && cost1 == Best(c, sel, i - 1, 1)
    {
      var curr0, curr1 := Min(cost0, cost1 + c.lambda), Min(cost0 + c.lambda, cost1);
      cost0, cost1 := curr0 + Mismatch(c, sel, i, 0), curr1 + Mismatch(c, sel, i, 1);
    }
    cost := Min(cost0, cost1);
  }

  /** The forward pass, recording in path0 and path1 where each cost came from. */
  method Forward(c: Prices, sel: nat, path0: array<int>, path1: array<int>) returns (cost0: int, cost1: int)
    requires PricesOk(c) && sel < 2 && path0.Length == path1.Length == |c.metric| && path0 != path1
    modifies path0, path1
    ensures cost0 == Best(c, sel, |c.metric| - 1, 0) && cost1 == Best(c, sel, |c.metric| - 1, 1)
    ensures forall k :: 0 < k < |c.metric| ==> path0[k] == From(c, sel, k, 0) && path1[k] == From(c, sel, k, 1)
  {
    hide Mismatch;
    cost0, cost1 := 0, if c.transient then 0 else c.lambda;
    for i := 1 to |c.metric|
      invariant cost0 == Best(c, sel, i - 1, 0) && cost1 == Best(c, sel, i - 1, 1)
      invariant forall k :: 0 < k < i ==> path0[k] == From(c, sel, k, 0) && path1[k] == From(c, sel, k, 1)
    {
      var curr0, curr1;
      var from0, from1 := cost0, cost1 + c.lambda;
      if from0 < from1 {
        curr0, path0[i] := from0, 0;
      } else {
        curr0, path0[i] := from1, 1;
      }
      from0, from1 := cost0 + c.lambda, cost1;
      if from0 < from1 {
        curr1, path1[i] := from0, 0;
      } else {
        curr1, path1[i] := from1, 1;
      }
      cost0, cost1 := curr0 + Mismatch(c, sel, i, 0), curr1 + Mismatch(c, sel, i, 1);
    }
  }

  /**
    The search: tfRes ends as a path no binary path undercuts, each selcost is
    the minimum for its table, and tf_select is used for transients only, when
    it is strictly cheaper.
   */
  method Search(c: Prices, tfRes: array<int>) returns (select: nat, selcost0: int, selcost1: int)
    requires PricesOk(c) && tfRes.Length == |c.metric|
    modifies tfRes
    ensures select < 2 && Path(tfRes[..], |c.metric|)
    ensures Cost(c, select, tfRes[..]) == if select == 1 then selcost1 else selcost0
    ensures forall p :: Path(p, |c.metric|) ==> selcost0 <= Cost(c, 0, p) && selcost1 <= Cost(c, 1, p)
    ensures Cost(c, 0, Chosen(c, 0)) == selcost0 && Cost(c, 1, Chosen(c, 1)) == selcost1
    ensures tfRes[..] == Chosen(c, select)
    ensures select == 1 <==> c.transient && selcost1 < selcost0
  {
    hide Cost, Trace, Best, From;
    var n := |c.metric|;
    selcost0 := SelectCost(c, 0);
    selcost1 := SelectCost(c, 1);
    select := if selcost1 < selcost0 && c.transient then 1 else 0;
    var path0, path1 := new int[n], new int[n];
    var cost0, cost1 := Forward(c, select, path0, path1);
    ghost var want := Chosen(c, select);
    tfRes[n - 1] := if cost0 < cost1 then 0 else 1;
    var i := n - 1;
    while i > 0
      invariant 0 <= i < n
      invariant forall k :: 0 < k < n ==> path0[k] == From(c, select, k, 0) && path1[k] == From(c, select, k, 1)
      invariant forall k :: i <= k < n ==> tfRes[k] == want[k]
    {
      TraceAt(c, select, n - 1, want[n - 1], i - 1);
      tfRes[i - 1] := if tfRes[i] == 1 then path1[i] else path0[i];
      i := i - 1;
    }
    assert tfRes[..] == want;
    Optimal(c, 0, want);
    Optimal(c, 1, want);
    forall p | Path(p, n) ensures selcost0 <= Cost(c, 0, p) && selcost1 <= Cost(c, 1, p) {
      Optimal(c, 0, p);
      Optimal(c, 1, p);
    }
  }
}
