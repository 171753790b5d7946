/**
  Why the flat tail of the Laplace table always has room.  Rounding down loses
  enough on the way out to make up for the two guaranteed units per step; how
  much it loses is bounded over whole ranges of decay at a time.
 */
module LaplaceTail {
  import opened Powers
  import opened Laplace

  /** Units all magnitudes from one with share `f` on take before the flat part. */
  function Remaining(f: nat, decay: nat): nat
    requires decay <= 11456
    decreases f
  {
    if f == 0 then 0 else 2 * (f + 1) + Remaining(Decayed(f, decay), decay)
  }

  lemma {:induction false} RemainingReachesCutoff(fs0: nat, decay: nat, i: nat)
    requires ParametersOk(fs0, decay) && i >= 1
    ensures FlAt(fs0, decay, CutoffFrom(fs0, decay, i)) == FlAt(fs0, decay, i) + Remaining(FsAt(fs0, decay, i), decay)
    decreases FsAt(fs0, decay, i)
  {
    if FsAt(fs0, decay, i) > 0 {
      RemainingReachesCutoff(fs0, decay, i + 1);
    }
  }

  /** What rounding f * d / 16384 down to `p` gains back at the least, from decay `d` up. */
  function Loss(f: nat, p: nat, d: nat): int
  {
    if d < 16384 then 32 * (f * d - 16384 * p) / (16384 - d) else 0
  }

  lemma DecayedIs(f: nat, decay: nat)
    requires decay <= 11456
    ensures Decayed(f, decay) == f * decay / 16384
  {
  }

  /** With decay `d` in range, rounding to `p` gains at least Loss at the least such decay. */
  lemma LossCounts(f: nat, p: nat, least: nat, d: nat)
    requires least <= d <= 11456 && 16384 * p <= f * least
    ensures Loss(f, p, least) * (16384 - d) <= 32 * (f * d - 16384 * p)
  {
    var x, q, qm := 32 * (f * least - 16384 * p), 16384 - d, 16384 - least;
    MulLe(f, least, d);
    QuotientScaled(x, q, qm);
  }

  lemma QuotientScaled(x: nat, q: nat, qm: nat)
    requires 0 < q <= qm
    ensures x / qm * q <= x
  {
    var l: nat := x / qm;
    MulLe(l, q, qm);
  }

  /** In sixteenths: what remains exceeds the geometric sum 32768 * f / (16384 - decay) by at most `slack`. */
  predicate Within(f: nat, d: nat, slack: int)
    requires d <= 11456
  {
    16 * Remaining(f, d) * (16384 - d) <= 16 * 32768 * f + slack * (16384 - d)
  }

  /** The remaining units from `f` when every decay in [a, b] leads to share `p`. */
  lemma Row(f: nat, a: nat, b: nat, d: nat, p: nat, sp: int, sf: int)
    requires 0 < a <= d <= b <= 11456 && f > 0
    requires 16384 * p <= f * a && f * b < 16384 * (p + 1)
    requires Within(p, d, sp) && sf >= 32 + sp - Loss(f, p, a)
    ensures Within(f, d, sf)
  {
    hide Within, Loss;
    MulLe(f, a, d);
    MulLe(f, d, b);
    DecayedIs(f, d);
    LossCounts(f, p, a, d);
    SlackStep(f, p, d, sp, sf, Loss(f, p, a));
  }

  /** The same when it leads to `p` below decay `m` and to `p + 1` from there. */
  lemma RowTwo(f: nat, a: nat, b: nat, d: nat, p: nat, sp: int, sq: int, m: nat, sf: int)
    requires 0 < a < m <= b <= 11456 && a <= d <= b && f > 0
    requires 16384 * p <= f * a && f * b < 16384 * (p + 2)
    requires f * (m - 1) < 16384 * (p + 1) <= f * m
    requires Within(p, d, sp) && sf >= 32 + sp - Loss(f, p, a)
    requires Within(p + 1, d, sq) && sf >= 32 + sq - Loss(f, p + 1, m)
    ensures Within(f, d, sf)
  {
    hide Within, Loss;
    if d < m {
      MulLe(f, d, m - 1);
      Row(f, a, m - 1, d, p, sp, sf);
    } else {
      Row(f, m, b, d, p + 1, sq, sf);
    }
  }

  lemma SlackStep(f: nat, n: nat, d: nat, gn: int, gf: int, loss: int)
    requires f > 0 && 0 < d <= 11456 && n == Decayed(f, d)
    requires Within(n, d, gn)
    requires loss * (16384 - d) <= 32 * (f * d - 16384 * n)
    requires gf >= 32 + gn - loss
    ensures Within(f, d, gf)
  {
    hide Decayed;
    SlackProducts(f, n, d, gn, gf, loss, Remaining(n, d));
  }

  /** The same with the remainder as a number. */
  lemma SlackProducts(f: nat, n: nat, d: nat, gn: int, gf: int, loss: int, rest: nat)
    requires 0 < d <= 11456 && gf >= 32 + gn - loss
    requires 16 * rest * (16384 - d) <= 16 * 32768 * n + gn * (16384 - d)
    requires loss * (16384 - d) <= 32 * (f * d - 16384 * n)
    ensures 16 * (2 * (f + 1) + rest) * (16384 - d) <= 16 * 32768 * f + gf * (16384 - d)
  {
    var q := 16384 - d;
    MulLe(q, 32 + gn - loss, gf);
    SlackOfStep(q, gn, loss);
    UnitsOfStep(f, rest, q);
    ShareOfStep(f, d);
    MulAssoc(16, rest, q);
  }

  lemma SlackOfStep(q: int, gn: int, loss: int)
    ensures q * (32 + gn - loss) == 32 * q + gn * q - loss * q
  {
  }

  lemma UnitsOfStep(f: int, rest: int, q: int)
    ensures 16 * (2 * (f + 1) + rest) * q == 32 * (f * q) + 32 * q + 16 * (rest * q)
  {
  }

  lemma ShareOfStep(f: int, d: int)
    ensures f * (16384 - d) == 16384 * f - f * d
  {
  }

  /** The largest share that `k` steps bring down to `u0`, for any decay up to `b`. */
  function ReachDown(u0: nat, b: nat, k: nat): nat
    requires 0 < b
  {
    if k == 0 then u0 else ((ReachDown(u0, b, k - 1) + 1) * 16384 - 1) / b
  }

  lemma OneDown(f: nat, d: nat, b: nat, u: nat)
    requires 0 < d <= b <= 11456 && f <= ((u + 1) * 16384 - 1) / b
    ensures Decayed(f, d) <= u && 16384 * Decayed(f, d) <= f * d
  {
    DecayedIs(f, d);
    var x := (u + 1) * 16384 - 1;
    assert x == b * (x / b) + x % b;
    MulLe(b, f, x / b);
    MulLe(f, d, b);
  }

  lemma StaysAbove(f: nat, d: nat, a: nat, u0: nat, lo: nat)
    requires a <= d <= 11456 && u0 < f && lo <= (u0 + 1) * a / 16384
    ensures lo <= Decayed(f, d)
  {
    DecayedIs(f, d);
    MulLe(a, u0 + 1, f);
    MulLe(f, a, d);
  }

  /** Each step above `u0` costs two units more than geometric decay would. */
  lemma {:induction false} StepsBound(f: nat, a: nat, b: nat, d: nat, lo: nat, u0: nat, slack: int, k: nat)
    requires 0 < a <= d <= b <= 11456
    requires forall g :: lo <= g <= u0 ==> Within(g, d, slack)
    requires lo <= (u0 + 1) * a / 16384
    requires lo <= f <= ReachDown(u0, b, k)
    ensures Within(f, d, slack + 32 * k)
    decreases k
  {
    hide Decayed, Within;
    if f <= u0 {
      WithinMore(f, d, slack, slack + 32 * k);
    } else {
      var n := Decayed(f, d);
      OneDown(f, d, b, ReachDown(u0, b, k - 1));
      StaysAbove(f, d, a, u0, lo);
      StepsBound(n, a, b, d, lo, u0, slack, k - 1);
      SlackStep(f, n, d, slack + 32 * (k - 1), slack + 32 * k, 0);
    }
  }

  /** The tail fits when the remaining units exceed geometric decay by at most 30. */
  lemma FitsWhenWithin(fs0: nat, decay: nat)
    requires ParametersOk(fs0, decay) && Within(Freq1(fs0, decay), decay, 480)
    ensures TailFits(fs0, decay)
  {
    hide Decayed, Freq1;
    RemainingReachesCutoff(fs0, decay, 1);
    var f := Freq1(fs0, decay);
    FirstShareIs(fs0, decay);
    assert FlAt(fs0, decay, 1) == fs0 && FsAt(fs0, decay, 1) == f;
    ThirtyUnits(16384 - decay, fs0, f, Remaining(f, decay));
  }

  lemma FirstShareIs(fs0: nat, decay: nat)
    requires ParametersOk(fs0, decay)
    ensures 32768 * Freq1(fs0, decay) <= (LAPLACE_TOTAL - 32 - fs0) * (16384 - decay)
  {
  }

  lemma ThirtyUnits(q: nat, fs0: nat, f: nat, r: nat)
    requires q > 0 && fs0 <= LAPLACE_TOTAL - 32
    requires 32768 * f <= (LAPLACE_TOTAL - 32 - fs0) * q
    requires 16 * r * q <= 16 * 32768 * f + 480 * q
    ensures fs0 + r <= LAPLACE_TOTAL - 2
  {
    assert 16 * r * q == 16 * (r * q);
    assert (fs0 + r) * q == fs0 * q + r * q;
    assert (LAPLACE_TOTAL - 32 - fs0) * q == (LAPLACE_TOTAL - 32) * q - fs0 * q;
    MulLt(q, fs0 + r, LAPLACE_TOTAL - 1);
  }

  lemma FirstShareBound(fs0: nat, decay: nat, a: nat, top: nat)
    requires ParametersOk(fs0, decay) && a <= decay
    requires (LAPLACE_TOTAL - 32) * (16384 - a) / 32768 <= top
    ensures Freq1(fs0, decay) <= top
  {
    var q, p := LAPLACE_TOTAL - 32 - fs0, LAPLACE_TOTAL - 32;
    MulLe(16384 - decay, q, p);
    MulLe(p, 16384 - decay, 16384 - a);
    QuotientMonotone(q * (16384 - decay), p * (16384 - a), 32768);
  }

  /** One range of decays, from bounds on a window of shares and a number of steps. */
  lemma SegmentFits(fs0: nat, decay: nat, a: nat, b: nat, lo: nat, u0: nat, limit: int, k: nat)
    requires ParametersOk(fs0, decay) && 0 < a <= decay <= b <= 11456
    requires forall g :: lo <= g <= u0 ==> Within(g, decay, limit)
    requires limit + 32 * k <= 480
    requires lo <= (u0 + 1) * a / 16384 && lo <= 32
    requires (LAPLACE_TOTAL - 32) * (16384 - a) / 32768 <= ReachDown(u0, b, k)
    ensures TailFits(fs0, decay)
  {
    hide Freq1, Within, ReachDown, TailFits;
    var f := Freq1(fs0, decay);
    FirstShareBound(fs0, decay, a, ReachDown(u0, b, k));
    if f >= lo {
      StepsBound(f, a, b, decay, lo, u0, limit, k);
      WithinMore(f, decay, limit + 32 * k, 480);
    } else {
      NothingRemains(decay);
      SmallReach();
      StepsBound(f, 1, 11456, decay, 0, 0, 0, 9);
      WithinMore(f, decay, 288, 480);
    }
    FitsWhenWithin(fs0, decay);
  }

  lemma WithinMore(f: nat, d: nat, slack: int, more: int)
    requires d <= 11456 && slack <= more && Within(f, d, slack)
    ensures Within(f, d, more)
  {
    MulLe(16384 - d, slack, more);
  }

  lemma NothingRemains(d: nat)
    requires d <= 11456
    ensures Within(0, d, 0)
  {
  }

  lemma SmallReach()
    ensures ReachDown(0, 11456, 9) >= 32
  {
    assert ReachDown(0, 11456, 5) == 11;
  }
}
