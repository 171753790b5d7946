/**
  Powers of two and of 256, bit lengths, and the few facts about them that
  shifting and masking rely on.
 */
module Powers {
  function Min(a: int, b: int): int { if a < b then a else b }
  function Max(a: int, b: int): int { if a < b then b else a }
  function Abs(v: int): nat { if v < 0 then -v else v }


  function Pow2(n: nat): (p: nat)
    ensures p >= 1
  {
    if n == 0 then 1 else 2 * Pow2(n - 1)
  }

  function Pow256(n: nat): (p: nat)
    ensures p >= 1
  {
    if n == 0 then 1 else 256 * Pow256(n - 1)
  }

  /** The number of bits needed to write `v`: EC_ILOG. */
  function Ilog(v: nat): nat
  {
    if v == 0 then 0 else 1 + Ilog(v / 2)
  }

  /** x >> n */
  function Shr(x: nat, n: nat): nat
  {
    QuotientNat(x, Pow2(n));
    x / Pow2(n)
  }

  lemma QuotientNat(x: nat, d: nat)
    requires d > 0
    ensures x / d >= 0
  {
  }

  /** The low `n` bits of `x`. */
  function LowBits(x: nat, n: nat): (r: nat)
    ensures r < Pow2(n)
  {
    x % Pow2(n)
  }

  lemma {:induction false} Pow2Add(a: nat, b: nat)
    ensures Pow2(a + b) == Pow2(a) * Pow2(b)
  {
    if a == 0 {
    } else {
      Pow2Add(a - 1, b);
      assert Pow2(a + b) == 2 * Pow2(a - 1 + b);
      assert 2 * (Pow2(a - 1) * Pow2(b)) == (2 * Pow2(a - 1)) * Pow2(b);
    }
  }

  lemma {:induction false} Pow256Add(a: nat, b: nat)
    ensures Pow256(a + b) == Pow256(a) * Pow256(b)
  {
    if a == 0 {
    } else {
      Pow256Add(a - 1, b);
      assert Pow256(a + b) == 256 * Pow256(a - 1 + b);
      assert 256 * (Pow256(a - 1) * Pow256(b)) == (256 * Pow256(a - 1)) * Pow256(b);
    }
  }

  lemma Pow256Step(n: nat)
    ensures Pow256(n + 1) == 256 * Pow256(n)
  {
  }

  lemma {:induction false} Pow256IsPow2(n: nat)
    ensures Pow256(n) == Pow2(8 * n)
  {
    if n > 0 {
      Pow256IsPow2(n - 1);
      Pow2Add(8, 8 * (n - 1));
      assert Pow2(8) == 256;
    }
  }

  lemma {:induction false} Pow2Monotone(a: nat, b: nat)
    requires a <= b
    ensures Pow2(a) <= Pow2(b)
    decreases b - a
  {
    if a < b {
      Pow2Monotone(a + 1, b);
    }
  }

  lemma HalfPower(n: nat)
    requires n > 0
    ensures Pow2(n) == 2 * Pow2(n - 1) && Pow2(n) / 2 == Pow2(n - 1)
    ensures (Pow2(n) - 1) / 2 == Pow2(n - 1) - 1
  {
  }

  lemma {:induction false} IlogBounds(v: nat)
    requires v > 0
    ensures Ilog(v) >= 1
    ensures Pow2(Ilog(v) - 1) <= v < Pow2(Ilog(v))
  {
    if v > 1 {
      IlogBounds(v / 2);
    }
  }

  /** The bit length is the only `n` with 2^(n-1) <= v < 2^n. */
  lemma {:induction false} IlogGrows(a: nat, b: nat)
    requires a <= b
    ensures Ilog(a) <= Ilog(b)
  {
    if a > 0 {
      IlogGrows(a / 2, b / 2);
    }
  }

  lemma IlogUnique(v: nat, n: nat)
    requires n > 0 && Pow2(n - 1) <= v < Pow2(n)
    ensures Ilog(v) == n
  {
    IlogBounds(v);
    if Ilog(v) < n {
      Pow2Monotone(Ilog(v), n - 1);
    } else if n < Ilog(v) {
      Pow2Monotone(n, Ilog(v) - 1);
    }
  }

  /** A product strictly between -d and d of d with an integer is zero. */
  lemma SmallMultiple(d: int, k: int)
    requires d > 0 && -d < d * k < d
    ensures k == 0
  {
    if k >= 1 {
      MulLe(d, 1, k);
    } else if k <= -1 {
      MulLe(d, k, -1);
    }
  }

  lemma DivModUnique(a: int, d: int, q: int, r: int)
    requires d > 0 && a == q * d + r && 0 <= r < d
    ensures a / d == q && a % d == r
  {
    var q', r' := a / d, a % d;
    assert d * q' + r' == d * q + r;
    assert d * (q' - q) == d * q' - d * q;
    SmallMultiple(d, q' - q);
  }

  lemma DivDiv(a: nat, x: nat, y: nat)
    requires x > 0 && y > 0
    ensures x * y > 0
    ensures a / x / y == a / (x * y)
    ensures (a / x) % y == (a % (x * y)) / x
  {
    var q, r := a / x, a % x;
    var qq, qr := q / y, q % y;
    assert a == x * q + r && q == y * qq + qr;
    assert x * (y * qq + qr) == (x * y) * qq + x * qr;
    MulLe(x, qr + 1, y);
    assert x * (qr + 1) == x * qr + x;
    assert x * qr >= 0;
    DivModUnique(a, x * y, qq, x * qr + r);
    DivModUnique(x * qr + r, x, qr, r);
  }

  /** Taking the remainder by a multiple first does not change the remainder. */
  lemma ModMod(a: nat, x: nat, y: nat)
    requires x > 0 && y > 0
    ensures x * y > 0
    ensures (a % (x * y)) % x == a % x
  {
    var q, r := a / (x * y), a % (x * y);
    var q2, r2 := r / x, r % x;
    assert a == (x * y) * q + r && r == x * q2 + r2;
    assert (x * y) * q + x * q2 == x * (y * q + q2);
    DivModUnique(a, x, y * q + q2, r2);
  }

  lemma MulLe(k: nat, a: int, b: int)
    requires a <= b
    ensures k * a <= k * b
  {
  }

  lemma QuotientMonotone(a: nat, b: nat, p: nat)
    requires p > 0 && a <= b
    ensures a / p <= b / p
  {
    if b / p < a / p {
      MulLe(p, b / p + 1, a / p);
    }
  }

  lemma SquareMonotone(a: nat, b: nat)
    requires a <= b
    ensures a * a <= b * b
  {
    MulLe(a, a, b);
    MulLe(b, a, b);
  }

  lemma MulLt(k: nat, a: int, b: int)
    requires k > 0 && k * a < k * b
    ensures a < b
  {
    if b <= a {
      MulLe(k, b, a);
    }
  }

  lemma DivAddMultiple(t: nat, c: nat, k: nat)
    requires c > 0
    ensures (t + k * c) / c == t / c + k
    ensures (t + k * c) % c == t % c
  {
    var q, m := t / c, t % c;
    assert t == c * q + m;
    assert t + k * c == (q + k) * c + m;
    DivModUnique(t + k * c, c, q + k, m);
  }

  lemma MulAssoc(a: int, b: int, c: int)
    ensures (a * b) * c == a * (b * c)
  {
  }

  lemma MulDistribute(a: int, b: int, c: int)
    ensures a * (b + c) == a * b + a * c
  {
  }

  lemma ByteValues()
    ensures Pow2(0) == 1 && Pow2(1) == 2 && Pow2(8) == 256
  {
  }

  lemma WordValues()
    ensures Pow2(16) == 0x1_0000 && Pow2(31) == 0x8000_0000 && Pow2(32) == 0x1_0000_0000
  {
    hide Pow2;
    ByteValues();
    Pow2Add(8, 8);
    Pow2Add(16, 16);
    Pow2Add(1, 31);
  }

  lemma MulShuffle(a: int, k: int, c: int)
    ensures a * (k * c) == k * (a * c)
  {
    MulAssoc(a, k, c);
    MulAssoc(k, a, c);
  }
}
