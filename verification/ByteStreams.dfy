/**
  The packet seen from both of its ends.  Range-coder bytes are read from the
  front, most significant first; raw bits are read from the back, least
  significant first.  Reading past either end yields zero bytes.
 */
module ByteStreams {
  import opened Powers

  type byte = x: int | 0 <= x < 256

  function Zeros(n: nat): (z: seq<byte>)
    ensures |z| == n
  {
    seq(n, _ => 0)
  }

  /** The number spelled by `s`, most significant byte first. */
  function Big(s: seq<byte>): nat
  {
    if s == [] then 0 else Big(s[..|s| - 1]) * 256 + s[|s| - 1]
  }

  /** The number spelled by `s`, least significant byte first. */
  function Little(s: seq<byte>): nat
  {
    if s == [] then 0 else Little(s[..|s| - 1]) + Pow256(|s| - 1) * s[|s| - 1]
  }

  function ByteAt(s: seq<byte>, i: nat): byte
  {
    if i < |s| then s[i] else 0
  }

  function TailByteAt(s: seq<byte>, i: nat): byte
  {
    if i < |s| then s[|s| - 1 - i] else 0
  }

  /** The first `n` bytes of the stream that starts with `s`, as a number. */
  function Prefix(s: seq<byte>, n: nat): nat
  {
    if n == 0 then 0 else Prefix(s, n - 1) * 256 + ByteAt(s, n - 1)
  }

  /** The last `n` bytes of `s`, as a little-endian number read backwards. */
  function Tail(s: seq<byte>, n: nat): nat
  {
    if n == 0 then 0 else Tail(s, n - 1) + Pow256(n - 1) * TailByteAt(s, n - 1)
  }

  lemma TailGrows(s: seq<byte>, n: nat)
    ensures Tail(s, n + 1) == Tail(s, n) + Pow256(n) * TailByteAt(s, n)
  {
  }

  lemma BigAppend(s: seq<byte>, b: byte)
    ensures Big(s + [b]) == Big(s) * 256 + b
  {
    assert (s + [b])[..|s|] == s;
  }

  lemma LittleAppend(s: seq<byte>, b: byte)
    ensures Little(s + [b]) == Little(s) + Pow256(|s|) * b
  {
    assert (s + [b])[..|s|] == s;
  }

  lemma {:induction false} LittleBound(s: seq<byte>)
    ensures Little(s) < Pow256(|s|)
  {
    if s != [] {
      LittleBound(s[..|s| - 1]);
      MulLe(Pow256(|s| - 1), s[|s| - 1], 255);
    }
  }

  lemma {:induction false} TailBound(s: seq<byte>, n: nat)
    ensures Tail(s, n) < Pow256(n)
  {
    if n > 0 {
      TailBound(s, n - 1);
      MulLe(Pow256(n - 1), TailByteAt(s, n - 1), 255);
    }
  }

  /** If `s` starts with the bytes of `p`, its prefix is the number `p` spells. */
  lemma {:induction false} PrefixIsBig(s: seq<byte>, p: seq<byte>)
    requires forall i :: 0 <= i < |p| ==> ByteAt(s, i) == p[i]
    ensures Prefix(s, |p|) == Big(p)
  {
    if p != [] {
      var q := p[..|p| - 1];
      forall i | 0 <= i < |q|
        ensures ByteAt(s, i) == q[i]
      {
        assert q[i] == p[i];
      }
      PrefixIsBig(s, q);
    }
  }

  lemma {:induction false} TailIsLittle(s: seq<byte>, p: seq<byte>)
    requires forall i :: 0 <= i < |p| ==> TailByteAt(s, i) == p[i]
    ensures Tail(s, |p|) == Little(p)
  {
    if p != [] {
      var q := p[..|p| - 1];
      forall i | 0 <= i < |q|
        ensures TailByteAt(s, i) == q[i]
      {
        assert q[i] == p[i];
      }
      TailIsLittle(s, q);
    }
  }

  /** A longer tail agrees with a shorter one on the low bytes. */
  lemma {:induction false} TailMod(s: seq<byte>, m: nat, n: nat)
    requires m <= n
    ensures Tail(s, n) % Pow256(m) == Tail(s, m)
    decreases n - m
  {
    TailBound(s, m);
    TailGrows(s, m);
    hide Tail, TailByteAt;
    if m == n {
      DivModUnique(Tail(s, m), Pow256(m), 0, Tail(s, m));
    } else {
      TailMod(s, m + 1, n);
      assert Pow256(m + 1) == Pow256(m) * 256;
      ModMod(Tail(s, n), Pow256(m), 256);
      DivModUnique(Tail(s, m + 1), Pow256(m), TailByteAt(s, m), Tail(s, m));
    }
  }

  /** Past the end of the buffer the tail stops growing. */
  lemma {:induction false} TailStops(s: seq<byte>, n: nat)
    requires |s| <= n
    ensures Tail(s, n) == Tail(s, |s|)
    decreases n
  {
    if |s| < n {
      TailStops(s, n - 1);
    }
  }
}
