/**
  The printers and parsers of libuv's src/inet.c with their buffers and cursors,
  proved against InetText.
 */
module Inet {
  import opened Options
  import opened Powers
  import opened ByteStreams
  import opened InetText
  import opened InetShape

  const UV_EINVAL: int := -22
  const UV_ENOSPC: int := -28
  const ADDRSTRLEN: nat := 16
  const ADDRSTRLEN6: nat := 46

  /** Runs that end by word `i` are in the current run, or no better than the best so far. */
  ghost predicate Best(b: seq<byte>, i: int, bestBase: int, bestLen: int, curBase: int)
    requires |b| == 16
  {
    && (bestBase != -1 ==> ZeroRun(b, bestBase, bestLen) && bestBase + bestLen <= (if curBase == -1 then i else curBase))
    && forall x, n :: ZeroRun(b, x, n) && x + n <= i && (curBase == -1 || x < curBase) ==>
         bestBase != -1 && n <= bestLen && (n == bestLen ==> bestBase <= x)
  }

  /** The current run goes back to `curBase` and no further. */
  predicate Current(b: seq<byte>, i: int, curBase: int, curLen: int)
    requires |b| == 16
  {
    && 0 <= i <= 8
    && (if curBase == -1 then i > 0 ==> Word(b, i - 1) != 0
        else ZeroRun(b, curBase, curLen) && curBase + curLen == i && (curBase > 0 ==> Word(b, curBase - 1) != 0))
  }

  /** A run of zeros does not contain a word that is not zero. */
  lemma RunStops(b: seq<byte>, x: int, n: int, k: nat)
    requires |b| == 16 && k < 8
    ensures ZeroRun(b, x, n) && Word(b, k) != 0 ==> k < x || x + n <= k
  {
  }

  /** The end of a run: it becomes the best if it is longer. */
  method Settle(bestBase0: int, bestLen0: int, curBase: int, curLen: int, ghost b: seq<byte>, ghost i: int)
    returns (bestBase: int, bestLen: int)
    requires |b| == 16 && Current(b, i, curBase, curLen) && Best(b, i, bestBase0, bestLen0, curBase)
    requires i < 8 ==> Word(b, i) != 0
    ensures Best(b, i, bestBase, bestLen, -1)
    ensures i < 8 ==> Best(b, i + 1, bestBase, bestLen, -1)
  {
    bestBase, bestLen := bestBase0, bestLen0;
    if curBase != -1 {
      if bestBase == -1 || curLen > bestLen {
        bestBase, bestLen := curBase, curLen;
      }
    }
    forall x, n | ZeroRun(b, x, n) && x + n <= i + 1
      ensures i < 8 ==> x + n <= i
      ensures curBase != -1 && x + n <= i && x < curBase ==> x + n < curBase
    {
      if i < 8 {
        RunStops(b, x, n, i);
      }
      if curBase > 0 {
        RunStops(b, x, n, curBase - 1);
      }
    }
  }

  /** The search for the run to elide. */
  method FindRun(b: seq<byte>) returns (base: int, len: int)
    requires |b| == 16
    ensures FirstLongest(b, base, len) && base >= -1
  {
    var bestBase, bestLen, curBase, curLen := -1, 0, -1, 0;
    for i := 0 to 8
      invariant Current(b, i, curBase, curLen) && Best(b, i, bestBase, bestLen, curBase)
      invariant bestBase >= -1 && curBase >= -1
    {
      hide Best;
      if Word(b, i) == 0 {
        Extended(b, i, bestBase, bestLen, curBase);
        if curBase == -1 {
          curBase, curLen := i, 1;
        } else {
          curLen := curLen + 1;
        }
      } else {
        bestBase, bestLen := Settle(bestBase, bestLen, curBase, curLen, b, i);
        BestBase(b, i, bestBase, bestLen);
        curBase := -1;
      }
    }
    bestBase, bestLen := Settle(bestBase, bestLen, curBase, curLen, b, 8);
    base, len := bestBase, bestLen;
    if base != -1 && len < 2 {
      base := -1;
    }
  }

  lemma BestBase(b: seq<byte>, i: int, bestBase: int, bestLen: int)
    requires |b| == 16 && Best(b, i, bestBase, bestLen, -1)
    ensures bestBase == -1 || bestBase >= 0
  {
  }

  lemma Extended(b: seq<byte>, i: nat, bestBase: int, bestLen: int, curBase: int)
    requires |b| == 16 && i < 8 && Best(b, i, bestBase, bestLen, curBase) && Word(b, i) == 0
    requires curBase == -1 ==> (i > 0 ==> Word(b, i - 1) != 0)
    requires 0 <= curBase ==> curBase < i && forall k :: curBase <= k < i ==> Word(b, k) == 0
    requires curBase > 0 ==> Word(b, curBase - 1) != 0
    requires curBase >= -1
    ensures Best(b, i + 1, bestBase, bestLen, if curBase == -1 then i else curBase)
  {
    var c := if curBase == -1 then i else curBase;
    forall x, n | ZeroRun(b, x, n) && x + n <= i + 1 && x < c ensures x + n <= i && x + n <= c {
      if c > 0 {
        RunStops(b, x, n, c - 1);
      }
    }
  }

  lemma {:induction false} DigitsShort(n: nat, radix: nat, k: nat)
    requires 2 <= radix <= 16 && k >= 1 && n < Below(radix, k)
    ensures |Digits(n, radix)| <= k
    decreases k
  {
    if n >= radix {
      assert n < radix * Below(radix, k - 1);
      SmallerQuotient(n, radix, Below(radix, k - 1));
      DigitsShort(n / radix, radix, k - 1);
    }
  }

  lemma SmallerQuotient(n: nat, d: nat, m: nat)
    requires d > 0 && n < d * m
    ensures n / d < m
  {
    assert n == d * (n / d) + n % d;
    MulLt(d, n / d, m);
  }

  function Below(radix: nat, k: nat): nat
  {
    if k == 0 then 1 else radix * Below(radix, k - 1)
  }

  lemma DigitBounds()
    ensures Below(10, 3) == 1000 && Below(16, 4) == 0x10000
  {
    assert Below(10, 3) == 10 * Below(10, 2) && Below(10, 2) == 10 * Below(10, 1) && Below(10, 1) == 10 * Below(10, 0);
    assert Below(16, 4) == 16 * Below(16, 3) && Below(16, 3) == 16 * Below(16, 2) && Below(16, 2) == 16 * Below(16, 1);
  }

  lemma DottedShort(b: seq<byte>)
    requires |b| == 4
    ensures |Dotted(b)| <= 15
  {
    hide Digits;
    DigitBounds();
    DigitsShort(b[0], 10, 3);
    DigitsShort(b[1], 10, 3);
    DigitsShort(b[2], 10, 3);
    DigitsShort(b[3], 10, 3);
  }

  /** inet_ntop4: the text, which always fits the local buffer, if it fits the caller's. */
  method Ntop4(src: seq<byte>, size: nat) returns (err: int, text: string)
    requires |src| == 4
    ensures |Dotted(src)| + 1 <= ADDRSTRLEN
    ensures err == 0 <==> |Dotted(src)| < size
    ensures err == 0 ==> text == Dotted(src)
    ensures err != 0 ==> err == UV_ENOSPC
  {
    hide Digits;
    DottedShort(src);
    var tmp := Digits(src[0], 10) + "." + Digits(src[1], 10) + "." + Digits(src[2], 10) + "." + Digits(src[3], 10);
    var l := |tmp|;
    if l <= 0 || l >= size {
      return UV_ENOSPC, "";
    }
    return 0, tmp;
  }

  /** How much of the buffer the words before `i` take at most. */
  function Room(base: int, len: int, i: nat): int
  {
    if base == 0 then (if i == 0 then 0 else if i <= len then 1 else 1 + 5 * (i - len)) else 5 * i
  }

  /** inet_ntop6: the text, which always fits the local buffer, if it fits the caller's. */
  method Ntop6(src: seq<byte>, size: nat) returns (err: int, text: string, ghost base: int, ghost len: int)
    requires |src| == 16
    ensures FirstLongest(src, base, len) && base >= -1
    ensures |Written(src, base, len, 0)| + 1 <= ADDRSTRLEN6
    ensures err == 0 <==> |Written(src, base, len, 0)| + 1 <= size
    ensures err == 0 ==> text == Written(src, base, len, 0)
    ensures err == 0 ==> Plain(text) && Tidy(text) && ('.' in text <==> Compatible(src))
    ensures err != 0 ==> err == UV_ENOSPC
  {
    hide Digits, Written;
    var bestBase, bestLen := FindRun(src);
    base, len := bestBase, bestLen;
    ghost var all := Written(src, base, len, 0);
    var tmp := "";
    var i := 0;
    WrittenWhole(src, base, len);
    WrittenShape(src, base, len, 0);
    EmbeddedIs(src, base, len);
    while i < 8
      invariant 0 <= i <= 8 && tmp + Written(src, base, len, i) == all
      invariant |tmp| <= Room(base, len, i)
    {
      WrittenAt(src, base, len, i);
      if bestBase != -1 && i >= bestBase && i < bestBase + bestLen {
        if i == bestBase {
          tmp := tmp + ":";
        }
        i := i + 1;
        continue;
      }
      if i != 0 {
        tmp := tmp + ":";
      }
      if i == 6 && Embedded(src, bestBase, bestLen) {
        DottedShort(src[12..16]);
        var e, dotted := Ntop4(src[12..16], ADDRSTRLEN6 - |tmp|);
        tmp := tmp + dotted;
        break;
      }
      DigitBounds();
      DigitsShort(Word(src, i), 16, 4);
      tmp := tmp + Digits(Word(src, i), 16);
      i := i + 1;
    }
    if bestBase != -1 && bestBase + bestLen == 8 {
      tmp := tmp + ":";
    }
    if i == 8 { WrittenEnd(src, base, len); }
    assert tmp == all;
    if |tmp| + 1 > size {
      return UV_ENOSPC, "", base, len;
    }
    return 0, tmp, base, len;
  }

  lemma WrittenWhole(b: seq<byte>, base: int, len: int)
    requires |b| == 16
    ensures "" + Written(b, base, len, 0) == Written(b, base, len, 0)
  {
  }

  lemma WrittenEnd(b: seq<byte>, base: int, len: int)
    requires |b| == 16
    ensures Written(b, base, len, 8) == if base != -1 && base + len == 8 then ":" else ""
  {
  }

  lemma WrittenAt(b: seq<byte>, base: int, len: int, i: nat)
    requires |b| == 16 && i < 8
    ensures forall tmp: string {:trigger tmp + Written(b, base, len, i)} ::
      tmp + Written(b, base, len, i) ==
        if Inside(base, len, i) then (if i == base then tmp + ":" else tmp) + Written(b, base, len, i + 1)
        else if i == 6 && Embedded(b, base, len)
        then (if i != 0 then tmp + ":" else tmp) + Dotted(b[12..16]) + if base + len == 8 then ":" else ""
        else (if i != 0 then tmp + ":" else tmp) + Digits(Word(b, i), 16) + Written(b, base, len, i + 1)
  {
    hide Digits;
    if !Inside(base, len, i) {
      NextWritten(b, base, len, i);
    }
  }

  lemma Read4Next(s: string, p: nat, v: V4)
    requires p < |s|
    ensures Read4(s[p..], v) == match Step4(v, s[p]) case None => None case Some(w) => Read4(s[p + 1..], w)
  {
    assert s[p..][1..] == s[p + 1..];
  }

  /** inet_pton4, reading from position `from` and storing four bytes at `at`, or nothing on an error. */
  method Pton4(src: string, from: nat, dst: array<byte>, at: nat) returns (err: int)
    requires from <= |src| && at + 4 <= dst.Length
    modifies dst
    ensures err == 0 <==> Parse4(src[from..]).Some?
    ensures err == 0 ==> dst[at..at + 4] == Parse4(src[from..]).value
    ensures err != 0 ==> err == UV_EINVAL && dst[..] == old(dst[..])
    ensures forall k :: 0 <= k < dst.Length && !(at <= k < at + 4) ==> dst[k] == old(dst[k])
  {
    hide Read4;
    var sawDigit, octets := false, 0;
    var tmp := new byte[4];
    var tp := 0;
    tmp[0] := 0;
    var p := from;
    ghost var whole := Read4(src[from..], V4([], 0, false));
    assert tmp[..0] == [];
    while p < |src|
      invariant from <= p <= |src| && 0 <= tp < 4
      invariant octets == Octets(V4(tmp[..tp], tmp[tp], sawDigit)) && octets <= 4 && dst[..] == old(dst[..])
      invariant whole == Read4(src[p..], V4(tmp[..tp], tmp[tp], sawDigit))
    {
      ghost var v := V4(tmp[..tp], tmp[tp], sawDigit);
      Read4Next(src, p, v);
      var ch := src[p];
      p := p + 1;
      var d := DecValue(ch);
      if d >= 0 {
        var nw := tmp[tp] * 10 + d;
        if sawDigit && tmp[tp] == 0 {
          return UV_EINVAL;
        }
        if nw > 255 {
          return UV_EINVAL;
        }
        if !sawDigit && octets + 1 > 4 {
          return UV_EINVAL;
        }
        tmp[tp] := nw;
        assert tmp[..tp] == v.done;
        if !sawDigit {
          octets := octets + 1;
          sawDigit := true;
        }
      } else if ch == '.' && sawDigit {
        if octets == 4 {
          return UV_EINVAL;
        }
        tp := tp + 1;
        tmp[tp] := 0;
        assert tmp[..tp] == v.done + [v.cur];
        sawDigit := false;
      } else {
        return UV_EINVAL;
      }
    }
    ReadNothing(src[p..], V4(tmp[..tp], tmp[tp], sawDigit));
    if octets < 4 {
      return UV_EINVAL;
    }
    ghost var four := tmp[..tp] + [tmp[tp]];
    assert tmp[..4] == four && Parse4(src[from..]) == Some(four);
    for k := 0 to 4
      invariant tmp[..4] == four
      invariant forall j :: 0 <= j < k ==> dst[at + j] == tmp[j]
      invariant forall j :: 0 <= j < dst.Length && !(at <= j < at + 4) ==> dst[j] == old(dst[j])
    {
      dst[at + k] := tmp[k];
    }
    assert dst[at..at + 4] == four;
    return 0;
  }

  lemma ReadNothing(s: string, v: V4)
    requires s == []
    ensures Read4(s, v) == Some(v)
  {
  }

  /** One character of inet_pton6 that does not end the loop. */
  function Step6(v: V6, ch: char, rest: string): Option<V6>
  {
    var d := HexValue(ch);
    if d >= 0 then
      if v.seen + 1 > 4 then None else Some(v.(seen := v.seen + 1, val := v.val * 16 + d))
    else if ch == ':' then
      if v.seen == 0 then
        if v.colon >= 0 then None else Some(v.(colon := |v.out|, tok := rest))
      else if rest == [] then None
      else if |v.out| + 2 > 16 then None
      else Some(V6(v.out + [High(v.val), Low(v.val)], v.colon, 0, 0, rest))
    else None
  }

  lemma Read6Next(s: string, p: nat, v: V6)
    requires p < |s|
    ensures !(HexValue(s[p]) < 0 && s[p] != ':') ==>
      Read6(s[p..], v) == match Step6(v, s[p], s[p + 1..]) case None => None case Some(w) => Read6(s[p + 1..], w)
    ensures HexValue(s[p]) < 0 && s[p] != ':' ==>
      Read6(s[p..], v) ==
        if s[p] == '.' && |v.out| + 4 <= 16 && Parse4(v.tok).Some?
        then Some(v.(out := v.out + Parse4(v.tok).value, seen := 0)) else None
  {
    hide Read6, Step6, Parse4, HexValue;
    assert s[p..][0] == s[p] && s[p..][1..] == s[p + 1..];
    Read6Turn(s[p..], v);
  }

  lemma Read6Turn(t: string, v: V6)
    requires t != []
    ensures !(HexValue(t[0]) < 0 && t[0] != ':') ==>
      Read6(t, v) == match Step6(v, t[0], t[1..]) case None => None case Some(w) => Read6(t[1..], w)
    ensures HexValue(t[0]) < 0 && t[0] != ':' ==>
      Read6(t, v) ==
        if t[0] == '.' && |v.out| + 4 <= 16 && Parse4(v.tok).Some?
        then Some(v.(out := v.out + Parse4(v.tok).value, seen := 0)) else None
  {
    hide Parse4, HexValue;
  }

  /** The parser's variables, as the state they stand for. */
  function Shown(tmp: seq<byte>, tp: nat, colonp: int, seen: nat, val: nat, tok: string): V6
    requires tp <= |tmp|
  {
    V6(tmp[..tp], colonp, seen, val, tok)
  }

  /** Two bytes of a group are stored. */
  method Store(tmp: array<byte>, tp: nat, val: nat)
    requires tmp.Length == 16 && tp + 2 <= 16
    modifies tmp
    ensures tmp[..tp + 2] == old(tmp[..tp]) + [High(val), Low(val)]
    ensures forall k :: tp + 2 <= k < 16 ==> tmp[k] == old(tmp[k])
  {
    tmp[tp] := High(val);
    tmp[tp + 1] := Low(val);
  }

  /** The loop of inet_pton6: up to the end of the text or an IPv4 tail. */
  method Scan6(src: string, from: nat, tmp: array<byte>) returns (err: int, tp: nat, colonp: int, seen: nat, val: nat)
    requires from <= |src| && tmp.Length == 16 && forall k :: 0 <= k < 16 ==> tmp[k] == 0
    modifies tmp
    ensures tp <= 16 && -1 <= colonp <= tp
    ensures var r := Read6(src[from..], V6([], -1, 0, 0, src[from..]));
      (err == 0 <==> r.Some?) && (err == 0 ==> exists tok :: r.value == Shown(tmp[..], tp, colonp, seen, val, tok))
    ensures err == 0 ==> forall k :: tp <= k < 16 ==> tmp[k] == 0
    ensures err != 0 ==> err == UV_EINVAL
  {
    hide Read6, Parse4;
    tp, colonp, seen, val := 0, -1, 0, 0;
    var curtok, p := from, from;
    ghost var whole := Read6(src[from..], V6([], -1, 0, 0, src[from..]));
    assert tmp[..][..0] == [];
    while p < |src|
      invariant from <= p <= |src| && from <= curtok <= |src| && tp <= 16 && -1 <= colonp <= tp
      invariant forall k :: tp <= k < 16 ==> tmp[k] == 0
      invariant whole == Read6(src[p..], Shown(tmp[..], tp, colonp, seen, val, src[curtok..]))
    {
      ghost var v := Shown(tmp[..], tp, colonp, seen, val, src[curtok..]);
      Read6Next(src, p, v);
      var ch := src[p];
      p := p + 1;
      var d := HexValue(ch);
      if d >= 0 {
        val := val * 16 + d;
        seen := seen + 1;
        if seen > 4 {
          err := UV_EINVAL;
          return;
        }
        continue;
      }
      if ch == ':' {
        curtok := p;
        if seen == 0 {
          if colonp >= 0 {
            err := UV_EINVAL;
            return;
          }
          colonp := tp;
          continue;
        } else if p == |src| {
          err := UV_EINVAL;
          return;
        }
        if tp + 2 > 16 {
          err := UV_EINVAL;
          return;
        }
        Store(tmp, tp, val);
        tp := tp + 2;
        assert tmp[..][..tp] == tmp[..tp];
        seen, val := 0, 0;
        continue;
      }
      if ch == '.' && tp + 4 <= 16 {
        ghost var before := tmp[..tp];
        err := Pton4(src, curtok, tmp, tp);
        if err == 0 {
          tp := tp + 4;
          assert tmp[..][..tp] == before + tmp[tp - 4..tp];
          seen := 0;
          assert whole.value == Shown(tmp[..], tp, colonp, seen, val, src[curtok..]);
          return;
        }
      }
      err := UV_EINVAL;
      return;
    }
    ReadEnd(src[p..], Shown(tmp[..], tp, colonp, seen, val, src[curtok..]));
    err := 0;
  }

  lemma ReadEnd(s: string, v: V6)
    requires s == []
    ensures Read6(s, v) == Some(v)
  {
  }

  /** The shift by hand: what follows :: moves to the end, with zeros where it was. */
  method Shift(tmp: array<byte>, colonp: nat, tp: nat)
    requires tmp.Length == 16 && colonp <= tp < 16 && forall k :: tp <= k < 16 ==> tmp[k] == 0
    modifies tmp
    ensures tmp[..] == old(tmp[..colonp]) + Zeros(16 - tp) + old(tmp[colonp..tp])
  {
    hide Zeros;
    var n := tp - colonp;
    ghost var was := tmp[..];
    for i := 1 to n + 1
      invariant forall k :: 16 - i < k < 16 ==> tmp[k] == was[k - (16 - tp)]
      invariant forall k :: 0 <= k < colonp + n - i + 1 ==> tmp[k] == was[k]
      invariant forall k :: colonp + n - i + 1 <= k <= 16 - i ==> tmp[k] == 0
    {
      tmp[16 - i] := tmp[colonp + n - i];
      tmp[colonp + n - i] := 0;
    }
    ShiftedIs(tmp[..], was, colonp, tp);
    assert was[..colonp] == old(tmp[..colonp]) && was[colonp..tp] == old(tmp[colonp..tp]);
  }

  lemma ShiftedIs(now: seq<byte>, was: seq<byte>, c: nat, tp: nat)
    requires |now| == |was| == 16 && c <= tp < 16
    requires forall k :: 0 <= k < c ==> now[k] == was[k]
    requires forall k :: c <= k < c + (16 - tp) ==> now[k] == 0
    requires forall k :: c + (16 - tp) <= k < 16 ==> now[k] == was[k - (16 - tp)]
    ensures now == was[..c] + Zeros(16 - tp) + was[c..tp]
  {
  }

  /** inet_pton6 */
  method Pton6(src: string, dst: array<byte>) returns (err: int)
    requires dst.Length == 16
    modifies dst
    ensures err == 0 <==> Parse6(src).Some?
    ensures err == 0 ==> dst[..] == Parse6(src).value
    ensures err != 0 ==> err == UV_EINVAL && dst[..] == old(dst[..])
  {
    hide Read6;
    var tmp := new byte[16](_ => 0);
    var from := 0;
    if |src| > 0 && src[0] == ':' {
      from := 1;
      if |src| < 2 || src[1] != ':' {
        return UV_EINVAL;
      }
    }
    assert src[0..] == src;
    var e, tp, colonp, seen, val := Scan6(src, from, tmp);
    if e != 0 {
      return UV_EINVAL;
    }
    ghost var tok :| Read6(src[from..], V6([], -1, 0, 0, src[from..])).value == Shown(tmp[..], tp, colonp, seen, val, tok);
    ghost var v := Shown(tmp[..], tp, colonp, seen, val, tok);
    assert Parse6(src) == Ended(v);
    if seen > 0 {
      if tp + 2 > 16 {
        return UV_EINVAL;
      }
      Store(tmp, tp, val);
      tp := tp + 2;
      assert tmp[..tp] == v.out + [High(val), Low(val)];
    }
    ghost var w := V6(tmp[..tp], colonp, 0, val, tok);
    assert Parse6(src) == Filled(w);
    err := Conclude(tmp, tp, colonp, dst, w);
  }

  /** The end of inet_pton6: zeros for ::, and sixteen bytes or an error. */
  method Conclude(tmp: array<byte>, tp0: nat, colonp: int, dst: array<byte>, ghost w: V6) returns (err: int)
    requires tmp.Length == dst.Length == 16 && tmp != dst && tp0 <= 16 && -1 <= colonp <= tp0
    requires w.out == tmp[..tp0] && w.colon == colonp && forall k :: tp0 <= k < 16 ==> tmp[k] == 0
    modifies tmp, dst
    ensures err == 0 <==> Filled(w).Some?
    ensures err == 0 ==> dst[..] == Filled(w).value
    ensures err != 0 ==> err == UV_EINVAL && dst[..] == old(dst[..])
  {
    var tp := tp0;
    if colonp != -1 {
      if tp == 16 {
        return UV_EINVAL;
      }
      assert w.out[..colonp] == tmp[..colonp] && w.out[colonp..] == tmp[colonp..tp];
      ghost var head, tail := tmp[..colonp], tmp[colonp..tp];
      Shift(tmp, colonp, tp);
      assert Filled(w) == Some(head + Zeros(16 - tp) + tail) == Some(tmp[..]);
      tp := 16;
    }
    if tp != 16 {
      return UV_EINVAL;
    }
    assert tmp[..16] == tmp[..];
    ghost var full := tmp[..];
    assert Filled(w) == Some(full);
    for k := 0 to 16
      invariant tmp[..] == full
      invariant forall j :: 0 <= j < k ==> dst[j] == tmp[j]
    {
      dst[k] := tmp[k];
    }
    assert dst[..] == full;
    return 0;
  }

  /** Printing an address into a buffer of the usual size and parsing the text gives the address back. */
  method PrintAndParse(address: seq<byte>) returns (text: string, copy: array<byte>)
    requires |address| == 16
    ensures copy[..] == address && |text| < ADDRSTRLEN6
  {
    var err;
    ghost var base, len;
    err, text, base, len := Ntop6(address, ADDRSTRLEN6);
    WrittenBack(address, base, len);
    copy := new byte[16](_ => 0);
    var e := Pton6(text, copy);
  }
}
