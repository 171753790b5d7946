/**
  The text forms of IPv4 and IPv6 addresses in libuv's src/inet.c: what the
  printers write and what the parsers make of a text, and that parsing takes
  printing back.
 */
module InetText {
  import opened Options
  import opened ByteStreams

  /** -1, or the value of a decimal digit. */
  function DecValue(ch: char): (d: int)
    ensures -1 <= d < 10
  {
    if '0' <= ch <= '9' then ch as int - '0' as int else -1
  }

  function HexValue(ch: char): (d: int)
    ensures -1 <= d < 16
  {
    if '0' <= ch <= '9' then ch as int - '0' as int
    else if 'a' <= ch <= 'f' then ch as int - 'a' as int + 10
    else if 'A' <= ch <= 'F' then ch as int - 'A' as int + 10
    else -1
  }

  function HexChar(d: nat): (ch: char)
    requires d < 16
    ensures HexValue(ch) == d && (d < 10 ==> DecValue(ch) == d)
  {
    if d < 10 then ('0' as int + d) as char else ('a' as int + d - 10) as char
  }

  /** %x and %u */
  function Digits(n: nat, radix: nat): (s: string)
    requires 2 <= radix <= 16
    ensures s != []
  {
    if n < radix then [HexChar(n)] else Digits(n / radix, radix) + [HexChar(n % radix)]
  }

  /** An IPv4 address in dotted decimal. */
  function Dotted(b: seq<byte>): string
    requires |b| == 4
  {
    Digits(b[0], 10) + "." + Digits(b[1], 10) + "." + Digits(b[2], 10) + "." + Digits(b[3], 10)
  }

  /** Where inet_pton4 has got to: finished octets, the one being read, and whether it has digits. */
  datatype V4 = V4(done: seq<byte>, cur: byte, saw: bool)

  function Octets(v: V4): nat
  {
    |v.done| + if v.saw then 1 else 0
  }

  /** One character of inet_pton4. */
  function Step4(v: V4, ch: char): Option<V4>
  {
    var d := DecValue(ch);
    if d >= 0 then
      if v.saw && v.cur == 0 then None
      else if v.cur * 10 + d > 255 then None
      else if !v.saw && Octets(v) + 1 > 4 then None
      else Some(V4(v.done, v.cur * 10 + d, true))
    else if ch == '.' && v.saw then
      if Octets(v) == 4 then None else Some(V4(v.done + [v.cur], 0, false))
    else None
  }

  function Read4(s: string, v: V4): Option<V4>
  {
    if s == [] then Some(v)
    else match Step4(v, s[0])
      case None => None
      case Some(w) => Read4(s[1..], w)
  }

  function Parse4(s: string): (r: Option<seq<byte>>)
    ensures r.Some? ==> |r.value| == 4
  {
    Read4Keeps(s, V4([], 0, false));
    match Read4(s, V4([], 0, false))
    case None => None
    case Some(v) => if Octets(v) < 4 then None else Some(v.done + [v.cur])
  }

  lemma {:induction false} Read4Keeps(s: string, v: V4)
    requires |v.done| <= 3
    ensures Read4(s, v).Some? ==> |Read4(s, v).value.done| <= 3
    decreases |s|
  {
    if s != [] {
      var w := Step4(v, s[0]);
      if w.Some? {
        Read4Keeps(s[1..], w.value);
      }
    }
  }

  lemma {:induction false} Read4Append(a: string, b: string, v: V4)
    ensures Read4(a + b, v) == match Read4(a, v) case None => None case Some(w) => Read4(b, w)
    decreases |a|
  {
    if a == [] {
      assert a + b == b;
    } else {
      assert (a + b)[1..] == a[1..] + b;
      var w := Step4(v, a[0]);
      if w.Some? {
        Read4Append(a[1..], b, w.value);
      }
    }
  }

  /** Reading back the digits of an octet. */
  lemma {:induction false} ReadOctet(n: byte, done: seq<byte>)
    requires |done| <= 3
    ensures Read4(Digits(n, 10), V4(done, 0, false)) == Some(V4(done, n, true))
    decreases n
  {
    if n < 10 {
      assert Digits(n, 10)[1..] == [];
      assert Read4([], V4(done, n, true)) == Some(V4(done, n, true));
    } else {
      var high, last := Digits(n / 10, 10), [HexChar(n % 10)];
      ReadOctet(n / 10, done);
      Read4Append(high, last, V4(done, 0, false));
      assert last[1..] == [];
      assert Read4(last, V4(done, n / 10, true)) == Read4([], V4(done, n, true));
    }
  }

  lemma ReadDot(done: seq<byte>, n: byte)
    requires |done| <= 2
    ensures Read4(".", V4(done, n, true)) == Some(V4(done + [n], 0, false))
  {
    assert "."[1..] == [];
  }

  /** inet_pton4 takes inet_ntop4 back. */
  lemma DottedBack(b: seq<byte>)
    requires |b| == 4
    ensures Parse4(Dotted(b)) == Some(b)
  {
    hide Digits, Step4;
    var d0, d1, d2, d3 := Digits(b[0], 10), Digits(b[1], 10), Digits(b[2], 10), Digits(b[3], 10);
    var v := V4([], 0, false);
    ReadOctet(b[0], []);
    ReadDot([], b[0]);
    Read4Append(d0, ".", v);
    assert [] + [b[0]] == [b[0]];
    ReadOctet(b[1], [b[0]]);
    Read4Append(d0 + ".", d1, v);
    ReadDot([b[0]], b[1]);
    assert [b[0]] + [b[1]] == [b[0], b[1]];
    Read4Append(d0 + "." + d1, ".", v);
    ReadOctet(b[2], [b[0], b[1]]);
    Read4Append(d0 + "." + d1 + ".", d2, v);
    ReadDot([b[0], b[1]], b[2]);
    assert [b[0], b[1]] + [b[2]] == [b[0], b[1], b[2]];
    Read4Append(d0 + "." + d1 + "." + d2, ".", v);
    ReadOctet(b[3], [b[0], b[1], b[2]]);
    Read4Append(d0 + "." + d1 + "." + d2 + ".", d3, v);
    assert [b[0], b[1], b[2]] + [b[3]] == b;
  }

  /** The eight words of an address. */
  function Word(b: seq<byte>, i: nat): (w: nat)
    requires |b| == 16 && i < 8
    ensures w < 0x10000
  {
    var high: int, low: int := b[2 * i], b[2 * i + 1];
    256 * high + low
  }

  /** Words `base` to `base + len` are zero. */
  predicate ZeroRun(b: seq<byte>, base: int, len: int)
    requires |b| == 16
  {
    0 <= base && 0 < len && base + len <= 8 && forall i :: base <= i < base + len ==> Word(b, i) == 0
  }

  /** The run that is elided: the first of the longest with at least two words, or none. */
  ghost predicate FirstLongest(b: seq<byte>, base: int, len: int)
    requires |b| == 16
  {
    if base == -1 then forall x, n :: ZeroRun(b, x, n) ==> n < 2
    else
      && ZeroRun(b, base, len) && len >= 2
      && forall x, n :: ZeroRun(b, x, n) ==> n <= len && (n == len ==> base <= x)
  }

  predicate Inside(base: int, len: int, i: int)
  {
    base != -1 && base <= i < base + len
  }

  /** Whether the last two words are written as an IPv4 address. */
  predicate Embedded(b: seq<byte>, base: int, len: int)
    requires |b| == 16
  {
    base == 0 && (len == 6 || (len == 7 && Word(b, 7) != 1) || (len == 5 && Word(b, 5) == 0xffff))
  }

  /** What inet_ntop6 writes from word `i` on. */
  function Written(b: seq<byte>, base: int, len: int, i: nat): string
    requires |b| == 16 && i <= 8
    decreases 8 - i
  {
    if i == 8 then if base != -1 && base + len == 8 then ":" else ""
    else if Inside(base, len, i) then (if i == base then ":" else "") + Written(b, base, len, i + 1)
    else
      (if i != 0 then ":" else "") +
      if i == 6 && Embedded(b, base, len)
      then Dotted(b[12..16]) + if base + len == 8 then ":" else ""
      else Digits(Word(b, i), 16) + Written(b, base, len, i + 1)
  }

  /** Where inet_pton6 has got to: bytes written, where :: was, digits and value of the group, and the text it began with. */
  datatype V6 = V6(out: seq<byte>, colon: int, seen: nat, val: nat, tok: string)

  function High(val: nat): byte { val / 256 % 256 }
  function Low(val: nat): byte { val % 256 }

  function Read6(s: string, v: V6): Option<V6>
    decreases |s|
  {
    if s == [] then Some(v)
    else
      var d, rest := HexValue(s[0]), s[1..];
      if d >= 0 then
        if v.seen + 1 > 4 then None else Read6(rest, v.(seen := v.seen + 1, val := v.val * 16 + d))
      else if s[0] == ':' then
        if v.seen == 0 then
          if v.colon >= 0 then None else Read6(rest, v.(colon := |v.out|, tok := rest))
        else if rest == [] then None
        else if |v.out| + 2 > 16 then None
        else Read6(rest, V6(v.out + [High(v.val), Low(v.val)], v.colon, 0, 0, rest))
      else if s[0] == '.' && |v.out| + 4 <= 16 then
        match Parse4(v.tok)
        case None => None
        case Some(four) => Some(v.(out := v.out + four, seen := 0))
      else None
  }

  /** The zeros that :: stands for go in, if that is what makes sixteen bytes. */
  function Filled(v: V6): Option<seq<byte>>
  {
    if v.colon >= 0 then
      if |v.out| >= 16 || v.colon > |v.out| then None
      else Some(v.out[..v.colon] + Zeros(16 - |v.out|) + v.out[v.colon..])
    else if |v.out| == 16 then Some(v.out) else None
  }

  function Ended(v: V6): Option<seq<byte>>
  {
    if v.seen > 0 then
      if |v.out| + 2 > 16 then None else Filled(v.(out := v.out + [High(v.val), Low(v.val)], seen := 0))
    else Filled(v)
  }

  function Outcome(r: Option<V6>): Option<seq<byte>>
  {
    if r.None? then None else Ended(r.value)
  }

  function Parse6(s: string): Option<seq<byte>>
  {
    if s != [] && s[0] == ':' then
      if |s| < 2 || s[1] != ':' then None else Outcome(Read6(s[1..], V6([], -1, 0, 0, s[1..])))
    else Outcome(Read6(s, V6([], -1, 0, 0, s)))
  }

  lemma ReadHex(t: string, v: V6)
    requires t != [] && HexValue(t[0]) >= 0 && v.seen < 4
    ensures Read6(t, v) == Read6(t[1..], v.(seen := v.seen + 1, val := v.val * 16 + HexValue(t[0])))
  {
    hide Parse4, HexValue;
  }

  /** One more digit of a group. */
  lemma ReadDigit(d: nat, rest: string, v: V6)
    requires d < 16 && v.seen < 4
    ensures Read6([HexChar(d)] + rest, v) == Read6(rest, v.(seen := v.seen + 1, val := v.val * 16 + d))
  {
    hide Read6, HexChar;
    var t := [HexChar(d)] + rest;
    assert t[0] == HexChar(d) && t[1..] == rest;
    ReadHex(t, v);
  }

  /** Reading back the hexadecimal digits of a group. */
  lemma {:induction false} ReadGroup(n: nat, k: nat, rest: string, v: V6)
    requires k >= 1 && n < Power16(k) && k <= 4 && v.seen == 0 && v.val == 0
    ensures 1 <= |Digits(n, 16)| <= k
    ensures Read6(Digits(n, 16) + rest, v) == Read6(rest, v.(seen := |Digits(n, 16)|, val := n))
    decreases k
  {
    hide Read6, HexChar;
    if n < 16 {
      ReadDigit(n, rest, v);
    } else {
      var high, last := Digits(n / 16, 16), [HexChar(n % 16)];
      ReadGroup(n / 16, k - 1, last + rest, v);
      assert high + last + rest == high + (last + rest);
      ReadDigit(n % 16, rest, v.(seen := |high|, val := n / 16));
    }
  }

  function Power16(k: nat): nat
  {
    if k == 0 then 1 else 16 * Power16(k - 1)
  }

  lemma GroupBound(n: nat)
    requires n < 0x10000
    ensures n < Power16(4)
  {
    assert Power16(4) == 16 * Power16(3) && Power16(3) == 16 * Power16(2) && Power16(2) == 16 * Power16(1);
  }

  /** The bytes of the words before `i`, but for the run. */
  function Kept(b: seq<byte>, base: int, len: int, i: nat): seq<byte>
    requires |b| == 16 && i <= 8
  {
    if i == 0 then []
    else if Inside(base, len, i - 1) then Kept(b, base, len, i - 1)
    else Kept(b, base, len, i - 1) + [b[2 * i - 2], b[2 * i - 1]]
  }

  lemma WordBytes(b: seq<byte>, i: nat)
    requires |b| == 16 && i < 8
    ensures High(Word(b, i)) == b[2 * i] && Low(Word(b, i)) == b[2 * i + 1]
  {
  }

  /** The parser's state after the text of the words before `i`, word `i - 1` not yet stored. */
  predicate Pending(v: V6, b: seq<byte>, base: int, len: int, i: nat)
    requires |b| == 16
  {
    && 1 <= i <= 8 && !Inside(base, len, i - 1)
    && v.out == Kept(b, base, len, i - 1) && 1 <= v.seen <= 4 && v.val == Word(b, i - 1)
    && v.colon == if base == -1 || i <= base then -1 else 2 * base
  }

  /** The state after the one colon that stands at the start of the run, unless the text begins with it. */
  predicate InRun(v: V6, b: seq<byte>, base: int, len: int, i: nat)
    requires |b| == 16
  {
    && base > -1 && base < i <= base + len && i <= 8 && v.seen == 0 && v.val == 0
    && v.out == Kept(b, base, len, i) && |v.out| == 2 * base && v.colon == -1
  }

  lemma {:induction false} KeptSize(b: seq<byte>, base: int, len: int, i: nat)
    requires |b| == 16 && i <= 8 && (base == -1 || (0 <= base && 0 < len && base + len <= 8))
    ensures |Kept(b, base, len, i)| ==
      if base == -1 || i <= base then 2 * i else if i <= base + len then 2 * base else 2 * (i - len)
  {
    if i > 0 {
      KeptSize(b, base, len, i - 1);
    }
  }

  lemma ZeroWord(b: seq<byte>, base: int, len: int, i: nat)
    requires |b| == 16 && ZeroRun(b, base, len) && base <= i < base + len
    ensures b[2 * i] == 0 && b[2 * i + 1] == 0
  {
    assert Word(b, i) == 0;
  }

  /** In the run nothing is kept. */
  lemma {:induction false} KeptRun(b: seq<byte>, base: int, len: int, i: nat)
    requires |b| == 16 && i <= 8 && ZeroRun(b, base, len) && base <= i <= base + len
    ensures Kept(b, base, len, i) == b[..2 * base]
    ensures b[2 * base..2 * i] == Zeros(2 * (i - base))
    ensures b[..2 * base] + Zeros(2 * (i - base)) == b[..2 * i]
  {
    if i > base {
      KeptRun(b, base, len, i - 1);
      ZeroWord(b, base, len, i - 1);
      assert b[2 * base..2 * i] == b[2 * base..2 * (i - 1)] + [0, 0];
      assert Zeros(2 * (i - base)) == Zeros(2 * (i - 1 - base)) + [0, 0];
    } else {
      KeptPrefix(b, base, len, i);
    }
    assert b[..2 * i] == b[..2 * base] + b[2 * base..2 * i];
  }

  lemma {:induction false} KeptPrefix(b: seq<byte>, base: int, len: int, i: nat)
    requires |b| == 16 && i <= 8 && i <= base
    ensures Kept(b, base, len, i) == b[..2 * i]
  {
    if i > 0 {
      KeptPrefix(b, base, len, i - 1);
    }
  }

  lemma {:induction false} KeptAfter(b: seq<byte>, base: int, len: int, i: nat)
    requires |b| == 16 && i <= 8 && ZeroRun(b, base, len) && base + len <= i
    ensures Kept(b, base, len, i) == b[..2 * base] + b[2 * (base + len)..2 * i]
  {
    if i == base + len {
      KeptRun(b, base, len, i);
    } else {
      KeptAfter(b, base, len, i - 1);
      assert b[2 * (base + len)..2 * i] == b[2 * (base + len)..2 * (i - 1)] + [b[2 * i - 2], b[2 * i - 1]];
    }
  }

  predicate RunOk(b: seq<byte>, base: int, len: int)
    requires |b| == 16
  {
    base == -1 || ZeroRun(b, base, len)
  }

  /** Once all words are in, filling the run with zeros gives the address. */
  lemma FilledBack(b: seq<byte>, base: int, len: int, v: V6)
    requires |b| == 16 && RunOk(b, base, len) && v.out == Kept(b, base, len, 8)
    requires v.colon == if base == -1 then -1 else 2 * base
    ensures Filled(v) == Some(b)
  {
    hide Kept, ZeroRun;
    if base == -1 {
      NoRunKept(b, len, 8);
      assert b[..16] == b;
    } else {
      RunEnds(b, base, len);
      KeptAfter(b, base, len, 8);
      KeptRun(b, base, len, base + len);
      FilledAround(b, 2 * base, 2 * (base + len), v);
    }
  }

  lemma FilledAround(b: seq<byte>, from: nat, to: nat, v: V6)
    requires |b| == 16 && from < to <= 16 && b[from..to] == Zeros(to - from)
    requires v.out == b[..from] + b[to..16] && v.colon == from
    ensures Filled(v) == Some(b)
  {
    assert v.out[..from] == b[..from] && v.out[from..] == b[to..16];
    assert b == b[..from] + b[from..to] + b[to..16];
  }

  lemma {:induction false} NoRunKept(b: seq<byte>, len: int, i: nat)
    requires |b| == 16 && i <= 8
    ensures Kept(b, -1, len, i) == b[..2 * i]
  {
    if i > 0 {
      NoRunKept(b, len, i - 1);
    }
  }

  /** Decimal digits, read as if they were hexadecimal: three at most for an octet. */
  lemma {:induction false} ReadDecimal(n: nat, k: nat, rest: string, v: V6) returns (val: nat)
    requires k >= 1 && n < Power10(k) && k <= 4 && v.seen == 0
    ensures 1 <= |Digits(n, 10)| <= k
    ensures Read6(Digits(n, 10) + rest, v) == Read6(rest, v.(seen := |Digits(n, 10)|, val := val))
    decreases k
  {
    hide Read6, HexChar;
    if n < 10 {
      val := v.val * 16 + n;
      ReadDigit(n, rest, v);
    } else {
      var high, last := Digits(n / 10, 10), [HexChar(n % 10)];
      var w := ReadDecimal(n / 10, k - 1, last + rest, v);
      val := w * 16 + n % 10;
      assert high + last + rest == high + (last + rest);
      ReadDigit(n % 10, rest, v.(seen := |high|, val := w));
    }
  }

  function Power10(k: nat): nat
  {
    if k == 0 then 1 else 10 * Power10(k - 1)
  }

  lemma OctetBound(n: byte)
    ensures n < Power10(3)
  {
    assert Power10(3) == 10 * Power10(2) && Power10(2) == 10 * Power10(1);
  }

  /** An IPv4 tail, whose text the parser goes back to from its first dot. */
  lemma ReadTail(b: seq<byte>, v: V6)
    requires |b| == 4 && v.seen == 0 && |v.out| <= 12 && v.tok == Dotted(b)
    ensures Outcome(Read6(Dotted(b), v)) == Filled(v.(out := v.out + b, seen := 0))
  {
    hide Digits;
    var first := Digits(b[0], 10);
    var rest := "." + Digits(b[1], 10) + "." + Digits(b[2], 10) + "." + Digits(b[3], 10);
    assert Dotted(b) == first + rest;
    OctetBound(b[0]);
    var val := ReadDecimal(b[0], 3, rest, v);
    DottedBack(b);
    assert rest[0] == '.';
    FilledByFields(v.(out := v.out + b, seen := 0, val := val), v.(out := v.out + b, seen := 0));
  }

  lemma FilledByFields(v: V6, w: V6)
    requires v.out == w.out && v.colon == w.colon
    ensures Filled(v) == Filled(w)
  {
  }

  /** A colon after a group stores the group. */
  lemma ReadColon(rest: string, v: V6)
    requires 1 <= v.seen && rest != [] && |v.out| <= 14
    ensures Read6(":" + rest, v) == Read6(rest, V6(v.out + [High(v.val), Low(v.val)], v.colon, 0, 0, rest))
  {
    assert (":" + rest)[1..] == rest;
  }

  /** A colon without a group before it is the second of ::. */
  lemma ReadSecondColon(rest: string, v: V6)
    requires v.seen == 0 && v.colon == -1
    ensures Read6(":" + rest, v) == Read6(rest, v.(colon := |v.out|, tok := rest))
  {
    assert (":" + rest)[1..] == rest;
  }

  /** Within the run and just after it the text goes on with a colon. */
  lemma {:induction false} ColonNext(b: seq<byte>, base: int, len: int, i: nat)
    requires |b| == 16 && ZeroRun(b, base, len) && base < i <= base + len
    ensures Written(b, base, len, i) != [] && Written(b, base, len, i)[0] == ':'
    decreases 8 - i
  {
    if i < base + len {
      ColonNext(b, base, len, i + 1);
    }
  }

  lemma NextWritten(b: seq<byte>, base: int, len: int, i: nat)
    requires |b| == 16 && i < 8 && !Inside(base, len, i)
    ensures Written(b, base, len, i) == (if i != 0 then ":" else "") +
      if i == 6 && Embedded(b, base, len)
      then Dotted(b[12..16]) + if base + len == 8 then ":" else ""
      else Digits(Word(b, i), 16) + Written(b, base, len, i + 1)
  {
  }

  /** From this state the rest of the text leads to the address. */
  predicate LeadsBack(v: V6, b: seq<byte>, base: int, len: int, i: nat)
    requires |b| == 16 && i <= 8
  {
    Outcome(Read6(Written(b, base, len, i), v)) == Some(b)
  }

  /** So it does from any state with word `i - 1` pending. */
  ghost predicate Resumes(b: seq<byte>, base: int, len: int, i: nat)
    requires |b| == 16 && i <= 8
  {
    forall w: V6 :: Pending(w, b, base, len, i) ==> LeadsBack(w, b, base, len, i)
  }

  /** A group and what follows it. */
  lemma ReadWord(b: seq<byte>, base: int, len: int, i: nat, v: V6)
    requires |b| == 16 && RunOk(b, base, len) && i < 8 && !Inside(base, len, i)
    requires v.seen == 0 && v.val == 0 && v.out == Kept(b, base, len, i)
    requires v.colon == if base == -1 || i <= base then -1 else 2 * base
    requires Resumes(b, base, len, i + 1)
    ensures Outcome(Read6(Digits(Word(b, i), 16) + Written(b, base, len, i + 1), v)) == Some(b)
  {
    hide Digits, Written, Kept;
    GroupBound(Word(b, i));
    ReadGroup(Word(b, i), 4, Written(b, base, len, i + 1), v);
    var w := v.(seen := |Digits(Word(b, i), 16)|, val := Word(b, i));
    assert Pending(w, b, base, len, i + 1);
  }

  /** The embedded IPv4 address at the end. */
  lemma ReadEmbedded(b: seq<byte>, base: int, len: int, v: V6)
    requires |b| == 16 && RunOk(b, base, len) && Embedded(b, base, len) && !Inside(base, len, 6)
    requires v.seen == 0 && v.out == Kept(b, base, len, 6) && v.colon == 2 * base
    requires v.tok == Dotted(b[12..16])
    ensures base + len != 8
    ensures Outcome(Read6(Dotted(b[12..16]), v)) == Some(b)
  {
    hide Kept, Read6, Dotted, Filled, Ended;
    TailOutside(b, base, len);
    KeptSize(b, base, len, 6);
    ReadTail(b[12..16], v);
    KeptSteps(b, base, len, 6);
    KeptSteps(b, base, len, 7);
    assert b[12..16] == [b[12], b[13]] + [b[14], b[15]];
    assert v.out + b[12..16] == Kept(b, base, len, 8);
    FilledBack(b, base, len, v.(out := v.out + b[12..16], seen := 0));
  }

  lemma TailOutside(b: seq<byte>, base: int, len: int)
    requires |b| == 16 && Embedded(b, base, len) && RunOk(b, base, len) && !Inside(base, len, 6)
    ensures base == 0 && len <= 6 && !Inside(base, len, 7)
  {
  }

  /** From just inside the run, its colon behind, the rest of the text leads to the address. */
  lemma {:induction false} FromRun(b: seq<byte>, base: int, len: int, i: nat, v: V6)
    requires |b| == 16 && ZeroRun(b, base, len) && InRun(v, b, base, len, i)
    ensures LeadsBack(v, b, base, len, i)
    decreases 8 - i, 0
  {
    hide Digits, Read6, ZeroRun, Kept;
    RunEnds(b, base, len);
    if i == 8 {
      FromRunToEnd(b, base, len, v);
    } else if i < base + len {
      KeptSteps(b, base, len, i);
      assert Written(b, base, len, i) == Written(b, base, len, i + 1);
      FromRun(b, base, len, i + 1, v);
    } else {
      var rest := Written(b, base, len, i)[1..];
      NextWritten(b, base, len, i);
      assert Written(b, base, len, i) == ":" + rest;
      ReadSecondColon(rest, v);
      var w := v.(colon := |v.out|, tok := rest);
      if i == 6 && Embedded(b, base, len) {
        ReadEmbedded(b, base, len, w);
        assert rest == Dotted(b[12..16]);
      } else {
        AllResume(b, base, len, i + 1);
        ReadWord(b, base, len, i, w);
        assert rest == Digits(Word(b, i), 16) + Written(b, base, len, i + 1);
      }
    }
  }

  lemma RunEnds(b: seq<byte>, base: int, len: int)
    requires |b| == 16 && ZeroRun(b, base, len)
    ensures 0 <= base && 0 < len && base + len <= 8
  {
  }

  lemma KeptSteps(b: seq<byte>, base: int, len: int, i: nat)
    requires |b| == 16 && i < 8
    ensures Kept(b, base, len, i + 1) ==
      if Inside(base, len, i) then Kept(b, base, len, i) else Kept(b, base, len, i) + [b[2 * i], b[2 * i + 1]]
  {
  }

  lemma FromRunToEnd(b: seq<byte>, base: int, len: int, v: V6)
    requires |b| == 16 && ZeroRun(b, base, len) && InRun(v, b, base, len, 8)
    ensures LeadsBack(v, b, base, len, 8)
  {
    ReadSecondColon("", v);
    assert ":" + "" == ":";
    FilledBack(b, base, len, v.(colon := |v.out|, tok := ""));
  }

  lemma {:induction false} AllResume(b: seq<byte>, base: int, len: int, i: nat)
    requires |b| == 16 && RunOk(b, base, len) && 1 <= i <= 8
    ensures Resumes(b, base, len, i)
    decreases 8 - i, 2
  {
    forall v: V6 | Pending(v, b, base, len, i) ensures LeadsBack(v, b, base, len, i) {
      FromGroup(b, base, len, i, v);
    }
  }

  /** From a state with a group pending, likewise. */
  lemma {:induction false} FromGroup(b: seq<byte>, base: int, len: int, i: nat, v: V6)
    requires |b| == 16 && RunOk(b, base, len) && Pending(v, b, base, len, i)
    ensures LeadsBack(v, b, base, len, i)
    decreases 8 - i, 1
  {
    hide Digits, Read6, ZeroRun, Kept, Dotted, Outcome, High, Low;
    if base != -1 { RunEnds(b, base, len); }
    KeptSize(b, base, len, i - 1);
    KeptSteps(b, base, len, i - 1);
    WordBytes(b, i - 1);
    if i == 8 {
      LastGroup(b, base, len, v);
    } else if Inside(base, len, i) {
      KeptSteps(b, base, len, i);
      FromRunStart(b, base, len, i, v);
    } else {
      FromNextGroup(b, base, len, i, v);
    }
  }

  /** The group pending is followed by the run. */
  lemma {:induction false} FromRunStart(b: seq<byte>, base: int, len: int, i: nat, v: V6)
    requires |b| == 16 && RunOk(b, base, len) && Pending(v, b, base, len, i) && i < 8 && Inside(base, len, i)
    requires |v.out| == 2 * i - 2 && v.out + [High(v.val), Low(v.val)] == Kept(b, base, len, i) == Kept(b, base, len, i + 1)
    ensures LeadsBack(v, b, base, len, i)
    decreases 8 - i, 0
  {
    hide Digits, Read6, ZeroRun, Kept, Dotted, Outcome, High, Low;
    RunEnds(b, base, len);
    var rest := Written(b, base, len, i)[1..];
    ColonNext(b, base, len, i + 1);
    assert Written(b, base, len, i) == ":" + rest && rest == Written(b, base, len, i + 1);
    ReadColon(rest, v);
    FromRun(b, base, len, i + 1, V6(v.out + [High(v.val), Low(v.val)], v.colon, 0, 0, rest));
  }

  /** The group pending is followed by another, or by the IPv4 tail. */
  lemma {:induction false} FromNextGroup(b: seq<byte>, base: int, len: int, i: nat, v: V6)
    requires |b| == 16 && RunOk(b, base, len) && Pending(v, b, base, len, i) && i < 8 && !Inside(base, len, i)
    requires |v.out| <= 14 && v.out + [High(v.val), Low(v.val)] == Kept(b, base, len, i)
    ensures LeadsBack(v, b, base, len, i)
    decreases 8 - i, 0
  {
    hide Digits, Read6, ZeroRun, Kept, Dotted, Outcome;
    var rest := Written(b, base, len, i)[1..];
    var w := V6(v.out + [High(v.val), Low(v.val)], v.colon, 0, 0, rest);
    NextWritten(b, base, len, i);
    NotEmpty(b, base, len, i);
    assert Written(b, base, len, i) == ":" + rest;
    ReadColon(rest, v);
    if i == 6 && Embedded(b, base, len) {
      RunEnds(b, base, len);
      ReadEmbedded(b, base, len, w);
      assert rest == Dotted(b[12..16]);
    } else {
      AllResume(b, base, len, i + 1);
      ReadWord(b, base, len, i, w);
      assert rest == Digits(Word(b, i), 16) + Written(b, base, len, i + 1);
    }
  }

  lemma NotEmpty(b: seq<byte>, base: int, len: int, i: nat)
    requires |b| == 16 && 0 < i < 8 && !Inside(base, len, i)
    ensures |Written(b, base, len, i)| > 1 && Written(b, base, len, i)[0] == ':'
  {
    hide Digits;
    NextWritten(b, base, len, i);
  }

  lemma LastGroup(b: seq<byte>, base: int, len: int, v: V6)
    requires |b| == 16 && RunOk(b, base, len) && Pending(v, b, base, len, 8)
    ensures LeadsBack(v, b, base, len, 8)
  {
    KeptSize(b, base, len, 7);
    WordBytes(b, 7);
    FilledBack(b, base, len, v.(out := v.out + [High(v.val), Low(v.val)], seen := 0));
  }

  /** inet_pton6 takes inet_ntop6 back, whichever run of zeros was elided, and whether the tail is dotted or not. */
  lemma WrittenBack(b: seq<byte>, base: int, len: int)
    requires |b| == 16 && RunOk(b, base, len)
    ensures Parse6(Written(b, base, len, 0)) == Some(b)
  {
    hide Digits, Read6;
    var s := Written(b, base, len, 0);
    if base == 0 {
      ColonNext(b, base, len, 1);
      KeptSteps(b, base, len, 0);
      assert s == ":" + Written(b, base, len, 1);
      assert s[1..] == Written(b, base, len, 1);
      FromRun(b, base, len, 1, V6([], -1, 0, 0, s[1..]));
    } else {
      NextWritten(b, base, len, 0);
      assert s == Digits(Word(b, 0), 16) + Written(b, base, len, 1);
      FirstDigit(Word(b, 0), 16);
      AllResume(b, base, len, 1);
      ReadWord(b, base, len, 0, V6([], -1, 0, 0, s));
    }
  }

  lemma {:induction false} FirstDigit(n: nat, radix: nat)
    requires 2 <= radix <= 16
    ensures HexValue(Digits(n, radix)[0]) >= 0
    decreases n
  {
    if n >= radix {
      FirstDigit(n / radix, radix);
    }
  }
}
