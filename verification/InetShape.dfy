/**
  What the texts look like.  Printed addresses use lower-case digits without
  leading zeros (sections 4.1 and 4.3 of RFC 5952) and end in dotted decimal
  exactly when they embed an IPv4 address; dotted decimal is parsed only in the
  form it is printed in.
 */
module InetShape {
  import opened Options
  import opened ByteStreams
  import opened InetText

  predicate Separator(ch: char) { ch == ':' || ch == '.' }

  predicate PlainChar(ch: char)
  {
    '0' <= ch <= '9' || 'a' <= ch <= 'f' || Separator(ch)
  }

  predicate Plain(s: string)
  {
    forall p :: 0 <= p < |s| ==> PlainChar(s[p])
  }

  /** A zero at the start of a number is all of it. */
  predicate ZeroAlone(s: string, p: nat)
    requires p < |s|
  {
    s[p] == '0' && (p == 0 || Separator(s[p - 1])) ==> p + 1 == |s| || Separator(s[p + 1])
  }

  predicate Tidy(s: string)
  {
    forall p :: 0 <= p < |s| ==> ZeroAlone(s, p)
  }

  lemma TidyConcat(a: string, b: string)
    requires Tidy(a) && Tidy(b)
    requires a == [] || b == [] || Separator(a[|a| - 1]) || Separator(b[0])
    ensures Tidy(a + b)
  {
    forall p | 0 <= p < |a + b| ensures ZeroAlone(a + b, p) {
      if p < |a| {
        assert ZeroAlone(a, p);
      } else {
        assert ZeroAlone(b, p - |a|);
      }
    }
  }

  lemma PlainConcat(a: string, b: string)
    requires Plain(a) && Plain(b)
    ensures Plain(a + b)
  {
    hide PlainChar;
  }

  /** Numbers are lower-case digits, the first of them not a zero unless the number is. */
  lemma {:induction false} DigitsShape(n: nat, radix: nat)
    requires 2 <= radix <= 16
    ensures var d := Digits(n, radix);
      && (forall p :: 0 <= p < |d| ==> '0' <= d[p] <= '9' || 'a' <= d[p] <= 'f')
      && (d[0] == '0' ==> n == 0 && |d| == 1)
    decreases n
  {
    hide HexChar;
    if n < radix {
      HexCharShape(n);
    } else {
      HigherDigits(n, radix);
      HexCharShape(n % radix);
      DigitsShape(n / radix, radix);
      var high := Digits(n / radix, radix);
      assert Digits(n, radix) == high + [HexChar(n % radix)] && Digits(n, radix)[0] == high[0];
    }
  }

  lemma HigherDigits(n: nat, radix: nat)
    requires 2 <= radix <= n
    ensures 1 <= n / radix < n && 0 <= n % radix < radix
  {
  }

  lemma HexCharShape(d: nat)
    requires d < 16
    ensures '0' <= HexChar(d) <= '9' || 'a' <= HexChar(d) <= 'f'
    ensures HexChar(d) == '0' <==> d == 0
  {
  }

  lemma NumberShape(n: nat, radix: nat)
    requires 2 <= radix <= 16
    ensures Plain(Digits(n, radix)) && Tidy(Digits(n, radix)) && '.' !in Digits(n, radix)
  {
    hide Digits;
    DigitsShape(n, radix);
  }

  /** One piece more. */
  lemma Joined(a: string, b: string)
    requires Plain(a) && Tidy(a) && Plain(b) && Tidy(b)
    requires a == [] || b == [] || Separator(a[|a| - 1]) || Separator(b[0])
    ensures Plain(a + b) && Tidy(a + b)
  {
    PlainConcat(a, b);
    TidyConcat(a, b);
  }

  lemma DottedShape(b: seq<byte>)
    requires |b| == 4
    ensures Plain(Dotted(b)) && Tidy(Dotted(b)) && '.' in Dotted(b) && !Separator(Dotted(b)[0])
  {
    hide Digits, Tidy, Plain;
    var d0, d1, d2, d3 := Digits(b[0], 10), Digits(b[1], 10), Digits(b[2], 10), Digits(b[3], 10);
    NumberShape(b[0], 10);
    NumberShape(b[1], 10);
    NumberShape(b[2], 10);
    NumberShape(b[3], 10);
    OneSeparator('.');
    Joined(d0, ".");
    Joined(d0 + ".", d1);
    Joined(d0 + "." + d1, ".");
    Joined(d0 + "." + d1 + ".", d2);
    Joined(d0 + "." + d1 + "." + d2, ".");
    Joined(d0 + "." + d1 + "." + d2 + ".", d3);
    FirstDigitPlain(b[0], 10);
    assert Dotted(b)[|d0|] == '.' && Dotted(b)[0] == d0[0];
  }

  lemma FirstDigitPlain(n: nat, radix: nat)
    requires 2 <= radix <= 16
    ensures !Separator(Digits(n, radix)[0])
  {
    DigitsShape(n, radix);
  }

  lemma OneSeparator(ch: char)
    requires Separator(ch)
    ensures Plain([ch]) && Tidy([ch])
  {
  }

  lemma Nothing()
    ensures Plain("") && Tidy("")
  {
  }

  /** What is written after the first word is nothing or starts with a colon. */
  lemma {:induction false} ThenColon(b: seq<byte>, base: int, len: int, i: nat)
    requires |b| == 16 && RunOk(b, base, len) && 1 <= i <= 8
    ensures Written(b, base, len, i) == [] || Written(b, base, len, i)[0] == ':'
    decreases 8 - i
  {
    hide Digits, Dotted;
    if i < 8 {
      ThenColon(b, base, len, i + 1);
    }
  }

  /** The text of the words from `i` on; it has a dot exactly if the tail is an IPv4 address still to come. */
  lemma {:induction false} WrittenShape(b: seq<byte>, base: int, len: int, i: nat)
    requires |b| == 16 && RunOk(b, base, len) && i <= 8
    ensures var s := Written(b, base, len, i);
      Plain(s) && Tidy(s) && ('.' in s <==> i <= 6 && Embedded(b, base, len) && !Inside(base, len, 6))
    decreases 8 - i
  {
    hide Digits, Dotted, Plain, Tidy, Embedded, Word, RunOk;
    Nothing();
    OneSeparator(':');
    if i < 8 {
      var rest := Written(b, base, len, i + 1);
      WrittenShape(b, base, len, i + 1);
      ThenColon(b, base, len, i + 1);
      var lead := if i != 0 then ":" else "";
      if Inside(base, len, i) {
        Joined(if i == base then ":" else "", rest);
      } else if i == 6 && Embedded(b, base, len) {
        DottedTail(b, base, len, lead);
      } else {
        GroupShape(Word(b, i), lead, rest);
        assert Written(b, base, len, i) == lead + (Digits(Word(b, i), 16) + rest);
      }
    }
  }

  lemma GroupShape(n: nat, lead: string, rest: string)
    requires (lead == "" || lead == ":") && Plain(rest) && Tidy(rest) && (rest == "" || rest[0] == ':')
    ensures var s := lead + (Digits(n, 16) + rest);
      Plain(s) && Tidy(s) && ('.' in s <==> '.' in rest)
  {
    hide Digits, Plain, Tidy;
    Nothing();
    OneSeparator(':');
    NumberShape(n, 16);
    Joined(Digits(n, 16), rest);
    FirstDigitPlain(n, 16);
    Joined(lead, Digits(n, 16) + rest);
  }

  lemma DottedTail(b: seq<byte>, base: int, len: int, lead: string)
    requires |b| == 16 && (lead == "" || lead == ":")
    ensures var s := lead + (Dotted(b[12..16]) + if base + len == 8 then ":" else "");
      Plain(s) && Tidy(s) && '.' in s
  {
    hide Digits, Dotted, Plain, Tidy;
    Nothing();
    OneSeparator(':');
    var d, end := Dotted(b[12..16]), if base + len == 8 then ":" else "";
    DottedShape(b[12..16]);
    Joined(d, end);
    Joined(lead, d + end);
  }

  /** The addresses that are printed with dotted decimal: ten zero bytes, then zeros or 0xffff, and not too small. */
  predicate Compatible(b: seq<byte>)
    requires |b| == 16
  {
    && (forall k :: 0 <= k < 5 ==> Word(b, k) == 0)
    && (Word(b, 5) == 0xffff || (Word(b, 5) == 0 && Word(b, 6) != 0))
  }

  /** With the run that is elided, just these embed an IPv4 address. */
  lemma EmbeddedIs(b: seq<byte>, base: int, len: int)
    requires |b| == 16 && FirstLongest(b, base, len)
    ensures Embedded(b, base, len) && !Inside(base, len, 6) <==> Compatible(b)
  {
    hide Word;
    if Compatible(b) {
      var n := if Word(b, 5) == 0 then 6 else 5;
      FirstRun(b, base, len, n);
    } else if Embedded(b, base, len) && !Inside(base, len, 6) {
      AllZero(b, base, len);
      if len == 6 {
        NoSeventh(b, base, len);
      }
    }
  }

  /** A run of five or six words at the start is the one elided. */
  lemma FirstRun(b: seq<byte>, base: int, len: int, n: nat)
    requires |b| == 16 && FirstLongest(b, base, len) && 5 <= n <= 6 && ZeroRun(b, 0, n) && Word(b, n) != 0
    ensures base == 0 && len == n
  {
    hide Word;
    assert base != -1;
    RunEnds(b, base, len);
    assert len >= n;
    assert !(base <= n < base + len);
  }

  lemma AllZero(b: seq<byte>, base: int, len: int)
    requires |b| == 16 && FirstLongest(b, base, len) && base != -1
    ensures 0 <= base && base + len <= 8 && forall k :: base <= k < base + len ==> Word(b, k) == 0
  {
    hide Word;
  }

  /** The run ends where it says. */
  lemma NoSeventh(b: seq<byte>, base: int, len: int)
    requires |b| == 16 && FirstLongest(b, base, len) && base == 0 && len == 6
    ensures Word(b, 6) != 0
  {
    hide Word;
    AllZero(b, base, len);
    assert Word(b, 6) == 0 ==> ZeroRun(b, 0, 7);
  }

  /** Dotted decimal as far as it has been read. */
  function Shown(v: V4): string
  {
    Octets4(v.done) + if v.saw then Digits(v.cur, 10) else ""
  }

  function Octets4(done: seq<byte>): string
  {
    if done == [] then "" else Octets4(done[..|done| - 1]) + (Digits(done[|done| - 1], 10) + ".")
  }

  lemma StepShows(v: V4, ch: char)
    requires Step4(v, ch).Some? && (!v.saw ==> v.cur == 0)
    ensures Shown(Step4(v, ch).value) == Shown(v) + [ch]
    ensures !Step4(v, ch).value.saw ==> Step4(v, ch).value.cur == 0
  {
    var w := Step4(v, ch).value;
    if DecValue(ch) >= 0 {
      DecimalChar(ch);
      if v.saw {
        assert Digits(w.cur, 10) == Digits(v.cur, 10) + [HexChar(DecValue(ch))];
      } else {
        assert Digits(w.cur, 10) == [HexChar(DecValue(ch))];
      }
    } else {
      assert w.done[..|v.done|] == v.done;
    }
  }

  lemma DecimalChar(ch: char)
    requires DecValue(ch) >= 0
    ensures HexChar(DecValue(ch)) == ch
  {
  }

  /** What is read is what is shown. */
  lemma {:induction false} ReadShows(s: string, v: V4)
    requires Read4(s, v).Some? && (!v.saw ==> v.cur == 0)
    ensures Shown(Read4(s, v).value) == Shown(v) + s
    decreases |s|
  {
    hide Step4, Shown;
    if s != [] {
      StepShows(v, s[0]);
      ReadShows(s[1..], Step4(v, s[0]).value);
      assert s == [s[0]] + s[1..];
      assert Shown(v) + [s[0]] + s[1..] == Shown(v) + ([s[0]] + s[1..]);
    } else {
      assert Shown(v) + s == Shown(v);
    }
  }

  /** The only text read as an address is the one printed for it: no signs, spaces, leading zeros or missing octets. */
  lemma Parse4Exact(s: string, b: seq<byte>)
    ensures Parse4(s) == Some(b) <==> |b| == 4 && s == Dotted(b)
  {
    hide Digits, Read4, Shown;
    if Parse4(s) == Some(b) {
      var start := V4([], 0, false);
      Read4Keeps(s, start);
      ReadShows(s, start);
      FourShown(Read4(s, start).value);
      NothingShown();
      assert "" + s == s;
    } else if |b| == 4 && s == Dotted(b) {
      DottedBack(b);
    }
  }

  lemma NothingShown()
    ensures Shown(V4([], 0, false)) == ""
  {
  }

  lemma FourShown(v: V4)
    requires |v.done| <= 3 && Octets(v) >= 4
    ensures Shown(v) == Dotted(v.done + [v.cur])
  {
    hide Digits;
    var d, b := v.done, v.done + [v.cur];
    assert d[..2][..1] == d[..1] && d[..1][..0] == [] && d[..3][..2] == d[..2] && d[..3] == d;
    assert Octets4(d[..0]) == "";
    assert Octets4(d[..1]) == Octets4(d[..0]) + (Digits(d[0], 10) + ".");
    assert Octets4(d[..2]) == Octets4(d[..1]) + (Digits(d[1], 10) + ".");
    assert Octets4(d[..3]) == Octets4(d[..2]) + (Digits(d[2], 10) + ".");
  }
}
