/**
  Which texts inet_pton6 takes, said without the parser: groups of one to four
  hexadecimal digits between colons, at most one pair of colons for a run of
  zeros, and perhaps an IPv4 address at the end (section 2.2 of RFC 4291).
 */
module InetGrammar {
  import opened Options
  import opened ByteStreams
  import opened InetText
  import opened InetShape

  datatype Piece = Group(digits: string) | Quad(four: seq<byte>)

  predicate AllHex(g: string)
  {
    forall i :: 0 <= i < |g| ==> HexValue(g[i]) >= 0
  }

  /** The number that hexadecimal digits after `val` spell. */
  function Hex(val: nat, g: string): nat
    requires AllHex(g)
    decreases |g|
  {
    if g == [] then val else Hex(val * 16 + HexValue(g[0]), g[1..])
  }

  predicate PieceOk(p: Piece)
  {
    match p
    case Group(g) => 1 <= |g| <= 4 && AllHex(g)
    case Quad(four) => |four| == 4
  }

  function PieceText(p: Piece): (s: string)
    requires PieceOk(p)
  {
    match p
    case Group(g) => g
    case Quad(four) => Dotted(four)
  }

  function PieceBytes(p: Piece): (b: seq<byte>)
    requires PieceOk(p)
  {
    match p
    case Group(g) => [High(Hex(0, g)), Low(Hex(0, g))]
    case Quad(four) => four
  }

  /** Only the last piece may be in dotted decimal. */
  predicate PiecesOk(ps: seq<Piece>)
  {
    forall i :: 0 <= i < |ps| ==> PieceOk(ps[i]) && (ps[i].Quad? ==> i == |ps| - 1)
  }

  predicate GroupsOk(ps: seq<Piece>)
  {
    forall i :: 0 <= i < |ps| ==> PieceOk(ps[i]) && ps[i].Group?
  }

  function Join(ps: seq<Piece>): string
    requires PiecesOk(ps)
  {
    if ps == [] then "" else if |ps| == 1 then PieceText(ps[0]) else PieceText(ps[0]) + ":" + Join(ps[1..])
  }

  function Bytes(ps: seq<Piece>): seq<byte>
    requires PiecesOk(ps)
  {
    if ps == [] then [] else PieceBytes(ps[0]) + Bytes(ps[1..])
  }

  /** An address as it may be written: pieces, or pieces before and after a run of zeros. */
  datatype Form = Whole(pieces: seq<Piece>) | Elided(left: seq<Piece>, right: seq<Piece>)

  predicate FormOk(f: Form)
  {
    match f
    case Whole(ps) => PiecesOk(ps) && |Bytes(ps)| == 16
    case Elided(left, right) => GroupsOk(left) && PiecesOk(right) && |Bytes(left)| + |Bytes(right)| < 16
  }

  function FormText(f: Form): string
    requires FormOk(f)
  {
    match f
    case Whole(ps) => Join(ps)
    case Elided(left, right) => Join(left) + "::" + Join(right)
  }

  function FormValue(f: Form): (b: seq<byte>)
    requires FormOk(f)
    ensures |b| == 16
  {
    match f
    case Whole(ps) => Bytes(ps)
    case Elided(left, right) => Bytes(left) + Zeros(16 - |Bytes(left)| - |Bytes(right)|) + Bytes(right)
  }

  /** Groups, each with the colon after it. */
  function Colons(ps: seq<Piece>): string
    requires GroupsOk(ps)
  {
    if ps == [] then "" else ps[0].digits + ":" + Colons(ps[1..])
  }

  lemma {:induction false} ColonsJoin(ps: seq<Piece>)
    requires GroupsOk(ps) && ps != []
    ensures Colons(ps) == Join(ps) + ":"
  {
    if |ps| == 1 {
      assert Colons(ps[1..]) == "" && ps[0].digits + ":" + "" == ps[0].digits + ":";
    } else {
      ColonsJoin(ps[1..]);
      assert ps[0].digits + ":" + (Join(ps[1..]) + ":") == ps[0].digits + ":" + Join(ps[1..]) + ":";
    }
  }

  /** The parser at the start of a piece. */
  predicate Fresh(v: V6, s: string)
  {
    v.seen == 0 && v.val == 0 && v.tok == s && v.colon <= |v.out|
  }

  /** Reading the digits of a group. */
  lemma {:induction false} ReadRun(g: string, rest: string, v: V6)
    requires AllHex(g) && v.seen + |g| <= 4
    ensures Read6(g + rest, v) == Read6(rest, v.(seen := v.seen + |g|, val := Hex(v.val, g)))
    decreases |g|
  {
    hide Read6, HexValue;
    if g == [] {
      assert g + rest == rest;
    } else {
      assert (g + rest)[1..] == g[1..] + rest;
      ReadHex(g + rest, v);
      ReadRun(g[1..], rest, v.(seen := v.seen + 1, val := v.val * 16 + HexValue(g[0])));
    }
  }

  /** Reading groups that more follows. */
  lemma {:induction false} ReadGroups(ps: seq<Piece>, rest: string, v: V6)
    requires GroupsOk(ps) && rest != "" && Fresh(v, Colons(ps) + rest) && |v.out| + |Bytes(ps)| <= 16
    ensures Read6(Colons(ps) + rest, v) == Read6(rest, v.(out := v.out + Bytes(ps), tok := rest))
    decreases |ps|
  {
    hide Read6, Hex, High, Low;
    if ps == [] {
      assert Colons(ps) + rest == rest && v.out + Bytes(ps) == v.out;
    } else {
      var g, more := ps[0].digits, Colons(ps[1..]) + rest;
      assert Colons(ps) + rest == g + (":" + more);
      ReadRun(g, ":" + more, v);
      var w := v.(seen := |g|, val := Hex(0, g));
      ReadColon(more, w);
      var u := V6(v.out + PieceBytes(ps[0]), v.colon, 0, 0, more);
      ReadGroups(ps[1..], rest, u);
      assert v.out + Bytes(ps) == u.out + Bytes(ps[1..]);
    }
  }

  lemma FirstPiece(ps: seq<Piece>)
    requires PiecesOk(ps) && ps != []
    ensures PiecesOk(ps[1..]) && Bytes(ps) == PieceBytes(ps[0]) + Bytes(ps[1..])
    ensures Join(ps) == if |ps| == 1 then PieceText(ps[0]) else PieceText(ps[0]) + ":" + Join(ps[1..])
  {
  }

  lemma FirstColon(ps: seq<Piece>)
    requires GroupsOk(ps) && ps != []
    ensures GroupsOk(ps[1..]) && Colons(ps) == ps[0].digits + ":" + Colons(ps[1..])
    ensures PieceText(ps[0]) == ps[0].digits
  {
  }

  lemma {:induction false} LastPiece(ps: seq<Piece>)
    requires PiecesOk(ps) && ps != []
    ensures var k := |ps| - 1;
      GroupsOk(ps[..k]) && Bytes(ps) == Bytes(ps[..k]) + PieceBytes(ps[k]) && Join(ps) == Colons(ps[..k]) + PieceText(ps[k])
    decreases |ps|
  {
    hide PieceText, PieceBytes, Bytes, Join, Colons;
    var k := |ps| - 1;
    FirstPiece(ps);
    if k == 0 {
      NothingJoined();
      assert ps[1..] == [] && ps[..0] == [];
      assert PieceBytes(ps[0]) + [] == [] + PieceBytes(ps[0]) && "" + PieceText(ps[0]) == PieceText(ps[0]);
    } else {
      LastPiece(ps[1..]);
      assert ps[1..][..k - 1] == ps[..k][1..] && ps[1..][k - 1] == ps[k];
      FirstPiece(ps[..k]);
      FirstColon(ps[..k]);
      SameEnds(PieceText(ps[0]) + ":", Colons(ps[..k][1..]), PieceText(ps[k]));
      SameEnds(PieceBytes(ps[0]), Bytes(ps[..k][1..]), PieceBytes(ps[k]));
    }
  }

  lemma SameEnds<T>(a: seq<T>, b: seq<T>, c: seq<T>)
    ensures a + (b + c) == a + b + c
  {
  }

  lemma GroupText(p: Piece)
    requires PieceOk(p) && p.Group?
    ensures PieceText(p) == p.digits
  {
  }

  /** Reading the last piece. */
  lemma ReadLast(p: Piece, v: V6)
    requires PieceOk(p) && Fresh(v, PieceText(p)) && |v.out| + |PieceBytes(p)| <= 16
    ensures Outcome(Read6(PieceText(p), v)) == Filled(v.(out := v.out + PieceBytes(p), seen := 0, val := 0, tok := ""))
  {
    hide Read6, Dotted, Filled, Hex, High, Low;
    match p
    case Group(g) =>
      assert g + "" == g;
      ReadRun(g, "", v);
      NoMore(v.(seen := |g|, val := Hex(0, g)));
      FilledByFields(v.(out := v.out + PieceBytes(p), seen := 0, val := Hex(0, g)), v.(out := v.out + PieceBytes(p), seen := 0, val := 0, tok := ""));
    case Quad(four) =>
      ReadTail(four, v);
      FilledByFields(v.(out := v.out + four, seen := 0), v.(out := v.out + four, seen := 0, val := 0, tok := ""));
  }

  lemma NoMore(v: V6)
    ensures Read6("", v) == Some(v)
  {
  }

  lemma EndedFresh(v: V6)
    requires v.seen == 0
    ensures Ended(v) == Filled(v)
  {
  }

  /** Reading all the pieces to the end of the text. */
  lemma ReadPieces(ps: seq<Piece>, v: V6)
    requires PiecesOk(ps) && Fresh(v, Join(ps)) && |v.out| + |Bytes(ps)| <= 16
    ensures Outcome(Read6(Join(ps), v)) == Filled(v.(out := v.out + Bytes(ps), seen := 0, val := 0, tok := ""))
  {
    hide Read6, Filled, Ended, Dotted, PieceBytes, PieceText, Bytes, Join, Colons;
    if ps == [] {
      NothingJoined();
      NoMore(v);
      EndedFresh(v);
      assert v.out + Bytes(ps) == v.out;
      FilledByFields(v, v.(out := v.out + Bytes(ps), seen := 0, val := 0, tok := ""));
    } else {
      var k := |ps| - 1;
      LastPiece(ps);
      PieceNotEmpty(ps[k]);
      ReadGroups(ps[..k], PieceText(ps[k]), v);
      var w := v.(out := v.out + Bytes(ps[..k]), tok := PieceText(ps[k]));
      ReadLast(ps[k], w);
      assert w.out + PieceBytes(ps[k]) == v.out + Bytes(ps);
    }
  }

  lemma PieceNotEmpty(p: Piece)
    requires PieceOk(p)
    ensures PieceText(p) != "" && PieceText(p)[0] != ':'
  {
    if p.Quad? {
      DottedShape(p.four);
    }
  }

  /** Every text of the grammar is taken, for the address it stands for. */
  lemma FormParsed(f: Form)
    requires FormOk(f)
    ensures Parse6(FormText(f)) == Some(FormValue(f))
  {
    hide Read6, Bytes, Join, Outcome;
    match f
    case Whole(ps) =>
      NothingJoined();
      JoinStart(ps);
      var v := V6([], -1, 0, 0, Join(ps));
      ReadPieces(ps, v);
      assert [] + Bytes(ps) == Bytes(ps);
    case Elided(left, right) =>
      ElidedParsed(left, right);
  }

  lemma NothingJoined()
    ensures Join([]) == "" && Bytes([]) == [] && Colons([]) == ""
  {
  }

  lemma JoinStart(ps: seq<Piece>)
    requires PiecesOk(ps) && ps != []
    ensures Join(ps) != "" && Join(ps)[0] != ':'
  {
    PieceNotEmpty(ps[0]);
  }

  lemma ElidedParsed(left: seq<Piece>, right: seq<Piece>)
    requires FormOk(Elided(left, right))
    ensures Parse6(FormText(Elided(left, right))) == Some(FormValue(Elided(left, right)))
  {
    hide Read6, Bytes, Join, Outcome, Colons;
    NothingJoined();
    var s, r := FormText(Elided(left, right)), Join(right);
    var inner := Colons(left) + (":" + r);
    if left == [] {
      assert s == ":" + (":" + r) && s[1..] == ":" + r && inner == ":" + r;
    } else {
      ColonsJoin(left);
      JoinStart(left);
      assert s == inner && s[0] == Join(left)[0];
    }
    var v := V6([], -1, 0, 0, inner);
    ReadGroups(left, ":" + r, v);
    assert [] + Bytes(left) == Bytes(left);
    var w := v.(out := Bytes(left), tok := ":" + r);
    ReadSecondColon(r, w);
    var u := w.(colon := |Bytes(left)|, tok := r);
    ReadPieces(right, u);
    FilledBetween(Bytes(left), Bytes(right));
  }

  lemma FilledBetween(a: seq<byte>, b: seq<byte>)
    requires |a| + |b| < 16
    ensures Filled(V6(a + b, |a|, 0, 0, "")) == Some(a + Zeros(16 - |a| - |b|) + b)
  {
    assert (a + b)[..|a|] == a && (a + b)[|a|..] == b;
  }

  /** How many hexadecimal digits the text starts with. */
  function Run(s: string): (h: nat)
    ensures h <= |s| && AllHex(s[..h]) && (h < |s| ==> HexValue(s[h]) < 0)
  {
    if s == [] || HexValue(s[0]) < 0 then 0
    else
      var h := 1 + Run(s[1..]);
      assert s[..h][1..] == s[1..][..h - 1];
      assert forall i :: 0 <= i < h ==> s[..h][i] == if i == 0 then s[0] else s[1..][..h - 1][i - 1];
      h
  }

  /** Five digits are too many. */
  lemma LongRun(s: string, v: V6)
    requires Fresh(v, s) && Run(s) > 4
    ensures Read6(s, v).None?
  {
    hide Read6, HexValue;
    var g, rest := s[..4], s[4..];
    assert s == g + rest;
    assert forall i :: 0 <= i < 4 ==> g[i] == s[..Run(s)][i];
    ReadRun(g, rest, v);
    assert rest[0] == s[..Run(s)][4];
    FifthDigit(rest, v.(seen := 4, val := Hex(0, g)));
  }

  lemma FifthDigit(t: string, v: V6)
    requires t != "" && HexValue(t[0]) >= 0 && v.seen == 4
    ensures Read6(t, v).None?
  {
    hide HexValue, Parse4;
  }

  /** What the parser does on a character that is no digit. */
  lemma AfterRun(t: string, w: V6)
    requires t != "" && HexValue(t[0]) < 0
    ensures t[0] == ':' && w.seen == 0 ==>
      Read6(t, w) == if w.colon >= 0 then None else Read6(t[1..], w.(colon := |w.out|, tok := t[1..]))
    ensures t[0] == ':' && w.seen > 0 ==>
      Read6(t, w) == if t[1..] == "" || |w.out| + 2 > 16 then None
                     else Read6(t[1..], V6(w.out + [High(w.val), Low(w.val)], w.colon, 0, 0, t[1..]))
    ensures t[0] == '.' ==>
      Read6(t, w) == if |w.out| + 4 <= 16 && Parse4(w.tok).Some?
                     then Some(w.(out := w.out + Parse4(w.tok).value, seen := 0)) else None
    ensures t[0] != ':' && t[0] != '.' ==> Read6(t, w).None?
  {
    hide HexValue, Parse4, High, Low;
  }

  /** The text, from the start of a piece on, has the form and completes the bytes before it to the address. */
  predicate Completes(f: Form, s: string, out: seq<byte>, colon: int, b: seq<byte>)
  {
    match f
    case Whole(ps) =>
      PiecesOk(ps) && s == Join(ps) && Filled(V6(out + Bytes(ps), colon, 0, 0, "")) == Some(b)
    case Elided(left, right) =>
      && colon < 0 && GroupsOk(left) && PiecesOk(right) && s == Colons(left) + (":" + Join(right))
      && |out| + |Bytes(left)| + |Bytes(right)| < 16
      && b == out + Bytes(left) + Zeros(16 - |out| - |Bytes(left)| - |Bytes(right)|) + Bytes(right)
  }

  /** Whatever is taken has the form, from the start of any piece. */
  lemma {:induction false} Parsed(s: string, v: V6, b: seq<byte>) returns (f: Form)
    requires Fresh(v, s) && Outcome(Read6(s, v)) == Some(b)
    ensures Completes(f, s, v.out, v.colon, b)
    decreases |s|
  {
    hide Read6, Hex, Parse4, HexValue, Outcome, Completes, High, Low;
    var h := Run(s);
    if h > 4 {
      LongRun(s, v);
      NothingRead(Read6(s, v));
      assert false;
    }
    var g, rest := s[..h], s[h..];
    if rest == "" {
      assert g == s;
      f := LastGroup6(s, v, b);
    } else if rest[0] == ':' && h == 0 {
      assert rest == s;
      var w := SecondColons(s, v, b);
      var r := Parsed(s[1..], w, b);
      f := Divided(s, v, r, b);
    } else if rest[0] == ':' {
      var w := GroupRead(g, rest, v, b);
      var r := Parsed(rest[1..], w, b);
      assert s == g + (":" + rest[1..]);
      f := Prepended(g, rest[1..], v, r, b);
    } else {
      assert s == g + rest;
      f := QuadRead(g, rest, v, b);
    }
  }

  lemma NothingRead(r: Option<V6>)
    ensures r.None? ==> Outcome(r).None?
  {
  }

  /** Two colons leave the place of the run. */
  lemma SecondColons(s: string, v: V6, b: seq<byte>) returns (w: V6)
    requires Fresh(v, s) && Outcome(Read6(s, v)) == Some(b) && s != "" && s[0] == ':'
    ensures v.colon < 0 && w == v.(colon := |v.out|, tok := s[1..])
    ensures Fresh(w, s[1..]) && Outcome(Read6(s[1..], w)) == Some(b)
  {
    hide Read6, HexValue, Outcome;
    NoDigit(':');
    AfterRun(s, v);
    NothingRead(Read6(s, v));
    w := v.(colon := |v.out|, tok := s[1..]);
  }

  lemma NoDigit(ch: char)
    requires Separator(ch)
    ensures HexValue(ch) < 0
  {
  }

  /** A group and its colon leave two bytes. */
  lemma GroupRead(g: string, rest: string, v: V6, b: seq<byte>) returns (w: V6)
    requires AllHex(g) && 1 <= |g| <= 4 && rest != "" && rest[0] == ':'
    requires Fresh(v, g + rest) && Outcome(Read6(g + rest, v)) == Some(b)
    ensures rest[1..] != "" && w.out == v.out + PieceBytes(Group(g)) && w.colon == v.colon
    ensures Fresh(w, rest[1..]) && Outcome(Read6(rest[1..], w)) == Some(b)
  {
    hide Read6, HexValue, Outcome, Hex, High, Low;
    NoDigit(':');
    ReadRun(g, rest, v);
    var u := v.(seen := |g|, val := Hex(0, g));
    AfterRun(rest, u);
    NothingRead(Read6(rest, u));
    w := V6(v.out + [High(u.val), Low(u.val)], v.colon, 0, 0, rest[1..]);
  }

  /** What comes after the two colons has no more of them. */
  lemma Divided(s: string, v: V6, r: Form, b: seq<byte>) returns (f: Form)
    requires s != "" && s[0] == ':' && v.colon < 0 && Completes(r, s[1..], v.out, |v.out|, b)
    ensures Completes(f, s, v.out, v.colon, b)
  {
    hide Bytes, Join, Colons, Filled;
    NothingJoined();
    f := Elided([], r.pieces);
    ElidedValue(v.out, r.pieces, b);
    assert s == "" + (":" + s[1..]);
  }

  /** The text ends with an IPv4 address. */
  lemma QuadRead(g: string, rest: string, v: V6, b: seq<byte>) returns (f: Form)
    requires AllHex(g) && |g| <= 4 && rest != "" && rest[0] != ':' && HexValue(rest[0]) < 0
    requires Fresh(v, g + rest) && Outcome(Read6(g + rest, v)) == Some(b)
    ensures Completes(f, g + rest, v.out, v.colon, b)
  {
    hide Read6, HexValue, Hex, Parse4, Dotted, Bytes, Join, Colons, Filled;
    ReadRun(g, rest, v);
    var w := v.(seen := |g|, val := Hex(0, g));
    AfterRun(rest, w);
    var four := Parse4(g + rest).value;
    Parse4Exact(g + rest, four);
    f := Whole([Quad(four)]);
    OnlyPiece(Quad(four));
    FilledByFields(w.(out := w.out + four, seen := 0), V6(v.out + four, v.colon, 0, 0, ""));
  }

  lemma OnlyPiece(p: Piece)
    requires PieceOk(p)
    ensures PiecesOk([p]) && Join([p]) == PieceText(p) && Bytes([p]) == PieceBytes(p)
  {
    FirstPiece([p]);
    NothingJoined();
    assert [p][1..] == [] && PieceBytes(p) + [] == PieceBytes(p);
  }

  /** The text ends with a group, or after the colons of an elided run. */
  lemma LastGroup6(g: string, v: V6, b: seq<byte>) returns (f: Form)
    requires AllHex(g) && |g| <= 4 && Fresh(v, g) && Outcome(Read6(g, v)) == Some(b)
    ensures Completes(f, g, v.out, v.colon, b)
  {
    hide Read6, Hex, Bytes, Join, Colons, Filled, High, Low;
    NothingJoined();
    assert g + "" == g;
    ReadRun(g, "", v);
    NoMore(v.(seen := |g|, val := Hex(0, g)));
    if g == "" {
      f := Whole([]);
      assert v.out + [] == v.out;
      FilledByFields(v.(val := Hex(0, g)), V6(v.out, v.colon, 0, 0, ""));
    } else {
      f := Whole([Group(g)]);
      OnlyPiece(Group(g));
      var out := v.out + [High(Hex(0, g)), Low(Hex(0, g))];
      FilledByFields(v.(out := out, seen := 0, val := Hex(0, g)), V6(out, v.colon, 0, 0, ""));
    }
  }

  lemma ElidedValue(out: seq<byte>, ps: seq<Piece>, b: seq<byte>)
    requires PiecesOk(ps) && Filled(V6(out + Bytes(ps), |out|, 0, 0, "")) == Some(b)
    ensures |out| + |Bytes(ps)| < 16 && b == out + [] + Zeros(16 - |out| - |Bytes(ps)|) + Bytes(ps)
  {
    hide Bytes;
    FilledBetween(out, Bytes(ps));
    assert out + [] == out;
  }

  /** A group before what was read after its colon. */
  lemma Prepended(g: string, rest: string, v: V6, r: Form, b: seq<byte>) returns (f: Form)
    requires 1 <= |g| <= 4 && AllHex(g) && rest != "" && Completes(r, rest, v.out + PieceBytes(Group(g)), v.colon, b)
    ensures Completes(f, g + (":" + rest), v.out, v.colon, b)
  {
    hide Bytes, Join, Colons, Filled, PieceBytes, Hex;
    NothingJoined();
    var p := Group(g);
    TwoBytes(p);
    if r.Whole? {
      var ps := [p] + r.pieces;
      assert ps[1..] == r.pieces;
      FirstPiece(ps);
      SameEnds(v.out, PieceBytes(p), Bytes(r.pieces));
      SameEnds(g, ":", rest);
      f := Whole(ps);
    } else {
      var left := [p] + r.left;
      assert left[1..] == r.left;
      FirstColon(left);
      FirstPiece(left);
      SameEnds(v.out, PieceBytes(p), Bytes(r.left));
      SameEnds(g, ":", rest);
      SameEnds(g + ":", Colons(r.left), ":" + Join(r.right));
      f := Elided(left, r.right);
    }
  }

  lemma TwoBytes(p: Piece)
    requires PieceOk(p) && p.Group?
    ensures |PieceBytes(p)| == 2 && PieceText(p) == p.digits
  {
  }

  /** inet_pton6 takes exactly the texts of the grammar, each for the address it stands for. */
  lemma Parse6Exact(s: string, b: seq<byte>)
    ensures Parse6(s) == Some(b) <==> exists f :: FormOk(f) && FormText(f) == s && FormValue(f) == b
  {
    hide Read6, Bytes, Join, Colons, Outcome, Filled;
    if Parse6(s) == Some(b) {
      var f := ParsedForm(s, b);
    }
    forall f | FormOk(f) && FormText(f) == s && FormValue(f) == b ensures Parse6(s) == Some(b) {
      FormParsed(f);
    }
  }

  lemma ParsedForm(s: string, b: seq<byte>) returns (f: Form)
    requires Parse6(s) == Some(b)
    ensures FormOk(f) && FormText(f) == s && FormValue(f) == b
  {
    hide Read6, Bytes, Join, Colons, Outcome;
    NothingJoined();
    var twice := s != [] && s[0] == ':';
    var t := if twice then s[1..] else s;
    f := Parsed(t, V6([], -1, 0, 0, t), b);
    if f.Whole? {
      assert [] + Bytes(f.pieces) == Bytes(f.pieces);
      if f.pieces != [] { JoinStart(f.pieces); }
    } else {
      assert [] + Bytes(f.left) == Bytes(f.left);
      ElidedStart(f.left, f.right, t);
      if twice {
        assert s == ":" + t && t == ":" + Join(f.right);
        assert s == "" + "::" + Join(f.right);
      } else {
        ColonsJoin(f.left);
        SameEnds(Join(f.left), ":", ":" + Join(f.right));
        assert s == Join(f.left) + "::" + Join(f.right);
      }
    }
  }

  /** The colons come first exactly when no group comes before them. */
  lemma ElidedStart(left: seq<Piece>, right: seq<Piece>, t: string)
    requires GroupsOk(left) && PiecesOk(right) && t == Colons(left) + (":" + Join(right))
    ensures t != "" && (t[0] == ':' <==> left == [])
  {
    hide Join;
    if left != [] {
      PieceNotEmpty(left[0]);
      GroupText(left[0]);
      FirstColon(left);
    }
  }
}
