/**
  Raw bits, packed least significant first from the back of the packet: the
  exact number they spell, and how a 32-bit window tracks it.
 */
module RawBits {
  import opened Powers
  import opened ByteStreams

  /** The first `bits` raw bits, read as a number. */
  datatype Raw = Raw(value: nat, bits: nat)

  function Append(raw: Raw, v: nat, n: nat): Raw
  {
    Raw(raw.value + v * Pow2(raw.bits), raw.bits + n)
  }

  /** The packet `s` carries these raw bits at its end. */
  predicate Carries(s: seq<byte>, raw: Raw)
  {
    Tail(s, |s|) % Pow2(raw.bits) == raw.value
  }

  /** Encoder side: bytes already stored plus the window spell the raw bits. */
  predicate Buffered(tail: seq<byte>, window: nat, used: nat, raw: Raw)
  {
    && raw.bits == 8 * |tail| + used
    && window < Pow2(used)
    && raw.value == Little(tail) + Pow256(|tail|) * window
  }

  /** Decoder side: `window` is what has been read but not yet consumed. */
  predicate Fetched(s: seq<byte>, bytes: nat, window: nat, available: nat, consumed: nat)
  {
    && 8 * bytes == consumed + available
    && window == Tail(s, bytes) / Pow2(consumed)
  }

  lemma StoreByte(tail: seq<byte>, window: nat, used: nat, raw: Raw)
    requires Buffered(tail, window, used, raw) && used >= 8
    ensures Buffered(tail + [window % 256], window / 256, used - 8, raw)
  {
    hide Pow2, Pow256, Little;
    LittleAppend(tail, window % 256);
    Pow2Add(8, used - 8);
    ByteValues();
    Pow256Step(|tail|);
    RegroupByte(Pow256(|tail|), window);
  }

  lemma RegroupByte(p: nat, window: nat)
    ensures p * (window % 256) + (256 * p) * (window / 256) == p * window
  {
    var h, l := window / 256, window % 256;
    assert window == 256 * h + l;
    MulDistribute(p, 256 * h, l);
    MulAssoc(p, 256, h);
  }

  lemma FieldFits(w: nat, p: nat, v: nat, q: nat)
    requires w < p && v < q
    ensures w + v * p < p * q
  {
    MulLe(p, v + 1, q);
  }

  lemma PushField(tail: seq<byte>, window: nat, used: nat, raw: Raw, v: nat, n: nat)
    requires Buffered(tail, window, used, raw) && v < Pow2(n)
    ensures window + v * Pow2(used) >= 0
    ensures Append(raw, v, n).bits == raw.bits + n
    ensures Buffered(tail, window + v * Pow2(used), used + n, Append(raw, v, n))
  {
    hide Pow2, Pow256, Little;
    Pow2Add(used, n);
    FieldFits(window, Pow2(used), v, Pow2(n));
    Pow256IsPow2(|tail|);
    Pow2Add(8 * |tail|, used);
    var p, u := Pow256(|tail|), Pow2(used);
    MulDistribute(p, window, v * u);
    MulAssoc(v, u, p);
  }

  lemma RawBound(raw: Raw, tail: seq<byte>, window: nat, used: nat)
    requires Buffered(tail, window, used, raw)
    ensures raw.value < Pow2(raw.bits)
  {
    hide Pow2, Pow256, Little;
    LittleBound(tail);
    Pow256IsPow2(|tail|);
    Pow2Add(8 * |tail|, used);
    FieldFits(Little(tail), Pow256(|tail|), window, Pow2(used));
  }

  lemma FetchByte(s: seq<byte>, bytes: nat, window: nat, available: nat, consumed: nat)
    requires Fetched(s, bytes, window, available, consumed)
    ensures Fetched(s, bytes + 1, window + TailByteAt(s, bytes) * Pow2(available), available + 8, consumed)
  {
    TailGrows(s, bytes);
    hide Pow2, Pow256, Tail;
    var c, a, b := Pow2(consumed), Pow2(available), TailByteAt(s, bytes);
    Pow256IsPow2(bytes);
    Pow2Add(available, consumed);
    TopByte(Tail(s, bytes), Pow256(bytes), b, a, c);
  }

  lemma TopByte(t: nat, p: nat, b: nat, a: nat, c: nat)
    requires c > 0 && p == a * c
    ensures (t + p * b) / c == t / c + b * a
  {
    MulAssoc(b, a, c);
    DivAddMultiple(t, c, b * a);
  }

  lemma ConsumeField(s: seq<byte>, bytes: nat, window: nat, available: nat, consumed: nat, n: nat)
    requires Fetched(s, bytes, window, available, consumed) && n <= available
    ensures Fetched(s, bytes, window / Pow2(n), available - n, consumed + n)
    ensures window % Pow2(n) == FieldAt(s, consumed, n)
  {
    Pow2Add(consumed, n);
    DivDiv(Tail(s, bytes), Pow2(consumed), Pow2(n));
    DivDiv(Tail(s, |s|), Pow2(consumed), Pow2(n));
    TailTruncation(s, bytes, consumed + n);
  }

  /** The `n` raw bits of `s` that start at bit `pos`, zero past the buffer. */
  function FieldAt(s: seq<byte>, pos: nat, n: nat): (v: nat)
    ensures v < Pow2(n)
  {
    (Tail(s, |s|) / Pow2(pos)) % Pow2(n)
  }

  /** Any number of bytes holding at least `n` bits gives the same low `n` bits. */
  lemma TailTruncation(s: seq<byte>, bytes: nat, n: nat)
    requires n <= 8 * bytes
    ensures Tail(s, bytes) % Pow2(n) == Tail(s, |s|) % Pow2(n)
  {
    if bytes <= |s| {
      TailMod(s, bytes, |s|);
      Pow256IsPow2(bytes);
      Pow2Add(n, 8 * bytes - n);
      ModMod(Tail(s, |s|), Pow2(n), Pow2(8 * bytes - n));
    } else {
      TailStops(s, bytes);
    }
  }

  /** A field written earlier is found again in any packet that carries the bits. */
  lemma FieldSurvives(s: seq<byte>, before: Raw, v: nat, n: nat)
    requires before.value < Pow2(before.bits) && v < Pow2(n)
    requires Carries(s, Append(before, v, n))
    ensures Carries(s, before)
    ensures FieldAt(s, before.bits, n) == v
  {
    hide Pow2, Tail;
    Pow2Add(before.bits, n);
    SplitField(Tail(s, |s|), before.value, v, Pow2(before.bits), Pow2(n));
  }

  /** The low and the high part of a number below p * q. */
  lemma SplitField(t: nat, low: nat, v: nat, p: nat, q: nat)
    requires p > 0 && q > 0 && low < p
    requires p * q > 0 && t % (p * q) == low + v * p
    ensures t % p == low && (t / p) % q == v
  {
    DivDiv(t, p, q);
    ModMod(t, p, q);
    DivModUnique(low + v * p, p, v, low);
  }
}
