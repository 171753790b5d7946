/**
  The range decoder of celt/entdec.c.  It keeps the distance of the code word
  from the top of the range, for any packet whatever, and reads zero bytes past
  the end of the buffer.
 */
module RangeDecoder {
  import opened Powers
  import opened ByteStreams
  import opened RangeIntervals
  import opened RangeModels
  import opened RawBits

  class Decoder {
    const buf: array<byte>
    const storage: nat
    var endOffs: nat
    var endWindow: nat
    var nendBits: nat
    var nbitsTotal: nat
    var offs: nat
    var rng: nat
    var val: nat
    var ext: nat
    var rem: nat
    var error: int

    /** Exact low end, bytes read (zeros past the end included). */
    ghost var low: nat
    ghost var bytes: nat
    /** Raw bits consumed and raw bytes fetched, zeros past the end included. */
    ghost var consumed: nat
    ghost var fetched: nat

    ghost function Stream(): seq<byte>
      requires storage <= buf.Length
      reads this, buf
    {
      buf[..storage]
    }

    /** The interval decoded so far, at the encoder's count of shifts. */
    ghost function Iv(): Interval
      requires bytes >= 4
      reads this
    {
      Interval(low, rng, bytes - 4)
    }

    /** `val` is the distance from the top of the range, and `rem` the last byte read. */
    ghost predicate Tracks()
      reads this, buf
    {
      && storage <= buf.Length && bytes > 0
      && offs == (if bytes < storage then bytes else storage)
      && rem == ByteAt(Stream(), bytes - 1)
      && Covers(low, rng, bytes, Stream())
      && val == low + rng - 1 - Prefix(Stream(), bytes) / 2
    }

    ghost predicate RawOk()
      requires storage <= buf.Length
      reads this, buf
    {
      && Fetched(Stream(), fetched, endWindow, nendBits, consumed)
      && nendBits <= 32
      && endOffs == (if fetched < storage then fetched else storage)
    }

    ghost predicate Valid()
      reads this, buf
    {
      && Tracks() && RawOk() && bytes >= 4
      && CODE_BOT < rng <= CODE_TOP
      && nbitsTotal == CODE_BITS + 1 + 8 * (bytes - 4) + consumed
    }

    /** ec_dec_init */
    constructor (buffer: array<byte>, size: nat)
      requires size <= buffer.Length
      ensures Valid() && buf == buffer && storage == size && error == 0
      ensures Iv() == InitialInterval && consumed == 0
    {
      buf, storage := buffer, size;
      endOffs, endWindow, nendBits := 0, 0, 0;
      nbitsTotal := CODE_BITS + 1 - 24;
      rng, ext, error := 128, 0, 0;
      rem := if 0 < size then buffer[0] else 0;
      offs := if 0 < size then 1 else 0;
      val := 128 - 1 - (if 0 < size then buffer[0] else 0) / 2;
      low, bytes, consumed, fetched := 0, 1, 0, 0;
      new;
      assert Prefix(Stream(), 1) == rem;
      InitialRenorm();
      Normalize();
    }

    /** ec_read_byte */
    method ReadByte() returns (b: byte)
      requires Tracks()
      modifies this`offs
      ensures b == ByteAt(Stream(), bytes)
      ensures offs == (if bytes + 1 < storage then bytes + 1 else storage)
    {
      if offs < storage {
        b := buf[offs];
        offs := offs + 1;
      } else {
        b := 0;
      }
    }

    /** One turn of ec_dec_normalize. */
    method ShiftIn()
      requires Tracks() && 0 < rng <= CODE_BOT
      modifies this`offs, this`rem, this`val, this`rng, this`nbitsTotal, this`low, this`bytes
      ensures Tracks() && nbitsTotal == old(nbitsTotal) + 8
      ensures low == 256 * old(low) && rng == 256 * old(rng) && bytes == old(bytes) + 1
    {
      hide Prefix, Covers, ByteAt;
      ReadStep(low, rng, bytes, Stream());
      WrappedShift(rng);
      nbitsTotal := nbitsTotal + 8;
      var sym := rem;
      rem := ReadByte();
      sym := (sym * 256 + rem) / 2;
      rng := (rng * 256) % 0x1_0000_0000;
      val := (val * 256 + (255 - sym % 256)) % CODE_TOP;
      low, bytes := 256 * low, bytes + 1;
    }

    /** ec_dec_normalize */
    method Normalize()
      requires Tracks() && 0 < rng <= CODE_TOP
      modifies this`offs, this`rem, this`val, this`rng, this`nbitsTotal, this`low, this`bytes
      ensures Tracks() && CODE_BOT < rng <= CODE_TOP
      ensures Interval(low, rng, bytes) == Renorm(old(Interval(low, rng, bytes)))
      ensures bytes >= old(bytes) && nbitsTotal == old(nbitsTotal) + 8 * (bytes - old(bytes))
    {
      while rng <= CODE_BOT
        invariant Tracks() && 0 < rng <= CODE_TOP
        invariant Renorm(Interval(low, rng, bytes)) == Renorm(old(Interval(low, rng, bytes)))
        invariant bytes >= old(bytes) && nbitsTotal == old(nbitsTotal) + 8 * (bytes - old(bytes))
        decreases CODE_TOP - rng
      {
        ShiftIn();
      }
    }

    /** The common end of every symbol: new registers, then renormalise. */
    method Take(newVal: nat, newRng: nat, ghost sub: Interval)
      requires Valid() && 0 < newRng <= CODE_TOP
      requires sub.rng == newRng && sub.shifts == bytes - 4 && Holds(sub, Stream())
      requires newVal == Distance(sub, Stream())
      modifies this`offs, this`rem, this`val, this`rng, this`nbitsTotal, this`low, this`bytes
      ensures Valid() && Iv() == Renorm(sub)
    {
      hide Prefix, Fetched;
      val, rng, low := newVal, newRng, sub.low;
      RenormOffset(sub, 4);
      Normalize();
    }

    /** ec_decode: the cumulative frequency the next symbol falls on. */
    method Decode(ft: nat) returns (fm: nat)
      requires Valid() && 0 < ft <= CODE_BOT
      modifies this`ext
      ensures Valid() && ext == Unit(rng, ft)
      ensures Holds(Iv(), Stream()) && fm == FrequencyAt(rng, Distance(Iv(), Stream()), ft)
    {
      hide Prefix, Fetched;
      ext := Unit(rng, ft);
      var s := val / ext;
      fm := ft - (if s + 1 < ft then s + 1 else ft);
    }

    /** ec_decode_bin */
    method DecodeBin(bits: nat) returns (fm: nat)
      requires Valid() && bits <= 23
      modifies this`ext
      ensures Pow2(bits) <= CODE_BOT
      ensures Valid() && ext == Unit(rng, Pow2(bits))
      ensures Holds(Iv(), Stream()) && fm == FrequencyAt(rng, Distance(Iv(), Stream()), Pow2(bits))
    {
      SmallPower(bits);
      fm := Decode(Pow2(bits));
    }

    /** ec_dec_update: take the slot the frequency fell in. */
    method Update(fl: nat, fh: nat, ft: nat)
      requires Valid() && fl < fh <= ft <= CODE_BOT
      requires ext == Unit(rng, ft) && PointsAt(Iv(), Slot(fl, fh, ft), Stream())
      modifies this`offs, this`rem, this`val, this`rng, this`nbitsTotal, this`low, this`bytes
      ensures Valid() && Iv() == Step(old(Iv()), Slot(fl, fh, ft))
    {
      hide Prefix, Fetched, Unit, FrequencyAt;
      SlotDistance(Iv(), Slot(fl, fh, ft), Stream());
      var s := ext * (ft - fh);
      Take(val - s, if fl > 0 then ext * (fh - fl) else rng - s, Narrow(Iv(), Slot(fl, fh, ft)));
    }

    /** ec_dec_bit_logp */
    method DecodeBitLogp(logp: nat) returns (bit: bool)
      requires Valid() && 1 <= logp <= 23
      modifies this`offs, this`rem, this`val, this`rng, this`nbitsTotal, this`low, this`bytes
      ensures Valid() && Iv() == Step(old(Iv()), BitSlot(bit, logp))
      ensures PointsAt(old(Iv()), BitSlot(bit, logp), Stream())
    {
      hide Prefix, Fetched, Unit;
      SmallPower(logp);
      var r, d := rng, val;
      var s := Unit(r, Pow2(logp));
      bit := d < s;
      BitDistance(Iv(), bit, logp, Stream());
      Take(if bit then d else d - s, if bit then s else r - s, Narrow(Iv(), BitSlot(bit, logp)));
    }

    /** ec_dec_icdf: scan the table down from the top of the range. */
    method DecodeIcdf(icdf: seq<byte>, ftb: nat) returns (k: nat)
      requires Valid() && IcdfOk(icdf, ftb)
      modifies this`offs, this`rem, this`val, this`rng, this`nbitsTotal, this`low, this`bytes
      ensures IcdfCodable(icdf, ftb, k)
      ensures Valid() && Iv() == Step(old(Iv()), IcdfSlot(icdf, ftb, k))
      ensures PointsAt(old(Iv()), IcdfSlot(icdf, ftb, k), Stream())
    {
      hide Prefix, Fetched, Unit, Pow2;
      SmallPower(ftb);
      var r := Unit(rng, Pow2(ftb));
      var t, s;
      k, t, s := ScanIcdf(rng, val, r, icdf);
      IcdfDistance(Iv(), icdf, ftb, k, r, Stream());
      Take(val - s, t - s, Narrow(Iv(), IcdfSlot(icdf, ftb, k)));
    }

    /** ec_read_byte_from_end */
    method ReadByteFromEnd() returns (b: byte)
      requires Valid()
      modifies this`endOffs
      ensures b == TailByteAt(Stream(), fetched)
      ensures endOffs == (if fetched + 1 < storage then fetched + 1 else storage)
    {
      hide Prefix, Tail;
      if endOffs < storage {
        endOffs := endOffs + 1;
        b := buf[storage - endOffs];
      } else {
        b := 0;
      }
    }

    /** One turn of the refill loop. */
    method FetchRaw(window0: nat, available: nat) returns (window: nat)
      requires Valid() && Fetched(Stream(), fetched, window0, available, consumed)
      modifies this`endOffs, this`fetched
      ensures fetched == old(fetched) + 1
      ensures Tracks()
      ensures endOffs == (if fetched < storage then fetched else storage)
      ensures Fetched(Stream(), fetched, window, available + 8, consumed)
    {
      hide Prefix, Tail, Fetched, Pow2;
      FetchByte(Stream(), fetched, window0, available, consumed);
      var b := ReadByteFromEnd();
      window := window0 + b * Pow2(available);
      fetched := fetched + 1;
    }

    /** ec_dec_bits: the next `bits` raw bits. */
    method DecodeBits(bits: nat) returns (ret: nat)
      requires Valid() && 1 <= bits <= 25
      modifies this`endOffs, this`fetched, this`endWindow, this`nendBits, this`nbitsTotal, this`consumed
      ensures Valid() && consumed == old(consumed) + bits
      ensures ret == FieldAt(Stream(), old(consumed), bits)
    {
      hide Prefix, Tail, Fetched, Pow2, FieldAt;
      if nendBits < bits {
        Refill();
      }
      var window, available := endWindow, nendBits;
      ConsumeField(Stream(), fetched, window, available, consumed, bits);
      ret := LowBits(window, bits);
      window := Shr(window, bits);
      available := available - bits;
      endWindow := window;
      nendBits := available;
      nbitsTotal := nbitsTotal + bits;
      consumed := consumed + bits;
    }

    /** Tops the window up to more than 24 bits. */
    method Refill()
      requires Valid() && nendBits <= 24
      modifies this`endOffs, this`fetched, this`endWindow, this`nendBits
      ensures Valid() && 25 <= nendBits <= 32
    {
      hide Prefix, Tail, Fetched, Pow2;
      while nendBits <= 24
        invariant Valid()
        decreases 32 - nendBits
      {
        var window := FetchRaw(endWindow, nendBits);
        endWindow := window;
        nendBits := nendBits + 8;
      }
    }

    /**
      ec_dec_uint.  `head` is the range-coded part; a value past the end of the
      alphabet, which only a damaged packet can hold, is clamped and reported.
     */
    method DecodeUint(total: nat) returns (value: nat, ghost head: nat)
      requires Valid() && 1 < total < 0x1_0000_0000
      modifies this`offs, this`rem, this`val, this`rng, this`nbitsTotal, this`low, this`bytes, this`ext, this`error
      modifies this`endOffs, this`fetched, this`endWindow, this`nendBits, this`consumed
      ensures Valid() && value < total
      ensures head < UintHeads(total) <= CODE_BOT
      ensures PointsAt(old(Iv()), Slot(head, head + 1, UintHeads(total)), Stream())
      ensures Iv() == Step(old(Iv()), Slot(head, head + 1, UintHeads(total)))
      ensures consumed == old(consumed) + UintRawBits(total)
      ensures var t := UintJoin(head, FieldAt(Stream(), old(consumed), UintRawBits(total)), total);
        value == (if t < total then t else total - 1) && error == (if t < total then old(error) else 1)
    {
      hide Prefix, Tail, Fetched, Pow2, FieldAt, Unit, FrequencyAt, Shr, Step, Ilog;
      UintSplit(0, total);
      NothingRaw(total - 1);
      var last := total - 1;
      var ftb := Ilog(last);
      if ftb > UINT_BITS {
        ftb := ftb - UINT_BITS;
        var ft := Shr(last, ftb) + 1;
        var s := DecodeSymbol(ft);
        head := s;
        var low := DecodeBits(ftb);
        var t := UintJoin(s, low, total);
        if t <= last {
          return t, head;
        }
        error := 1;
        return last, head;
      } else {
        var s := DecodeSymbol(last + 1);
        head := s;
        NoField(Stream(), consumed, head, total);
        value := s;
      }
    }

    /** ec_decode and ec_dec_update for a uniform alphabet of `ft` symbols. */
    method DecodeSymbol(ft: nat) returns (s: nat)
      requires Valid() && 0 < ft <= CODE_BOT
      modifies this`offs, this`rem, this`val, this`rng, this`nbitsTotal, this`low, this`bytes, this`ext
      ensures Valid() && s < ft
      ensures PointsAt(old(Iv()), Slot(s, s + 1, ft), Stream())
      ensures Iv() == Step(old(Iv()), Slot(s, s + 1, ft))
    {
      hide Prefix, Fetched, Unit, FrequencyAt, Step;
      s := Decode(ft);
      Update(s, s + 1, ft);
    }
  }

  /** The scan of ec_dec_icdf: the first entry whose share reaches down to `d`. */
  method ScanIcdf(whole: nat, d: nat, r: nat, icdf: seq<byte>) returns (k: nat, t: nat, s: nat)
    requires |icdf| > 0 && icdf[|icdf| - 1] == 0 && d < whole
    ensures k < |icdf| && s == r * icdf[k] <= d < t
    ensures t == if k > 0 then r * icdf[k - 1] else whole
  {
    k, t, s := 0, whole, r * icdf[0];
    while d < s
      invariant k < |icdf| && s == r * icdf[k] && d < t
      invariant t == if k > 0 then r * icdf[k - 1] else whole
      decreases |icdf| - k
    {
      SomethingLeft(d, r, icdf[k]);
      k := k + 1;
      t, s := s, r * icdf[k];
    }
  }

  lemma InitialRenorm()
    ensures Renorm(Interval(0, 128, 1)) == Interval(0, CODE_TOP, 4)
  {
    assert Renorm(Interval(0, 0x80_0000, 3)) == Interval(0, CODE_TOP, 4);
    assert Renorm(Interval(0, 0x8000, 2)) == Renorm(Interval(0, 0x80_0000, 3));
    assert Renorm(Interval(0, 128, 1)) == Renorm(Interval(0, 0x8000, 2));
  }

  /** Where the code lies decides the bit, and what is left of the range. */
  lemma BitDistance(iv: Interval, bit: bool, logp: nat, s: seq<byte>)
    requires Normal(iv) && 1 <= logp <= 23 && Holds(iv, s)
    requires var k := BitSlot(bit, logp); bit <==> Distance(iv, s) < Unit(iv.rng, k.ft)
    ensures var k := BitSlot(bit, logp);
      var sub, r := Narrow(iv, k), Unit(iv.rng, k.ft);
      && PointsAt(iv, k, s)
      && Holds(sub, s) && sub.shifts == iv.shifts
      && Distance(sub, s) == (if bit then Distance(iv, s) else Distance(iv, s) - r)
      && sub.rng == (if bit then r else iv.rng - r)
      && 0 < sub.rng <= CODE_TOP
  {
    hide FrequencyAt, Unit, Prefix;
    var k := BitSlot(bit, logp);
    var r := Unit(iv.rng, k.ft);
    SliceFromTop(iv, r, k.fl, k.fh, k.ft, s);
    assert bit ==> k.ft - k.fl == 1 && k.ft - k.fh == 0;
    assert !bit ==> k.ft - k.fh == 1 && k.fl == 0;
    assert r * 1 == r && r * 0 == 0;
    FrequencyFindsSlot(iv, k, s);
    SlotDistance(iv, k, s);
  }

  lemma SomethingLeft(d: nat, r: nat, b: nat)
    requires d < r * b
    ensures b > 0
  {
  }

  /** The first table entry at or below the distance names the symbol. */
  lemma IcdfDistance(iv: Interval, icdf: seq<byte>, ftb: nat, k: nat, r: nat, s: seq<byte>)
    requires Normal(iv) && Holds(iv, s) && IcdfOk(icdf, ftb) && k < |icdf|
    requires Pow2(ftb) <= iv.rng && r == Unit(iv.rng, Pow2(ftb))
    requires r * icdf[k] <= Distance(iv, s) && (k > 0 ==> Distance(iv, s) < r * icdf[k - 1])
    ensures IcdfCodable(icdf, ftb, k)
    ensures var slot := IcdfSlot(icdf, ftb, k);
      var sub := Narrow(iv, slot);
      && PointsAt(iv, slot, s)
      && Holds(sub, s) && sub.shifts == iv.shifts
      && Distance(sub, s) == Distance(iv, s) - r * icdf[k]
      && sub.rng == (if k > 0 then r * icdf[k - 1] else iv.rng) - r * icdf[k]
      && 0 < sub.rng <= CODE_TOP
  {
    hide FrequencyAt, Unit, Prefix, Pow2;
    if k > 0 {
      MulLt(r, icdf[k], icdf[k - 1]);
    }
    var slot := IcdfSlot(icdf, ftb, k);
    SliceFromTop(iv, r, slot.fl, slot.fh, slot.ft, s);
    FrequencyFindsSlot(iv, slot, s);
    SlotDistance(iv, slot, s);
    if k > 0 {
      MulDistribute(r, icdf[k], icdf[k - 1] - icdf[k]);
    }
  }

  lemma NoField(s: seq<byte>, pos: nat, head: nat, total: nat)
    requires total > 1 && UintRawBits(total) == 0
    ensures UintJoin(head, FieldAt(s, pos, 0), total) == head
  {
    hide Tail;
    ByteValues();
  }
}
