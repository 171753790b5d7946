/**
  The range encoder of celt/entenc.c.  Its 32-bit registers, its byte buffer and
  its carry bookkeeping are the fields of a class; the ghost fields record the
  exact interval and the exact raw-bit string they stand for.
 */
module RangeEncoder {
  import opened Powers
  import opened ByteStreams
  import opened RangeIntervals
  import opened RangeCarry
  import opened RangeModels
  import opened RangeFinish
  import opened RawBits

  /** `error |= r` for results that are 0 or -1. */
  function OrError(error: int, r: int): int
  {
    if r == 0 then error else -1
  }

  /** The fields a copy of the encoder holds, and what they stand for. */
  datatype Saved = Saved(endOffs: nat, endWindow: nat, nendBits: nat, nbitsTotal: nat, offs: nat,
                         rng: nat, val: nat, ext: nat, rem: int, error: int)
  datatype Exact = Exact(sent: seq<byte>, tail: seq<byte>, iv: Interval, raw: Raw)

  /** The registers stand for the exact state, whatever the buffer holds. */
  ghost predicate Sound(r: Saved, e: Exact)
  {
    && Buffered(e.tail, r.endWindow, r.nendBits, e.raw) && r.nendBits <= 32
    && Denotes(Pending(e.sent, r.rem, r.ext), r.val, e.iv)
    && Normal(e.iv) && e.iv.rng == r.rng && r.val + r.rng < 0x1_0000_0000
    && r.nbitsTotal == CODE_BITS + 1 + 8 * e.iv.shifts + e.raw.bits
  }

  lemma NoRun(sym: byte)
    ensures Repeat(0, sym) == []
  {
  }

  class Encoder {
    var buf: array<byte>
    var storage: nat
    var endOffs: nat
    var endWindow: nat
    var nendBits: nat
    var nbitsTotal: nat
    var offs: nat
    var rng: nat
    var val: nat
    var ext: nat
    var rem: int
    var error: int

    /** Every byte handed to the front and to the back of the buffer. */
    ghost var sent: seq<byte>
    ghost var tail: seq<byte>
    /** What has been encoded: the exact interval and the exact raw bits. */
    ghost var iv: Interval
    ghost var raw: Raw

    ghost function Waiting(): Pending
      reads this
    {
      Pending(sent, rem, ext)
    }

    /**
      The buffer holds what was sent, up to where its two ends met: then a byte
      was dropped, and no more are taken.
     */
    ghost predicate Stored()
      reads this`buf, this`storage, this`offs, this`endOffs, this`sent, this`tail, this`error, buf
    {
      && offs + endOffs <= storage <= buf.Length
      && offs <= |sent| && endOffs <= |tail|
      && (forall i :: 0 <= i < offs ==> buf[i] == sent[i])
      && (forall j :: 0 <= j < endOffs ==> buf[storage - 1 - j] == tail[j])
      && (error == 0 ==> offs == |sent| && endOffs == |tail|)
      && (error != 0 ==> error == -1 && offs + endOffs == storage < |sent| + |tail|)
    }

    /** Only the front has grown: what was written there before is still there, and the back is as it was. */
    twostate predicate FrontGrew()
      reads this
    {
      && old(sent) <= sent && old(offs) <= offs
      && tail == old(tail) && endOffs == old(endOffs) && endWindow == old(endWindow) && nendBits == old(nendBits)
    }

    ghost predicate RawOk()
      reads this`tail, this`endWindow, this`nendBits, this`raw
    {
      Buffered(tail, endWindow, nendBits, raw) && nendBits <= 32
    }

    ghost predicate Valid()
      reads this, buf
    {
      && Stored() && RawOk()
      && Denotes(Waiting(), val, iv)
      && Normal(iv) && iv.rng == rng && val + rng < 0x1_0000_0000
      && nbitsTotal == CODE_BITS + 1 + 8 * iv.shifts + raw.bits
    }

    constructor (buffer: array<byte>, size: nat)
      requires size <= buffer.Length
      ensures Valid() && buf == buffer && storage == size && error == 0
      ensures iv == InitialInterval && raw == Raw(0, 0)
    {
      buf, storage := buffer, size;
      endOffs, endWindow, nendBits := 0, 0, 0;
      nbitsTotal := CODE_BITS + 1;
      offs, rng, rem, val, ext, error := 0, CODE_TOP, -1, 0, 0, 0;
      sent, tail, iv, raw := [], [], InitialInterval, Raw(0, 0);
    }

    ghost function Known(): Exact
      reads this
    {
      Exact(sent, tail, iv, raw)
    }

    function Registers(): Saved
      reads this
    {
      Saved(endOffs, endWindow, nendBits, nbitsTotal, offs, rng, val, ext, rem, error)
    }

    /** The buffer still has what a saved state had written to it, up to byte `from` of the front. */
    ghost predicate BackedBut(r: Saved, e: Exact, from: nat)
      reads this`storage, this`buf, buf
    {
      && r.offs + r.endOffs <= storage <= buf.Length
      && from <= r.offs <= |e.sent| && r.endOffs <= |e.tail|
      && (forall i :: 0 <= i < from ==> buf[i] == e.sent[i])
      && (forall j :: 0 <= j < r.endOffs ==> buf[storage - 1 - j] == e.tail[j])
      && (r.error == 0 ==> r.offs == |e.sent| && r.endOffs == |e.tail|)
      && (r.error != 0 ==> r.error == -1 && r.offs + r.endOffs == storage < |e.sent| + |e.tail|)
    }

    ghost predicate Backed(r: Saved, e: Exact)
      reads this`storage, this`buf, buf
    {
      BackedBut(r, e, r.offs)
    }

    /** A copy of the encoder; the buffer is not copied. */
    method Save() returns (r: Saved, ghost e: Exact)
      requires Valid()
      ensures r == Registers() && e == Known() && Sound(r, e) && Backed(r, e)
    {
      r, e := Registers(), Known();
    }

    /** Since it was saved, only the front has grown. */
    ghost predicate Since(r: Saved, e: Exact)
      reads this
    {
      e.sent <= sent && r.offs <= offs && e.tail == tail && r.endOffs == endOffs
    }

    /** Two states saved one after the other share what the first had written, also once that was gone back to. */
    lemma WrittenBefore(r: Saved, e: Exact, r1: Saved, e1: Exact)
      requires Valid() && Since(r, e)
      requires e.sent <= e1.sent && r.offs <= r1.offs && r1.endOffs == r.endOffs && e1.tail == e.tail
      requires r1.offs + r1.endOffs <= storage && r.offs <= |e.sent| && r1.offs <= |e1.sent|
      requires r1.error == 0 ==> r1.offs == |e1.sent| && r1.endOffs == |e1.tail|
      requires r1.error != 0 ==> r1.error == -1 && r1.offs + r1.endOffs == storage < |e1.sent| + |e1.tail|
      ensures BackedBut(r1, e1, r.offs)
    {
      hide Denotes, Buffered;
    }

    /** The saved registers of the front, and then of the back. */
    method RestoreFront(r: Saved)
      modifies this`offs, this`rng, this`val, this`ext, this`rem
      ensures offs == r.offs && rng == r.rng && val == r.val && ext == r.ext && rem == r.rem
    {
      offs, rng, val := r.offs, r.rng, r.val;
      ext, rem := r.ext, r.rem;
    }

    method RestoreBack(r: Saved)
      modifies this`endOffs, this`endWindow, this`nendBits, this`nbitsTotal, this`error
      ensures endOffs == r.endOffs && endWindow == r.endWindow && nendBits == r.nendBits
      ensures nbitsTotal == r.nbitsTotal && error == r.error
    {
      endOffs, endWindow, nendBits := r.endOffs, r.endWindow, r.nendBits;
      nbitsTotal, error := r.nbitsTotal, r.error;
    }

    /** Assigning a copy back. */
    method Restore(r: Saved, ghost e: Exact)
      requires Sound(r, e) && Backed(r, e)
      modifies this
      ensures Valid() && buf == old(buf) && storage == old(storage)
      ensures Registers() == r && Known() == e
    {
      hide Valid, Sound, Backed;
      RestoreFront(r);
      RestoreBack(r);
      sent, tail, iv, raw := e.sent, e.tail, e.iv, e.raw;
      SoundValid();
    }

    /** Assigning a copy back whose last bytes, from `from` on, were overwritten and kept. */
    method RestoreWith(r: Saved, ghost e: Exact, from: nat, bits: seq<byte>)
      requires Sound(r, e) && BackedBut(r, e, from)
      requires from <= r.offs && bits == e.sent[from..r.offs]
      modifies this, buf
      ensures Valid() && buf == old(buf) && storage == old(storage)
      ensures Registers() == r && Known() == e
    {
      hide Sound;
      PutBack(from, bits);
      Restore(r, e);
    }

    lemma SoundValid()
      requires Sound(Registers(), Known()) && Backed(Registers(), Known())
      ensures Valid()
    {
      hide Denotes, Buffered;
    }

    /** Puts `bits`, kept from offset `from` on, back into the buffer. */
    method PutBack(from: nat, bits: seq<byte>)
      requires from + |bits| <= buf.Length
      modifies buf
      ensures forall i :: 0 <= i < buf.Length ==>
        buf[i] == if from <= i < from + |bits| then bits[i - from] else old(buf[i])
    {
      var k := 0;
      while k < |bits|
        invariant k <= |bits|
        invariant forall i :: 0 <= i < buf.Length ==>
          buf[i] == if from <= i < from + k then bits[i - from] else old(buf[i])
      {
        buf[from + k] := bits[k];
        k := k + 1;
      }
    }

    /** ec_write_byte, followed by the caller's `error |=`. */
    method WriteByte(value: byte)
      requires Stored()
      modifies this`offs, this`error, this`sent, buf
      ensures Stored() && sent == old(sent) + [value] && FrontGrew()
      ensures error == 0 ==> old(error) == 0
    {
      var r := 0;
      if offs + endOffs >= storage {
        r := -1;
      } else {
        buf[offs] := value;
        offs := offs + 1;
      }
      error := OrError(error, r);
      sent := sent + [value];
    }

    /** ec_write_byte_at_end, followed by the caller's `error |=`. */
    method WriteByteAtEnd(value: byte)
      requires Stored()
      modifies this`endOffs, this`error, this`tail, buf
      ensures Stored() && tail == old(tail) + [value]
      ensures error == 0 ==> old(error) == 0
    {
      var r := 0;
      if offs + endOffs >= storage {
        r := -1;
      } else {
        endOffs := endOffs + 1;
        buf[storage - endOffs] := value;
      }
      error := OrError(error, r);
      tail := tail + [value];
    }

    /** The run of waiting 0xFFs, released as 0xFF or, after a carry, as 0x00. */
    method ReleaseRun(sym: byte)
      requires Stored()
      modifies this`offs, this`error, this`sent, this`ext, buf
      ensures Stored() && ext == 0 && sent == old(sent) + Repeat(old(ext), sym) && FrontGrew()
      ensures error == 0 ==> old(error) == 0
    {
      while ext > 0
        invariant Stored() && ext <= old(ext)
        invariant sent == old(sent) + Repeat(old(ext) - ext, sym)
        invariant (error == 0 ==> old(error) == 0) && FrontGrew()
      {
        WriteByte(sym);
        ext := ext - 1;
      }
    }

    /** What waits for a carry goes out: the byte held back and the run after it. */
    method Release(carry: nat)
      requires Stored() && PendingOk(Waiting()) && carry <= 1 && (carry == 1 ==> 0 <= rem < 255)
      modifies this`offs, this`error, this`sent, this`ext, buf
      ensures Stored() && ext == 0 && sent == old(sent) + Released(old(Waiting()), carry) && FrontGrew()
      ensures error == 0 ==> old(error) == 0
    {
      hide Repeat, Stored;
      var sym := (255 + carry) % 256;
      ghost var run := Repeat(ext, sym);
      NoRun(sym);
      if rem >= 0 {
        WriteByte(rem + carry);
      }
      if ext > 0 {
        ReleaseRun(sym);
      }
      assert rem >= 0 ==> old(sent) + [rem + carry] + run == old(sent) + ([rem + carry] + run);
      assert rem < 0 ==> old(sent) + run == old(sent) + ([] + run);
    }

    /** ec_enc_carry_out: output a nine-bit symbol, the ninth bit being a carry. */
    method CarryOut(c: nat)
      requires Stored() && PendingOk(Waiting()) && CanTake(Waiting(), c)
      modifies this`offs, this`error, this`sent, this`rem, this`ext, buf
      ensures Stored() && Waiting() == Carry(old(Waiting()), c) && FrontGrew()
      ensures error == 0 ==> old(error) == 0
    {
      hide Stored, Released;
      if c != 255 {
        var carry := c / 256;
        Release(carry);
        rem := c % 256;
      } else {
        ext := ext + 1;
      }
    }

    /** One turn of ec_enc_normalize. */
    method ShiftOut()
      requires Stored() && Denotes(Waiting(), val, iv)
      requires 0 < rng <= CODE_BOT && iv.rng == rng && val + rng < 0x1_0000_0000
      modifies this`offs, this`error, this`sent, this`rem, this`ext, this`val, this`rng, this`nbitsTotal, this`iv, buf
      ensures Stored() && Denotes(Waiting(), val, iv) && val + rng < 0x1_0000_0000 && FrontGrew()
      ensures rng == 256 * old(rng) && nbitsTotal == old(nbitsTotal) + 8
      ensures iv == Interval(256 * old(iv).low, 256 * old(iv).rng, old(iv).shifts + 1)
    {
      hide Denotes, Stored, Carry;
      ShiftDenotes(Waiting(), val, iv);
      WrappedShift(val);
      WrappedShift(rng);
      CarryOut(val / CODE_BOT);
      val := (val * 256) % 0x1_0000_0000 % CODE_TOP;
      rng := (rng * 256) % 0x1_0000_0000;
      nbitsTotal := nbitsTotal + 8;
      iv := Interval(256 * iv.low, 256 * iv.rng, iv.shifts + 1);
    }

    /** ec_enc_normalize: shift out whole symbols until the range is wide again. */
    method Normalize()
      requires Stored() && Denotes(Waiting(), val, iv)
      requires 0 < rng <= CODE_TOP && iv.rng == rng && val + rng < 0x1_0000_0000
      modifies this`offs, this`error, this`sent, this`rem, this`ext, this`val, this`rng, this`nbitsTotal, this`iv, buf
      ensures Stored() && Denotes(Waiting(), val, iv) && iv.rng == rng && val + rng < 0x1_0000_0000 && FrontGrew()
      ensures iv == Renorm(old(iv))
      ensures nbitsTotal == old(nbitsTotal) + 8 * (iv.shifts - old(iv).shifts)
    {
      while rng <= CODE_BOT
        invariant Stored() && Denotes(Waiting(), val, iv)
        invariant 0 < rng <= CODE_TOP && iv.rng == rng && val + rng < 0x1_0000_0000
        invariant Renorm(iv) == Renorm(old(iv)) && FrontGrew()
        invariant nbitsTotal == old(nbitsTotal) + 8 * (iv.shifts - old(iv).shifts)
        decreases CODE_TOP - rng
      {
        ShiftOut();
      }
    }

    /** The common end of every symbol: new registers, then renormalise. */
    method Take(newVal: nat, newRng: nat, ghost sub: Interval)
      requires Valid() && Denotes(Waiting(), newVal, sub)
      requires 0 < newRng <= CODE_TOP && sub.rng == newRng && newVal + newRng < 0x1_0000_0000
      requires sub.shifts == iv.shifts
      modifies this`offs, this`error, this`sent, this`rem, this`ext, this`val, this`rng, this`nbitsTotal, this`iv, buf
      ensures Valid() && iv == Renorm(sub) && FrontGrew()
    {
      val, rng, iv := newVal, newRng, sub;
      Normalize();
    }

    /** ec_encode */
    method Encode(fl: nat, fh: nat, ft: nat)
      requires Valid() && fl < fh <= ft <= CODE_BOT
      modifies this`offs, this`error, this`sent, this`rem, this`ext, this`val, this`rng, this`nbitsTotal, this`iv, buf
      ensures Valid() && iv == Step(old(iv), Slot(fl, fh, ft)) && FrontGrew()
    {
      var r := Unit(rng, ft);
      SlotRegisters(Waiting(), val, iv, r, fl, fh, ft);
      if fl > 0 {
        Take(val + (rng - r * (ft - fl)), r * (fh - fl), Slice(iv, r, fl, fh, ft));
      } else {
        Take(val, rng - r * (ft - fh), Slice(iv, r, fl, fh, ft));
      }
    }

    /** ec_encode_bin: as Encode with a total of 2^bits. */
    method EncodeBin(fl: nat, fh: nat, bits: nat)
      requires Valid() && bits <= 23 && fl < fh <= Pow2(bits)
      modifies this`offs, this`error, this`sent, this`rem, this`ext, this`val, this`rng, this`nbitsTotal, this`iv, buf
      ensures Valid() && iv == Step(old(iv), BinSlot(fl, fh, bits)) && FrontGrew()
    {
      SmallPower(bits);
      var ft := Pow2(bits);
      var r := Unit(rng, ft);
      SlotRegisters(Waiting(), val, iv, r, fl, fh, ft);
      if fl > 0 {
        Take(val + (rng - r * (ft - fl)), r * (fh - fl), Slice(iv, r, fl, fh, ft));
      } else {
        Take(val, rng - r * (ft - fh), Slice(iv, r, fl, fh, ft));
      }
    }

    /** ec_enc_bit_logp: a bit that is set with probability 2^-logp. */
    method EncodeBitLogp(bit: bool, logp: nat)
      requires Valid() && 1 <= logp <= 23
      modifies this`offs, this`error, this`sent, this`rem, this`ext, this`val, this`rng, this`nbitsTotal, this`iv, buf
      ensures Valid() && iv == Step(old(iv), BitSlot(bit, logp)) && FrontGrew()
    {
      SmallPower(logp);
      var r, l := rng, val;
      var s := Unit(r, Pow2(logp));
      BitRegisters(Waiting(), val, iv, s, bit, logp);
      ghost var k := BitSlot(bit, logp);
      r := r - s;
      Take(if bit then l + r else l, if bit then s else r, Slice(iv, s, k.fl, k.fh, k.ft));
    }

    /** ec_enc_icdf: symbol `k` of an inverse cumulative table. */
    method EncodeIcdf(k: nat, icdf: seq<byte>, ftb: nat)
      requires Valid() && IcdfCodable(icdf, ftb, k)
      modifies this`offs, this`error, this`sent, this`rem, this`ext, this`val, this`rng, this`nbitsTotal, this`iv, buf
      ensures Valid() && iv == Step(old(iv), IcdfSlot(icdf, ftb, k)) && FrontGrew()
    {
      SmallPower(ftb);
      var r := Unit(rng, Pow2(ftb));
      ghost var slot := IcdfSlot(icdf, ftb, k);
      SlotRegisters(Waiting(), val, iv, r, slot.fl, slot.fh, slot.ft);
      if k > 0 {
        Take(val + (rng - r * icdf[k - 1]), r * (icdf[k - 1] - icdf[k]), Slice(iv, r, slot.fl, slot.fh, slot.ft));
      } else {
        Take(val, rng - r * icdf[k], Slice(iv, r, slot.fl, slot.fh, slot.ft));
      }
    }

    /** ec_enc_bits: `bits` raw bits, stored from the end of the packet. */
    method EncodeBits(fl: nat, bits: nat)
      requires Valid() && 1 <= bits <= 25 && fl < Pow2(bits)
      modifies this`endOffs, this`error, this`tail, this`endWindow, this`nendBits, this`nbitsTotal, this`raw, buf
      ensures Valid() && raw == Append(old(raw), fl, bits)
    {
      hide Denotes, Buffered, Append, Carry, Pow2;
      var window, used := endWindow, nendBits;
      if used + bits > 32 {
        window, used := StoreBytes(window, used);
      }
      PushField(tail, window, used, raw, fl, bits);
      window, used := window + fl * Pow2(used), used + bits;
      endWindow := window;
      nendBits := used;
      nbitsTotal := nbitsTotal + bits;
      raw := Append(raw, fl, bits);
    }

    /** Moves whole bytes from the window to the back of the buffer. */
    method StoreBytes(window0: nat, used0: nat) returns (window: nat, used: nat)
      requires Stored() && Buffered(tail, window0, used0, raw)
      modifies this`endOffs, this`error, this`tail, buf
      ensures Stored() && Buffered(tail, window, used, raw) && used < 8
      ensures error == 0 ==> old(error) == 0
    {
      window, used := window0, used0;
      while used >= 8
        invariant Stored() && Buffered(tail, window, used, raw)
        invariant error == 0 ==> old(error) == 0
      {
        StoreByte(tail, window, used, raw);
        WriteByteAtEnd(window % 256);
        window := window / 256;
        used := used - 8;
      }
    }

    /** ec_enc_uint: a uniform value below `total`, its low bits sent raw. */
    method EncodeUint(value: nat, total: nat)
      requires Valid() && 1 < total < 0x1_0000_0000 && value < total
      modifies this`offs, this`error, this`sent, this`rem, this`ext, this`val, this`rng, this`nbitsTotal, this`iv, buf
      modifies this`endOffs, this`tail, this`endWindow, this`nendBits, this`raw
      ensures Valid()
      ensures iv == Step(old(iv), UintSlot(value, total))
      ensures raw == Append(old(raw), LowBits(value, UintRawBits(total)), UintRawBits(total))
    {
      hide Step, Shr, LowBits, Denotes, Buffered, Carry;
      UintSplit(value, total);
      var last := total - 1;
      var ftb := Ilog(last);
      if ftb > UINT_BITS {
        ftb := ftb - UINT_BITS;
        var ft := Shr(last, ftb) + 1;
        var fl := Shr(value, ftb);
        Encode(fl, fl + 1, ft);
        EncodeBits(LowBits(value, ftb), ftb);
      } else {
        NothingRaw(value);
        NothingRaw(last);
        Encode(value, value + 1, last + 1);
      }
    }

    /** ec_enc_shrink: give up room in the middle of the buffer. */
    method Shrink(size: nat)
      requires Valid() && offs + endOffs <= size <= storage
      modifies this`storage, buf
      ensures Valid() && storage == size
    {
      hide Denotes, Buffered;
      var source, dest, k := storage - endOffs, size - endOffs, 0;
      ghost var stored := buf[..];
      while k < endOffs
        invariant k <= endOffs && storage == old(storage)
        invariant forall i :: 0 <= i < dest ==> buf[i] == stored[i]
        invariant forall i :: dest <= i < dest + k ==> buf[i] == stored[i + source - dest]
        invariant forall i :: dest + k <= i < buf.Length ==> buf[i] == stored[i]
      {
        buf[dest + k] := buf[source + k];
        k := k + 1;
      }
      storage := size;
    }

    /** One turn of the output loop in ec_enc_done. */
    method OutputEnd(end0: nat, ghost e: Interval) returns (end: nat)
      requires Stored() && Denotes(Waiting(), end0, e) && e.rng == 1 && end0 + 1 < 0x1_0000_0000
      modifies this`offs, this`error, this`sent, this`rem, this`ext, buf
      ensures Stored() && end == (end0 * 256) % CODE_TOP
      ensures Denotes(Waiting(), end, Interval(256 * e.low, 1, e.shifts + 1))
      ensures error == 0 ==> old(error) == 0
    {
      hide Stored, Carry;
      ShiftDenotes(Waiting(), end0, e);
      WrappedShift(end0);
      CarryOut(end0 / CODE_BOT);
      end := (end0 * 256) % 0x1_0000_0000 % CODE_TOP;
      InsideDenotes(Waiting(), end, Interval(256 * e.low, 256, e.shifts + 1), Interval(256 * e.low, 1, e.shifts + 1));
    }

    /** The shortest ending, as ec_enc_done picks it. */
    method ChooseEnd() returns (l: nat, end: nat)
      requires Normal(Interval(0, rng, 0))
      ensures l == FinalBits(val, rng) && end == FinalValue(val, rng)
    {
      hide Ilog, Pow2, RoundUp;
      FinalMaskWidth(rng);
      l := CODE_BITS - Ilog(rng);
      var msk := (CODE_TOP - 1) / Pow2(l);
      end := RoundUp(val, msk);
      if end + msk >= val + rng {
        l := l + 1;
        msk := msk / 2;
        end := RoundUp(val, msk);
      }
    }

    /** The output loop of ec_enc_done. */
    method OutputBits(l0: nat, end0: nat, ghost start: nat) returns (spare: nat, ghost extra: nat)
      requires Stored() && Denotes(Waiting(), end0, Interval(start, 1, iv.shifts))
      requires l0 <= 9 && end0 % Pow2(31 - l0) == 0 && end0 + 1 < 0x1_0000_0000 && (l0 == 0 ==> end0 == 0)
      modifies this`offs, this`error, this`sent, this`rem, this`ext, buf
      ensures Stored() && Denotes(Waiting(), 0, Interval(start * Pow256(extra), 1, iv.shifts + extra))
      ensures 8 * extra == l0 + spare && spare < 8
    {
      hide Stored, Carry, Denotes;
      var l: int, end := l0, end0;
      extra := 0;
      ghost var e := Interval(start, 1, iv.shifts);
      while l > 0
        invariant Stored() && Denotes(Waiting(), end, e)
        invariant Finishing(iv, start, l0, e, end, l, extra)
      {
        FinishingStep(iv, start, l0, e, end, l, extra);
        end := OutputEnd(end, e);
        l := l - 8;
        e, extra := Interval(256 * e.low, 1, e.shifts + 1), extra + 1;
      }
      spare := -l;
    }

    /** ec_enc_done, range-coder part: returns the spare bits of the last byte. */
    method FinishRange() returns (spare: nat, ghost start: nat, ghost extra: nat)
      requires Valid()
      modifies this`offs, this`error, this`sent, this`rem, this`ext, buf
      ensures Stored()
      ensures Finished(sent, iv, start, FinalBits(val, rng), extra)
      ensures spare == 8 * extra - FinalBits(val, rng)
    {
      hide Stored, Carry, Denotes, FinalBits, FinalValue, Pow2, Pow256, Big, Buffered;
      FinalChoice(val, rng);
      var l, end := ChooseEnd();
      start := iv.low + end - val;
      StartMultiple(Waiting(), val, iv, end, l);
      InsideDenotes(Waiting(), val, iv, Interval(start, 1, iv.shifts));
      NoEndBits(end, l);
      spare, extra := OutputBits(l, end, start);
      Flush(Interval(start * Pow256(extra), 1, iv.shifts + extra));
    }

    /** Releases what still waits for a carry. */
    method Flush(ghost e: Interval)
      requires Stored() && Denotes(Waiting(), 0, e)
      modifies this`offs, this`error, this`sent, this`rem, this`ext, buf
      ensures Stored() && |sent| == e.shifts && Big(sent) * CODE_TOP == e.low
    {
      ReleasedValue(Waiting(), 0);
      if rem >= 0 || ext > 0 {
        CarryOut(0);
      }
    }

    /** The bits the finished packet needs, range-coded and raw together. */
    ghost function BitsNeeded(): nat
      reads this
      requires Normal(Interval(0, rng, 0))
    {
      8 * iv.shifts + FinalBits(val, rng) + raw.bits
    }

    /**
      ec_enc_done.  It succeeds exactly when the bits fit, and then the packet
      lies in the final interval and carries the raw bits.
     */
    method Done()
      requires Valid()
      modifies this`offs, this`error, this`sent, this`rem, this`ext, this`endOffs, this`tail, buf
      ensures buf == old(buf) && storage == old(storage)
      ensures storage <= buf.Length
      ensures error == 0 <==> BitsNeeded() <= 8 * storage
      ensures error == 0 ==> Holds(iv, buf[..storage]) && Carries(buf[..storage], raw)
    {
      hide Denotes, FinalBits;
      ghost var l := FinalBits(val, rng);
      var spare, start, extra := FinishRange();
      var window, used := StoreBytes(endWindow, nendBits);
      if error == 0 {
        ClearMiddle();
        SpareBitsClear(sent, iv, start, l, extra);
        AddLastBits(spare, window, used);
        if error == 0 {
          PackedDecodes(buf[..storage], sent, tail, window, used, raw, iv, start, l, extra);
        }
      }
    }

    /** OPUS_CLEAR between the two ends. */
    method ClearMiddle()
      requires Stored() && error == 0
      modifies buf
      ensures Stored()
      ensures forall i :: offs <= i < storage - endOffs ==> buf[i] == 0
    {
      var i := offs;
      while i < storage - endOffs
        invariant offs <= i <= storage - endOffs
        invariant forall j :: 0 <= j < offs ==> buf[j] == sent[j]
        invariant forall j :: 0 <= j < endOffs ==> buf[storage - 1 - j] == tail[j]
        invariant forall j :: offs <= j < i ==> buf[j] == 0
      {
        buf[i] := 0;
        i := i + 1;
      }
    }

    /** The last few raw bits, in a free byte or in the spare bits of a used one. */
    method AddLastBits(spare: nat, window0: nat, used: nat)
      requires Stored() && error == 0 && used < 8 && window0 < Pow2(used)
      requires forall i :: offs <= i < storage - endOffs ==> buf[i] == 0
      requires spare < 8
      requires if |sent| > 0 then sent[|sent| - 1] % Pow2(spare) == 0 else spare == 0
      modifies this`error, buf
      ensures error == 0 <==> 8 * |sent| - spare + 8 * |tail| + used <= 8 * storage
      ensures error == 0 ==> Packed(buf[..storage], sent, tail, window0, used, spare)
    {
      hide Pow2, Packed;
      ghost var laid := buf[..storage];
      assert Laid(laid, sent, tail);
      if used > 0 {
        if endOffs >= storage {
          error := -1;
        } else {
          var at := storage - endOffs - 1;
          if offs + endOffs >= storage && spare < used {
            error := -1;
            MergeBusted(at, LowBits(window0, spare), spare);
          } else {
            MergePacked(laid, sent, tail, window0, used, spare);
            buf[at] := OrDisjoint(buf[at], window0, if offs + endOffs >= storage then spare else 8);
            assert buf[..storage] == laid[at := laid[at] + window0];
          }
        }
      } else {
        LaidPacked(laid, sent, tail, window0, spare);
      }
    }

    /** Even when the bits do not fit, only the spare bits are overwritten. */
    method MergeBusted(at: nat, window: nat, spare: nat)
      requires at < buf.Length && spare < 8 && buf[at] % Pow2(spare) == 0 && window < Pow2(spare)
      modifies buf
      ensures forall i :: 0 <= i < buf.Length && i != at ==> buf[i] == old(buf[i])
      ensures buf[at] == old(buf[at]) + window
    {
      buf[at] := OrDisjoint(buf[at], window, spare);
    }
  }

  /** The register holds the low end up to the carry still pending. */
  lemma RegisterIsLow(p: Pending, val: nat, iv: Interval)
    requires Denotes(p, val, iv) && Normal(iv) && val < 0x1_0000_0000
    ensures FinalBits(val, iv.rng) == FinalBits(iv.low % CODE_TOP, iv.rng)
  {
    hide FinalBits, OutValue;
    DivAddMultiple(val, CODE_TOP, OutValue(p));
    if val >= CODE_TOP {
      FinalBitsPeriodic(val - CODE_TOP, iv.rng);
    }
  }
}
