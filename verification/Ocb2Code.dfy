/**
  The loops and buffers of lib/mumble/ocb_aes.c, proved against Ocb2.  Input and
  output are separate buffers, as in the callers.
 */
module Ocb2Code {
  import opened Powers
  import opened ByteStreams
  import opened BlockMath
  import opened Ocb2

  /** aes_encrypt and aes_decrypt on one block. */
  function Encipher(c: Cipher, b: seq<byte>): (r: seq<byte>)
    requires CipherOk(c) && |b| == BLOCK
    ensures |r| == BLOCK && r == c.encipher(b)
  {
    c.encipher(b)
  }

  function Decipher(c: Cipher, b: seq<byte>): (r: seq<byte>)
    requires CipherOk(c) && |b| == BLOCK
    ensures |r| == BLOCK && r == c.decipher(b)
  {
    c.decipher(b)
  }

  /** xor_block_ex, writing at an offset. */
  method XorInto(a: seq<byte>, b: seq<byte>, out: array<byte>, at: nat)
    requires |a| == |b| && at + |a| <= out.Length
    modifies out
    ensures out[at..at + |a|] == XorBlock(a, b)
    ensures forall k :: 0 <= k < out.Length && !(at <= k < at + |a|) ==> out[k] == old(out[k])
  {
    hide XorByte;
    for i := 0 to |a|
      invariant forall k :: 0 <= k < i ==> out[at + k] == XorByte(a[k], b[k])
      invariant forall k :: 0 <= k < out.Length && !(at <= k < at + i) ==> out[k] == old(out[k])
    {
      out[at + i] := XorByte(a[i], b[i]);
    }
    assert forall k :: 0 <= k < |a| ==> out[at..at + |a|][k] == XorByte(a[k], b[k]);
  }

  /** left_shift */
  method ShiftLeft(input: array<byte>, out: array<byte>, bits: nat)
    requires input != out && out.Length == input.Length
    modifies out
    ensures out[..] == LeftShift(input[..], bits)
  {
    hide ShiftByte, Pow2, ByteShift, BitShift, Staying, Leaving;
    var n := input.Length;
    ghost var t := ByteShift(input[..], bits / 8);
    for i := 0 to n
      invariant forall k :: 0 <= k < i ==> out[k] == ShiftByte(t[k], After(t, k + 1), bits % 8)
    {
      var index := i + bits / 8;
      var b: byte := 0;
      if index < n {
        ShiftByteFits(input[index], if index + 1 < n then input[index + 1] else 0, bits % 8);
        b := Staying(input[index], bits % 8);
        if index + 1 < n {
          b := b + Leaving(input[index + 1], bits % 8);
        }
      }
      out[i] := b;
      ShiftedAt(input[..], bits, i);
    }
    ShiftedAll(out[..], t, bits % 8);
  }

  lemma ShiftedAll(s: seq<byte>, t: seq<byte>, r: nat)
    requires r < 8 && |s| == |t|
    requires forall k :: 0 <= k < |s| ==> s[k] == ShiftByte(t[k], After(t, k + 1), r)
    ensures s == BitShift(t, r)
  {
    hide ShiftByte;
  }

  /** What the two halves of left_shift amount to for one byte. */
  lemma ShiftedAt(s: seq<byte>, bits: nat, i: nat)
    requires i < |s|
    ensures var t, j, r := ByteShift(s, bits / 8), i + bits / 8, bits % 8;
      ShiftByte(t[i], After(t, i + 1), r) ==
        if j >= |s| then 0
        else Staying(s[j], r) + if j + 1 < |s| then Leaving(s[j + 1], r) else 0
  {
    hide Staying, Leaving;
    ZeroLeaves(bits % 8);
    ShiftByteIs(ByteShift(s, bits / 8)[i], After(ByteShift(s, bits / 8), i + 1), bits % 8);
  }

  /** double_block */
  method DoubleBlock(input: array<byte>, out: array<byte>)
    requires input != out && input.Length == out.Length == BLOCK
    modifies out
    ensures out[..] == Double(input[..])
  {
    hide LeftShift, XorByte;
    ShiftLeft(input, out, 1);
    if input[0] >= 128 {
      out[BLOCK - 1] := XorByte(out[BLOCK - 1], 0x87);
    }
  }

  /** cpy_block */
  method CopyBlock(dest: array<byte>, source: array<byte>)
    requires dest.Length == source.Length == BLOCK && dest != source
    modifies dest
    ensures dest[..] == source[..]
  {
    for i := 0 to BLOCK
      invariant dest[..i] == source[..i]
    {
      dest[i] := source[i];
    }
  }

  /** ocb2_encrypt_block, for block `i` of the input. */
  method EncryptBlock(c: Cipher, input: array<byte>, out: array<byte>, i: nat, delta: array<byte>, sum: array<byte>, ghost r: Run)
    requires CipherOk(c) && BLOCK * (i + 1) <= input.Length && out.Length >= input.Length
    requires delta.Length == sum.Length == BLOCK && delta != sum && input !in [out, delta, sum] && out !in [delta, sum]
    requires RunOk(r, i) && out[..BLOCK * i] == r.out && delta[..] == r.delta && sum[..] == r.sum
    modifies out, delta, sum
    ensures var s := EncryptNext(c, r, Block(input[..], i));
      out[..BLOCK * (i + 1)] == s.out && delta[..] == s.delta && sum[..] == s.sum
    ensures forall k :: BLOCK * (i + 1) <= k < out.Length ==> out[k] == old(out[k])
  {
    hide XorBlock, Double, CipherOk;
    var at := BLOCK * i;
    var block := input[at..at + BLOCK];
    assert block == Block(input[..], i);
    var deltaNew := new byte[BLOCK];
    DoubleBlock(delta, deltaNew);
    var d := deltaNew[..];
    var encrypted := Encipher(c, XorBlock(d, block));
    XorInto(encrypted, d, out, at);
    assert out[..at] == r.out;
    assert out[..at + BLOCK] == out[..at] + out[at..at + BLOCK];
    XorInto(sum[..], block, sum, 0);
    assert sum[..] == sum[0..0 + BLOCK];
    CopyBlock(delta, deltaNew);
  }

  /** ocb2_decrypt_block */
  method DecryptBlock(c: Cipher, input: array<byte>, out: array<byte>, i: nat, delta: array<byte>, sum: array<byte>, ghost r: Run)
    requires CipherOk(c) && BLOCK * (i + 1) <= input.Length && out.Length >= input.Length
    requires delta.Length == sum.Length == BLOCK && delta != sum && input !in [out, delta, sum] && out !in [delta, sum]
    requires RunOk(r, i) && out[..BLOCK * i] == r.out && delta[..] == r.delta && sum[..] == r.sum
    modifies out, delta, sum
    ensures var s := DecryptNext(c, r, Block(input[..], i));
      out[..BLOCK * (i + 1)] == s.out && delta[..] == s.delta && sum[..] == s.sum
    ensures forall k :: BLOCK * (i + 1) <= k < out.Length ==> out[k] == old(out[k])
  {
    hide XorBlock, Double, CipherOk;
    var at := BLOCK * i;
    var block := input[at..at + BLOCK];
    assert block == Block(input[..], i);
    var deltaNew := new byte[BLOCK];
    DoubleBlock(delta, deltaNew);
    var d := deltaNew[..];
    var deciphered := Decipher(c, XorBlock(d, block));
    XorInto(deciphered, d, out, at);
    assert out[..at] == r.out;
    assert out[..at + BLOCK] == out[..at] + out[at..at + BLOCK];
    XorInto(sum[..], out[at..at + BLOCK], sum, 0);
    assert sum[..] == sum[0..0 + BLOCK];
    CopyBlock(delta, deltaNew);
  }

  /** ocb2_encrypt_block_final, which both directions end with. */
  method FinalBlock(c: Cipher, input: array<byte>, out: array<byte>, at: nat, delta: array<byte>, sum: array<byte>, ghost r: Run)
    returns (tag: seq<byte>)
    requires CipherOk(c) && at <= input.Length < at + BLOCK && out.Length >= input.Length
    requires delta.Length == sum.Length == BLOCK && delta != sum && input !in [out, delta, sum] && out !in [delta, sum]
    requires |r.delta| == |r.sum| == BLOCK && out[..at] == r.out && delta[..] == r.delta && sum[..] == r.sum
    modifies out, sum
    ensures Sealed(out[..input.Length], tag) == Finished(c, r, input[at..])
    ensures forall k :: input.Length <= k < out.Length ==> out[k] == old(out[k])
  {
    hide XorBlock, Double, CipherOk;
    var inl := input.Length - at;
    var tail := input[at..];
    var deltaNew := new byte[BLOCK];
    DoubleBlock(delta, deltaNew);
    var size := Zeros(BLOCK);
    size := size[BLOCK - 1 := inl * 8];
    var pad := Encipher(c, XorBlock(size, deltaNew[..]));
    assert pad == Pad(c, r.delta, inl);
    XorInto(tail, pad[..inl], out, at);
    assert out[..at] == r.out;
    assert out[..at + inl] == out[..at] + out[at..at + inl];
    XorInto(tail + pad[inl..], sum[..], sum, 0);
    assert sum[..] == sum[0..0 + BLOCK];
    var deltaTag := Triple(deltaNew[..]);
    tag := Encipher(c, XorBlock(deltaTag, sum[..]));
  }

  /** ocb2_aes_encrypt */
  method Encrypt(c: Cipher, iv: seq<byte>, input: array<byte>, out: array<byte>) returns (tag: seq<byte>)
    requires CipherOk(c) && |iv| == BLOCK && input != out && out.Length >= input.Length
    modifies out
    ensures Sealed(out[..input.Length], tag) == Encrypted(c, iv, input[..])
    ensures forall k :: input.Length <= k < out.Length ==> out[k] == old(out[k])
  {
    hide EncryptNext, Finished, CipherOk, Block;
    var delta, sum := new byte[BLOCK], new byte[BLOCK];
    var start := Encipher(c, iv);
    forall i | 0 <= i < BLOCK { delta[i] := start[i]; }
    forall i | 0 <= i < BLOCK { sum[i] := 0; }
    assert delta[..] == start && sum[..] == Zeros(BLOCK);
    var blocks := input.Length / BLOCK;
    assert out[..0] == [];
    for i := 0 to blocks
      invariant var r := EncryptRun(c, start, input[..], i);
        out[..BLOCK * i] == r.out && delta[..] == r.delta && sum[..] == r.sum
      invariant forall k :: input.Length <= k < out.Length ==> out[k] == old(out[k])
    {
      EncryptBlock(c, input, out, i, delta, sum, EncryptRun(c, start, input[..], i));
    }
    assert input[BLOCK * blocks..] == Rest(input[..]);
    tag := FinalBlock(c, input, out, BLOCK * blocks, delta, sum, EncryptRun(c, start, input[..], blocks));
  }

  /** ocb2_aes_decrypt */
  method Decrypt(c: Cipher, iv: seq<byte>, input: array<byte>, out: array<byte>) returns (tag: seq<byte>)
    requires CipherOk(c) && |iv| == BLOCK && input != out && out.Length >= input.Length
    modifies out
    ensures Sealed(out[..input.Length], tag) == Decrypted(c, iv, input[..])
    ensures forall k :: input.Length <= k < out.Length ==> out[k] == old(out[k])
  {
    hide DecryptNext, Finished, CipherOk, Block;
    var delta, sum := new byte[BLOCK], new byte[BLOCK];
    var start := Encipher(c, iv);
    forall i | 0 <= i < BLOCK { delta[i] := start[i]; }
    forall i | 0 <= i < BLOCK { sum[i] := 0; }
    assert delta[..] == start && sum[..] == Zeros(BLOCK);
    var blocks := input.Length / BLOCK;
    assert out[..0] == [];
    for i := 0 to blocks
      invariant var r := DecryptRun(c, start, input[..], i);
        out[..BLOCK * i] == r.out && delta[..] == r.delta && sum[..] == r.sum
      invariant forall k :: input.Length <= k < out.Length ==> out[k] == old(out[k])
    {
      DecryptBlock(c, input, out, i, delta, sum, DecryptRun(c, start, input[..], i));
    }
    assert input[BLOCK * blocks..] == Rest(input[..]);
    tag := FinalBlock(c, input, out, BLOCK * blocks, delta, sum, DecryptRun(c, start, input[..], blocks));
  }

  /** A packet sealed under one IV and plain under the same one is the packet. */
  method SealAndOpen(c: Cipher, iv: seq<byte>, message: array<byte>) returns (plain: array<byte>, sealedTag: seq<byte>, openedTag: seq<byte>)
    requires CipherOk(c) && |iv| == BLOCK
    ensures plain[..] == message[..]
    ensures message.Length % BLOCK == 0 ==> sealedTag == openedTag
  {
    hide Encrypted, Decrypted, CipherOk;
    var n := message.Length;
    var secret := new byte[n];
    sealedTag := Encrypt(c, iv, message, secret);
    assert secret[..n] == secret[..];
    plain := new byte[n];
    openedTag := Decrypt(c, iv, secret, plain);
    assert plain[..n] == plain[..];
    RoundTrip(c, iv, message[..]);
    if n % BLOCK == 0 {
      TagsAgreeOnWholeBlocks(c, iv, message[..]);
    }
  }
}
