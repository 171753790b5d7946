/**
  OCB2 authenticated encryption (lib/mumble/ocb_aes.c) around any block cipher:
  what encryption produces, and that decryption takes it back.
 */
module Ocb2 {
  import opened ByteStreams
  import opened BlockMath

  const BLOCK: nat := 16

  /** aes_encrypt and aes_decrypt under one key. */
  datatype Cipher = Cipher(encipher: seq<byte> -> seq<byte>, decipher: seq<byte> -> seq<byte>)

  ghost predicate CipherOk(c: Cipher)
  {
    forall b :: |b| == BLOCK ==> |c.encipher(b)| == BLOCK && |c.decipher(b)| == BLOCK && c.decipher(c.encipher(b)) == b
  }

  /** The whole blocks done so far: their output, the offset and the checksum. */
  datatype Run = Run(out: seq<byte>, delta: seq<byte>, sum: seq<byte>)

  predicate RunOk(r: Run, n: nat)
  {
    |r.out| == BLOCK * n && |r.delta| == BLOCK && |r.sum| == BLOCK
  }

  function Block(m: seq<byte>, i: nat): (b: seq<byte>)
    requires BLOCK * (i + 1) <= |m|
    ensures |b| == BLOCK
  {
    m[BLOCK * i..BLOCK * (i + 1)]
  }

  /** One block each way: the new offset is twice the old. */
  ghost function EncryptNext(c: Cipher, r: Run, b: seq<byte>): (s: Run)
    requires CipherOk(c) && |r.delta| == BLOCK && |r.sum| == BLOCK && |b| == BLOCK
    ensures |s.out| == |r.out| + BLOCK && |s.delta| == BLOCK && |s.sum| == BLOCK
  {
    var d := Double(r.delta);
    Run(r.out + XorBlock(c.encipher(XorBlock(d, b)), d), d, XorBlock(r.sum, b))
  }

  ghost function DecryptNext(c: Cipher, r: Run, b: seq<byte>): (s: Run)
    requires CipherOk(c) && |r.delta| == BLOCK && |r.sum| == BLOCK && |b| == BLOCK
    ensures |s.out| == |r.out| + BLOCK && |s.delta| == BLOCK && |s.sum| == BLOCK
  {
    var d := Double(r.delta);
    var plain := XorBlock(c.decipher(XorBlock(d, b)), d);
    Run(r.out + plain, d, XorBlock(r.sum, plain))
  }

  ghost function EncryptRun(c: Cipher, delta: seq<byte>, m: seq<byte>, n: nat): (r: Run)
    requires CipherOk(c) && |delta| == BLOCK && BLOCK * n <= |m|
    ensures RunOk(r, n)
  {
    if n == 0 then Run([], delta, Zeros(BLOCK))
    else EncryptNext(c, EncryptRun(c, delta, m, n - 1), Block(m, n - 1))
  }

  ghost function DecryptRun(c: Cipher, delta: seq<byte>, m: seq<byte>, n: nat): (r: Run)
    requires CipherOk(c) && |delta| == BLOCK && BLOCK * n <= |m|
    ensures RunOk(r, n)
  {
    if n == 0 then Run([], delta, Zeros(BLOCK))
    else DecryptNext(c, DecryptRun(c, delta, m, n - 1), Block(m, n - 1))
  }

  /** bitlen(in), as the last byte of a block of zeros. */
  function SizeBlock(len: nat): (b: seq<byte>)
    requires len < BLOCK
    ensures |b| == BLOCK
  {
    Zeros(BLOCK)[BLOCK - 1 := len * 8]
  }

  /** The key stream for what is left after the whole blocks. */
  ghost function Pad(c: Cipher, delta: seq<byte>, len: nat): (p: seq<byte>)
    requires CipherOk(c) && |delta| == BLOCK && len < BLOCK
    ensures |p| == BLOCK
  {
    c.encipher(XorBlock(SizeBlock(len), Double(delta)))
  }

  /** The last, partial block: the same both ways. */
  ghost function FinalOut(c: Cipher, delta: seq<byte>, tail: seq<byte>): (o: seq<byte>)
    requires CipherOk(c) && |delta| == BLOCK && |tail| < BLOCK
    ensures |o| == |tail|
  {
    XorBlock(tail, Pad(c, delta, |tail|)[..|tail|])
  }

  ghost function FinalTag(c: Cipher, r: Run, tail: seq<byte>): (t: seq<byte>)
    requires CipherOk(c) && |r.delta| == BLOCK && |r.sum| == BLOCK && |tail| < BLOCK
    ensures |t| == BLOCK
  {
    var sum := XorBlock(tail + Pad(c, r.delta, |tail|)[|tail|..], r.sum);
    c.encipher(XorBlock(Triple(Double(r.delta)), sum))
  }

  /** What ocb2_aes_encrypt and ocb2_aes_decrypt put out, and their tags. */
  datatype Sealed = Sealed(out: seq<byte>, tag: seq<byte>)

  ghost function Finished(c: Cipher, r: Run, tail: seq<byte>): (s: Sealed)
    requires CipherOk(c) && |r.delta| == BLOCK && |r.sum| == BLOCK && |tail| < BLOCK
  {
    Sealed(r.out + FinalOut(c, r.delta, tail), FinalTag(c, r, tail))
  }

  function Rest(m: seq<byte>): (t: seq<byte>)
    ensures |t| < BLOCK
  {
    m[BLOCK * (|m| / BLOCK)..]
  }

  ghost function Encrypted(c: Cipher, iv: seq<byte>, m: seq<byte>): (s: Sealed)
    requires CipherOk(c) && |iv| == BLOCK
    ensures |s.out| == |m|
  {
    Finished(c, EncryptRun(c, c.encipher(iv), m, |m| / BLOCK), Rest(m))
  }

  ghost function Decrypted(c: Cipher, iv: seq<byte>, m: seq<byte>): (s: Sealed)
    requires CipherOk(c) && |iv| == BLOCK
    ensures |s.out| == |m|
  {
    Finished(c, DecryptRun(c, c.encipher(iv), m, |m| / BLOCK), Rest(m))
  }

  /** Decrypting a block gives the plaintext back and leaves the same offset and checksum. */
  lemma BlockBack(c: Cipher, e: Run, d: Run, b: seq<byte>)
    requires CipherOk(c) && |e.delta| == BLOCK && |e.sum| == BLOCK && |b| == BLOCK
    requires d.delta == e.delta && d.sum == e.sum
    ensures var e' := EncryptNext(c, e, b);
      var cipher := XorBlock(c.encipher(XorBlock(Double(e.delta), b)), Double(e.delta));
      && e'.out == e.out + cipher
      && DecryptNext(c, d, cipher) == Run(d.out + b, e'.delta, e'.sum)
  {
    hide Double, XorBlock;
    var k := Double(e.delta);
    var x := XorBlock(k, b);
    XorBlockCancels(c.encipher(x), k);
    XorBlockCancels(k, XorBlock(c.encipher(x), k));
    XorBlockCancels(b, k);
    XorBlockCancels(k, b);
  }

  /** Block by block the offsets and checksums agree, and the plaintext comes back. */
  lemma {:induction false} RunBack(c: Cipher, delta: seq<byte>, m: seq<byte>, out: seq<byte>, n: nat)
    requires CipherOk(c) && |delta| == BLOCK && BLOCK * n <= |m| && BLOCK * n <= |out|
    requires out[..BLOCK * n] == EncryptRun(c, delta, m, n).out
    ensures var e := EncryptRun(c, delta, m, n);
      DecryptRun(c, delta, out, n) == Run(m[..BLOCK * n], e.delta, e.sum)
  {
    hide CipherOk, EncryptNext, DecryptNext;
    if n > 0 {
      var e, k := EncryptRun(c, delta, m, n - 1), BLOCK * (n - 1);
      var b := Block(m, n - 1);
      EncryptGrows(c, e, b);
      assert out[..k] == out[..BLOCK * n][..k];
      RunBack(c, delta, m, out, n - 1);
      BlockBack(c, e, DecryptRun(c, delta, out, n - 1), b);
      assert Block(out, n - 1) == out[..BLOCK * n][k..];
      assert m[..BLOCK * n] == m[..k] + b;
    }
  }

  lemma EncryptGrows(c: Cipher, r: Run, b: seq<byte>)
    requires CipherOk(c) && |r.delta| == BLOCK && |r.sum| == BLOCK && |b| == BLOCK
    ensures var s := EncryptNext(c, r, b);
      && s.out[..|r.out|] == r.out
      && s.out[|r.out|..] == XorBlock(c.encipher(XorBlock(Double(r.delta), b)), Double(r.delta))
  {
    hide XorBlock, Double;
  }

  /** Decryption inverts encryption, whatever the length. */
  lemma RoundTrip(c: Cipher, iv: seq<byte>, m: seq<byte>)
    requires CipherOk(c) && |iv| == BLOCK
    ensures Decrypted(c, iv, Encrypted(c, iv, m).out).out == m
  {
    hide XorBlock, Double, Pad, CipherOk;
    var delta, n := c.encipher(iv), |m| / BLOCK;
    EncipherSize(c, iv);
    var e, tail, out := EncryptRun(c, delta, m, n), Rest(m), Encrypted(c, iv, m).out;
    assert out[..BLOCK * n] == e.out;
    RunBack(c, delta, m, out, n);
    assert Rest(out) == FinalOut(c, e.delta, tail);
    XorBlockCancels(tail, Pad(c, e.delta, |tail|)[..|tail|]);
    assert m == m[..BLOCK * n] + tail;
  }

  lemma EncipherSize(c: Cipher, b: seq<byte>)
    requires CipherOk(c) && |b| == BLOCK
    ensures |c.encipher(b)| == BLOCK
  {
  }

  /**
    The tags: both sides compute the same one exactly when the bytes left over
    after the whole blocks meet a key stream of zeros, and so always when no
    bytes are left over.  Decryption puts the ciphertext of a partial block, not
    its plaintext, into the checksum.
   */
  lemma TagsAgree(c: Cipher, iv: seq<byte>, m: seq<byte>)
    requires CipherOk(c) && |iv| == BLOCK
    ensures var e := Encrypted(c, iv, m);
      var pad := Pad(c, EncryptRun(c, c.encipher(iv), m, |m| / BLOCK).delta, |Rest(m)|);
      Decrypted(c, iv, e.out).tag == e.tag <==> pad[..|Rest(m)|] == Zeros(|Rest(m)|)
  {
    hide XorBlock, Double, Pad, Triple;
    var delta, n := c.encipher(iv), |m| / BLOCK;
    var e, tail, out := EncryptRun(c, delta, m, n), Rest(m), Encrypted(c, iv, m).out;
    assert out[..BLOCK * n] == e.out;
    RunBack(c, delta, m, out, n);
    assert Rest(out) == FinalOut(c, e.delta, tail);
    var pad := Pad(c, e.delta, |tail|);
    var off := Triple(Double(e.delta));
    var plain, cipher := tail + pad[|tail|..], Rest(out) + pad[|tail|..];
    EncipherOnce(c, XorBlock(off, XorBlock(plain, e.sum)), XorBlock(off, XorBlock(cipher, e.sum)));
    XorOnce(off, XorBlock(plain, e.sum), XorBlock(cipher, e.sum));
    XorBlockCancels(plain, e.sum);
    XorBlockCancels(cipher, e.sum);
    assert plain == cipher <==> tail == Rest(out) by {
      assert plain[..|tail|] == tail && cipher[..|tail|] == Rest(out);
    }
    SameUnderXor(tail, pad[..|tail|]);
  }

  lemma EncipherOnce(c: Cipher, a: seq<byte>, b: seq<byte>)
    requires CipherOk(c) && |a| == BLOCK && |b| == BLOCK
    ensures c.encipher(a) == c.encipher(b) <==> a == b
  {
    assert c.decipher(c.encipher(a)) == a && c.decipher(c.encipher(b)) == b;
  }

  lemma XorOnce(k: seq<byte>, a: seq<byte>, b: seq<byte>)
    requires |k| == |a| == |b|
    ensures XorBlock(k, a) == XorBlock(k, b) <==> a == b
  {
    hide XorBlock;
    XorBlockCancels(k, a);
    XorBlockCancels(k, b);
    XorBlockCancels(a, k);
    XorBlockCancels(b, k);
  }

  lemma SameUnderXor(a: seq<byte>, k: seq<byte>)
    requires |a| == |k|
    ensures XorBlock(a, k) == a <==> k == Zeros(|k|)
  {
    hide XorByte;
    forall i | 0 <= i < |a| ensures XorByte(a[i], k[i]) == a[i] <==> k[i] == 0 {
      XorByteSame(a[i], k[i]);
    }
    if XorBlock(a, k) == a {
      forall i | 0 <= i < |k| ensures k[i] == 0 {
        assert XorBlock(a, k)[i] == a[i];
      }
      assert k == Zeros(|k|);
    }
    if k == Zeros(|k|) {
      forall i | 0 <= i < |k| ensures XorByte(a[i], k[i]) == a[i] {
        assert k[i] == 0;
      }
      assert XorBlock(a, k) == a;
    }
  }

  lemma XorByteSame(a: byte, k: byte)
    ensures XorByte(a, k) == a <==> k == 0
  {
    XorZero(a);
    XorCommutes(a, k);
    XorCancels(k, a);
    XorZero(k);
  }

  /** Without a partial block the tags always agree. */
  lemma TagsAgreeOnWholeBlocks(c: Cipher, iv: seq<byte>, m: seq<byte>)
    requires CipherOk(c) && |iv| == BLOCK && |m| % BLOCK == 0
    ensures Decrypted(c, iv, Encrypted(c, iv, m).out).tag == Encrypted(c, iv, m).tag
  {
    hide Encrypted, Decrypted, Pad;
    TagsAgree(c, iv, m);
    assert Rest(m) == [];
  }
}
