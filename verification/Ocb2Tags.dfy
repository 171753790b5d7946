/**
  What OCB2 seals (section 3 of Rogaway's "Efficient Instantiations of Tweakable
  Blockciphers", with the IV enciphered once): the offsets are x, x^2, x^3, ...
  times the enciphered IV, every block is enciphered between two of the same
  offset, and the tag tells apart any two messages whose blocks add up to
  different sums.
 */
module Ocb2Tags {
  import opened Powers
  import opened ByteStreams
  import opened BlockMath
  import opened Ocb2

  /** The offset of block `i`, counting from one; offset 0 is the enciphered IV. */
  ghost function Offset(c: Cipher, iv: seq<byte>, i: nat): (d: seq<byte>)
    requires CipherOk(c) && |iv| == BLOCK
    ensures |d| == BLOCK
  {
    if i == 0 then c.encipher(iv) else Double(Offset(c, iv, i - 1))
  }

  /** x^i times a polynomial. */
  function TimesXs(v: nat, i: nat): nat
  {
    if i == 0 then v else TimesX(TimesXs(v, i - 1))
  }

  lemma {:induction false} OffsetValue(c: Cipher, iv: seq<byte>, i: nat)
    requires CipherOk(c) && |iv| == BLOCK
    ensures Big(Offset(c, iv, i)) == TimesXs(Big(c.encipher(iv)), i)
  {
    hide Double, TimesX, Big;
    if i > 0 {
      OffsetValue(c, iv, i - 1);
      DoubleIsTimesX(Offset(c, iv, i - 1));
    }
  }

  /** Exclusive or of blocks is addition of their polynomials. */
  lemma {:induction false} BigXor(a: seq<byte>, b: seq<byte>)
    requires |a| == |b|
    ensures Big(XorBlock(a, b)) == Xor(Big(a), Big(b))
    decreases |a|
  {
    hide Pow2, Xor;
    if a == [] {
      XorZero(0);
    } else {
      var n := |a| - 1;
      BigXor(a[..n], b[..n]);
      assert XorBlock(a, b)[..n] == XorBlock(a[..n], b[..n]);
      ByteValues();
      XorParts(Big(a[..n]), a[n], Big(b[..n]), b[n], 8);
    }
  }

  /** The tag's offset is x + 1 times that of the last block. */
  lemma TripleValue(s: seq<byte>)
    requires |s| == BLOCK
    ensures Big(Triple(s)) == Xor(Big(s), TimesX(Big(s)))
  {
    hide Double, Big, XorBlock, Xor;
    DoubleIsTimesX(s);
    BigXor(s, Double(s));
  }

  /** All the whole blocks added up. */
  function BlockSum(m: seq<byte>, n: nat): (s: seq<byte>)
    requires BLOCK * n <= |m|
    ensures |s| == BLOCK
  {
    if n == 0 then Zeros(BLOCK) else XorBlock(BlockSum(m, n - 1), Block(m, n - 1))
  }

  /** What is left over, made up to a block from the key stream. */
  ghost function Completed(c: Cipher, iv: seq<byte>, m: seq<byte>): (b: seq<byte>)
    requires CipherOk(c) && |iv| == BLOCK
    ensures |b| == BLOCK
  {
    Rest(m) + Stream(c, iv, m)[|Rest(m)|..]
  }

  /** The key stream after the whole blocks: the length left over, in bits, enciphered under the next offset. */
  ghost function Stream(c: Cipher, iv: seq<byte>, m: seq<byte>): (b: seq<byte>)
    requires CipherOk(c) && |iv| == BLOCK
    ensures |b| == BLOCK
  {
    c.encipher(XorBlock(SizeBlock(|m| % BLOCK), Offset(c, iv, |m| / BLOCK + 1)))
  }

  /** The sum that the tag seals. */
  ghost function Checksum(c: Cipher, iv: seq<byte>, m: seq<byte>): (s: seq<byte>)
    requires CipherOk(c) && |iv| == BLOCK
    ensures |s| == BLOCK
  {
    XorBlock(Completed(c, iv, m), BlockSum(m, |m| / BLOCK))
  }

  /** After `n` blocks: the offset, the sum, and each block enciphered under its own offset. */
  lemma {:induction false} RunForm(c: Cipher, iv: seq<byte>, m: seq<byte>, n: nat)
    requires CipherOk(c) && |iv| == BLOCK && BLOCK * n <= |m| && |c.encipher(iv)| == BLOCK
    ensures var r := EncryptRun(c, c.encipher(iv), m, n);
      && r.delta == Offset(c, iv, n) && r.sum == BlockSum(m, n)
      && forall j :: 0 <= j < n ==> Block(r.out, j) == Masked(c, Offset(c, iv, j + 1), Block(m, j))
  {
    hide CipherOk, Double, XorBlock, Block, Masked;
    if n > 0 {
      RunForm(c, iv, m, n - 1);
      var r, s := EncryptRun(c, c.encipher(iv), m, n - 1), EncryptRun(c, c.encipher(iv), m, n);
      NextForm(c, r, Block(m, n - 1), n - 1);
      forall j | 0 <= j < n ensures Block(s.out, j) == Masked(c, Offset(c, iv, j + 1), Block(m, j)) {
        if j < n - 1 {
          BlockKept(r.out, s.out, j);
        }
      }
    }
  }

  /** A block enciphered between two of the same offset. */
  ghost function Masked(c: Cipher, d: seq<byte>, b: seq<byte>): (o: seq<byte>)
    requires CipherOk(c) && |d| == |b| == BLOCK
    ensures |o| == BLOCK
  {
    XorBlock(c.encipher(XorBlock(b, d)), d)
  }

  lemma NextForm(c: Cipher, r: Run, b: seq<byte>, n: nat)
    requires CipherOk(c) && RunOk(r, n) && |b| == BLOCK
    ensures var s := EncryptNext(c, r, b);
      && s.delta == Double(r.delta) && s.sum == XorBlock(r.sum, b)
      && s.out[..BLOCK * n] == r.out && |s.out| == BLOCK * (n + 1) && Block(s.out, n) == Masked(c, s.delta, b)
  {
    hide Double, XorBlock;
    XorBlockCancels(Double(r.delta), b);
  }

  lemma BlockKept(a: seq<byte>, b: seq<byte>, j: nat)
    requires |a| <= |b| && b[..|a|] == a && BLOCK * (j + 1) <= |a|
    ensures Block(b, j) == Block(a, j)
  {
    assert b[..|a|][BLOCK * j..BLOCK * (j + 1)] == b[BLOCK * j..BLOCK * (j + 1)];
  }

  /** The whole of what ocb2_aes_encrypt puts out. */
  lemma SealedForm(c: Cipher, iv: seq<byte>, m: seq<byte>)
    requires CipherOk(c) && |iv| == BLOCK
    ensures var e, n := Encrypted(c, iv, m), |m| / BLOCK;
      && (forall j :: 0 <= j < n ==> Block(e.out, j) == Masked(c, Offset(c, iv, j + 1), Block(m, j)))
      && Rest(e.out) == XorBlock(Rest(m), Stream(c, iv, m)[..|Rest(m)|])
      && e.tag == c.encipher(XorBlock(Checksum(c, iv, m), Triple(Offset(c, iv, n + 1))))
  {
    hide Double, XorBlock, Triple, BlockSum, EncryptRun, Masked, Block;
    var n := |m| / BLOCK;
    EncipherSize(c, iv);
    RunForm(c, iv, m, n);
    var r, e := EncryptRun(c, c.encipher(iv), m, n), Encrypted(c, iv, m);
    assert e.out[..|r.out|] == r.out;
    forall j | 0 <= j < n ensures Block(e.out, j) == Masked(c, Offset(c, iv, j + 1), Block(m, j)) {
      BlockKept(r.out, e.out, j);
    }
    assert |Rest(m)| == |m| % BLOCK;
    assert Rest(e.out) == FinalOut(c, r.delta, Rest(m));
    XorBlockCancels(Triple(Offset(c, iv, n + 1)), Checksum(c, iv, m));
  }

  /**
    What the tag authenticates: two messages of one length have the same tag
    under one IV exactly when their blocks have the same sum.
   */
  lemma TagSealsSum(c: Cipher, iv: seq<byte>, m: seq<byte>, w: seq<byte>)
    requires CipherOk(c) && |iv| == BLOCK && |m| == |w|
    ensures Encrypted(c, iv, m).tag == Encrypted(c, iv, w).tag <==> Checksum(c, iv, m) == Checksum(c, iv, w)
  {
    hide Double, XorBlock, Triple, Encrypted, Checksum;
    SealedForm(c, iv, m);
    SealedForm(c, iv, w);
    SameTag(c, Triple(Offset(c, iv, |m| / BLOCK + 1)), Checksum(c, iv, m), Checksum(c, iv, w));
  }

  lemma SameTag(c: Cipher, off: seq<byte>, a: seq<byte>, b: seq<byte>)
    requires CipherOk(c) && |off| == |a| == |b| == BLOCK
    ensures c.encipher(XorBlock(a, off)) == c.encipher(XorBlock(b, off)) <==> a == b
  {
    hide XorBlock;
    EncipherOnce(c, XorBlock(a, off), XorBlock(b, off));
    XorOnce(off, a, b);
    XorBlockCancels(a, off);
    XorBlockCancels(b, off);
  }

  /** Messages that differ in one block alone, whole or not, have different tags. */
  lemma OneBlockChanged(c: Cipher, iv: seq<byte>, m: seq<byte>, w: seq<byte>, k: nat)
    requires CipherOk(c) && |iv| == BLOCK && |m| == |w| && m != w && k <= |m| / BLOCK
    requires forall j :: 0 <= j < |m| / BLOCK && j != k ==> Block(m, j) == Block(w, j)
    requires k < |m| / BLOCK ==> Rest(m) == Rest(w)
    ensures Encrypted(c, iv, m).tag != Encrypted(c, iv, w).tag
  {
    hide XorBlock, Encrypted, Block, Rest;
    var n := |m| / BLOCK;
    TagSealsSum(c, iv, m, w);
    var a, b, s, t := Completed(c, iv, m), Completed(c, iv, w), BlockSum(m, n), BlockSum(w, n);
    WholeBlocksAndRest(m, w);
    if k < n {
      SumsDiffer(m, w, n, k);
      XorOnce(a, s, t);
    } else {
      SumsEqual(m, w, n);
      assert a[..|Rest(m)|] == Rest(m) && b[..|Rest(w)|] == Rest(w);
      XorOnce(s, a, b);
      XorBlockCancels(a, s);
      XorBlockCancels(b, s);
    }
  }

  /** A message is its blocks and what is left over. */
  lemma WholeBlocksAndRest(m: seq<byte>, w: seq<byte>)
    requires |m| == |w| && m != w
    ensures |Rest(m)| == |Rest(w)| == |m| % BLOCK
    ensures Rest(m) != Rest(w) || exists j :: 0 <= j < |m| / BLOCK && Block(m, j) != Block(w, j)
  {
    var i :| 0 <= i < |m| && m[i] != w[i];
    var n := |m| / BLOCK;
    if i < BLOCK * n {
      assert Block(m, i / BLOCK)[i % BLOCK] == m[i] && Block(w, i / BLOCK)[i % BLOCK] == w[i];
    } else {
      assert Rest(m)[i - BLOCK * n] == m[i] && Rest(w)[i - BLOCK * n] == w[i];
    }
  }

  lemma {:induction false} SumsEqual(m: seq<byte>, w: seq<byte>, n: nat)
    requires BLOCK * n <= |m| && BLOCK * n <= |w|
    requires forall j :: 0 <= j < n ==> Block(m, j) == Block(w, j)
    ensures BlockSum(m, n) == BlockSum(w, n)
  {
    hide XorBlock, Block;
    if n > 0 {
      SumsEqual(m, w, n - 1);
    }
  }

  lemma {:induction false} SumsDiffer(m: seq<byte>, w: seq<byte>, n: nat, k: nat)
    requires |m| == |w| && BLOCK * n <= |m| && k < n && Block(m, k) != Block(w, k)
    requires forall j :: 0 <= j < n && j != k ==> Block(m, j) == Block(w, j)
    ensures BlockSum(m, n) != BlockSum(w, n)
  {
    hide XorBlock, Block;
    var a, b := BlockSum(m, n - 1), BlockSum(w, n - 1);
    if k == n - 1 {
      SumsEqual(m, w, n - 1);
      XorOnce(a, Block(m, k), Block(w, k));
    } else {
      SumsDiffer(m, w, n - 1, k);
      XorOnce(Block(m, n - 1), a, b);
      XorBlockCancels(a, Block(m, n - 1));
      XorBlockCancels(b, Block(m, n - 1));
    }
  }

  /** Decryption arrives at the offset and at the sum of what it has recovered. */
  lemma {:induction false} OpenedForm(c: Cipher, iv: seq<byte>, s: seq<byte>, n: nat)
    requires CipherOk(c) && |iv| == BLOCK && BLOCK * n <= |s| && |c.encipher(iv)| == BLOCK
    ensures var r := DecryptRun(c, c.encipher(iv), s, n);
      r.delta == Offset(c, iv, n) && r.sum == BlockSum(r.out, n)
  {
    hide CipherOk, Double, XorBlock, Block;
    if n > 0 {
      OpenedForm(c, iv, s, n - 1);
      var r, t := DecryptRun(c, c.encipher(iv), s, n - 1), DecryptRun(c, c.encipher(iv), s, n);
      DecryptForm(c, r, Block(s, n - 1), n - 1);
      forall j | 0 <= j < n - 1 ensures Block(t.out, j) == Block(r.out, j) {
        BlockKept(r.out, t.out, j);
      }
      SumsEqual(r.out, t.out, n - 1);
    }
  }

  lemma DecryptForm(c: Cipher, r: Run, b: seq<byte>, n: nat)
    requires CipherOk(c) && RunOk(r, n) && |b| == BLOCK
    ensures var s := DecryptNext(c, r, b);
      && s.delta == Double(r.delta) && s.out[..BLOCK * n] == r.out && |s.out| == BLOCK * (n + 1)
      && s.sum == XorBlock(r.sum, Block(s.out, n))
  {
    hide Double, XorBlock;
    var d := Double(r.delta);
    var plain := XorBlock(c.decipher(XorBlock(d, b)), d);
    assert DecryptNext(c, r, b).out == r.out + plain;
    assert Block(r.out + plain, n) == plain;
  }

  /**
    What opening accepts, whatever arrives: the packet's tag is the sealed one
    exactly when the blocks recovered, with the bytes left over as they arrived,
    have the sum of the message that was sealed.
   */
  lemma OpenAccepts(c: Cipher, iv: seq<byte>, m: seq<byte>, s: seq<byte>)
    requires CipherOk(c) && |iv| == BLOCK && |m| == |s|
    ensures var plain := Decrypted(c, iv, s).out;
      Decrypted(c, iv, s).tag == Encrypted(c, iv, m).tag <==>
        XorBlock(Completed(c, iv, s), BlockSum(plain, |s| / BLOCK)) == Checksum(c, iv, m)
  {
    hide Double, XorBlock, Triple, BlockSum, DecryptRun, Encrypted, Block, Checksum;
    var n := |s| / BLOCK;
    EncipherSize(c, iv);
    OpenedForm(c, iv, s, n);
    SealedForm(c, iv, m);
    var r, d := DecryptRun(c, c.encipher(iv), s, n), Decrypted(c, iv, s);
    assert d.out[..|r.out|] == r.out;
    forall j | 0 <= j < n ensures Block(d.out, j) == Block(r.out, j) {
      BlockKept(r.out, d.out, j);
    }
    SumsEqual(d.out, r.out, n);
    var sum, off := XorBlock(Completed(c, iv, s), BlockSum(d.out, n)), Triple(Offset(c, iv, n + 1));
    assert |Rest(s)| == |s| % BLOCK;
    XorBlockCancels(off, sum);
    SameTag(c, off, sum, Checksum(c, iv, m));
  }
}
