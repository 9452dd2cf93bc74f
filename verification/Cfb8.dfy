/** Cipher feedback with 8-bit segments over any block function: the textbook
  * shift register and the sliding-buffer implementation that refines it. */
module Cfb8 {
  import opened Bytes

  type Block = b: seq<u8> | b != [] witness [0]
  type BlockCipher = seq<u8> -> Block

  function XorBits(a: nat, b: nat, k: nat): (x: nat)
    ensures x < Pow2(k)
  {
    if k == 0 then 0 else (a % 2 + b % 2) % 2 + 2 * XorBits(a / 2, b / 2, k - 1)
  }

  function Xor(a: u8, b: u8): u8 {
    assert Pow2(8) == 256;
    XorBits(a, b, 8)
  }

  lemma {:induction false} XorBitsCancel(a: nat, b: nat, k: nat)
    requires a < Pow2(k)
    ensures XorBits(XorBits(a, b, k), b, k) == a
  {
    if k > 0 {
      var p, q, y := a % 2, b % 2, XorBits(a / 2, b / 2, k - 1);
      XorBitsCancel(a / 2, b / 2, k - 1);
      BitCancel(p, q);
      XorStep(XorBits(a, b, k), b, k, (p + q) % 2, y);
    }
  }

  lemma XorStep(x: nat, b: nat, k: nat, d: nat, y: nat)
    requires k > 0 && d < 2 && x == d + 2 * y
    ensures XorBits(x, b, k) == (d + b % 2) % 2 + 2 * XorBits(y, b / 2, k - 1)
  {
    hide Pow2;
    DivModUnique(2, y, d);
  }

  lemma BitCancel(p: nat, q: nat)
    requires p < 2 && q < 2
    ensures ((p + q) % 2 + q) % 2 == p
  {
  }

  lemma XorCancel(a: u8, b: u8)
    ensures Xor(Xor(a, b), b) == a
  {
    assert Pow2(8) == 256;
    XorBitsCancel(a, b, 8);
  }

  /** Bit k, from the low end. */
  function BitAt(v: nat, k: nat): nat { v / Pow2(k) % 2 }

  lemma BitAtNext(v: nat, k: nat)
    requires k > 0
    ensures BitAt(v, k) == BitAt(v / 2, k - 1)
  {
    DivNested(v, 2, Pow2(k - 1));
  }

  lemma {:induction false} XorBitsAt(a: nat, b: nat, n: nat, k: nat)
    requires k < n
    ensures BitAt(XorBits(a, b, n), k) == (BitAt(a, k) + BitAt(b, k)) % 2
  {
    var d, y := (a % 2 + b % 2) % 2, XorBits(a / 2, b / 2, n - 1);
    DivModUnique(2, y, d);
    if k > 0 {
      hide Pow2, XorBits, BitAt;
      BitAtNext(a, k);
      BitAtNext(b, k);
      BitAtNext(XorBits(a, b, n), k);
      XorHalf(a, b, n);
      XorBitsAt(a / 2, b / 2, n - 1, k - 1);
    }
  }

  lemma XorHalf(a: nat, b: nat, n: nat)
    requires n > 0
    ensures XorBits(a, b, n) / 2 == XorBits(a / 2, b / 2, n - 1)
  {
    hide Pow2;
    DivModUnique(2, XorBits(a / 2, b / 2, n - 1), (a % 2 + b % 2) % 2);
  }

  /** Each bit of the result is set exactly when just one of the two bits is. */
  lemma XorBit(a: u8, b: u8, k: nat)
    requires k < 8
    ensures BitAt(Xor(a, b), k) == (BitAt(a, k) + BitAt(b, k)) % 2
  {
    hide BitAt, XorBits;
    XorBitsAt(a, b, 8, k);
  }

  // ---- The textbook mode (NIST SP 800-38A, section 6.3, s = 8) ----

  function Shift(reg: seq<u8>, c: u8): (r: seq<u8>)
    requires reg != []
    ensures |r| == |reg|
  {
    reg[1..] + [c]
  }

  /** Output byte and ciphertext byte for one input byte. */
  function OutByte(e: BlockCipher, reg: seq<u8>, b: u8): u8 { Xor(b, e(reg)[0]) }

  function Feedback(e: BlockCipher, decrypt: bool, reg: seq<u8>, b: u8): u8 {
    if decrypt then b else OutByte(e, reg, b)
  }

  function Output(e: BlockCipher, decrypt: bool, reg: seq<u8>, src: seq<u8>): (out: seq<u8>)
    requires reg != []
    ensures |out| == |src|
    decreases src
  {
    if src == [] then []
    else [OutByte(e, reg, src[0])] + Output(e, decrypt, Shift(reg, Feedback(e, decrypt, reg, src[0])), src[1..])
  }

  function Register(e: BlockCipher, decrypt: bool, reg: seq<u8>, src: seq<u8>): (r: seq<u8>)
    requires reg != []
    ensures |r| == |reg|
    decreases src
  {
    if src == [] then reg
    else Register(e, decrypt, Shift(reg, Feedback(e, decrypt, reg, src[0])), src[1..])
  }

  function Ciphertext(e: BlockCipher, decrypt: bool, reg: seq<u8>, src: seq<u8>): seq<u8>
    requires reg != []
  {
    if decrypt then src else Output(e, decrypt, reg, src)
  }

  lemma {:induction false} SplitRegister(e: BlockCipher, decrypt: bool, reg: seq<u8>, a: seq<u8>, b: seq<u8>)
    requires reg != []
    ensures Register(e, decrypt, reg, a + b) == Register(e, decrypt, Register(e, decrypt, reg, a), b)
    decreases a
  {
    hide Feedback, Shift;
    if a == [] {
      assert a + b == b;
    } else {
      SplitRegister(e, decrypt, Shift(reg, Feedback(e, decrypt, reg, a[0])), a[1..], b);
      assert (a + b)[1..] == a[1..] + b;
    }
  }

  /** However a stream is split into calls, the result is the same. */
  lemma {:induction false} SplitStream(e: BlockCipher, decrypt: bool, reg: seq<u8>, a: seq<u8>, b: seq<u8>)
    requires reg != []
    ensures Output(e, decrypt, reg, a + b)
            == Output(e, decrypt, reg, a) + Output(e, decrypt, Register(e, decrypt, reg, a), b)
    ensures Register(e, decrypt, reg, a + b) == Register(e, decrypt, Register(e, decrypt, reg, a), b)
    decreases a
  {
    hide OutByte, Feedback, Shift, Output, Register;
    SplitRegister(e, decrypt, reg, a, b);
    if a == [] {
      assert a + b == b;
      NoneOut(e, decrypt, reg);
    } else {
      var next := Shift(reg, Feedback(e, decrypt, reg, a[0]));
      FirstOut(e, decrypt, reg, a);
      FirstOut(e, decrypt, reg, a + b);
      assert (a + b)[1..] == a[1..] + b;
      SplitStream(e, decrypt, next, a[1..], b);
    }
  }

  lemma FirstOut(e: BlockCipher, decrypt: bool, reg: seq<u8>, src: seq<u8>)
    requires reg != [] && src != []
    ensures var next := Shift(reg, Feedback(e, decrypt, reg, src[0]));
            && Output(e, decrypt, reg, src) == [OutByte(e, reg, src[0])] + Output(e, decrypt, next, src[1..])
            && Register(e, decrypt, reg, src) == Register(e, decrypt, next, src[1..])
  {
    hide OutByte, Feedback, Shift;
  }

  lemma NoneOut(e: BlockCipher, decrypt: bool, reg: seq<u8>)
    requires reg != []
    ensures Output(e, decrypt, reg, []) == [] && Register(e, decrypt, reg, []) == reg
  {
  }

  /** The register is always the last bytes of the IV followed by the ciphertext so far. */
  lemma {:induction false} RegisterIsWindow(e: BlockCipher, decrypt: bool, reg: seq<u8>, src: seq<u8>)
    requires reg != []
    ensures |Ciphertext(e, decrypt, reg, src)| == |src|
    ensures Register(e, decrypt, reg, src) == (reg + Ciphertext(e, decrypt, reg, src))[|src|..]
    decreases src
  {
    hide OutByte;
    if src != [] {
      var c := Feedback(e, decrypt, reg, src[0]);
      RegisterIsWindow(e, decrypt, Shift(reg, c), src[1..]);
      var tail := Ciphertext(e, decrypt, Shift(reg, c), src[1..]);
      assert Ciphertext(e, decrypt, reg, src) == [c] + tail;
      assert (Shift(reg, c) + tail)[|src| - 1..] == (reg + ([c] + tail))[|src|..];
    }
  }

  /** Byte j is masked with the first byte of the block function applied to the
    * `size` bytes before it in IV followed by ciphertext. */
  lemma TextbookForm(e: BlockCipher, decrypt: bool, iv: seq<u8>, src: seq<u8>, j: nat)
    requires iv != [] && j < |src|
    ensures |Ciphertext(e, decrypt, iv, src)| == |src|
    ensures Output(e, decrypt, iv, src)[j]
            == Xor(src[j], e((iv + Ciphertext(e, decrypt, iv, src))[j..j + |iv|])[0])
    ensures forall k: nat :: k < 8 ==>
              BitAt(Output(e, decrypt, iv, src)[j], k)
              == (BitAt(src[j], k) + BitAt(e((iv + Ciphertext(e, decrypt, iv, src))[j..j + |iv|])[0], k)) % 2
  {
    hide Xor, BitAt;
    var a, b := src[..j], src[j..];
    assert a + b == src;
    SplitStream(e, decrypt, iv, a, b);
    RegisterIsWindow(e, decrypt, iv, a);
    RegisterIsWindow(e, decrypt, iv, src);
    var ca, c := Ciphertext(e, decrypt, iv, a), Ciphertext(e, decrypt, iv, src);
    assert ca == c[..j];
    assert (iv + ca)[j..] == (iv + c)[j..j + |iv|];
    forall k: nat | k < 8
      ensures BitAt(Output(e, decrypt, iv, src)[j], k)
              == (BitAt(src[j], k) + BitAt(e((iv + c)[j..j + |iv|])[0], k)) % 2
    {
      XorBit(src[j], e((iv + c)[j..j + |iv|])[0], k);
    }
  }

  /** For any block function, decrypting inverts encrypting and both registers stay equal. */
  lemma {:induction false} DecryptInverts(e: BlockCipher, reg: seq<u8>, plain: seq<u8>)
    requires reg != []
    ensures Output(e, true, reg, Output(e, false, reg, plain)) == plain
    ensures Register(e, true, reg, Output(e, false, reg, plain)) == Register(e, false, reg, plain)
    decreases plain
  {
    hide Xor;
    if plain != [] {
      var c := OutByte(e, reg, plain[0]);
      XorCancel(plain[0], e(reg)[0]);
      DecryptInverts(e, Shift(reg, c), plain[1..]);
      assert Output(e, false, reg, plain)[1..] == Output(e, false, Shift(reg, c), plain[1..]);
    }
  }

  // ---- The sliding-buffer stream ----

  class Stream {
    const block: BlockCipher
    const size: nat
    const decrypt: bool
    const sr: array<u8>  // the register slides through four blocks' worth of buffer
    var srPos: nat

    ghost predicate Valid()
      reads this
    {
      size > 0 && sr.Length == 4 * size && srPos + size < sr.Length
    }

    ghost function Window(): (w: seq<u8>)
      requires Valid()
      reads this, sr
      ensures |w| == size
    {
      sr[srPos..srPos + size]
    }

    constructor (block: BlockCipher, iv: seq<u8>, decrypt: bool)
      requires iv != []
      ensures Valid() && fresh(sr) && Window() == iv
      ensures this.block == block && this.decrypt == decrypt
    {
      this.block, this.size, this.decrypt := block, |iv|, decrypt;
      sr := new u8[4 * |iv|](i requires 0 <= i => if i < |iv| then iv[i] else 0);
      srPos := 0;
    }

    /** `dst` may be `src` itself. The output and the register are those of the
      * textbook mode; nothing else changes. */
    method XORKeyStream(dst: array<u8>, src: array<u8>)
      requires Valid() && src.Length <= dst.Length && sr != dst && sr != src
      modifies this, sr, dst
      ensures Valid()
      ensures dst[..src.Length] == Output(block, decrypt, old(Window()), old(src[..]))
      ensures Window() == Register(block, decrypt, old(Window()), old(src[..]))
      ensures dst[src.Length..] == old(dst[src.Length..])
    {
      hide Output, Register;
      ghost var s0, w0 := src[..], Window();
      NoneOut(block, decrypt, w0);
      for i := 0 to src.Length
        invariant Valid() && src[i..] == s0[i..] && dst[src.Length..] == old(dst[src.Length..])
        invariant dst[..i] == Output(block, decrypt, w0, s0[..i])
        invariant Window() == Register(block, decrypt, w0, s0[..i])
      {
        ghost var w, before, rest := Window(), dst[..], src[..];
        StreamStep(w0, s0, i, w);
        OneOf(rest, s0, i);
        XORByte(dst, src, i);
        assert src[..] == rest || src[..] == before[i := dst[i]];
        OneWritten(before, rest, s0, i, dst[i], src.Length);
      }
      assert s0[..src.Length] == s0;
    }

    lemma OneOf(rest: seq<u8>, s0: seq<u8>, i: nat)
      requires i < |rest| == |s0| && rest[i..] == s0[i..]
      ensures rest[i] == s0[i]
    {
      assert rest[i..][0] == s0[i..][0];
    }

    /** Writing byte i leaves what is still to read: it lies after i, or elsewhere. */
    lemma OneWritten(before: seq<u8>, rest: seq<u8>, s0: seq<u8>, i: nat, b: u8, n: nat)
      requires i < n == |s0| == |rest| <= |before| && rest[i..] == s0[i..]
      ensures before[i := b][..i + 1] == before[..i] + [b] && before[i := b][n..] == before[n..]
      ensures rest[i + 1..] == s0[i + 1..]
      ensures before == rest ==> before[i := b][i + 1..] == s0[i + 1..]
    {
      assert rest[i + 1..] == rest[i..][1..] && s0[i + 1..] == s0[i..][1..];
    }

    /** The loop's body: one byte through the stream. */
    method XORByte(dst: array<u8>, src: array<u8>, i: nat)
      requires Valid() && i < src.Length <= dst.Length && sr != dst && sr != src
      modifies this, sr, dst
      ensures Valid() && dst[..] == old(dst[..])[i := OutByte(block, old(Window()), old(src[i]))]
      ensures Window() == Shift(old(Window()), Feedback(block, decrypt, old(Window()), old(src[i])))
    {
      hide Xor;
      var srEnc := block(sr[srPos..srPos + size]);
      var c: u8;
      if decrypt {
        c := src[i];
        dst[i] := Xor(c, srEnc[0]);
      } else {
        c := Xor(src[i], srEnc[0]);
        dst[i] := c;
      }
      Append(c);
    }

    /** One more byte through the stream. */
    lemma StreamStep(w0: seq<u8>, s0: seq<u8>, i: nat, w: seq<u8>)
      requires w0 != [] && i < |s0| && w == Register(block, decrypt, w0, s0[..i])
      ensures Output(block, decrypt, w0, s0[..i + 1])
              == Output(block, decrypt, w0, s0[..i]) + [OutByte(block, w, s0[i])]
      ensures Register(block, decrypt, w0, s0[..i + 1]) == Shift(w, Feedback(block, decrypt, w, s0[i]))
    {
      hide OutByte, Feedback;
      assert s0[..i + 1] == s0[..i] + [s0[i]];
      SplitStream(block, decrypt, w0, s0[..i], [s0[i]]);
      OneByte(w, s0[i]);
    }

    lemma OneByte(w: seq<u8>, b: u8)
      requires w != []
      ensures Output(block, decrypt, w, [b]) == [OutByte(block, w, b)]
      ensures Register(block, decrypt, w, [b]) == Shift(w, Feedback(block, decrypt, w, b))
    {
      hide OutByte;
    }

    /** Slides the window over the ciphertext byte, compacting at the buffer's end. */
    method Append(c: u8)
      requires Valid()
      modifies this, sr
      ensures Valid() && Window() == Shift(old(Window()), c)
    {
      sr[srPos + size] := c;
      srPos := srPos + 1;
      assert sr[srPos..srPos + size] == Shift(old(Window()), c);
      if srPos + size == sr.Length {
        CopyDown(srPos);
        srPos := 0;
      }
    }

    /** `copy(sr, sr[from:])` for the last `size` bytes. */
    method CopyDown(from: nat)
      requires sr.Length == 4 * size && from == 3 * size
      modifies sr
      ensures sr[..size] == old(sr[from..])
    {
      for k := 0 to size
        invariant sr[..k] == old(sr[from..from + k])
        invariant sr[from..] == old(sr[from..])
      {
        assert old(sr[from..])[k] == sr[from..][k];
        sr[k] := sr[from + k];
      }
    }
  }
}
