/** Bytes, 32-bit words and the little-endian view that the host and the GPU share. */
module Bytes {
  type byte = bv8
  type word = bv32

  function ToNat(b: byte): nat {
    b as nat
  }

  /** The byte whose value is n. */
  function ToByte(n: nat): byte
    requires n < 256
  {
    if n == 0 then 0 else ToByte(n - 1) + 1
  }

  lemma NextByte(b: byte)
    requires b != 0xFF
    ensures ToNat(b + 1) == ToNat(b) + 1
  {}

  lemma LastByte(b: byte)
    ensures ToNat(b) < 256 && (ToNat(b) == 255 <==> b == 0xFF)
  {}

  lemma SameByte(a: byte, b: byte)
    ensures ToNat(a) == ToNat(b) <==> a == b
  {
    assert (a as nat) as byte == a && (b as nat) as byte == b;
  }

  lemma {:induction false} NatOfByte(n: nat)
    requires n < 256
    ensures ToNat(ToByte(n)) == n
  {
    if n != 0 {
      hide ToNat;
      NatOfByte(n - 1);
      LastByte(ToByte(n - 1));
      NextByte(ToByte(n - 1));
    } else {
      assert (0 as byte) as nat == 0;
    }
  }

  lemma ByteOfNat(b: byte)
    ensures ToNat(b) < 256 && ToByte(ToNat(b)) == b
  {
    hide ToNat, ToByte;
    LastByte(b);
    NatOfByte(ToNat(b));
    SameByte(ToByte(ToNat(b)), b);
  }

  // The byte selectors GET_B0..GET_B3 of the shaders; byte 0 is the lowest.
  function B0(w: word): byte { (w & 0xFF) as byte }
  function B1(w: word): byte { ((w >> 8) & 0xFF) as byte }
  function B2(w: word): byte { ((w >> 16) & 0xFF) as byte }
  function B3(w: word): byte { ((w >> 24) & 0xFF) as byte }

  function ByteOf(w: word, j: nat): byte
    requires j < 4
  {
    if j == 0 then B0(w) else if j == 1 then B1(w) else if j == 2 then B2(w) else B3(w)
  }

  /** The word whose four bytes, lowest address first, are b0 b1 b2 b3. */
  function Pack(b0: byte, b1: byte, b2: byte, b3: byte): (w: word)
    ensures B0(w) == b0 && B1(w) == b1 && B2(w) == b2 && B3(w) == b3
  {
    (b0 as word) | ((b1 as word) << 8) | ((b2 as word) << 16) | ((b3 as word) << 24)
  }

  lemma PackBytes(w: word)
    ensures Pack(B0(w), B1(w), B2(w), B3(w)) == w
  {}

  function XorWord(a: word, b: word): word {
    a ^ b
  }

  function XorByte(a: byte, b: byte): byte {
    a ^ b
  }

  lemma XorLanes(a: word, b: word)
    ensures B0(a ^ b) == B0(a) ^ B0(b) && B1(a ^ b) == B1(a) ^ B1(b)
    ensures B2(a ^ b) == B2(a) ^ B2(b) && B3(a ^ b) == B3(a) ^ B3(b)
  {}

  lemma XorWordBytes(a: word, b: word)
    ensures B0(XorWord(a, b)) == XorByte(B0(a), B0(b)) && B1(XorWord(a, b)) == XorByte(B1(a), B1(b))
    ensures B2(XorWord(a, b)) == XorByte(B2(a), B2(b)) && B3(XorWord(a, b)) == XorByte(B3(a), B3(b))
  {
    hide B0, B1, B2, B3;
    XorLanes(a, b);
  }

  lemma XorByteOf(a: word, b: word, j: nat)
    requires j < 4
    ensures ByteOf(XorWord(a, b), j) == XorByte(ByteOf(a, j), ByteOf(b, j))
  {
    hide XorWord, XorByte, B0, B1, B2, B3;
    XorWordBytes(a, b);
  }

  /** The word at word index i of a byte-addressed buffer. */
  function LoadWord(m: seq<byte>, i: nat): word
    requires 4 * i + 4 <= |m|
  {
    Pack(m[4 * i], m[4 * i + 1], m[4 * i + 2], m[4 * i + 3])
  }

  lemma LoadedByte(m: seq<byte>, i: nat, j: nat)
    requires 4 * i + 4 <= |m| && j < 4
    ensures ByteOf(LoadWord(m, i), j) == m[4 * i + j]
  {}

  /** The buffer after storing w at word index i. */
  function StoreWord(m: seq<byte>, i: nat, w: word): (r: seq<byte>)
    requires 4 * i + 4 <= |m|
    ensures |r| == |m|
    ensures forall p :: 0 <= p < |m| ==>
      r[p] == if 4 * i <= p < 4 * i + 4 then ByteOf(w, p - 4 * i) else m[p]
  {
    m[4 * i := B0(w)][4 * i + 1 := B1(w)][4 * i + 2 := B2(w)][4 * i + 3 := B3(w)]
  }

  /** The four-byte sequence of a word, lowest byte first. */
  function Le(w: word): (s: seq<byte>)
    ensures |s| == 4
  {
    [B0(w), B1(w), B2(w), B3(w)]
  }

  lemma LeOfLoad(m: seq<byte>, i: nat)
    requires 4 * i + 4 <= |m|
    ensures Le(LoadWord(m, i)) == m[4 * i..4 * i + 4]
  {}

  /** Exclusive or of a message with a keystream given byte by byte, from position `from`. */
  function Xor(m: seq<byte>, ks: nat -> byte, from: nat): (r: seq<byte>)
    ensures |r| == |m|
    ensures forall i :: 0 <= i < |m| ==> r[i] == XorByte(m[i], ks(from + i))
  {
    seq(|m|, i requires 0 <= i < |m| => XorByte(m[i], ks(from + i)))
  }

  lemma XorConcat(a: seq<byte>, b: seq<byte>, ks: nat -> byte, from: nat)
    ensures Xor(a + b, ks, from) == Xor(a, ks, from) + Xor(b, ks, from + |a|)
  {
    assert forall i :: 0 <= i < |a| ==> (a + b)[i] == a[i];
    assert forall i :: 0 <= i < |b| ==> (a + b)[|a| + i] == b[i];
    assert forall i :: |a| <= i < |a| + |b| ==> (a + b)[i] == b[i - |a|];
  }

  lemma XorTwice(m: seq<byte>, ks: nat -> byte, from: nat)
    ensures Xor(Xor(m, ks, from), ks, from) == m
  {
    forall i | 0 <= i < |m|
      ensures Xor(Xor(m, ks, from), ks, from)[i] == m[i]
    {
      XorCancel(m[i], ks(from + i));
    }
  }

  lemma XorCancel(a: byte, b: byte)
    ensures XorByte(XorByte(a, b), b) == a
  {}

  lemma XorByteSwap(a: byte, b: byte)
    ensures XorByte(a, b) == XorByte(b, a)
  {}

  lemma XorInjective(a: byte, b: byte, c: byte)
    ensures XorByte(a, b) == XorByte(a, c) <==> b == c
  {}
}
