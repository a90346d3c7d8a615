/** The AES substitution box as the code tabulates it. */
module Sbox {
  import opened Bytes
  import opened Fips197

  // One row of sixteen table entries, first entry in the highest byte.
  function TableRow(hi: byte): bv128 {
    if hi == 0x0 then 0x637c777bf26b6fc53001672bfed7ab76
    else if hi == 0x1 then 0xca82c97dfa5947f0add4a2af9ca472c0
    else if hi == 0x2 then 0xb7fd9326363ff7cc34a5e5f171d83115
    else if hi == 0x3 then 0x04c723c31896059a071280e2eb27b275
    else if hi == 0x4 then 0x09832c1a1b6e5aa0523bd6b329e32f84
    else if hi == 0x5 then 0x53d100ed20fcb15b6acbbe394a4c58cf
    else if hi == 0x6 then 0xd0efaafb434d338545f9027f503c9fa8
    else if hi == 0x7 then 0x51a3408f929d38f5bcb6da2110fff3d2
    else if hi == 0x8 then 0xcd0c13ec5f974417c4a77e3d645d1973
    else if hi == 0x9 then 0x60814fdc222a908846eeb814de5e0bdb
    else if hi == 0xa then 0xe0323a0a4906245cc2d3ac629195e479
    else if hi == 0xb then 0xe7c8376d8dd54ea96c56f4ea657aae08
    else if hi == 0xc then 0xba78252e1ca6b4c6e8dd741f4bbd8b8a
    else if hi == 0xd then 0x703eb5664803f60e613557b986c11d9e
    else if hi == 0xe then 0xe1f8981169d98e949b1e87e9ce5528df
    else 0x8ca1890dbfe6426841992d0fb054bb16
  }

  // Entry lo & 0x0F of a row, found by halving.
  function Pick(row: bv128, lo: byte): byte {
    var r64 := (if lo & 8 == 0 then row >> 64 else row & 0xFFFF_FFFF_FFFF_FFFF) as bv64;
    var r32 := (if lo & 4 == 0 then r64 >> 32 else r64 & 0xFFFF_FFFF) as bv32;
    var r16 := (if lo & 2 == 0 then r32 >> 16 else r32 & 0xFFFF) as bv16;
    (if lo & 1 == 0 then r16 >> 8 else r16 & 0xFF) as byte
  }

  /** Entry b of the 256-byte table. */
  function SBox(b: byte): byte {
    Pick(TableRow(b >> 4), b)
  }

  // The affine transformation of FIPS 197 equation 5.2: bit i is the sum of bits i, i+4, i+5, i+6, i+7 (mod 8)
  // and bit i of 0x63.
  function Affine(b: byte): byte {
    b ^ RotateLeft(b, 4) ^ RotateLeft(b, 3) ^ RotateLeft(b, 2) ^ RotateLeft(b, 1) ^ 0x63
  }

  function RotateLeft(b: byte, n: byte): byte
    requires 0 < n < 8
  {
    (b << n) | (b >> (8 - n))
  }

  function InvAffine(b: byte): byte {
    RotateLeft(b, 1) ^ RotateLeft(b, 3) ^ RotateLeft(b, 6) ^ 0x05
  }

  // c is the multiplicative inverse of b in GF(2^8), with 0 its own inverse.
  predicate FieldInverse(b: byte, c: byte) {
    if b == 0 then c == 0 else Mul(b, c) == 1
  }

  lemma AffineUndone(b: byte)
    ensures Affine(InvAffine(b)) == b
  {}

  // The table with the affine transformation taken off.
  function Inverse(b: byte): byte {
    InvAffine(SBox(b))
  }

  // The table in eight parts, by the upper three bits of the index, each over its five free bits.
  lemma FieldInverse0(low: bv5, b: byte)
    requires b == 0x00 | low as byte
    ensures FieldInverse(b, Inverse(b))
  {}

  lemma FieldInverse1(low: bv5, b: byte)
    requires b == 0x20 | low as byte
    ensures FieldInverse(b, Inverse(b))
  {}

  lemma FieldInverse2(low: bv5, b: byte)
    requires b == 0x40 | low as byte
    ensures FieldInverse(b, Inverse(b))
  {}

  lemma FieldInverse3(low: bv5, b: byte)
    requires b == 0x60 | low as byte
    ensures FieldInverse(b, Inverse(b))
  {}

  lemma FieldInverse4(low: bv5, b: byte)
    requires b == 0x80 | low as byte
    ensures FieldInverse(b, Inverse(b))
  {}

  lemma FieldInverse5(low: bv5, b: byte)
    requires b == 0xA0 | low as byte
    ensures FieldInverse(b, Inverse(b))
  {}

  lemma FieldInverse6(low: bv5, b: byte)
    requires b == 0xC0 | low as byte
    ensures FieldInverse(b, Inverse(b))
  {}

  lemma FieldInverse7(low: bv5, b: byte)
    requires b == 0xE0 | low as byte
    ensures FieldInverse(b, Inverse(b))
  {}

  /** Every entry is the affine transform of the field inverse (FIPS 197 section 5.1.1). */
  lemma SBoxIsFips197(b: byte)
    ensures exists c: byte :: FieldInverse(b, c) && SBox(b) == Affine(c)
  {
    hide SBox, Affine, InvAffine, FieldInverse;
    var low := (b & 0x1F) as bv5;
    if b < 0x20 {
      FieldInverse0(low, b);
    } else if b < 0x40 {
      FieldInverse1(low, b);
    } else if b < 0x60 {
      FieldInverse2(low, b);
    } else if b < 0x80 {
      FieldInverse3(low, b);
    } else if b < 0xA0 {
      FieldInverse4(low, b);
    } else if b < 0xC0 {
      FieldInverse5(low, b);
    } else if b < 0xE0 {
      FieldInverse6(low, b);
    } else {
      FieldInverse7(low, b);
    }
    AffineUndone(SBox(b));
  }

  // The two halves of the table, each over its seven free bits.
  lemma InverseTwiceLow(low: bv7, b: byte)
    requires b == low as byte
    ensures Inverse(Inverse(b)) == b
  {}

  lemma InverseTwiceHigh(low: bv7, b: byte)
    requires b == 0x80 | low as byte
    ensures Inverse(Inverse(b)) == b
  {}

  /** Inverting twice gives the byte back. */
  lemma InverseTwice(b: byte)
    ensures Inverse(Inverse(b)) == b
  {
    hide Inverse;
    if b < 0x80 {
      InverseTwiceLow((b & 0x7F) as bv7, b);
    } else {
      InverseTwiceHigh((b & 0x7F) as bv7, b);
    }
  }

  /** The table is a permutation of the bytes. */
  lemma SBoxInjective()
    ensures Injective(SBox)
  {
    forall x: byte, y: byte | SBox(x) == SBox(y)
      ensures x == y
    {
      hide SBox, InvAffine;
      InverseTwice(x);
      InverseTwice(y);
    }
  }
}
