/** The counter block that one AES shader invocation builds, and where it is the right one. */
module ShaderCounter {
  import opened Bytes
  import opened Counter
  import opened Words

  function ByteSwap(x: word): word {
    (x >> 24) | ((x & 0x00FF0000) >> 8) | ((x & 0x0000FF00) << 8) | (x << 24)
  }

  // Word 3 of the block: the big-endian word plus the invocation index.
  function CounterWord3(b3: word, gID: word): word {
    ByteSwap(Add32(ByteSwap(b3), gID))
  }

  // Word 2 of the block: one more when word 3 wrapped. Nothing is carried further.
  function CounterWord2(b2: word, b3: word, gID: word): word {
    if Below(Add32(ByteSwap(b3), gID), ByteSwap(b3)) then ByteSwap(Add32(ByteSwap(b2), 1)) else b2
  }

  /** The 16 bytes of the counter block of invocation gID. */
  function ShaderBlock(iv: seq<byte>, gID: word): (r: seq<byte>)
    requires |iv| == 16
    ensures |r| == 16
  {
    iv[..8] + Le(CounterWord2(LoadWord(iv, 2), LoadWord(iv, 3), gID)) + Le(CounterWord3(LoadWord(iv, 3), gID))
  }

  // ---- Big-endian words ----

  // The bytes of a byte-swapped word, in memory order, spell the word in big-endian order.
  lemma SwappedBytes(x: word)
    ensures B0(ByteSwap(x)) == B3(x) && B1(ByteSwap(x)) == B2(x)
    ensures B2(ByteSwap(x)) == B1(x) && B3(ByteSwap(x)) == B0(x)
  {}

  lemma SwapTwice(x: word)
    ensures ByteSwap(ByteSwap(x)) == x
  {}

  lemma BytesJoined(x: word)
    ensures x == ((B3(x) as word) << 24) | ((B2(x) as word) << 16) | ((B1(x) as word) << 8) | (B0(x) as word)
  {}

  lemma WordNatOfBytes(x: word)
    ensures WordNat(x) == ((ToNat(B3(x)) * 256 + ToNat(B2(x))) * 256 + ToNat(B1(x))) * 256 + ToNat(B0(x))
  {
    NatOfBytes(B3(x), B2(x), B1(x), B0(x));
    BytesJoined(x);
  }

  lemma ValOfFour(s: seq<byte>)
    requires |s| == 4
    ensures Val(s) == ((ToNat(s[0]) * 256 + ToNat(s[1])) * 256 + ToNat(s[2])) * 256 + ToNat(s[3])
  {
    var t, u := s[..3], s[..2];
    assert Val(s) == Val(t) * 256 + ToNat(s[3]);
    assert t[..2] == u && u[..1] == [s[0]];
    assert Val(t) == Val(u) * 256 + ToNat(s[2]);
    assert Val(u) == Val([s[0]]) * 256 + ToNat(s[1]);
    ValSingle(s[0]);
  }

  /** A word in memory, read as a big-endian number, is its byte-swapped value. */
  lemma LeValue(w: word)
    ensures Val(Le(w)) == WordNat(ByteSwap(w))
  {
    hide ByteSwap, B0, B1, B2, B3, ToNat, WordNat;
    ValOfFour(Le(w));
    WordNatOfBytes(ByteSwap(w));
    SwappedBytes(w);
  }

  // ---- The counter block as a number ----

  // be3 + g carries into be2; the carry out of be2 is dropped.
  lemma CarryArithmetic(be2: nat, be3: nat, g: nat, new2: nat, new3: nat, carry: bool, lost: bool)
    requires be2 < TWO_32 && be3 < TWO_32 && g < TWO_32 && new2 < TWO_32 && new3 < TWO_32
    requires be3 + g == new3 + (if carry then TWO_32 else 0)
    requires be2 + (if carry then 1 else 0) == new2 + (if lost then TWO_32 else 0)
    ensures new2 * TWO_32 + new3 == (be2 * TWO_32 + be3 + g) % TWO_64
  {
    assert be2 * TWO_32 + be3 + g == new2 * TWO_32 + new3 + (if lost then TWO_64 else 0);
  }

  lemma CounterWord3Value(b3: word, gID: word, sum: word)
    requires sum == Add32(ByteSwap(b3), gID)
    ensures WordNat(ByteSwap(b3)) + WordNat(gID) ==
            WordNat(ByteSwap(CounterWord3(b3, gID))) + (if Below(sum, ByteSwap(b3)) then TWO_32 else 0)
  {
    hide WordNat, ByteSwap, Add32, Below;
    SwapTwice(sum);
    WordAdd(ByteSwap(b3), gID);
  }

  lemma CounterWord2Value(b2: word, b3: word, gID: word, sum: word, next: word)
    requires sum == Add32(ByteSwap(b3), gID) && next == Add32(ByteSwap(b2), 1)
    ensures WordNat(ByteSwap(b2)) + (if Below(sum, ByteSwap(b3)) then 1 else 0) ==
            WordNat(ByteSwap(CounterWord2(b2, b3, gID))) +
            (if Below(sum, ByteSwap(b3)) && Below(next, ByteSwap(b2)) then TWO_32 else 0)
  {
    hide WordNat, ByteSwap, Add32, Below;
    SwapTwice(next);
    WordNatBound(1);
    WordAdd(ByteSwap(b2), 1);
  }

  // The two words the shader may change.
  lemma LowWords(b2: word, b3: word, gID: word)
    ensures WordNat(ByteSwap(CounterWord2(b2, b3, gID))) * TWO_32 + WordNat(ByteSwap(CounterWord3(b3, gID))) ==
            (WordNat(ByteSwap(b2)) * TWO_32 + WordNat(ByteSwap(b3)) + WordNat(gID)) % TWO_64
  {
    hide WordNat, ByteSwap, Add32, Below, CounterWord2, CounterWord3;
    var sum, next := Add32(ByteSwap(b3), gID), Add32(ByteSwap(b2), 1);
    var c2, c3 := CounterWord2(b2, b3, gID), CounterWord3(b3, gID);
    CounterWord3Value(b3, gID, sum);
    CounterWord2Value(b2, b3, gID, sum, next);
    WordNatBound(ByteSwap(b2)); WordNatBound(ByteSwap(b3)); WordNatBound(gID);
    WordNatBound(ByteSwap(c2)); WordNatBound(ByteSwap(c3));
    CarryArithmetic(WordNat(ByteSwap(b2)), WordNat(ByteSwap(b3)), WordNat(gID), WordNat(ByteSwap(c2)),
                    WordNat(ByteSwap(c3)),
                    Below(sum, ByteSwap(b3)), Below(sum, ByteSwap(b3)) && Below(next, ByteSwap(b2)));
  }

  /** What the shader's block is for every IV and index: the upper eight bytes of the IV unchanged,
      the lower eight plus the index modulo 2^64. */
  lemma ShaderBlockValue(iv: seq<byte>, gID: word)
    requires |iv| == 16
    ensures Val(ShaderBlock(iv, gID)) == Val(iv[..8]) * TWO_64 + (Val(iv[8..]) + WordNat(gID)) % TWO_64
  {
    hide WordNat, ByteSwap, CounterWord2, CounterWord3, LoadWord, Le, Val, Pow256;
    var b2, b3 := LoadWord(iv, 2), LoadWord(iv, 3);
    var c2, c3 := CounterWord2(b2, b3, gID), CounterWord3(b3, gID);
    LowWords(b2, b3, gID);
    LeOfLoad(iv, 2);
    LeOfLoad(iv, 3);
    assert iv[8..] == Le(b2) + Le(b3);
    PairValue(b2, b3);
    PairValue(c2, c3);
    PowValues();
    assert ShaderBlock(iv, gID) == iv[..8] + (Le(c2) + Le(c3));
    ValConcat(iv[..8], Le(c2) + Le(c3));
  }

  lemma PairValue(v: word, w: word)
    ensures |Le(v) + Le(w)| == 8
    ensures Val(Le(v) + Le(w)) == WordNat(ByteSwap(v)) * TWO_32 + WordNat(ByteSwap(w))
  {
    hide WordNat, ByteSwap, Val;
    PowValues();
    ValConcat(Le(v), Le(w));
    LeValue(v);
    LeValue(w);
  }

  // The lower eight bytes of the IV, the part the shader's carry covers.
  function Low64(iv: seq<byte>): nat
    requires |iv| == 16
  {
    Val(iv[8..])
  }

  /** The shader builds the standard counter block exactly when the lower 64 bits do not overflow. */
  lemma ShaderCounterExact(iv: seq<byte>, gID: word)
    requires |iv| == 16
    ensures ShaderBlock(iv, gID) == Advance(iv, WordNat(gID)) <==> Low64(iv) + WordNat(gID) < TWO_64
  {
    hide WordNat, Advance, ShaderBlock, Val, Pow256;
    var h, l, g := Val(iv[..8]), Val(iv[8..]), WordNat(gID);
    ShaderBlockValue(iv, gID);
    AdvanceUnique(iv, g, ShaderBlock(iv, gID));
    PowValues();
    ValBound(iv[..8]);
    ValBound(iv[8..]);
    assert iv == iv[..8] + iv[8..];
    ValConcat(iv[..8], iv[8..]);
    WordNatBound(gID);
    if l + g >= TWO_64 {
      assert (l + g) % TWO_64 == l + g - TWO_64;
      assert h * TWO_64 + l + g < TWO_128 + TWO_128;
    }
  }
}
