/** The AES-256-CTR compute shader, one invocation. */
module AesKernel {
  import opened Bytes
  import opened ShaderCounter
  import opened Words
  import F = Fips197

  // Word offsets of the parameter buffer: batchSize@0, numRounds@1, RoundKey[60]@4, IV[4]@64, SBox[256]@68.
  const ROUND_KEY: nat := 4
  const IV: nat := 64
  const SBOX: nat := 68
  const PARAM_WORDS: nat := 324

  function Unpack(w: word): F.Column {
    F.Column(B0(w), B1(w), B2(w), B3(w))
  }

  function StateOf(s0: word, s1: word, s2: word, s3: word): F.State {
    F.State(Unpack(s0), Unpack(s1), Unpack(s2), Unpack(s3))
  }

  // ---- The shader's expressions ----

  // Four values below 256 put side by side, the first lowest.
  function Join(d0: word, d1: word, d2: word, d3: word): word {
    d0 | (d1 << 8) | (d2 << 16) | (d3 << 24)
  }

  function SubWord(params: seq<word>, w: word): word
    requires |params| >= PARAM_WORDS
  {
    Join(params[SBOX + B0(w) as nat], params[SBOX + B1(w) as nat],
         params[SBOX + B2(w) as nat], params[SBOX + B3(w) as nat])
  }

  function XTime(x: word): word {
    ((x << 1) ^ (((x >> 7) & 1) * 0x1b)) & 0xFF
  }

  // The four lines d0..d3 of the shader's MixColumn.
  function MixRow0(b0: word, b1: word, b2: word, b3: word): word {
    XTime(b0) ^ (XTime(b1) ^ b1) ^ b2 ^ b3
  }

  function MixRow1(b0: word, b1: word, b2: word, b3: word): word {
    b0 ^ XTime(b1) ^ (XTime(b2) ^ b2) ^ b3
  }

  function MixRow2(b0: word, b1: word, b2: word, b3: word): word {
    b0 ^ b1 ^ XTime(b2) ^ (XTime(b3) ^ b3)
  }

  function MixRow3(b0: word, b1: word, b2: word, b3: word): word {
    (XTime(b0) ^ b0) ^ b1 ^ b2 ^ XTime(b3)
  }

  // A byte as a `uint`.
  function Widen(b: byte): word {
    b as word
  }

  function MixColumn(c: word): word {
    var b0 := Widen(B0(c));
    var b1 := Widen(B1(c));
    var b2 := Widen(B2(c));
    var b3 := Widen(B3(c));
    Join(MixRow0(b0, b1, b2, b3), MixRow1(b0, b1, b2, b3), MixRow2(b0, b1, b2, b3), MixRow3(b0, b1, b2, b3))
  }

  // One masked column: byte 0 of a, byte 1 of b, byte 2 of c, byte 3 of d.
  function Mask(a: word, b: word, c: word, d: word): word {
    (a & 0xFF) | (b & 0xFF00) | (c & 0xFF0000) | (d & 0xFF000000)
  }

  // Exclusive or with word i of the round keys.
  function XorKey(params: seq<word>, a: word, i: nat): word
    requires |params| >= PARAM_WORDS && i < 60
  {
    a ^ params[ROUND_KEY + i]
  }

  // ---- What the expressions mean ----

  predicate SBoxEntry(params: seq<word>, sbox: F.SubstitutionBox, i: nat)
    requires |params| >= PARAM_WORDS && i < 256
  {
    params[SBOX + i] == Widen(sbox(ToByte(i)))
  }

  predicate HoldsSBox(params: seq<word>, sbox: F.SubstitutionBox) {
    && |params| >= PARAM_WORDS
    && forall i :: 0 <= i < 256 ==> SBoxEntry(params, sbox, i)
  }

  lemma LookUp(params: seq<word>, sbox: F.SubstitutionBox, b: byte)
    requires HoldsSBox(params, sbox)
    ensures params[SBOX + b as nat] == Widen(sbox(b))
  {
    hide ToByte, Widen;
    ByteOfNat(b);
    assert ToNat(b) == b as nat;
    assert SBoxEntry(params, sbox, b as nat);
  }

  function RoundKeys(params: seq<word>): (w: seq<F.Column>)
    requires |params| >= PARAM_WORDS
    ensures |w| == 60
  {
    seq(60, i requires 0 <= i < 60 => Unpack(params[ROUND_KEY + i]))
  }

  lemma JoinMeaning(p: byte, q: byte, r: byte, s: byte)
    ensures Unpack(Join(Widen(p), Widen(q), Widen(r), Widen(s))) == F.Column(p, q, r, s)
  {}

  lemma SubWordMeaning(params: seq<word>, sbox: F.SubstitutionBox, w: word)
    requires HoldsSBox(params, sbox)
    ensures Unpack(SubWord(params, w)) == F.SubWord(sbox, Unpack(w))
  {
    hide Widen, Join, B0, B1, B2, B3;
    hide HoldsSBox;
    LookUp(params, sbox, B0(w));
    LookUp(params, sbox, B1(w));
    LookUp(params, sbox, B2(w));
    LookUp(params, sbox, B3(w));
    JoinMeaning(sbox(B0(w)), sbox(B1(w)), sbox(B2(w)), sbox(B3(w)));
  }

  lemma MaskMeaning(a: word, b: word, c: word, d: word)
    ensures Unpack(Mask(a, b, c, d)) == F.Column(B0(a), B1(b), B2(c), B3(d))
  {}

  lemma XTimeMeaning(b: byte)
    ensures XTime(Widen(b)) == Widen(F.XTimes(b))
  {}

  lemma MixRow0Meaning(b0: byte, b1: byte, b2: byte, b3: byte)
    ensures MixRow0(Widen(b0), Widen(b1), Widen(b2), Widen(b3)) == Widen(F.MixByte(b0, b1, b2, b3))
  {
    hide XTime, F.XTimes;
    XTimeMeaning(b0);
    XTimeMeaning(b1);
  }

  lemma MixRow1Meaning(b0: byte, b1: byte, b2: byte, b3: byte)
    ensures MixRow1(Widen(b0), Widen(b1), Widen(b2), Widen(b3)) == Widen(F.MixByte(b1, b2, b3, b0))
  {
    hide XTime, F.XTimes;
    XTimeMeaning(b1);
    XTimeMeaning(b2);
  }

  lemma MixRow2Meaning(b0: byte, b1: byte, b2: byte, b3: byte)
    ensures MixRow2(Widen(b0), Widen(b1), Widen(b2), Widen(b3)) == Widen(F.MixByte(b2, b3, b0, b1))
  {
    hide XTime, F.XTimes;
    XTimeMeaning(b2);
    XTimeMeaning(b3);
  }

  lemma MixRow3Meaning(b0: byte, b1: byte, b2: byte, b3: byte)
    ensures MixRow3(Widen(b0), Widen(b1), Widen(b2), Widen(b3)) == Widen(F.MixByte(b3, b0, b1, b2))
  {
    hide XTime, F.XTimes;
    XTimeMeaning(b3);
    XTimeMeaning(b0);
  }

  lemma MixColumnMeaning(c: word)
    ensures Unpack(MixColumn(c)) == F.MixColumn(Unpack(c))
  {
    hide Widen, Join, B0, B1, B2, B3, MixRow0, MixRow1, MixRow2, MixRow3, F.MixByte;
    var b0, b1, b2, b3 := B0(c), B1(c), B2(c), B3(c);
    MixRow0Meaning(b0, b1, b2, b3);
    MixRow1Meaning(b0, b1, b2, b3);
    MixRow2Meaning(b0, b1, b2, b3);
    MixRow3Meaning(b0, b1, b2, b3);
    JoinMeaning(F.MixByte(b0, b1, b2, b3), F.MixByte(b1, b2, b3, b0),
                F.MixByte(b2, b3, b0, b1), F.MixByte(b3, b0, b1, b2));
  }

  lemma XorMeaning(a: word, b: word)
    ensures Unpack(a ^ b) == F.XorColumn(Unpack(a), Unpack(b))
  {}

  // ---- The rounds ----

  lemma SubShiftMeaning(params: seq<word>, sbox: F.SubstitutionBox, s0: word, s1: word, s2: word, s3: word,
                        t0: word, t1: word, t2: word, t3: word)
    requires HoldsSBox(params, sbox)
    requires t0 == SubWord(params, s0) && t1 == SubWord(params, s1)
    requires t2 == SubWord(params, s2) && t3 == SubWord(params, s3)
    ensures StateOf(Mask(t0, t1, t2, t3), Mask(t1, t2, t3, t0), Mask(t2, t3, t0, t1), Mask(t3, t0, t1, t2)) ==
            F.ShiftRows(F.SubBytes(sbox, StateOf(s0, s1, s2, s3)))
  {
    hide SubWord, Mask, F.SubWord, B0, B1, B2, B3;
    SubWordMeaning(params, sbox, s0); SubWordMeaning(params, sbox, s1);
    SubWordMeaning(params, sbox, s2); SubWordMeaning(params, sbox, s3);
    MaskMeaning(t0, t1, t2, t3); MaskMeaning(t1, t2, t3, t0);
    MaskMeaning(t2, t3, t0, t1); MaskMeaning(t3, t0, t1, t2);
  }

  lemma XorKeyMeaning(params: seq<word>, a: word, i: nat)
    requires |params| >= PARAM_WORDS && i < 60
    ensures Unpack(XorKey(params, a, i)) == F.XorColumn(Unpack(a), Unpack(params[ROUND_KEY + i]))
  {
    hide Unpack, F.XorColumn;
    XorMeaning(a, params[ROUND_KEY + i]);
  }

  lemma AddRoundKeyMeaning(params: seq<word>, r: nat, a0: word, a1: word, a2: word, a3: word)
    requires |params| >= PARAM_WORDS && r < 15
    ensures StateOf(XorKey(params, a0, 4 * r), XorKey(params, a1, 4 * r + 1),
                    XorKey(params, a2, 4 * r + 2), XorKey(params, a3, 4 * r + 3)) ==
            F.AddRoundKey(StateOf(a0, a1, a2, a3), RoundKeys(params), r)
  {
    hide Unpack, XorKey, F.XorColumn;
    XorKeyMeaning(params, a0, 4 * r);
    XorKeyMeaning(params, a1, 4 * r + 1);
    XorKeyMeaning(params, a2, 4 * r + 2);
    XorKeyMeaning(params, a3, 4 * r + 3);
  }

  lemma MixColumnsMeaning(c0: word, c1: word, c2: word, c3: word)
    ensures StateOf(MixColumn(c0), MixColumn(c1), MixColumn(c2), MixColumn(c3)) == F.MixColumns(StateOf(c0, c1, c2, c3))
  {
    hide Unpack, MixColumn, F.MixColumn;
    MixColumnMeaning(c0); MixColumnMeaning(c1); MixColumnMeaning(c2); MixColumnMeaning(c3);
  }

  // The state that enters the cipher in invocation gID.
  function CounterState(params: seq<word>, gID: word): F.State
    requires |params| >= PARAM_WORDS
  {
    StateOf(params[IV], params[IV + 1],
            CounterWord2(params[IV + 2], params[IV + 3], gID), CounterWord3(params[IV + 3], gID))
  }

  /** One invocation up to its keystream block: the packed-word rounds compute the FIPS 197 cipher of the counter
      block, for every parameter buffer, substitution box and round count the buffer has keys for. */
  method KeystreamBlock(params: seq<word>, gID: word, ghost sbox: F.SubstitutionBox)
    returns (s0: word, s1: word, s2: word, s3: word)
    requires HoldsSBox(params, sbox)
    requires 1 <= WordNat(params[1]) <= 14
    ensures StateOf(s0, s1, s2, s3) ==
            F.Cipher(sbox, RoundKeys(params), WordNat(params[1]), CounterState(params, gID))
  {
    hide StateOf, SubWord, Mask, MixColumn, XorKey, F.AddRoundKey, F.SubBytes, F.ShiftRows, F.MixColumns;
    hide ByteSwap, Add32, Below, RoundKeys, WordNat;
    var b0, b1, b2, b3 := params[IV], params[IV + 1], params[IV + 2], params[IV + 3];

    var beB3 := ByteSwap(b3);
    var oldBe := beB3;
    beB3 := Add32(beB3, gID);
    b3 := ByteSwap(beB3);
    if Below(beB3, oldBe) {
      var beB2 := ByteSwap(b2);
      beB2 := Add32(beB2, 1);
      b2 := ByteSwap(beB2);
    }
    ghost var start := StateOf(b0, b1, b2, b3);
    assert start == CounterState(params, gID);

    AddRoundKeyMeaning(params, 0, b0, b1, b2, b3);
    s0 := XorKey(params, b0, 0);
    s1 := XorKey(params, b1, 1);
    s2 := XorKey(params, b2, 2);
    s3 := XorKey(params, b3, 3);

    var nr: nat := WordNat(params[1]);
    var r: nat := 1;
    while r < nr
      invariant 1 <= r <= nr
      invariant StateOf(s0, s1, s2, s3) == F.Rounds(sbox, RoundKeys(params), start, r - 1)
    {
      var t0, t1, t2, t3 := SubWord(params, s0), SubWord(params, s1), SubWord(params, s2), SubWord(params, s3);
      var c0, c1, c2, c3 := Mask(t0, t1, t2, t3), Mask(t1, t2, t3, t0), Mask(t2, t3, t0, t1), Mask(t3, t0, t1, t2);
      SubShiftMeaning(params, sbox, s0, s1, s2, s3, t0, t1, t2, t3);
      MixColumnsMeaning(c0, c1, c2, c3);
      AddRoundKeyMeaning(params, r, MixColumn(c0), MixColumn(c1), MixColumn(c2), MixColumn(c3));
      s0 := XorKey(params, MixColumn(c0), 4 * r + 0);
      s1 := XorKey(params, MixColumn(c1), 4 * r + 1);
      s2 := XorKey(params, MixColumn(c2), 4 * r + 2);
      s3 := XorKey(params, MixColumn(c3), 4 * r + 3);
      r := r + 1;
    }

    var t0, t1, t2, t3 := SubWord(params, s0), SubWord(params, s1), SubWord(params, s2), SubWord(params, s3);
    var c0, c1, c2, c3 := Mask(t0, t1, t2, t3), Mask(t1, t2, t3, t0), Mask(t2, t3, t0, t1), Mask(t3, t0, t1, t2);
    SubShiftMeaning(params, sbox, s0, s1, s2, s3, t0, t1, t2, t3);
    AddRoundKeyMeaning(params, nr, c0, c1, c2, c3);
    var keyOff := nr * 4;
    s0 := XorKey(params, c0, keyOff + 0);
    s1 := XorKey(params, c1, keyOff + 1);
    s2 := XorKey(params, c2, keyOff + 2);
    s3 := XorKey(params, c3, keyOff + 3);
  }
}
