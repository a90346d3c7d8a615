/** The inverse cipher of FIPS 197 section 5.3, with its own transformations, and that it undoes the cipher. */
module InverseCipher {
  import opened Bytes
  import opened Fips197
  import opened AesCtr
  import Sbox

  // ---- Section 5.3, for AES-256 ----

  // One row of the inverse substitution table (figure 14), first entry in the highest byte.
  function InvTableRow(hi: byte): bv128 {
    if hi == 0x0 then 0x52096ad53036a538bf40a39e81f3d7fb
    else if hi == 0x1 then 0x7ce339829b2fff87348e4344c4dee9cb
    else if hi == 0x2 then 0x547b9432a6c2233dee4c950b42fac34e
    else if hi == 0x3 then 0x082ea16628d924b2765ba2496d8bd125
    else if hi == 0x4 then 0x72f8f66486689816d4a45ccc5d65b692
    else if hi == 0x5 then 0x6c704850fdedb9da5e154657a78d9d84
    else if hi == 0x6 then 0x90d8ab008cbcd30af7e45805b8b34506
    else if hi == 0x7 then 0xd02c1e8fca3f0f02c1afbd0301138a6b
    else if hi == 0x8 then 0x3a9111414f67dcea97f2cfcef0b4e673
    else if hi == 0x9 then 0x96ac7422e7ad3585e2f937e81c75df6e
    else if hi == 0xa then 0x47f11a711d29c5896fb7620eaa18be1b
    else if hi == 0xb then 0xfc563e4bc6d279209adbc0fe78cd5af4
    else if hi == 0xc then 0x1fdda8338807c731b11210592780ec5f
    else if hi == 0xd then 0x60517fa919b54a0d2de57a9f93c99cef
    else if hi == 0xe then 0xa0e03b4dae2af5b0c8ebbb3c83539961
    else 0x172b047eba77d626e169146355210c7d
  }

  function InvSub(b: byte): byte {
    Sbox.Pick(InvTableRow(b >> 4), b)
  }

  function InvSubColumn(c: Column): Column {
    Column(InvSub(c.b0), InvSub(c.b1), InvSub(c.b2), InvSub(c.b3))
  }

  function InvSubBytes(s: State): State {
    State(InvSubColumn(s.c0), InvSubColumn(s.c1), InvSubColumn(s.c2), InvSubColumn(s.c3))
  }

  // Row r goes right by r columns (section 5.3.1).
  function InvShiftRows(s: State): State {
    State(Column(s.c0.b0, s.c3.b1, s.c2.b2, s.c1.b3),
          Column(s.c1.b0, s.c0.b1, s.c3.b2, s.c2.b3),
          Column(s.c2.b0, s.c1.b1, s.c0.b2, s.c3.b3),
          Column(s.c3.b0, s.c2.b1, s.c1.b2, s.c0.b3))
  }

  // One row of the matrix of equation 5.10, over the field.
  function InvRow(a: byte, b: byte, c: byte, d: byte): byte {
    XorByte(XorByte(Mul(a, 0x0e), Mul(b, 0x0b)), XorByte(Mul(c, 0x0d), Mul(d, 0x09)))
  }

  function InvMixColumn(c: Column): Column {
    Column(InvRow(c.b0, c.b1, c.b2, c.b3), InvRow(c.b1, c.b2, c.b3, c.b0),
           InvRow(c.b2, c.b3, c.b0, c.b1), InvRow(c.b3, c.b0, c.b1, c.b2))
  }

  function InvMixColumns(s: State): State {
    State(InvMixColumn(s.c0), InvMixColumn(s.c1), InvMixColumn(s.c2), InvMixColumn(s.c3))
  }

  function AddKeyColumn(c: Column, k: Column): Column {
    Column(XorByte(c.b0, k.b0), XorByte(c.b1, k.b1), XorByte(c.b2, k.b2), XorByte(c.b3, k.b3))
  }

  // AddRoundKey is its own inverse (section 5.3.4).
  function AddKey(s: State, w: seq<Column>, r: nat): State
    requires |w| == 60 && r < 15
  {
    State(AddKeyColumn(s.c0, w[4 * r]), AddKeyColumn(s.c1, w[4 * r + 1]),
          AddKeyColumn(s.c2, w[4 * r + 2]), AddKeyColumn(s.c3, w[4 * r + 3]))
  }

  // The loop of figure 12, from round r down to round 1.
  function InvLoop(w: seq<Column>, s: State, r: nat): State
    requires |w| == 60 && r < 14
    decreases r
  {
    if r == 0 then s else InvLoop(w, InvMixColumns(AddKey(InvSubBytes(InvShiftRows(s)), w, r)), r - 1)
  }

  /** InvCipher with fourteen rounds. */
  function InvCipher(w: seq<Column>, s: State): State
    requires |w| == 60
  {
    AddKey(InvSubBytes(InvShiftRows(InvLoop(w, AddKey(s, w, 14), 13))), w, 0)
  }

  /** AES-256 decryption of one block. */
  function DecryptBlock(key: seq<byte>, block: seq<byte>): seq<byte>
    requires |key| == 32 && |block| == 16
  {
    StateBytes(InvCipher(KeyExpansion(Sbox.SBox, key), BlockState(block)))
  }

  // ---- Every transformation is undone ----

  // The two halves of the table, each over its seven free bits.
  lemma SubUndoneLow(low: bv7, b: byte)
    requires b == low as byte
    ensures InvSub(Sbox.SBox(b)) == b
  {}

  lemma SubUndoneHigh(low: bv7, b: byte)
    requires b == 0x80 | low as byte
    ensures InvSub(Sbox.SBox(b)) == b
  {}

  lemma SubUndone(b: byte)
    ensures InvSub(Sbox.SBox(b)) == b
  {
    hide InvSub, Sbox.SBox;
    if b < 0x80 {
      SubUndoneLow((b & 0x7F) as bv7, b);
    } else {
      SubUndoneHigh((b & 0x7F) as bv7, b);
    }
  }

  lemma SubColumnUndone(c: Column)
    ensures InvSubColumn(SubWord(Sbox.SBox, c)) == c
  {
    hide InvSub, Sbox.SBox;
    SubUndone(c.b0);
    SubUndone(c.b1);
    SubUndone(c.b2);
    SubUndone(c.b3);
  }

  lemma SubShiftUndone(s: State)
    ensures InvSubBytes(InvShiftRows(ShiftRows(SubBytes(Sbox.SBox, s)))) == s
  {
    hide InvSubColumn, SubWord;
    assert InvShiftRows(ShiftRows(SubBytes(Sbox.SBox, s))) == SubBytes(Sbox.SBox, s) by {
      ShiftUndone(SubBytes(Sbox.SBox, s));
    }
    SubColumnUndone(s.c0);
    SubColumnUndone(s.c1);
    SubColumnUndone(s.c2);
    SubColumnUndone(s.c3);
  }

  lemma ShiftUndone(s: State)
    ensures InvShiftRows(ShiftRows(s)) == s
  {}

  lemma KeyUndone(c: Column, k: Column)
    ensures AddKeyColumn(XorColumn(c, k), k) == c
  {}

  lemma AddKeyUndone(s: State, w: seq<Column>, r: nat)
    requires |w| == 60 && r < 15
    ensures AddKey(AddRoundKey(s, w, r), w, r) == s
  {
    hide AddKeyColumn, XorColumn;
    KeyUndone(s.c0, w[4 * r]);
    KeyUndone(s.c1, w[4 * r + 1]);
    KeyUndone(s.c2, w[4 * r + 2]);
    KeyUndone(s.c3, w[4 * r + 3]);
  }

  // ---- The matrices of MixColumns and InvMixColumns, one input byte at a time ----

  lemma XorPairs(a: byte, b: byte, c: byte, d: byte)
    ensures XorByte(XorByte(a, b), XorByte(c, d)) == XorByte(XorByte(a, c), XorByte(b, d))
  {
    hide XorByte;
    XorGroups(a, b, XorByte(c, d));
    XorGroups(b, c, d);
    Swap(b, c);
    XorGroups(c, b, d);
    XorGroups(a, c, XorByte(b, d));
  }

  lemma XorGroups(a: byte, b: byte, c: byte)
    ensures XorByte(XorByte(a, b), c) == XorByte(a, XorByte(b, c))
  {}

  lemma XorZero(a: byte)
    ensures XorByte(a, 0) == a && XorByte(0, a) == a
  {}

  lemma DoubleAdds(a: byte, b: byte)
    ensures XTimes(XorByte(a, b)) == XorByte(XTimes(a), XTimes(b))
  {
    XTimesXor(a, b);
  }

  function Eight(a: byte): byte {
    XTimes(XTimes(XTimes(a)))
  }

  lemma EightAdds(a: byte, b: byte)
    ensures Eight(XorByte(a, b)) == XorByte(Eight(a), Eight(b))
  {
    hide XTimes, XorByte;
    DoubleAdds(a, b);
    DoubleAdds(XTimes(a), XTimes(b));
    DoubleAdds(XTimes(XTimes(a)), XTimes(XTimes(b)));
  }

  lemma Constants(a: byte)
    ensures Mul(a, 0x09) == XorByte(Eight(a), a)
    ensures Mul(a, 0x0b) == XorByte(XorByte(Eight(a), XTimes(a)), a)
    ensures Mul(a, 0x0d) == XorByte(XorByte(Eight(a), XTimes(XTimes(a))), a)
    ensures Mul(a, 0x0e) == XorByte(XorByte(Eight(a), XTimes(XTimes(a))), XTimes(a))
  {}

  // Each of the four constants distributes over a sum.
  lemma ConstantAdds(a: byte, b: byte)
    ensures Mul(XorByte(a, b), 0x09) == XorByte(Mul(a, 0x09), Mul(b, 0x09))
    ensures Mul(XorByte(a, b), 0x0b) == XorByte(Mul(a, 0x0b), Mul(b, 0x0b))
    ensures Mul(XorByte(a, b), 0x0d) == XorByte(Mul(a, 0x0d), Mul(b, 0x0d))
    ensures Mul(XorByte(a, b), 0x0e) == XorByte(Mul(a, 0x0e), Mul(b, 0x0e))
  {
    hide Mul, Eight, XTimes, XorByte;
    Constants(a);
    Constants(b);
    Constants(XorByte(a, b));
    EightAdds(a, b);
    DoubleAdds(a, b);
    DoubleAdds(XTimes(a), XTimes(b));
    var a2, b2, a4, b4 := XTimes(a), XTimes(b), XTimes(XTimes(a)), XTimes(XTimes(b));
    var a8, b8 := Eight(a), Eight(b);
    XorPairs(a8, b8, a, b);
    XorPairs(a8, b8, a2, b2);
    XorPairs(XorByte(a8, a2), XorByte(b8, b2), a, b);
    XorPairs(a8, b8, a4, b4);
    XorPairs(XorByte(a8, a4), XorByte(b8, b4), a, b);
    XorPairs(XorByte(a8, a4), XorByte(b8, b4), a2, b2);
  }

  lemma InvRowAdds(a: byte, b: byte, c: byte, d: byte, a': byte, b': byte, c': byte, d': byte)
    ensures InvRow(XorByte(a, a'), XorByte(b, b'), XorByte(c, c'), XorByte(d, d')) ==
            XorByte(InvRow(a, b, c, d), InvRow(a', b', c', d'))
  {
    hide Mul, XorByte;
    ConstantAdds(a, a');
    ConstantAdds(b, b');
    ConstantAdds(c, c');
    ConstantAdds(d, d');
    XorPairs(Mul(a, 0x0e), Mul(a', 0x0e), Mul(b, 0x0b), Mul(b', 0x0b));
    XorPairs(Mul(c, 0x0d), Mul(c', 0x0d), Mul(d, 0x09), Mul(d', 0x09));
    XorPairs(XorByte(Mul(a, 0x0e), Mul(b, 0x0b)), XorByte(Mul(a', 0x0e), Mul(b', 0x0b)),
             XorByte(Mul(c, 0x0d), Mul(d, 0x09)), XorByte(Mul(c', 0x0d), Mul(d', 0x09)));
  }

  // A mixed byte is the sum of what the first and the second two bytes contribute, and these of single bytes.
  lemma MixParts(a: byte, b: byte, c: byte, d: byte)
    ensures MixByte(a, b, c, d) == XorByte(MixByte(a, b, 0, 0), MixByte(0, 0, c, d))
    ensures MixByte(a, b, 0, 0) == XorByte(MixByte(a, 0, 0, 0), MixByte(0, b, 0, 0))
    ensures MixByte(0, 0, c, d) == XorByte(MixByte(0, 0, c, 0), MixByte(0, 0, 0, d))
  {
    hide XTimes, XorByte;
    DoubleOfZero();
    XorZero(0);
    XorZero(XTimes(a));
    XorZero(XTimes(b));
    XorZero(b);
    XorZero(XorByte(XTimes(b), b));
    XorZero(XorByte(XTimes(a), XorByte(XTimes(b), b)));
    XorZero(c);
    XorZero(d);
    XorGroups(XorByte(XTimes(a), XorByte(XTimes(b), b)), c, d);
  }

  lemma DoubleOfZero()
    ensures XTimes(0) == 0
  {}

  // What one row of InvMixColumn makes of the column that MixColumn makes of a single byte.
  lemma FirstByte(a: byte)
    ensures InvRow(MixByte(a, 0, 0, 0), MixByte(0, 0, 0, a), MixByte(0, 0, a, 0), MixByte(0, a, 0, 0)) == a
  {
    hide MixByte;
    MixSingle(a);
    RowSums(a);
  }

  lemma SecondByte(b: byte)
    ensures InvRow(MixByte(0, b, 0, 0), MixByte(b, 0, 0, 0), MixByte(0, 0, 0, b), MixByte(0, 0, b, 0)) == 0
  {
    hide InvRow, MixByte, XorByte;
    MixSingle(b);
    RowSums(b);
  }

  lemma ThirdByte(c: byte)
    ensures InvRow(MixByte(0, 0, c, 0), MixByte(0, c, 0, 0), MixByte(c, 0, 0, 0), MixByte(0, 0, 0, c)) == 0
  {
    hide InvRow, MixByte, XorByte;
    MixSingle(c);
    RowSums(c);
  }

  lemma FourthByte(d: byte)
    ensures InvRow(MixByte(0, 0, 0, d), MixByte(0, 0, d, 0), MixByte(0, d, 0, 0), MixByte(d, 0, 0, 0)) == 0
  {
    hide InvRow, MixByte, XorByte;
    MixSingle(d);
    RowSums(d);
  }

  lemma MixSingle(a: byte)
    ensures MixByte(a, 0, 0, 0) == XTimes(a) && MixByte(0, a, 0, 0) == XorByte(XTimes(a), a)
    ensures MixByte(0, 0, a, 0) == a && MixByte(0, 0, 0, a) == a
  {
    hide XTimes, XorByte;
    DoubleOfZero();
    XorZero(0);
    XorZero(a);
    XorZero(XTimes(a));
    XorZero(XorByte(XTimes(a), a));
  }

  // Doubling moves from the argument to the constant: the row's products add up to the byte itself, or cancel.
  lemma RowSums(a: byte)
    ensures InvRow(XTimes(a), a, a, XorByte(XTimes(a), a)) == a
    ensures InvRow(XorByte(XTimes(a), a), XTimes(a), a, a) == 0
    ensures InvRow(a, XorByte(XTimes(a), a), XTimes(a), a) == 0
    ensures InvRow(a, a, XorByte(XTimes(a), a), XTimes(a)) == 0
  {
    RowSum1(a);
    RowSum2(a);
    RowSum3(a);
    RowSum4(a);
  }

  lemma RowSum1(a: byte)
    ensures InvRow(XTimes(a), a, a, XorByte(XTimes(a), a)) == a
  {}

  lemma RowSum2(a: byte)
    ensures InvRow(XorByte(XTimes(a), a), XTimes(a), a, a) == 0
  {}

  lemma RowSum3(a: byte)
    ensures InvRow(a, XorByte(XTimes(a), a), XTimes(a), a) == 0
  {}

  lemma RowSum4(a: byte)
    ensures InvRow(a, a, XorByte(XTimes(a), a), XTimes(a)) == 0
  {}

  lemma MixRowUndone(a: byte, b: byte, c: byte, d: byte)
    ensures InvRow(MixByte(a, b, c, d), MixByte(b, c, d, a), MixByte(c, d, a, b), MixByte(d, a, b, c)) == a
  {
    hide InvRow, MixByte, XorByte;
    MixTurns(a, b, c, d);
    FirstByte(a);
    SecondByte(b);
    ThirdByte(c);
    FourthByte(d);
    InvRowAdds(MixByte(a, 0, 0, 0), MixByte(0, 0, 0, a), MixByte(0, 0, a, 0), MixByte(0, a, 0, 0),
               MixByte(0, b, 0, 0), MixByte(b, 0, 0, 0), MixByte(0, 0, 0, b), MixByte(0, 0, b, 0));
    InvRowAdds(MixByte(0, 0, c, 0), MixByte(0, c, 0, 0), MixByte(c, 0, 0, 0), MixByte(0, 0, 0, c),
               MixByte(0, 0, 0, d), MixByte(0, 0, d, 0), MixByte(0, d, 0, 0), MixByte(d, 0, 0, 0));
    InvRowAdds(XorByte(MixByte(a, 0, 0, 0), MixByte(0, b, 0, 0)), XorByte(MixByte(0, 0, 0, a), MixByte(b, 0, 0, 0)),
               XorByte(MixByte(0, 0, a, 0), MixByte(0, 0, 0, b)), XorByte(MixByte(0, a, 0, 0), MixByte(0, 0, b, 0)),
               XorByte(MixByte(0, 0, c, 0), MixByte(0, 0, 0, d)), XorByte(MixByte(0, c, 0, 0), MixByte(0, 0, d, 0)),
               XorByte(MixByte(c, 0, 0, 0), MixByte(0, d, 0, 0)), XorByte(MixByte(0, 0, 0, c), MixByte(d, 0, 0, 0)));
    XorZero(a);
    XorZero(0);
  }

  // The four bytes of a mixed column, each as (what a and b give) + (what c and d give).
  lemma MixTurns(a: byte, b: byte, c: byte, d: byte)
    ensures MixByte(a, b, c, d) == XorByte(XorByte(MixByte(a, 0, 0, 0), MixByte(0, b, 0, 0)),
                                           XorByte(MixByte(0, 0, c, 0), MixByte(0, 0, 0, d)))
    ensures MixByte(b, c, d, a) == XorByte(XorByte(MixByte(0, 0, 0, a), MixByte(b, 0, 0, 0)),
                                           XorByte(MixByte(0, c, 0, 0), MixByte(0, 0, d, 0)))
    ensures MixByte(c, d, a, b) == XorByte(XorByte(MixByte(0, 0, a, 0), MixByte(0, 0, 0, b)),
                                           XorByte(MixByte(c, 0, 0, 0), MixByte(0, d, 0, 0)))
    ensures MixByte(d, a, b, c) == XorByte(XorByte(MixByte(0, a, 0, 0), MixByte(0, 0, b, 0)),
                                           XorByte(MixByte(0, 0, 0, c), MixByte(d, 0, 0, 0)))
  {
    hide MixByte, XorByte;
    MixParts(a, b, c, d);
    MixParts(b, c, d, a);
    MixParts(c, d, a, b);
    MixParts(d, a, b, c);
    Turn(MixByte(b, 0, 0, 0), MixByte(0, c, 0, 0), MixByte(0, 0, d, 0), MixByte(0, 0, 0, a));
    Turn(MixByte(d, 0, 0, 0), MixByte(0, a, 0, 0), MixByte(0, 0, b, 0), MixByte(0, 0, 0, c));
    Swap(XorByte(MixByte(c, 0, 0, 0), MixByte(0, d, 0, 0)), XorByte(MixByte(0, 0, a, 0), MixByte(0, 0, 0, b)));
  }

  lemma Swap(a: byte, b: byte)
    ensures XorByte(a, b) == XorByte(b, a)
  {}

  lemma Turn(a: byte, b: byte, c: byte, d: byte)
    ensures XorByte(XorByte(a, b), XorByte(c, d)) == XorByte(XorByte(d, a), XorByte(b, c))
    ensures XorByte(XorByte(a, b), XorByte(c, d)) == XorByte(XorByte(b, c), XorByte(d, a))
  {}

  lemma MixColumnUndone(c: Column)
    ensures InvMixColumn(MixColumn(c)) == c
  {
    hide InvRow, MixByte;
    MixRowUndone(c.b0, c.b1, c.b2, c.b3);
    MixRowUndone(c.b1, c.b2, c.b3, c.b0);
    MixRowUndone(c.b2, c.b3, c.b0, c.b1);
    MixRowUndone(c.b3, c.b0, c.b1, c.b2);
  }

  lemma MixColumnsUndone(s: State)
    ensures InvMixColumns(MixColumns(s)) == s
  {
    hide InvMixColumn, MixColumn;
    MixColumnUndone(s.c0);
    MixColumnUndone(s.c1);
    MixColumnUndone(s.c2);
    MixColumnUndone(s.c3);
  }

  // ---- The cipher is undone ----

  // Entered with the shifted state of round r, the loop arrives at the one of round 0.
  lemma {:induction false} LoopUndone(w: seq<Column>, s: State, r: nat)
    requires |w| == 60 && r < 14
    ensures InvLoop(w, ShiftRows(SubBytes(Sbox.SBox, Rounds(Sbox.SBox, w, s, r))), r) ==
            ShiftRows(SubBytes(Sbox.SBox, AddRoundKey(s, w, 0)))
  {
    hide SubBytes, ShiftRows, MixColumns, AddRoundKey, InvSubBytes, InvShiftRows, InvMixColumns, AddKey;
    if r != 0 {
      var before := Rounds(Sbox.SBox, w, s, r - 1);
      var shifted := ShiftRows(SubBytes(Sbox.SBox, before));
      SubShiftUndone(Rounds(Sbox.SBox, w, s, r));
      AddKeyUndone(MixColumns(shifted), w, r);
      MixColumnsUndone(shifted);
      LoopUndone(w, s, r - 1);
    }
  }

  lemma CipherUndone(w: seq<Column>, s: State)
    requires |w| == 60
    ensures InvCipher(w, Cipher(Sbox.SBox, w, 14, s)) == s
  {
    hide SubBytes, ShiftRows, AddRoundKey, InvSubBytes, InvShiftRows, AddKey, InvLoop, Rounds;
    AddKeyUndone(ShiftRows(SubBytes(Sbox.SBox, Rounds(Sbox.SBox, w, s, 13))), w, 14);
    LoopUndone(w, s, 13);
    SubShiftUndone(AddRoundKey(s, w, 0));
    AddKeyUndone(s, w, 0);
  }

  /** Decryption by the inverse cipher gives every block back, under every key. */
  lemma DecryptUndoesEncrypt(key: seq<byte>, block: seq<byte>)
    requires |key| == 32 && |block| == 16
    ensures DecryptBlock(key, EncryptBlock(key, block)) == block
  {
    hide Cipher, InvCipher, KeyExpansion, StateBytes, BlockState, Sbox.SBox;
    var w := KeyExpansion(Sbox.SBox, key);
    CipherUndone(w, BlockState(block));
    StateRoundTrip(Cipher(Sbox.SBox, w, 14, BlockState(block)), block);
  }
}
