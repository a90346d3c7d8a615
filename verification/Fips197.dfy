/** FIPS 197: the field, the round transformations (section 5.1), AES-256 key expansion (section 5.2).
    The substitution box is a parameter; Sbox.dfy shows which one the code uses. */
module Fips197 {
  import opened Bytes

  type SubstitutionBox = byte -> byte

  /** Four bytes: a column of the state, or a word of the key schedule. */
  datatype Column = Column(b0: byte, b1: byte, b2: byte, b3: byte)
  datatype State = State(c0: Column, c1: Column, c2: Column, c3: Column)

  // Multiplication by x in GF(2^8) modulo x^8 + x^4 + x^3 + x + 1 (section 4.2.1).
  function XTimes(b: byte): byte {
    (b << 1) ^ (if b & 0x80 != 0 then 0x1b else 0)
  }

  // Multiplication in GF(2^8) (section 4.2).
  function Mul(a: byte, b: byte): byte {
    var a1 := XTimes(a);
    var a2 := XTimes(a1);
    var a3 := XTimes(a2);
    var a4 := XTimes(a3);
    var a5 := XTimes(a4);
    var a6 := XTimes(a5);
    var a7 := XTimes(a6);
    (if b & 0x01 != 0 then a else 0) ^ (if b & 0x02 != 0 then a1 else 0) ^
    (if b & 0x04 != 0 then a2 else 0) ^ (if b & 0x08 != 0 then a3 else 0) ^
    (if b & 0x10 != 0 then a4 else 0) ^ (if b & 0x20 != 0 then a5 else 0) ^
    (if b & 0x40 != 0 then a6 else 0) ^ (if b & 0x80 != 0 then a7 else 0)
  }

  function XorColumn(a: Column, b: Column): Column {
    Column(a.b0 ^ b.b0, a.b1 ^ b.b1, a.b2 ^ b.b2, a.b3 ^ b.b3)
  }

  function SubWord(sbox: SubstitutionBox, c: Column): Column {
    Column(sbox(c.b0), sbox(c.b1), sbox(c.b2), sbox(c.b3))
  }

  function RotWord(c: Column): Column {
    Column(c.b1, c.b2, c.b3, c.b0)
  }

  function SubBytes(sbox: SubstitutionBox, s: State): State {
    State(SubWord(sbox, s.c0), SubWord(sbox, s.c1), SubWord(sbox, s.c2), SubWord(sbox, s.c3))
  }

  // Row r of the new state is row r of the old one, rotated left by r columns (section 5.1.2).
  function ShiftRows(s: State): State {
    State(Column(s.c0.b0, s.c1.b1, s.c2.b2, s.c3.b3),
          Column(s.c1.b0, s.c2.b1, s.c3.b2, s.c0.b3),
          Column(s.c2.b0, s.c3.b1, s.c0.b2, s.c1.b3),
          Column(s.c3.b0, s.c0.b1, s.c1.b2, s.c2.b3))
  }

  // {02} a + {03} b + c + d, given the doubles of a and b.
  function MixSum(doubleA: byte, doubleB: byte, b: byte, c: byte, d: byte): byte {
    XorByte(XorByte(XorByte(doubleA, XorByte(doubleB, b)), c), d)
  }

  function MixByte(a: byte, b: byte, c: byte, d: byte): byte {
    MixSum(XTimes(a), XTimes(b), b, c, d)
  }

  // Equation 5.6: the column times the circulant matrix with first row 02 03 01 01.
  function MixColumn(c: Column): Column {
    Column(MixByte(c.b0, c.b1, c.b2, c.b3), MixByte(c.b1, c.b2, c.b3, c.b0),
           MixByte(c.b2, c.b3, c.b0, c.b1), MixByte(c.b3, c.b0, c.b1, c.b2))
  }

  // One row of the circulant matrix times (a, b, c, d), over the field.
  function FieldRow(a: byte, b: byte, c: byte, d: byte): byte {
    XorByte(XorByte(XorByte(Mul(a, 0x02), Mul(b, 0x03)), c), d)
  }

  lemma MixByteIsFieldRow(a: byte, b: byte, c: byte, d: byte)
    ensures MixByte(a, b, c, d) == FieldRow(a, b, c, d)
  {
    hide Mul, XTimes, XorByte;
    DoubleAndTriple(a);
    DoubleAndTriple(b);
  }

  lemma DoubleAndTriple(b: byte)
    ensures XTimes(b) == Mul(b, 0x02) && XorByte(XTimes(b), b) == Mul(b, 0x03)
  {}

  /** The shift-and-reduce form is the product of equation 5.6 over GF(2^8), row by row. */
  lemma MixColumnIsFieldProduct(c: Column)
    ensures MixColumn(c) == Column(FieldRow(c.b0, c.b1, c.b2, c.b3), FieldRow(c.b1, c.b2, c.b3, c.b0),
                                   FieldRow(c.b2, c.b3, c.b0, c.b1), FieldRow(c.b3, c.b0, c.b1, c.b2))
  {
    hide MixByte, FieldRow;
    MixByteIsFieldRow(c.b0, c.b1, c.b2, c.b3);
    MixByteIsFieldRow(c.b1, c.b2, c.b3, c.b0);
    MixByteIsFieldRow(c.b2, c.b3, c.b0, c.b1);
    MixByteIsFieldRow(c.b3, c.b0, c.b1, c.b2);
  }

  function MixColumns(s: State): State {
    State(MixColumn(s.c0), MixColumn(s.c1), MixColumn(s.c2), MixColumn(s.c3))
  }

  function AddRoundKey(s: State, w: seq<Column>, r: nat): State
    requires 4 * r + 4 <= |w|
  {
    State(XorColumn(s.c0, w[4 * r]), XorColumn(s.c1, w[4 * r + 1]),
          XorColumn(s.c2, w[4 * r + 2]), XorColumn(s.c3, w[4 * r + 3]))
  }

  function Round(sbox: SubstitutionBox, w: seq<Column>, r: nat, s: State): State
    requires 4 * r + 4 <= |w|
  {
    AddRoundKey(MixColumns(ShiftRows(SubBytes(sbox, s))), w, r)
  }

  function FinalRound(sbox: SubstitutionBox, w: seq<Column>, r: nat, s: State): State
    requires 4 * r + 4 <= |w|
  {
    AddRoundKey(ShiftRows(SubBytes(sbox, s)), w, r)
  }

  /** The state after the initial AddRoundKey and the first r full rounds. */
  function Rounds(sbox: SubstitutionBox, w: seq<Column>, s: State, r: nat): State
    requires 4 * r + 4 <= |w|
  {
    if r == 0 then AddRoundKey(s, w, 0)
    else Round(sbox, w, r, Rounds(sbox, w, s, r - 1))
  }

  /** Cipher of section 5.1 with nr rounds; the last one has no MixColumns. */
  function Cipher(sbox: SubstitutionBox, w: seq<Column>, nr: nat, s: State): State
    requires 1 <= nr && 4 * nr + 4 <= |w|
  {
    FinalRound(sbox, w, nr, Rounds(sbox, w, s, nr - 1))
  }

  // Rcon[j] = [x^(j-1), 0, 0, 0] (section 5.2).
  function RconByte(j: nat): byte
    requires 1 <= j
  {
    if j == 1 then 0x01 else XTimes(RconByte(j - 1))
  }

  // What is added to word i - 8 to give word i of the AES-256 schedule.
  function ScheduleTemp(sbox: SubstitutionBox, prev: Column, i: nat): Column
    requires 8 <= i
  {
    if i % 8 == 0 then XorColumn(SubWord(sbox, RotWord(prev)), Column(RconByte(i / 8), 0, 0, 0))
    else if i % 8 == 4 then SubWord(sbox, prev)
    else prev
  }

  /** Word i of KeyExpansion of section 5.2 with Nk = 8. */
  function KeyWord(sbox: SubstitutionBox, key: seq<byte>, i: nat): Column
    requires |key| == 32
  {
    if i < 8 then Column(key[4 * i], key[4 * i + 1], key[4 * i + 2], key[4 * i + 3])
    else XorColumn(KeyWord(sbox, key, i - 8), ScheduleTemp(sbox, KeyWord(sbox, key, i - 1), i))
  }

  function KeyExpansion(sbox: SubstitutionBox, key: seq<byte>): (w: seq<Column>)
    requires |key| == 32
    ensures |w| == 60
    ensures forall i :: 0 <= i < 60 ==> w[i] == KeyWord(sbox, key, i)
  {
    seq(60, i requires 0 <= i < 60 => KeyWord(sbox, key, i))
  }

  // x^n in GF(2^8), by field multiplication.
  function PowerOfX(n: nat): byte {
    if n == 0 then 0x01 else Mul(PowerOfX(n - 1), 0x02)
  }

  lemma {:induction false} RconIsPower(j: nat)
    requires 1 <= j
    ensures RconByte(j) == PowerOfX(j - 1)
  {
    hide Mul, XTimes;
    if j != 1 {
      RconIsPower(j - 1);
      DoubleAndTriple(PowerOfX(j - 2));
    }
  }

  /** The schedule byte by byte: the first eight words are the key; every later word is the word eight back plus the
      word
      before it, which is substituted at every fourth word, and at every eighth also rotated and given a power of x. */
  lemma ExpansionBytes(sbox: SubstitutionBox, key: seq<byte>, i: nat)
    requires |key| == 32 && i < 60
    ensures var w := KeyExpansion(sbox, key);
            && (i < 8 ==> w[i].b0 == key[4 * i] && w[i].b1 == key[4 * i + 1] &&
                          w[i].b2 == key[4 * i + 2] && w[i].b3 == key[4 * i + 3])
            && (8 <= i && i % 8 == 0 ==>
                  && w[i].b0 == XorByte(XorByte(w[i - 8].b0, sbox(w[i - 1].b1)), PowerOfX(i / 8 - 1))
                  && w[i].b1 == XorByte(w[i - 8].b1, sbox(w[i - 1].b2))
                  && w[i].b2 == XorByte(w[i - 8].b2, sbox(w[i - 1].b3))
                  && w[i].b3 == XorByte(w[i - 8].b3, sbox(w[i - 1].b0)))
            && (8 <= i && i % 8 == 4 ==>
                  && w[i].b0 == XorByte(w[i - 8].b0, sbox(w[i - 1].b0))
                  && w[i].b1 == XorByte(w[i - 8].b1, sbox(w[i - 1].b1))
                  && w[i].b2 == XorByte(w[i - 8].b2, sbox(w[i - 1].b2))
                  && w[i].b3 == XorByte(w[i - 8].b3, sbox(w[i - 1].b3)))
            && (8 <= i && i % 4 != 0 ==>
                  && w[i].b0 == XorByte(w[i - 8].b0, w[i - 1].b0)
                  && w[i].b1 == XorByte(w[i - 8].b1, w[i - 1].b1)
                  && w[i].b2 == XorByte(w[i - 8].b2, w[i - 1].b2)
                  && w[i].b3 == XorByte(w[i - 8].b3, w[i - 1].b3))
  {
    hide RconByte, PowerOfX, XorByte, XorColumn, SubWord, RotWord;
    if 8 <= i {
      var back, previous := KeyWord(sbox, key, i - 8), KeyWord(sbox, key, i - 1);
      if i % 8 == 0 {
        RconIsPower(i / 8);
        EighthWord(sbox, back, previous, RconByte(i / 8));
      } else if i % 8 == 4 {
        FourthWord(sbox, back, previous);
      } else {
        OtherWord(back, previous);
      }
    }
  }

  lemma EighthWord(sbox: SubstitutionBox, a: Column, p: Column, x: byte)
    ensures var c := XorColumn(a, XorColumn(SubWord(sbox, RotWord(p)), Column(x, 0, 0, 0)));
            && c.b0 == XorByte(XorByte(a.b0, sbox(p.b1)), x) && c.b1 == XorByte(a.b1, sbox(p.b2))
            && c.b2 == XorByte(a.b2, sbox(p.b3)) && c.b3 == XorByte(a.b3, sbox(p.b0))
  {}

  lemma FourthWord(sbox: SubstitutionBox, a: Column, p: Column)
    ensures var c := XorColumn(a, SubWord(sbox, p));
            && c.b0 == XorByte(a.b0, sbox(p.b0)) && c.b1 == XorByte(a.b1, sbox(p.b1))
            && c.b2 == XorByte(a.b2, sbox(p.b2)) && c.b3 == XorByte(a.b3, sbox(p.b3))
  {}

  lemma OtherWord(a: Column, p: Column)
    ensures var c := XorColumn(a, p);
            && c.b0 == XorByte(a.b0, p.b0) && c.b1 == XorByte(a.b1, p.b1) && c.b2 == XorByte(a.b2, p.b2) &&
               c.b3 == XorByte(a.b3, p.b3)
  {}

  // ---- Every step of the cipher can be undone ----

  ghost predicate Injective(sbox: SubstitutionBox) {
    forall x: byte, y: byte :: sbox(x) == sbox(y) ==> x == y
  }

  // d is the difference of a and b. Named, so that the solver keeps it as one fact.
  predicate Difference(d: byte, a: byte, b: byte) {
    d == a ^ b
  }

  lemma XTimesXor(a: byte, b: byte)
    ensures XTimes(a ^ b) == XTimes(a) ^ XTimes(b)
  {
    if a & 0x80 != 0 {
      if b & 0x80 != 0 {} else {}
    } else {
      if b & 0x80 != 0 {} else {}
    }
  }

  lemma XTimesLinear(d: byte, a: byte, b: byte)
    requires Difference(d, a, b)
    ensures Difference(XTimes(d), XTimes(a), XTimes(b))
  {
    XTimesXor(a, b);
  }

  lemma MixSumLinear(xa: byte, xb: byte, b: byte, c: byte, d: byte,
                     ya: byte, yb: byte, b': byte, c': byte, d': byte,
                     da: byte, db: byte, eb: byte, ec: byte, ed: byte)
    requires MixSum(xa, xb, b, c, d) == MixSum(ya, yb, b', c', d')
    requires Difference(da, xa, ya) && Difference(db, xb, yb)
    requires Difference(eb, b, b') && Difference(ec, c, c') && Difference(ed, d, d')
    ensures MixSum(da, db, eb, ec, ed) == 0
  {
    hide Difference, XorByte;
    var x1, y1, d1 := XorByte(xb, b), XorByte(yb, b'), XorByte(db, eb);
    var x2, y2, d2 := XorByte(xa, x1), XorByte(ya, y1), XorByte(da, d1);
    var x3, y3, d3 := XorByte(x2, c), XorByte(y2, c'), XorByte(d2, ec);
    DifferenceXor(db, xb, yb, eb, b, b');
    DifferenceXor(da, xa, ya, d1, x1, y1);
    DifferenceXor(d2, x2, y2, ec, c, c');
    DifferenceXor(d3, x3, y3, ed, d, d');
    SameDifference(MixSum(da, db, eb, ec, ed), MixSum(xa, xb, b, c, d));
  }

  lemma DifferenceXor(d: byte, a: byte, b: byte, d': byte, a': byte, b': byte)
    requires Difference(d, a, b) && Difference(d', a', b')
    ensures Difference(XorByte(d, d'), XorByte(a, a'), XorByte(b, b'))
  {}

  lemma SameDifference(d: byte, a: byte)
    ensures Difference(d, a, a) <==> d == 0
  {}

  lemma MixByteLinear(a: byte, b: byte, c: byte, d: byte, a': byte, b': byte, c': byte, d': byte,
                      ea: byte, eb: byte, ec: byte, ed: byte)
    requires MixByte(a, b, c, d) == MixByte(a', b', c', d')
    requires Difference(ea, a, a') && Difference(eb, b, b') && Difference(ec, c, c') && Difference(ed, d, d')
    ensures MixByte(ea, eb, ec, ed) == 0
  {
    XTimesLinear(ea, a, a');
    XTimesLinear(eb, b, b');
    MixSumLinear(XTimes(a), XTimes(b), b, c, d, XTimes(a'), XTimes(b'), b', c', d', XTimes(ea), XTimes(eb), eb, ec, ed);
  }

  lemma MixColumnKernel(a: byte, b: byte, c: byte, d: byte)
    requires MixByte(a, b, c, d) == 0 && MixByte(b, c, d, a) == 0
    requires MixByte(c, d, a, b) == 0 && MixByte(d, a, b, c) == 0
    ensures a == 0 && b == 0 && c == 0 && d == 0
  {}

  lemma NoDifference(d: byte, a: byte, b: byte)
    requires Difference(d, a, b) && d == 0
    ensures a == b
  {}

  lemma MixBytesInjective(a: byte, b: byte, c: byte, d: byte, a': byte, b': byte, c': byte, d': byte)
    requires MixByte(a, b, c, d) == MixByte(a', b', c', d') && MixByte(b, c, d, a) == MixByte(b', c', d', a')
    requires MixByte(c, d, a, b) == MixByte(c', d', a', b') && MixByte(d, a, b, c) == MixByte(d', a', b', c')
    ensures a == a' && b == b' && c == c' && d == d'
  {
    var ea, eb, ec, ed := a ^ a', b ^ b', c ^ c', d ^ d';
    MixByteLinear(a, b, c, d, a', b', c', d', ea, eb, ec, ed);
    MixByteLinear(b, c, d, a, b', c', d', a', eb, ec, ed, ea);
    MixByteLinear(c, d, a, b, c', d', a', b', ec, ed, ea, eb);
    MixByteLinear(d, a, b, c, d', a', b', c', ed, ea, eb, ec);
    MixColumnKernel(ea, eb, ec, ed);
    NoDifference(ea, a, a');
    NoDifference(eb, b, b');
    NoDifference(ec, c, c');
    NoDifference(ed, d, d');
  }

  lemma MixColumnInjective(c: Column, d: Column)
    requires MixColumn(c) == MixColumn(d)
    ensures c == d
  {
    MixBytesInjective(c.b0, c.b1, c.b2, c.b3, d.b0, d.b1, d.b2, d.b3);
  }

  lemma MixColumnsInjective(s: State, t: State)
    requires MixColumns(s) == MixColumns(t)
    ensures s == t
  {
    MixColumnInjective(s.c0, t.c0);
    MixColumnInjective(s.c1, t.c1);
    MixColumnInjective(s.c2, t.c2);
    MixColumnInjective(s.c3, t.c3);
  }

  lemma XorColumnCancel(a: Column, b: Column, t: Column)
    ensures XorColumn(a, t) == XorColumn(b, t) <==> a == b
  {}

  lemma AddRoundKeyInjective(s: State, t: State, w: seq<Column>, r: nat)
    requires 4 * r + 4 <= |w|
    requires AddRoundKey(s, w, r) == AddRoundKey(t, w, r)
    ensures s == t
  {
    XorColumnCancel(s.c0, t.c0, w[4 * r]);
    XorColumnCancel(s.c1, t.c1, w[4 * r + 1]);
    XorColumnCancel(s.c2, t.c2, w[4 * r + 2]);
    XorColumnCancel(s.c3, t.c3, w[4 * r + 3]);
  }

  lemma SubShiftInjective(sbox: SubstitutionBox, s: State, t: State)
    requires Injective(sbox)
    ensures ShiftRows(SubBytes(sbox, s)) == ShiftRows(SubBytes(sbox, t)) ==> s == t
  {}

  lemma RoundInjective(sbox: SubstitutionBox, w: seq<Column>, r: nat, s: State, t: State)
    requires Injective(sbox) && 4 * r + 4 <= |w|
    requires Round(sbox, w, r, s) == Round(sbox, w, r, t)
    ensures s == t
  {
    var a, b := ShiftRows(SubBytes(sbox, s)), ShiftRows(SubBytes(sbox, t));
    AddRoundKeyInjective(MixColumns(a), MixColumns(b), w, r);
    MixColumnsInjective(a, b);
    SubShiftInjective(sbox, s, t);
  }

  lemma RoundsStart(sbox: SubstitutionBox, w: seq<Column>, s: State, t: State)
    requires 4 <= |w|
    requires Rounds(sbox, w, s, 0) == Rounds(sbox, w, t, 0)
    ensures s == t
  {
    AddRoundKeyInjective(s, t, w, 0);
  }

  lemma RoundsStep(sbox: SubstitutionBox, w: seq<Column>, s: State, t: State, r: nat)
    requires Injective(sbox) && 1 <= r && 4 * r + 4 <= |w|
    requires Rounds(sbox, w, s, r) == Rounds(sbox, w, t, r)
    ensures Rounds(sbox, w, s, r - 1) == Rounds(sbox, w, t, r - 1)
  {
    RoundInjective(sbox, w, r, Rounds(sbox, w, s, r - 1), Rounds(sbox, w, t, r - 1));
  }

  lemma {:induction false} RoundsInjective(sbox: SubstitutionBox, w: seq<Column>, s: State, t: State, r: nat)
    requires Injective(sbox) && 4 * r + 4 <= |w|
    requires Rounds(sbox, w, s, r) == Rounds(sbox, w, t, r)
    ensures s == t
    decreases r
  {
    hide Round, AddRoundKey;
    if r == 0 {
      RoundsStart(sbox, w, s, t);
    } else {
      RoundsStep(sbox, w, s, t, r);
      RoundsInjective(sbox, w, s, t, r - 1);
    }
  }

  lemma FinalRoundInjective(sbox: SubstitutionBox, w: seq<Column>, r: nat, s: State, t: State)
    requires Injective(sbox) && 4 * r + 4 <= |w|
    requires FinalRound(sbox, w, r, s) == FinalRound(sbox, w, r, t)
    ensures s == t
  {
    AddRoundKeyInjective(ShiftRows(SubBytes(sbox, s)), ShiftRows(SubBytes(sbox, t)), w, r);
    SubShiftInjective(sbox, s, t);
  }

  /** For every key schedule the cipher never maps two blocks to the same block. */
  lemma CipherInjective(sbox: SubstitutionBox, w: seq<Column>, nr: nat, s: State, t: State)
    requires Injective(sbox) && 1 <= nr && 4 * nr + 4 <= |w|
    ensures Cipher(sbox, w, nr, s) == Cipher(sbox, w, nr, t) <==> s == t
  {
    if Cipher(sbox, w, nr, s) == Cipher(sbox, w, nr, t) {
      FinalRoundInjective(sbox, w, nr, Rounds(sbox, w, s, nr - 1), Rounds(sbox, w, t, nr - 1));
      RoundsInjective(sbox, w, s, t, nr - 1);
    }
  }

  // ---- The AES-256 schedule runs backwards from any window of eight words ----

  ghost predicate AgreeOnWindow(sbox: SubstitutionBox, key: seq<byte>, other: seq<byte>, start: nat)
    requires |key| == |other| == 32
  {
    forall i :: start <= i < start + 8 ==> KeyWord(sbox, key, i) == KeyWord(sbox, other, i)
  }

  lemma WindowBack(sbox: SubstitutionBox, key: seq<byte>, other: seq<byte>, start: nat)
    requires |key| == |other| == 32 && 0 < start
    requires AgreeOnWindow(sbox, key, other, start)
    ensures AgreeOnWindow(sbox, key, other, start - 1)
  {
    var i := start + 7;
    assert KeyWord(sbox, key, i) == KeyWord(sbox, other, i);
    assert KeyWord(sbox, key, i - 1) == KeyWord(sbox, other, i - 1);
    XorColumnCancel(KeyWord(sbox, key, i - 8), KeyWord(sbox, other, i - 8),
                    ScheduleTemp(sbox, KeyWord(sbox, key, i - 1), i));
  }

  /** Any eight consecutive words of the schedule determine the key, hence all of it. */
  lemma {:induction false} WindowDeterminesKey(sbox: SubstitutionBox, key: seq<byte>, other: seq<byte>, start: nat)
    requires |key| == |other| == 32
    ensures AgreeOnWindow(sbox, key, other, start) <==> key == other
  {
    if AgreeOnWindow(sbox, key, other, start) {
      if start == 0 {
        forall p | 0 <= p < 32
          ensures key[p] == other[p]
        {
          var i := p / 4;
          assert KeyWord(sbox, key, i) == KeyWord(sbox, other, i);
          assert p == 4 * i || p == 4 * i + 1 || p == 4 * i + 2 || p == 4 * i + 3;
        }
      } else {
        WindowBack(sbox, key, other, start);
        WindowDeterminesKey(sbox, key, other, start - 1);
      }
    }
  }
}
