/** The AES-256 key expansion that the host runs on little-endian words. */
module KeySchedule {
  import opened Bytes
  import opened AesKernel
  import F = Fips197

  const RCON: seq<byte> := [0x01, 0x02, 0x04, 0x08, 0x10,
                            0x20, 0x40, 0x80, 0x1b, 0x36,
                            0x6c, 0xd8, 0xab, 0x4d, 0x9a]

  /** The table holds the powers of x of FIPS 197 section 5.2, including the five the code never reaches. */
  lemma {:induction false} RconIsPowersOfX(j: nat)
    requires j < 15
    ensures RCON[j] == F.RconByte(j + 1)
  {
    if j != 0 {
      RconIsPowersOfX(j - 1);
      assert RCON[j] == F.XTimes(RCON[j - 1]);
    }
  }

  function RotateWord(w: word): word {
    (w >> 8) | (w << 24)
  }

  function SubTable(sbox: F.SubstitutionBox, w: word): word {
    Join(sbox(B0(w)) as word, sbox(B1(w)) as word, sbox(B2(w)) as word, sbox(B3(w)) as word)
  }

  function XorRcon(w: word, rcon: byte): word {
    w ^ (rcon as word)
  }

  lemma RotateWordMeaning(w: word)
    ensures Unpack(RotateWord(w)) == F.RotWord(Unpack(w))
  {}

  lemma SubTableMeaning(sbox: F.SubstitutionBox, w: word)
    ensures Unpack(SubTable(sbox, w)) == F.SubWord(sbox, Unpack(w))
  {
    hide Join, B0, B1, B2, B3;
    JoinMeaning(sbox(B0(w)), sbox(B1(w)), sbox(B2(w)), sbox(B3(w)));
  }

  lemma XorRconMeaning(w: word, rcon: byte)
    ensures Unpack(XorRcon(w, rcon)) == F.XorColumn(Unpack(w), F.Column(rcon, 0, 0, 0))
  {}

  lemma XorWordMeaning(a: word, b: word)
    ensures Unpack(XorWord(a, b)) == F.XorColumn(Unpack(a), Unpack(b))
  {
    XorMeaning(a, b);
  }

  ghost predicate Expanded(sbox: F.SubstitutionBox, key: seq<byte>, w: seq<word>, n: nat)
    requires |key| == 32
  {
    n <= |w| && forall j :: 0 <= j < n ==> Unpack(w[j]) == F.KeyWord(sbox, key, j)
  }

  lemma KeyWordRecurrence(sbox: F.SubstitutionBox, key: seq<byte>, i: nat)
    requires |key| == 32 && 8 <= i < 60
    ensures F.KeyWord(sbox, key, i) ==
            F.XorColumn(F.KeyWord(sbox, key, i - 8), F.ScheduleTemp(sbox, F.KeyWord(sbox, key, i - 1), i))
  {}

  /** The expansion loop computes the 60 words of FIPS 197 section 5.2, for every key and every substitution box. */
  method ExpandKey(sbox: F.SubstitutionBox, key: seq<byte>) returns (w: array<word>)
    requires |key| == 32
    ensures fresh(w) && w.Length == 60
    ensures forall j :: 0 <= j < 60 ==> Unpack(w[j]) == F.KeyWord(sbox, key, j)
  {
    hide Unpack, LoadWord, RotateWord, SubTable, XorRcon, XorWord, F.KeyWord, F.SubWord, F.RotWord, F.XorColumn;
    w := new word[60];
    var k: nat := 0;
    while k < 8
      invariant 0 <= k <= 8
      invariant Expanded(sbox, key, w[..], k)
    {
      w[k] := LoadWord(key, k);
      FirstWords(sbox, key, k);
      k := k + 1;
    }
    var i: nat := 8;
    while i < 60
      invariant 8 <= i <= 60
      invariant Expanded(sbox, key, w[..], i)
    {
      var temp := w[i - 1];
      if i % 8 == 0 {
        RotateWordMeaning(temp);
        temp := RotateWord(temp);
        SubTableMeaning(sbox, temp);
        temp := SubTable(sbox, temp);
        RconIsPowersOfX(i / 8 - 1);
        XorRconMeaning(temp, RCON[i / 8 - 1]);
        temp := XorRcon(temp, RCON[i / 8 - 1]);
      } else if i % 8 == 4 {
        SubTableMeaning(sbox, temp);
        temp := SubTable(sbox, temp);
      }
      assert Unpack(temp) == F.ScheduleTemp(sbox, F.KeyWord(sbox, key, i - 1), i);
      KeyWordRecurrence(sbox, key, i);
      XorWordMeaning(w[i - 8], temp);
      w[i] := XorWord(w[i - 8], temp);
      i := i + 1;
    }
  }

  lemma FirstWords(sbox: F.SubstitutionBox, key: seq<byte>, k: nat)
    requires |key| == 32 && k < 8
    ensures Unpack(LoadWord(key, k)) == F.KeyWord(sbox, key, k)
  {}
}
