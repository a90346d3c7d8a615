/** Published AES-256 values: the key expansion of FIPS 197 appendix A.3, and the first block of the counter mode of
    SP 800-38A section F.5.5 with every intermediate state. */
module AesVectors {
  import opened Bytes
  import opened Fips197
  import opened AesCtr
  import opened Counter
  import Sbox

  const KEY: seq<byte> := [0x60, 0x3d, 0xeb, 0x10, 0x15, 0xca, 0x71, 0xbe, 0x2b, 0x73, 0xae, 0xf0,
                           0x85, 0x7d, 0x77, 0x81, 0x1f, 0x35, 0x2c, 0x07, 0x3b, 0x61, 0x08, 0xd7,
                           0x2d, 0x98, 0x10, 0xa3, 0x09, 0x14, 0xdf, 0xf4]

  // A printed word, first byte highest, as a column; four of them as a state.
  function Printed(w: word): Column {
    Column(B3(w), B2(w), B1(w), B0(w))
  }

  function Grid(a: word, b: word, c: word, d: word): State {
    State(Printed(a), Printed(b), Printed(c), Printed(d))
  }

  // ---- Key expansion ----

  predicate Has(w: seq<Column>, i: nat, a: word, b: word, c: word, d: word) {
    i + 4 <= |w| && w[i] == Printed(a) && w[i + 1] == Printed(b) && w[i + 2] == Printed(c) && w[i + 3] == Printed(d)
  }

  // Word i from the word eight back and the one before it.
  predicate Follows(i: nat, back: word, previous: word, next: word)
    requires 8 <= i
  {
    XorColumn(Printed(back), ScheduleTemp(Sbox.SBox, Printed(previous), i)) == Printed(next)
  }

  lemma Four(w: seq<Column>, i: nat, e: word, f: word, g: word, h: word, p: word, q: word, r: word, s: word,
             a: word, b: word, c: word, d: word)
    requires |KEY| == 32 && w == KeyExpansion(Sbox.SBox, KEY) && 8 <= i <= 56
    requires Has(w, i - 8, e, f, g, h) && Has(w, i - 4, p, q, r, s)
    requires Follows(i, e, s, a) && Follows(i + 1, f, a, b) && Follows(i + 2, g, b, c) && Follows(i + 3, h, c, d)
    ensures Has(w, i, a, b, c, d)
  {
    hide Printed, XorColumn, ScheduleTemp, Sbox.SBox;
  }

  lemma Steps8()
    ensures Follows(8, 0x603deb10, 0x0914dff4, 0x9ba35411)
    ensures Follows(9, 0x15ca71be, 0x9ba35411, 0x8e6925af)
  {}

  lemma Steps10()
    ensures Follows(10, 0x2b73aef0, 0x8e6925af, 0xa51a8b5f)
    ensures Follows(11, 0x857d7781, 0xa51a8b5f, 0x2067fcde)
  {}

  lemma Words8(w: seq<Column>)
    requires |KEY| == 32 && w == KeyExpansion(Sbox.SBox, KEY)
    requires Has(w, 0, 0x603deb10, 0x15ca71be, 0x2b73aef0, 0x857d7781)
    requires Has(w, 4, 0x1f352c07, 0x3b6108d7, 0x2d9810a3, 0x0914dff4)
    ensures Has(w, 8, 0x9ba35411, 0x8e6925af, 0xa51a8b5f, 0x2067fcde)
  {
    hide KeyWord, Has, Follows;
    Steps8();
    Steps10();
    Four(w, 8, 0x603deb10, 0x15ca71be, 0x2b73aef0, 0x857d7781, 0x1f352c07, 0x3b6108d7, 0x2d9810a3, 0x0914dff4,
         0x9ba35411, 0x8e6925af, 0xa51a8b5f, 0x2067fcde);
  }

  lemma Steps12()
    ensures Follows(12, 0x1f352c07, 0x2067fcde, 0xa8b09c1a)
    ensures Follows(13, 0x3b6108d7, 0xa8b09c1a, 0x93d194cd)
  {}

  lemma Steps14()
    ensures Follows(14, 0x2d9810a3, 0x93d194cd, 0xbe49846e)
    ensures Follows(15, 0x0914dff4, 0xbe49846e, 0xb75d5b9a)
  {}

  lemma Words12(w: seq<Column>)
    requires |KEY| == 32 && w == KeyExpansion(Sbox.SBox, KEY)
    requires Has(w, 4, 0x1f352c07, 0x3b6108d7, 0x2d9810a3, 0x0914dff4)
    requires Has(w, 8, 0x9ba35411, 0x8e6925af, 0xa51a8b5f, 0x2067fcde)
    ensures Has(w, 12, 0xa8b09c1a, 0x93d194cd, 0xbe49846e, 0xb75d5b9a)
  {
    hide KeyWord, Has, Follows;
    Steps12();
    Steps14();
    Four(w, 12, 0x1f352c07, 0x3b6108d7, 0x2d9810a3, 0x0914dff4, 0x9ba35411, 0x8e6925af, 0xa51a8b5f, 0x2067fcde,
         0xa8b09c1a, 0x93d194cd, 0xbe49846e, 0xb75d5b9a);
  }

  lemma Steps16()
    ensures Follows(16, 0x9ba35411, 0xb75d5b9a, 0xd59aecb8)
    ensures Follows(17, 0x8e6925af, 0xd59aecb8, 0x5bf3c917)
  {}

  lemma Steps18()
    ensures Follows(18, 0xa51a8b5f, 0x5bf3c917, 0xfee94248)
    ensures Follows(19, 0x2067fcde, 0xfee94248, 0xde8ebe96)
  {}

  lemma Words16(w: seq<Column>)
    requires |KEY| == 32 && w == KeyExpansion(Sbox.SBox, KEY)
    requires Has(w, 8, 0x9ba35411, 0x8e6925af, 0xa51a8b5f, 0x2067fcde)
    requires Has(w, 12, 0xa8b09c1a, 0x93d194cd, 0xbe49846e, 0xb75d5b9a)
    ensures Has(w, 16, 0xd59aecb8, 0x5bf3c917, 0xfee94248, 0xde8ebe96)
  {
    hide KeyWord, Has, Follows;
    Steps16();
    Steps18();
    Four(w, 16, 0x9ba35411, 0x8e6925af, 0xa51a8b5f, 0x2067fcde, 0xa8b09c1a, 0x93d194cd, 0xbe49846e, 0xb75d5b9a,
         0xd59aecb8, 0x5bf3c917, 0xfee94248, 0xde8ebe96);
  }

  lemma Steps20()
    ensures Follows(20, 0xa8b09c1a, 0xde8ebe96, 0xb5a9328a)
    ensures Follows(21, 0x93d194cd, 0xb5a9328a, 0x2678a647)
  {}

  lemma Steps22()
    ensures Follows(22, 0xbe49846e, 0x2678a647, 0x98312229)
    ensures Follows(23, 0xb75d5b9a, 0x98312229, 0x2f6c79b3)
  {}

  lemma Words20(w: seq<Column>)
    requires |KEY| == 32 && w == KeyExpansion(Sbox.SBox, KEY)
    requires Has(w, 12, 0xa8b09c1a, 0x93d194cd, 0xbe49846e, 0xb75d5b9a)
    requires Has(w, 16, 0xd59aecb8, 0x5bf3c917, 0xfee94248, 0xde8ebe96)
    ensures Has(w, 20, 0xb5a9328a, 0x2678a647, 0x98312229, 0x2f6c79b3)
  {
    hide KeyWord, Has, Follows;
    Steps20();
    Steps22();
    Four(w, 20, 0xa8b09c1a, 0x93d194cd, 0xbe49846e, 0xb75d5b9a, 0xd59aecb8, 0x5bf3c917, 0xfee94248, 0xde8ebe96,
         0xb5a9328a, 0x2678a647, 0x98312229, 0x2f6c79b3);
  }

  lemma Steps24()
    ensures Follows(24, 0xd59aecb8, 0x2f6c79b3, 0x812c81ad)
    ensures Follows(25, 0x5bf3c917, 0x812c81ad, 0xdadf48ba)
  {}

  lemma Steps26()
    ensures Follows(26, 0xfee94248, 0xdadf48ba, 0x24360af2)
    ensures Follows(27, 0xde8ebe96, 0x24360af2, 0xfab8b464)
  {}

  lemma Words24(w: seq<Column>)
    requires |KEY| == 32 && w == KeyExpansion(Sbox.SBox, KEY)
    requires Has(w, 16, 0xd59aecb8, 0x5bf3c917, 0xfee94248, 0xde8ebe96)
    requires Has(w, 20, 0xb5a9328a, 0x2678a647, 0x98312229, 0x2f6c79b3)
    ensures Has(w, 24, 0x812c81ad, 0xdadf48ba, 0x24360af2, 0xfab8b464)
  {
    hide KeyWord, Has, Follows;
    Steps24();
    Steps26();
    Four(w, 24, 0xd59aecb8, 0x5bf3c917, 0xfee94248, 0xde8ebe96, 0xb5a9328a, 0x2678a647, 0x98312229, 0x2f6c79b3,
         0x812c81ad, 0xdadf48ba, 0x24360af2, 0xfab8b464);
  }

  lemma Steps28()
    ensures Follows(28, 0xb5a9328a, 0xfab8b464, 0x98c5bfc9)
    ensures Follows(29, 0x2678a647, 0x98c5bfc9, 0xbebd198e)
  {}

  lemma Steps30()
    ensures Follows(30, 0x98312229, 0xbebd198e, 0x268c3ba7)
    ensures Follows(31, 0x2f6c79b3, 0x268c3ba7, 0x09e04214)
  {}

  lemma Words28(w: seq<Column>)
    requires |KEY| == 32 && w == KeyExpansion(Sbox.SBox, KEY)
    requires Has(w, 20, 0xb5a9328a, 0x2678a647, 0x98312229, 0x2f6c79b3)
    requires Has(w, 24, 0x812c81ad, 0xdadf48ba, 0x24360af2, 0xfab8b464)
    ensures Has(w, 28, 0x98c5bfc9, 0xbebd198e, 0x268c3ba7, 0x09e04214)
  {
    hide KeyWord, Has, Follows;
    Steps28();
    Steps30();
    Four(w, 28, 0xb5a9328a, 0x2678a647, 0x98312229, 0x2f6c79b3, 0x812c81ad, 0xdadf48ba, 0x24360af2, 0xfab8b464,
         0x98c5bfc9, 0xbebd198e, 0x268c3ba7, 0x09e04214);
  }

  lemma Steps32()
    ensures Follows(32, 0x812c81ad, 0x09e04214, 0x68007bac)
    ensures Follows(33, 0xdadf48ba, 0x68007bac, 0xb2df3316)
  {}

  lemma Steps34()
    ensures Follows(34, 0x24360af2, 0xb2df3316, 0x96e939e4)
    ensures Follows(35, 0xfab8b464, 0x96e939e4, 0x6c518d80)
  {}

  lemma Words32(w: seq<Column>)
    requires |KEY| == 32 && w == KeyExpansion(Sbox.SBox, KEY)
    requires Has(w, 24, 0x812c81ad, 0xdadf48ba, 0x24360af2, 0xfab8b464)
    requires Has(w, 28, 0x98c5bfc9, 0xbebd198e, 0x268c3ba7, 0x09e04214)
    ensures Has(w, 32, 0x68007bac, 0xb2df3316, 0x96e939e4, 0x6c518d80)
  {
    hide KeyWord, Has, Follows;
    Steps32();
    Steps34();
    Four(w, 32, 0x812c81ad, 0xdadf48ba, 0x24360af2, 0xfab8b464, 0x98c5bfc9, 0xbebd198e, 0x268c3ba7, 0x09e04214,
         0x68007bac, 0xb2df3316, 0x96e939e4, 0x6c518d80);
  }

  lemma Steps36()
    ensures Follows(36, 0x98c5bfc9, 0x6c518d80, 0xc814e204)
    ensures Follows(37, 0xbebd198e, 0xc814e204, 0x76a9fb8a)
  {}

  lemma Steps38()
    ensures Follows(38, 0x268c3ba7, 0x76a9fb8a, 0x5025c02d)
    ensures Follows(39, 0x09e04214, 0x5025c02d, 0x59c58239)
  {}

  lemma Words36(w: seq<Column>)
    requires |KEY| == 32 && w == KeyExpansion(Sbox.SBox, KEY)
    requires Has(w, 28, 0x98c5bfc9, 0xbebd198e, 0x268c3ba7, 0x09e04214)
    requires Has(w, 32, 0x68007bac, 0xb2df3316, 0x96e939e4, 0x6c518d80)
    ensures Has(w, 36, 0xc814e204, 0x76a9fb8a, 0x5025c02d, 0x59c58239)
  {
    hide KeyWord, Has, Follows;
    Steps36();
    Steps38();
    Four(w, 36, 0x98c5bfc9, 0xbebd198e, 0x268c3ba7, 0x09e04214, 0x68007bac, 0xb2df3316, 0x96e939e4, 0x6c518d80,
         0xc814e204, 0x76a9fb8a, 0x5025c02d, 0x59c58239);
  }

  lemma Steps40()
    ensures Follows(40, 0x68007bac, 0x59c58239, 0xde136967)
    ensures Follows(41, 0xb2df3316, 0xde136967, 0x6ccc5a71)
  {}

  lemma Steps42()
    ensures Follows(42, 0x96e939e4, 0x6ccc5a71, 0xfa256395)
    ensures Follows(43, 0x6c518d80, 0xfa256395, 0x9674ee15)
  {}

  lemma Words40(w: seq<Column>)
    requires |KEY| == 32 && w == KeyExpansion(Sbox.SBox, KEY)
    requires Has(w, 32, 0x68007bac, 0xb2df3316, 0x96e939e4, 0x6c518d80)
    requires Has(w, 36, 0xc814e204, 0x76a9fb8a, 0x5025c02d, 0x59c58239)
    ensures Has(w, 40, 0xde136967, 0x6ccc5a71, 0xfa256395, 0x9674ee15)
  {
    hide KeyWord, Has, Follows;
    Steps40();
    Steps42();
    Four(w, 40, 0x68007bac, 0xb2df3316, 0x96e939e4, 0x6c518d80, 0xc814e204, 0x76a9fb8a, 0x5025c02d, 0x59c58239,
         0xde136967, 0x6ccc5a71, 0xfa256395, 0x9674ee15);
  }

  lemma Steps44()
    ensures Follows(44, 0xc814e204, 0x9674ee15, 0x5886ca5d)
    ensures Follows(45, 0x76a9fb8a, 0x5886ca5d, 0x2e2f31d7)
  {}

  lemma Steps46()
    ensures Follows(46, 0x5025c02d, 0x2e2f31d7, 0x7e0af1fa)
    ensures Follows(47, 0x59c58239, 0x7e0af1fa, 0x27cf73c3)
  {}

  lemma Words44(w: seq<Column>)
    requires |KEY| == 32 && w == KeyExpansion(Sbox.SBox, KEY)
    requires Has(w, 36, 0xc814e204, 0x76a9fb8a, 0x5025c02d, 0x59c58239)
    requires Has(w, 40, 0xde136967, 0x6ccc5a71, 0xfa256395, 0x9674ee15)
    ensures Has(w, 44, 0x5886ca5d, 0x2e2f31d7, 0x7e0af1fa, 0x27cf73c3)
  {
    hide KeyWord, Has, Follows;
    Steps44();
    Steps46();
    Four(w, 44, 0xc814e204, 0x76a9fb8a, 0x5025c02d, 0x59c58239, 0xde136967, 0x6ccc5a71, 0xfa256395, 0x9674ee15,
         0x5886ca5d, 0x2e2f31d7, 0x7e0af1fa, 0x27cf73c3);
  }

  lemma Steps48()
    ensures Follows(48, 0xde136967, 0x27cf73c3, 0x749c47ab)
    ensures Follows(49, 0x6ccc5a71, 0x749c47ab, 0x18501dda)
  {}

  lemma Steps50()
    ensures Follows(50, 0xfa256395, 0x18501dda, 0xe2757e4f)
    ensures Follows(51, 0x9674ee15, 0xe2757e4f, 0x7401905a)
  {}

  lemma Words48(w: seq<Column>)
    requires |KEY| == 32 && w == KeyExpansion(Sbox.SBox, KEY)
    requires Has(w, 40, 0xde136967, 0x6ccc5a71, 0xfa256395, 0x9674ee15)
    requires Has(w, 44, 0x5886ca5d, 0x2e2f31d7, 0x7e0af1fa, 0x27cf73c3)
    ensures Has(w, 48, 0x749c47ab, 0x18501dda, 0xe2757e4f, 0x7401905a)
  {
    hide KeyWord, Has, Follows;
    Steps48();
    Steps50();
    Four(w, 48, 0xde136967, 0x6ccc5a71, 0xfa256395, 0x9674ee15, 0x5886ca5d, 0x2e2f31d7, 0x7e0af1fa, 0x27cf73c3,
         0x749c47ab, 0x18501dda, 0xe2757e4f, 0x7401905a);
  }

  lemma Steps52()
    ensures Follows(52, 0x5886ca5d, 0x7401905a, 0xcafaaae3)
    ensures Follows(53, 0x2e2f31d7, 0xcafaaae3, 0xe4d59b34)
  {}

  lemma Steps54()
    ensures Follows(54, 0x7e0af1fa, 0xe4d59b34, 0x9adf6ace)
    ensures Follows(55, 0x27cf73c3, 0x9adf6ace, 0xbd10190d)
  {}

  lemma Words52(w: seq<Column>)
    requires |KEY| == 32 && w == KeyExpansion(Sbox.SBox, KEY)
    requires Has(w, 44, 0x5886ca5d, 0x2e2f31d7, 0x7e0af1fa, 0x27cf73c3)
    requires Has(w, 48, 0x749c47ab, 0x18501dda, 0xe2757e4f, 0x7401905a)
    ensures Has(w, 52, 0xcafaaae3, 0xe4d59b34, 0x9adf6ace, 0xbd10190d)
  {
    hide KeyWord, Has, Follows;
    Steps52();
    Steps54();
    Four(w, 52, 0x5886ca5d, 0x2e2f31d7, 0x7e0af1fa, 0x27cf73c3, 0x749c47ab, 0x18501dda, 0xe2757e4f, 0x7401905a,
         0xcafaaae3, 0xe4d59b34, 0x9adf6ace, 0xbd10190d);
  }

  lemma Steps56()
    ensures Follows(56, 0x749c47ab, 0xbd10190d, 0xfe4890d1)
    ensures Follows(57, 0x18501dda, 0xfe4890d1, 0xe6188d0b)
  {}

  lemma Steps58()
    ensures Follows(58, 0xe2757e4f, 0xe6188d0b, 0x046df344)
    ensures Follows(59, 0x7401905a, 0x046df344, 0x706c631e)
  {}

  lemma Words56(w: seq<Column>)
    requires |KEY| == 32 && w == KeyExpansion(Sbox.SBox, KEY)
    requires Has(w, 48, 0x749c47ab, 0x18501dda, 0xe2757e4f, 0x7401905a)
    requires Has(w, 52, 0xcafaaae3, 0xe4d59b34, 0x9adf6ace, 0xbd10190d)
    ensures Has(w, 56, 0xfe4890d1, 0xe6188d0b, 0x046df344, 0x706c631e)
  {
    hide KeyWord, Has, Follows;
    Steps56();
    Steps58();
    Four(w, 56, 0x749c47ab, 0x18501dda, 0xe2757e4f, 0x7401905a, 0xcafaaae3, 0xe4d59b34, 0x9adf6ace, 0xbd10190d,
         0xfe4890d1, 0xe6188d0b, 0x046df344, 0x706c631e);
  }

  lemma FirstWords(w: seq<Column>)
    requires |KEY| == 32 && w == KeyExpansion(Sbox.SBox, KEY)
    ensures Has(w, 0, 0x603deb10, 0x15ca71be, 0x2b73aef0, 0x857d7781)
  {}

  lemma SecondWords(w: seq<Column>)
    requires |KEY| == 32 && w == KeyExpansion(Sbox.SBox, KEY)
    ensures Has(w, 4, 0x1f352c07, 0x3b6108d7, 0x2d9810a3, 0x0914dff4)
  {}

  /** The key expansion of appendix A.3, word for word. */
  lemma ScheduleIsPublished()
    ensures |KEY| == 32
    ensures var w := KeyExpansion(Sbox.SBox, KEY);
            && Has(w, 0, 0x603deb10, 0x15ca71be, 0x2b73aef0, 0x857d7781)
            && Has(w, 4, 0x1f352c07, 0x3b6108d7, 0x2d9810a3, 0x0914dff4)
            && Has(w, 8, 0x9ba35411, 0x8e6925af, 0xa51a8b5f, 0x2067fcde)
            && Has(w, 12, 0xa8b09c1a, 0x93d194cd, 0xbe49846e, 0xb75d5b9a)
            && Has(w, 16, 0xd59aecb8, 0x5bf3c917, 0xfee94248, 0xde8ebe96)
            && Has(w, 20, 0xb5a9328a, 0x2678a647, 0x98312229, 0x2f6c79b3)
            && Has(w, 24, 0x812c81ad, 0xdadf48ba, 0x24360af2, 0xfab8b464)
            && Has(w, 28, 0x98c5bfc9, 0xbebd198e, 0x268c3ba7, 0x09e04214)
            && Has(w, 32, 0x68007bac, 0xb2df3316, 0x96e939e4, 0x6c518d80)
            && Has(w, 36, 0xc814e204, 0x76a9fb8a, 0x5025c02d, 0x59c58239)
            && Has(w, 40, 0xde136967, 0x6ccc5a71, 0xfa256395, 0x9674ee15)
            && Has(w, 44, 0x5886ca5d, 0x2e2f31d7, 0x7e0af1fa, 0x27cf73c3)
            && Has(w, 48, 0x749c47ab, 0x18501dda, 0xe2757e4f, 0x7401905a)
            && Has(w, 52, 0xcafaaae3, 0xe4d59b34, 0x9adf6ace, 0xbd10190d)
            && Has(w, 56, 0xfe4890d1, 0xe6188d0b, 0x046df344, 0x706c631e)
  {
    hide Has, KeyExpansion, Sbox.SBox;
    var w := KeyExpansion(Sbox.SBox, KEY);
    FirstWords(w);
    SecondWords(w);
    Words8(w);
    Words12(w);
    Words16(w);
    Words20(w);
    Words24(w);
    Words28(w);
    Words32(w);
    Words36(w);
    Words40(w);
    Words44(w);
    Words48(w);
    Words52(w);
    Words56(w);
  }

  // ---- The rounds ----

  predicate Goes(s: State, a: word, b: word, c: word, d: word, t: State) {
    var mixed := MixColumns(ShiftRows(SubBytes(Sbox.SBox, s)));
    AddRoundKey(mixed, [Printed(a), Printed(b), Printed(c), Printed(d)], 0) == t
  }

  lemma NextRound(w: seq<Column>, block: State, r: nat, s: State, a: word, b: word, c: word, d: word, t: State)
    requires |w| == 60 && 0 < r < 14 && Has(w, 4 * r, a, b, c, d)
    requires Rounds(Sbox.SBox, w, block, r - 1) == s && Goes(s, a, b, c, d, t)
    ensures Rounds(Sbox.SBox, w, block, r) == t
  {
    hide Printed, XorColumn, SubBytes, ShiftRows, MixColumns, Sbox.SBox;
  }

  lemma Block1Round1()
    ensures Goes(Grid(0x90cc19e3, 0xe13f8749, 0xd38a540b, 0x7980897e), 0x1f352c07, 0x3b6108d7, 0x2d9810a3, 0x0914dff4,
                 Grid(0x932c770f, 0xe486e83f, 0x42234566, 0x9f26713f))
  {}

  lemma Block1Round2()
    ensures Goes(Grid(0x932c770f, 0xe486e83f, 0x42234566, 0x9f26713f), 0x9ba35411, 0x8e6925af, 0xa51a8b5f, 0x2067fcde,
                 Grid(0xef308fae, 0xe3c4ad7d, 0x7fb23ec3, 0xb6db2e24))
  {}

  lemma Block1Round3()
    ensures Goes(Grid(0xef308fae, 0xe3c4ad7d, 0x7fb23ec3, 0xb6db2e24), 0xa8b09c1a, 0x93d194cd, 0xbe49846e, 0xb75d5b9a,
                 Grid(0xadac7aa2, 0x3d19e72b, 0x5d98132c, 0x9c915285))
  {}

  lemma Block1Round4()
    ensures Goes(Grid(0xadac7aa2, 0x3d19e72b, 0x5d98132c, 0x9c915285), 0xd59aecb8, 0x5bf3c917, 0xfee94248, 0xde8ebe96,
                 Grid(0x69acf580, 0xe562e64c, 0xd538283e, 0x34bf5108))
  {}

  lemma Block1Round5()
    ensures Goes(Grid(0x69acf580, 0xe562e64c, 0xd538283e, 0x34bf5108), 0xb5a9328a, 0x2678a647, 0x98312229, 0x2f6c79b3,
                 Grid(0xbd735964, 0x9a0a8d60, 0x493a8590, 0x8b763afb))
  {}

  lemma Block1Round6()
    ensures Goes(Grid(0xbd735964, 0x9a0a8d60, 0x493a8590, 0x8b763afb), 0x812c81ad, 0xdadf48ba, 0x24360af2, 0xfab8b464,
                 Grid(0x4435b8cd, 0xe9a4aeef, 0x01ebeff7, 0x37071c31))
  {}

  lemma Block1Round7()
    ensures Goes(Grid(0x4435b8cd, 0xe9a4aeef, 0x01ebeff7, 0x37071c31), 0x98c5bfc9, 0xbebd198e, 0x268c3ba7, 0x09e04214,
                 Grid(0x6df11ae7, 0x836811b8, 0x390a202f, 0x0b122503))
  {}

  lemma Block1Round8()
    ensures Goes(Grid(0x6df11ae7, 0x836811b8, 0x390a202f, 0x0b122503), 0x68007bac, 0xb2df3316, 0x96e939e4, 0x6c518d80,
                 Grid(0x130ffaec, 0x73286152, 0x3ce30961, 0x55ab27f4))
  {}

  lemma Block1Round9()
    ensures Goes(Grid(0x130ffaec, 0x73286152, 0x3ce30961, 0x55ab27f4), 0xc814e204, 0x76a9fb8a, 0x5025c02d, 0x59c58239,
                 Grid(0xd0bd73d3, 0x4285af5a, 0x167d1344, 0x2010e77a))
  {}

  lemma Block1Round10()
    ensures Goes(Grid(0xd0bd73d3, 0x4285af5a, 0x167d1344, 0x2010e77a), 0xde136967, 0x6ccc5a71, 0xfa256395, 0x9674ee15,
                 Grid(0x3b0b01b2, 0xdcc410a2, 0x00d9327e, 0x0fa7fce2))
  {}

  lemma Block1Round11()
    ensures Goes(Grid(0x3b0b01b2, 0xdcc410a2, 0x00d9327e, 0x0fa7fce2), 0x5886ca5d, 0x2e2f31d7, 0x7e0af1fa, 0x27cf73c3,
                 Grid(0x18a1c174, 0xe13fa0ad, 0x1a6f780b, 0x8f59af45))
  {}

  lemma Block1Round12()
    ensures Goes(Grid(0x18a1c174, 0xe13fa0ad, 0x1a6f780b, 0x8f59af45), 0x749c47ab, 0x18501dda, 0xe2757e4f, 0x7401905a,
                 Grid(0x786a4e52, 0xfbfa1227, 0x16474330, 0x0f06774b))
  {}

  lemma Block1Round13()
    ensures Goes(Grid(0x786a4e52, 0xfbfa1227, 0x16474330, 0x0f06774b), 0xcafaaae3, 0xe4d59b34, 0x9adf6ace, 0xbd10190d,
                 Grid(0x7781c176, 0xf485c570, 0x46fb53c4, 0x9a26e854))
  {}

  lemma Block1Starts()
    ensures AddRoundKey(Grid(0xf0f1f2f3, 0xf4f5f6f7, 0xf8f9fafb, 0xfcfdfeff),
                        [Printed(0x603deb10), Printed(0x15ca71be), Printed(0x2b73aef0), Printed(0x857d7781)], 0) ==
            Grid(0x90cc19e3, 0xe13f8749, 0xd38a540b, 0x7980897e)
  {}

  lemma Block1Ends()
    ensures AddRoundKey(ShiftRows(SubBytes(Sbox.SBox, Grid(0x7781c176, 0xf485c570, 0x46fb53c4, 0x9a26e854))),
                        [Printed(0xfe4890d1), Printed(0xe6188d0b), Printed(0x046df344), Printed(0x706c631e)], 0) ==
            Grid(0x0bdf7df1, 0x59171633, 0x5e9a8b15, 0xc860c502)
  {}

  lemma Block1(w: seq<Column>)
    requires |w| == 60
    requires |KEY| == 32 && w == KeyExpansion(Sbox.SBox, KEY)
    ensures Cipher(Sbox.SBox, w, 14, Grid(0xf0f1f2f3, 0xf4f5f6f7, 0xf8f9fafb, 0xfcfdfeff)) ==
            Grid(0x0bdf7df1, 0x59171633, 0x5e9a8b15, 0xc860c502)
  {
    hide Printed, XorColumn, SubBytes, ShiftRows, MixColumns, Sbox.SBox, KeyExpansion, Goes, Has, Rounds, Grid;
    ScheduleIsPublished();
    var block := Grid(0xf0f1f2f3, 0xf4f5f6f7, 0xf8f9fafb, 0xfcfdfeff);
    Block1Starts();
    Block1Ends();
    FirstState(w, block, 0x603deb10, 0x15ca71be, 0x2b73aef0, 0x857d7781,
               Grid(0x90cc19e3, 0xe13f8749, 0xd38a540b, 0x7980897e));
    Block1Round1();
    NextRound(w, block, 1, Grid(0x90cc19e3, 0xe13f8749, 0xd38a540b, 0x7980897e),
              0x1f352c07, 0x3b6108d7, 0x2d9810a3, 0x0914dff4, Grid(0x932c770f, 0xe486e83f, 0x42234566, 0x9f26713f));
    Block1Round2();
    NextRound(w, block, 2, Grid(0x932c770f, 0xe486e83f, 0x42234566, 0x9f26713f),
              0x9ba35411, 0x8e6925af, 0xa51a8b5f, 0x2067fcde, Grid(0xef308fae, 0xe3c4ad7d, 0x7fb23ec3, 0xb6db2e24));
    Block1Round3();
    NextRound(w, block, 3, Grid(0xef308fae, 0xe3c4ad7d, 0x7fb23ec3, 0xb6db2e24),
              0xa8b09c1a, 0x93d194cd, 0xbe49846e, 0xb75d5b9a, Grid(0xadac7aa2, 0x3d19e72b, 0x5d98132c, 0x9c915285));
    Block1Round4();
    NextRound(w, block, 4, Grid(0xadac7aa2, 0x3d19e72b, 0x5d98132c, 0x9c915285),
              0xd59aecb8, 0x5bf3c917, 0xfee94248, 0xde8ebe96, Grid(0x69acf580, 0xe562e64c, 0xd538283e, 0x34bf5108));
    Block1Round5();
    NextRound(w, block, 5, Grid(0x69acf580, 0xe562e64c, 0xd538283e, 0x34bf5108),
              0xb5a9328a, 0x2678a647, 0x98312229, 0x2f6c79b3, Grid(0xbd735964, 0x9a0a8d60, 0x493a8590, 0x8b763afb));
    Block1Round6();
    NextRound(w, block, 6, Grid(0xbd735964, 0x9a0a8d60, 0x493a8590, 0x8b763afb),
              0x812c81ad, 0xdadf48ba, 0x24360af2, 0xfab8b464, Grid(0x4435b8cd, 0xe9a4aeef, 0x01ebeff7, 0x37071c31));
    Block1Round7();
    NextRound(w, block, 7, Grid(0x4435b8cd, 0xe9a4aeef, 0x01ebeff7, 0x37071c31),
              0x98c5bfc9, 0xbebd198e, 0x268c3ba7, 0x09e04214, Grid(0x6df11ae7, 0x836811b8, 0x390a202f, 0x0b122503));
    Block1Round8();
    NextRound(w, block, 8, Grid(0x6df11ae7, 0x836811b8, 0x390a202f, 0x0b122503),
              0x68007bac, 0xb2df3316, 0x96e939e4, 0x6c518d80, Grid(0x130ffaec, 0x73286152, 0x3ce30961, 0x55ab27f4));
    Block1Round9();
    NextRound(w, block, 9, Grid(0x130ffaec, 0x73286152, 0x3ce30961, 0x55ab27f4),
              0xc814e204, 0x76a9fb8a, 0x5025c02d, 0x59c58239, Grid(0xd0bd73d3, 0x4285af5a, 0x167d1344, 0x2010e77a));
    Block1Round10();
    NextRound(w, block, 10, Grid(0xd0bd73d3, 0x4285af5a, 0x167d1344, 0x2010e77a),
              0xde136967, 0x6ccc5a71, 0xfa256395, 0x9674ee15, Grid(0x3b0b01b2, 0xdcc410a2, 0x00d9327e, 0x0fa7fce2));
    Block1Round11();
    NextRound(w, block, 11, Grid(0x3b0b01b2, 0xdcc410a2, 0x00d9327e, 0x0fa7fce2),
              0x5886ca5d, 0x2e2f31d7, 0x7e0af1fa, 0x27cf73c3, Grid(0x18a1c174, 0xe13fa0ad, 0x1a6f780b, 0x8f59af45));
    Block1Round12();
    NextRound(w, block, 12, Grid(0x18a1c174, 0xe13fa0ad, 0x1a6f780b, 0x8f59af45),
              0x749c47ab, 0x18501dda, 0xe2757e4f, 0x7401905a, Grid(0x786a4e52, 0xfbfa1227, 0x16474330, 0x0f06774b));
    Block1Round13();
    NextRound(w, block, 13, Grid(0x786a4e52, 0xfbfa1227, 0x16474330, 0x0f06774b),
              0xcafaaae3, 0xe4d59b34, 0x9adf6ace, 0xbd10190d, Grid(0x7781c176, 0xf485c570, 0x46fb53c4, 0x9a26e854));
    LastRound(w, block, Grid(0x7781c176, 0xf485c570, 0x46fb53c4, 0x9a26e854),
              0xfe4890d1, 0xe6188d0b, 0x046df344, 0x706c631e, Grid(0x0bdf7df1, 0x59171633, 0x5e9a8b15, 0xc860c502));
  }

  lemma FirstState(w: seq<Column>, block: State, a: word, b: word, c: word, d: word, t: State)
    requires |w| == 60 && Has(w, 0, a, b, c, d)
    requires AddRoundKey(block, [Printed(a), Printed(b), Printed(c), Printed(d)], 0) == t
    ensures Rounds(Sbox.SBox, w, block, 0) == t
  {
    hide Printed, XorColumn, Sbox.SBox;
  }

  lemma LastRound(w: seq<Column>, block: State, s: State, a: word, b: word, c: word, d: word, t: State)
    requires |w| == 60 && Has(w, 56, a, b, c, d) && Rounds(Sbox.SBox, w, block, 13) == s
    requires AddRoundKey(ShiftRows(SubBytes(Sbox.SBox, s)), [Printed(a), Printed(b), Printed(c), Printed(d)], 0) == t
    ensures Cipher(Sbox.SBox, w, 14, block) == t
  {
    hide Printed, XorColumn, SubBytes, ShiftRows, Rounds, Sbox.SBox;
  }

  // ---- Counter mode ----

  const COUNTER: seq<byte> := [0xf0, 0xf1, 0xf2, 0xf3, 0xf4, 0xf5, 0xf6, 0xf7, 0xf8, 0xf9, 0xfa, 0xfb,
                           0xfc, 0xfd, 0xfe, 0xff]
  const PLAIN: seq<byte> := [0x6b, 0xc1, 0xbe, 0xe2, 0x2e, 0x40, 0x9f, 0x96, 0xe9, 0x3d, 0x7e, 0x11,
                           0x73, 0x93, 0x17, 0x2a]
  const CIPHER: seq<byte> := [0x60, 0x1e, 0xc3, 0x13, 0x77, 0x57, 0x89, 0xa5, 0xb7, 0xa7, 0xf5, 0x04,
                           0xbb, 0xf3, 0xd2, 0x28]
  const OUTPUT: seq<byte> := [0x0b, 0xdf, 0x7d, 0xf1, 0x59, 0x17, 0x16, 0x33, 0x5e, 0x9a, 0x8b, 0x15,
                           0xc8, 0x60, 0xc5, 0x02]

  lemma CounterState()
    ensures |COUNTER| == 16 && BlockState(COUNTER) == Grid(0xf0f1f2f3, 0xf4f5f6f7, 0xf8f9fafb, 0xfcfdfeff)
  {}

  lemma OutputBytes()
    ensures StateBytes(Grid(0x0bdf7df1, 0x59171633, 0x5e9a8b15, 0xc860c502)) == OUTPUT
  {}

  lemma OutputBlock()
    ensures |KEY| == 32 && |COUNTER| == 16 && EncryptBlock(KEY, COUNTER) == OUTPUT
  {
    hide Cipher, KeyExpansion, StateBytes, BlockState, Grid, Sbox.SBox;
    CounterState();
    OutputBytes();
    ScheduleIsPublished();
    Block1(KeyExpansion(Sbox.SBox, KEY));
  }

  predicate Masks(i: nat) {
    i < |PLAIN| == |CIPHER| == |OUTPUT| && XorByte(PLAIN[i], OUTPUT[i]) == CIPHER[i]
  }

  lemma Masked0()
    ensures Masks(0) && Masks(1) && Masks(2) && Masks(3)
  {}

  lemma Masked4()
    ensures Masks(4) && Masks(5) && Masks(6) && Masks(7)
  {}

  lemma Masked8()
    ensures Masks(8) && Masks(9) && Masks(10) && Masks(11)
  {}

  lemma Masked12()
    ensures Masks(12) && Masks(13) && Masks(14) && Masks(15) && |PLAIN| == 16
  {}

  lemma Masked(i: nat)
    requires i < 16
    ensures Masks(i)
  {
    hide Masks;
    Masked0();
    Masked4();
    Masked8();
    Masked12();
  }

  /** The first block of section F.5.5. */
  lemma CounterModeIsPublished()
    ensures |KEY| == 32 && |COUNTER| == 16 && CtrEncrypt(KEY, COUNTER, PLAIN) == CIPHER
  {
    hide EncryptBlock, Advance, XorByte;
    OutputBlock();
    Masked12();
    AdvanceZero(COUNTER);
    forall i | 0 <= i < 16
      ensures CtrEncrypt(KEY, COUNTER, PLAIN)[i] == CIPHER[i]
    {
      Masked(i);
    }
  }
}
