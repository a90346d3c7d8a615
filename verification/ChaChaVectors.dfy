/** Published ChaCha20 values: the block of RFC 8439 section 2.3.2, with the state after every double round. */
module ChaChaVectors {
  import opened Bytes
  import opened Words
  import opened Rfc8439

  const KEY: seq<byte> := [0x00, 0x01, 0x02, 0x03, 0x04, 0x05, 0x06, 0x07, 0x08, 0x09, 0x0a, 0x0b,
                           0x0c, 0x0d, 0x0e, 0x0f, 0x10, 0x11, 0x12, 0x13, 0x14, 0x15, 0x16, 0x17,
                           0x18, 0x19, 0x1a, 0x1b, 0x1c, 0x1d, 0x1e, 0x1f]
  // Counter one, then the nonce.
  const IV: seq<byte> := [0x01, 0x00, 0x00, 0x00, 0x00, 0x00, 0x00, 0x09, 0x00, 0x00, 0x00, 0x4a,
                          0x00, 0x00, 0x00, 0x00]

  // After no round.
  function After0(): Columns {
    Columns(Quad(0x61707865, 0x03020100, 0x13121110, 0x00000001), Quad(0x3320646e, 0x07060504, 0x17161514, 0x09000000),
            Quad(0x79622d32, 0x0b0a0908, 0x1b1a1918, 0x4a000000), Quad(0x6b206574, 0x0f0e0d0c, 0x1f1e1d1c, 0x00000000))
  }

  // After 1 double round.
  function After1(): Columns {
    Columns(Quad(0xcd52e917, 0xc4b7cd22, 0x7bf7d740, 0x6b0d58a3), Quad(0x85ab03b4, 0x5c2e187a, 0x7eddd644, 0x6798471a),
            Quad(0xb3457395, 0xc95eb461, 0xf1a1bdf5, 0xd737f167), Quad(0xf96de7dd, 0x316c801a, 0x761246ca, 0xf173888d))
  }

  // After 2 double rounds.
  function After2(): Columns {
    Columns(Quad(0xcf1a7584, 0x901d2f40, 0x2dafb216, 0x10aef18d), Quad(0x048927ec, 0x7974b81c, 0x27c89cd6, 0x16218765),
            Quad(0x54051fda, 0x378dcfb4, 0xcd3c9aa0, 0x68f76705), Quad(0xc244ff28, 0xcd47fd0e, 0x79fc89c7, 0x04d6ee22))
  }

  // After 3 double rounds.
  function After3(): Columns {
    Columns(Quad(0x03a14032, 0xa7143ae0, 0xc90c6b18, 0xba35d777), Quad(0x66b15927, 0xa09b33dd, 0x5a202413, 0xb360f1bf),
            Quad(0x9d6b6b42, 0xa5daaf88, 0xc20e01b6, 0x8178315b), Quad(0xb84c4109, 0x2fd91a73, 0x72cd6b74, 0x2cd11b1a))
  }

  // After 4 double rounds.
  function After4(): Columns {
    Columns(Quad(0x9a2d3589, 0x0a1bffc6, 0xe46c6354, 0x2687d476), Quad(0x0b23fc4e, 0x5e5993f7, 0xc9503229, 0x54e65231),
            Quad(0x40af3b6b, 0x9904c2e7, 0x04fef5aa, 0x3594ffc5), Quad(0xceea8144, 0x0d334718, 0xf8933f72, 0x2b3bb2ca))
  }

  // After 5 double rounds.
  function After5(): Columns {
    Columns(Quad(0xc53318c5, 0x26d7cf73, 0xae2ca8db, 0x9e5ec228), Quad(0xca325d96, 0x6088d379, 0x42f67c72, 0x7d85a9f3),
            Quad(0x7e7d11cb, 0xc0f0e9bd, 0x71669aca, 0x201d0756), Quad(0x3404e2ca, 0xe310cdb9, 0x975c171d, 0x63fa6953))
  }

  // After 6 double rounds.
  function After6(): Columns {
    Columns(Quad(0x04a3131a, 0x36cc86c7, 0x07d13aca, 0x33b6686d), Quad(0x66176309, 0xbf8a4465, 0xeb0be9af, 0x795cc671),
            Quad(0x0415bab1, 0xf77dd720, 0x61599491, 0xc0049972), Quad(0x61b880a2, 0xfc0bdc90, 0x918512dc, 0xa0a81bde))
  }

  // After 7 double rounds.
  function After7(): Columns {
    Columns(Quad(0x9b70f51f, 0x93b08686, 0xd839165e, 0xa609f555), Quad(0x7ea8ac11, 0x6a4c50ae, 0x4c06e28a, 0x2c246549),
            Quad(0x21e54da9, 0x19212a5a, 0xd3fde99e, 0x95151853), Quad(0xca393b2f, 0x9b032958, 0x26acc13d, 0x2c847a0d))
  }

  // After 8 double rounds.
  function After8(): Columns {
    Columns(Quad(0xca5c85dd, 0x982563f8, 0x1c25931a, 0xa9b751fb), Quad(0x93a4f90e, 0x712aa9ff, 0x5180bb10, 0x382f3ce2),
            Quad(0xd9f0df58, 0x279a61e8, 0x779c27e7, 0x8db1757d), Quad(0x26dd82dd, 0x970f72bd, 0x54077e08, 0xcc38080b))
  }

  // After 9 double rounds.
  function After9(): Columns {
    Columns(Quad(0xb6b87de6, 0xdc33c122, 0x28c1fcb3, 0x21078b22), Quad(0x9a016148, 0x98e18fa3, 0xc4b38f9d, 0xb193e7a3),
            Quad(0x93859815, 0x5ffbe8fc, 0x83e2f5d7, 0xb2f49389), Quad(0x4915e6cc, 0xf7154b8b, 0x7d24b98b, 0x6cde6026))
  }

  // After 10 double rounds.
  function After10(): Columns {
    Columns(Quad(0x837778ab, 0xc4f2d0c7, 0x335271c2, 0xd19c12b4), Quad(0xe238d763, 0xfc62bb2f, 0xf29489f3, 0xb04e16de),
            Quad(0xa67ae21e, 0x8fa018fc, 0xeabda8fc, 0x9e83d0cb), Quad(0x5950bb2f, 0x3f5ec7b7, 0x82e46ebd, 0x4e3c50a2))
  }

  // The block.
  function Block(): Columns {
    Columns(Quad(0xe4e7f110, 0xc7f4d1c7, 0x466482d2, 0xd19c12b5), Quad(0x15593bd1, 0x0368c033, 0x09aa9f07, 0xb94e16de),
            Quad(0x1fdd0f50, 0x9aaa2204, 0x05d7c214, 0xe883d0cb), Quad(0xc47120a3, 0x4e6cd4c3, 0xa2028bd9, 0x4e3c50a2))
  }

  predicate Goes(g: Columns, h: Columns) {
    TurnedBack(Quarters(Turned(Quarters(g)))) == h
  }

  lemma Double1()
    ensures Goes(After0(), After1())
  {}

  lemma Double2()
    ensures Goes(After1(), After2())
  {}

  lemma Double3()
    ensures Goes(After2(), After3())
  {}

  lemma Double4()
    ensures Goes(After3(), After4())
  {}

  lemma Double5()
    ensures Goes(After4(), After5())
  {}

  lemma Double6()
    ensures Goes(After5(), After6())
  {}

  lemma Double7()
    ensures Goes(After6(), After7())
  {}

  lemma Double8()
    ensures Goes(After7(), After8())
  {}

  lemma Double9()
    ensures Goes(After8(), After9())
  {}

  lemma Double10()
    ensures Goes(After9(), After10())
  {}

  lemma NextDouble(s: seq<word>, n: nat, g: Columns, h: Columns)
    requires |s| == 16 && Lists(DoubleRounds(s, n), g) && Goes(g, h)
    ensures Lists(DoubleRounds(s, n + 1), h)
  {
    hide Lists, Quarters, Turned, TurnedBack, ColumnRounds, DiagonalRounds;
    DoubleRoundIsQuarters(DoubleRounds(s, n), g);
  }

  lemma TenDouble(s: seq<word>)
    requires |s| == 16 && Lists(s, After0())
    ensures Lists(DoubleRounds(s, 10), After10())
  {
    hide Lists, Goes, DoubleRounds, After0, After1, After2, After3, After4, After5, After6, After7, After8, After9,
         After10;
    NoRounds(s);
    Double1();
    NextDouble(s, 0, After0(), After1());
    Double2();
    NextDouble(s, 1, After1(), After2());
    Double3();
    NextDouble(s, 2, After2(), After3());
    Double4();
    NextDouble(s, 3, After3(), After4());
    Double5();
    NextDouble(s, 4, After4(), After5());
    Double6();
    NextDouble(s, 5, After5(), After6());
    Double7();
    NextDouble(s, 6, After6(), After7());
    Double8();
    NextDouble(s, 7, After7(), After8());
    Double9();
    NextDouble(s, 8, After8(), After9());
    Double10();
    NextDouble(s, 9, After9(), After10());
  }

  lemma NoRounds(s: seq<word>)
    requires |s| == 16
    ensures DoubleRounds(s, 0) == s
  {}

  function AddedQuads(p: Quad, q: Quad): Quad {
    Quad(Add32(p.a, q.a), Add32(p.b, q.b), Add32(p.c, q.c), Add32(p.d, q.d))
  }

  function Added(g: Columns, h: Columns): Columns {
    Columns(AddedQuads(g.q0, h.q0), AddedQuads(g.q1, h.q1), AddedQuads(g.q2, h.q2), AddedQuads(g.q3, h.q3))
  }

  lemma SumIsBlock()
    ensures Added(After10(), After0()) == Block()
  {}

  lemma AddedStates(s: seq<word>, g: Columns, h: Columns)
    requires |s| == 16 && Lists(s, g) && Lists(DoubleRounds(s, 10), h)
    ensures Lists(BlockWords(s), Added(h, g))
  {
    hide DoubleRounds, Add32;
  }

  // ---- The initial state ----

  lemma KeyWords()
    ensures |KEY| == 32
    ensures LoadWord(KEY, 0) == 0x03020100 && LoadWord(KEY, 1) == 0x07060504
  {}

  lemma OtherKeyWords()
    ensures |KEY| == 32
    ensures LoadWord(KEY, 2) == 0x0b0a0908 && LoadWord(KEY, 3) == 0x0f0e0d0c
  {}

  lemma MoreKeyWords()
    ensures |KEY| == 32
    ensures LoadWord(KEY, 4) == 0x13121110 && LoadWord(KEY, 5) == 0x17161514
    ensures LoadWord(KEY, 6) == 0x1b1a1918 && LoadWord(KEY, 7) == 0x1f1e1d1c
  {}

  lemma IvWords()
    ensures |IV| == 16
    ensures LoadWord(IV, 0) == 0x00000001 && LoadWord(IV, 1) == 0x09000000
    ensures LoadWord(IV, 2) == 0x4a000000 && LoadWord(IV, 3) == 0x00000000
  {}

  lemma ShiftedWord(i: nat)
    requires i < 3
    ensures |IV| == 16 && LoadWord(IV[4..], i) == LoadWord(IV, i + 1)
  {
    hide Pack;
  }

  lemma StartIsPublished()
    ensures |KEY| == 32 && |IV| == 16
    ensures Lists(InitialState(KEY, Add32(LoadWord(IV, 0), WordOfNat(0)), IV[4..]), After0())
  {
    hide LoadWord, Add32, WordOfNat;
    KeyWords();
    OtherKeyWords();
    MoreKeyWords();
    IvWords();
    AddZero(LoadWord(IV, 0));
    ShiftedWord(0);
    ShiftedWord(1);
    ShiftedWord(2);
  }

  /** The block of section 2.3.2. */
  lemma BlockIsPublished()
    ensures |KEY| == 32 && |IV| == 16
    ensures Lists(BlockWords(InitialState(KEY, Add32(LoadWord(IV, 0), WordOfNat(0)), IV[4..])), Block())
  {
    hide Lists, BlockWords, InitialState, LoadWord, Add32, WordOfNat, Added, After0, After10, Block;
    StartIsPublished();
    var s := InitialState(KEY, Add32(LoadWord(IV, 0), WordOfNat(0)), IV[4..]);
    TenDouble(s);
    AddedStates(s, After0(), After10());
    SumIsBlock();
  }

  /** Its first bytes as keystream: 10 f1 e7 e4 d1 3b 59 15. */
  lemma KeystreamIsPublished()
    ensures |KEY| == 32 && |IV| == 16
    ensures KeystreamByte(KEY, IV, 0) == 0x10 && KeystreamByte(KEY, IV, 1) == 0xf1
    ensures KeystreamByte(KEY, IV, 2) == 0xe7 && KeystreamByte(KEY, IV, 3) == 0xe4
    ensures KeystreamByte(KEY, IV, 4) == 0xd1 && KeystreamByte(KEY, IV, 5) == 0x3b
    ensures KeystreamByte(KEY, IV, 6) == 0x59 && KeystreamByte(KEY, IV, 7) == 0x15
  {
    hide KeystreamByte, BlockWords, InitialState, LoadWord, Add32, WordOfNat;
    BlockIsPublished();
    FirstBytes();
    forall j, r | 0 <= j < 2 && 0 <= r < 4
      ensures var s := InitialState(KEY, Add32(LoadWord(IV, 0), WordOfNat(0)), IV[4..]);
              KeystreamByte(KEY, IV, 64 * 0 + 4 * j + r) == ByteOf(BlockWords(s)[j], r)
    {
      KeystreamAt(KEY, IV, 0, j, r);
    }
  }

  lemma FirstBytes()
    ensures ByteOf(0xe4e7f110, 0) == 0x10 && ByteOf(0xe4e7f110, 1) == 0xf1
    ensures ByteOf(0xe4e7f110, 2) == 0xe7 && ByteOf(0xe4e7f110, 3) == 0xe4
    ensures ByteOf(0x15593bd1, 0) == 0xd1 && ByteOf(0x15593bd1, 1) == 0x3b
    ensures ByteOf(0x15593bd1, 2) == 0x59 && ByteOf(0x15593bd1, 3) == 0x15
  {}
}
