/** RFC 8439: the ChaCha20 quarter round (section 2.1), block function (section 2.3) and cipher (section 2.4). */
module Rfc8439 {
  import opened Bytes
  import opened Words

  const BLOCK: nat := 64

  function Rotl(x: word, n: word): word
    requires 0 < n < 32
  {
    (x << n) | (x >> (32 - n))
  }

  datatype Quad = Quad(a: word, b: word, c: word, d: word)

  // One line of section 2.1: a += b; d ^= a; d <<<= n.
  function AddXorRotate(a: word, b: word, d: word, n: word): (word, word)
    requires 0 < n < 32
  {
    var sum := Add32(a, b);
    (sum, Rotl(XorWord(d, sum), n))
  }

  function Quarter(q: Quad): Quad {
    var (a1, d1) := AddXorRotate(q.a, q.b, q.d, 16);
    var (c1, b1) := AddXorRotate(q.c, d1, q.b, 12);
    var (a2, d2) := AddXorRotate(a1, b1, d1, 8);
    var (c2, b2) := AddXorRotate(c1, d2, b1, 7);
    Quad(a2, b2, c2, d2)
  }

  /** QUARTERROUND(x, y, z, w) on the sixteen-word state (section 2.2). */
  function QuarterRound(s: seq<word>, x: nat, y: nat, z: nat, w: nat): (r: seq<word>)
    requires |s| == 16 && x < 16 && y < 16 && z < 16 && w < 16
    ensures |r| == 16
  {
    var q := Quarter(Quad(s[x], s[y], s[z], s[w]));
    s[x := q.a][y := q.b][z := q.c][w := q.d]
  }

  function ColumnRounds(s: seq<word>): (r: seq<word>)
    requires |s| == 16
    ensures |r| == 16
  {
    QuarterRound(QuarterRound(QuarterRound(QuarterRound(s, 0, 4, 8, 12), 1, 5, 9, 13), 2, 6, 10, 14), 3, 7, 11, 15)
  }

  function DiagonalRounds(s: seq<word>): (r: seq<word>)
    requires |s| == 16
    ensures |r| == 16
  {
    QuarterRound(QuarterRound(QuarterRound(QuarterRound(s, 0, 5, 10, 15), 1, 6, 11, 12), 2, 7, 8, 13), 3, 4, 9, 14)
  }

  /** The inner block of section 2.3, a column round and a diagonal round, n times. */
  function DoubleRounds(s: seq<word>, n: nat): (r: seq<word>)
    requires |s| == 16
    ensures |r| == 16
  {
    if n == 0 then s else DiagonalRounds(ColumnRounds(DoubleRounds(s, n - 1)))
  }

  /** The initial state: constants, key, block counter, nonce. */
  function InitialState(key: seq<byte>, counter: word, nonce: seq<byte>): (r: seq<word>)
    requires |key| == 32 && |nonce| == 12
    ensures |r| == 16
  {
    [0x61707865, 0x3320646e, 0x79622d32, 0x6b206574] +
    seq(8, i requires 0 <= i < 8 => LoadWord(key, i)) +
    [counter] + seq(3, i requires 0 <= i < 3 => LoadWord(nonce, i))
  }

  function AddStates(s: seq<word>, t: seq<word>): (r: seq<word>)
    requires |s| == |t| == 16
    ensures |r| == 16
  {
    seq(16, i requires 0 <= i < 16 => Add32(s[i], t[i]))
  }

  /** The sixteen words of chacha20_block. */
  function BlockWords(s: seq<word>): (r: seq<word>)
    requires |s| == 16
    ensures |r| == 16
  {
    AddStates(DoubleRounds(s, 10), s)
  }

  /** Byte p of the keystream for an IV of four counter bytes and twelve nonce bytes: block p / 64 has the counter
      plus p / 64, modulo 2^32. */
  function KeystreamByte(key: seq<byte>, iv: seq<byte>, p: nat): byte
    requires |key| == 32 && |iv| == 16
  {
    var counter := Add32(LoadWord(iv, 0), WordOfNat(p / BLOCK));
    ByteOf(BlockWords(InitialState(key, counter, iv[4..]))[p % BLOCK / 4], p % 4)
  }

  /** Section 2.4. */
  function Encrypt(key: seq<byte>, iv: seq<byte>, message: seq<byte>): seq<byte>
    requires |key| == 32 && |iv| == 16
  {
    Xor(message, (p: nat) => KeystreamByte(key, iv, p), 0)
  }

  // ---- Every round can be undone ----

  function Rotr(x: word, n: word): word
    requires 0 < n < 32
  {
    (x >> n) | (x << (32 - n))
  }

  function Sub32(x: word, y: word): word {
    x - y
  }

  function InvAddXorRotate(sum: word, b: word, d: word, n: word): (word, word)
    requires 0 < n < 32
  {
    (Sub32(sum, b), XorWord(Rotr(d, n), sum))
  }

  function InvQuarter(q: Quad): Quad {
    var (c1, b1) := InvAddXorRotate(q.c, q.d, q.b, 7);
    var (a1, d1) := InvAddXorRotate(q.a, b1, q.d, 8);
    var (c0, b0) := InvAddXorRotate(c1, d1, b1, 12);
    var (a0, d0) := InvAddXorRotate(a1, b0, d1, 16);
    Quad(a0, b0, c0, d0)
  }

  lemma SubOfSum(x: word, y: word)
    ensures Sub32(x + y, y) == x
  {}

  lemma SumOfSub(x: word, y: word)
    ensures Add32(x - y, y) == x
  {}

  lemma SubAdd(x: word, y: word)
    ensures Sub32(Add32(x, y), y) == x
  {
    hide Sub32;
    SubOfSum(x, y);
  }

  lemma AddSub(x: word, y: word)
    ensures Add32(Sub32(x, y), y) == x
  {
    hide Add32;
    SumOfSub(x, y);
  }

  lemma RotateBack16(x: word)
    ensures Rotr(Rotl(x, 16), 16) == x && Rotl(Rotr(x, 16), 16) == x
  {}

  lemma RotateBack12(x: word)
    ensures Rotr(Rotl(x, 12), 12) == x && Rotl(Rotr(x, 12), 12) == x
  {}

  lemma RotateBack8(x: word)
    ensures Rotr(Rotl(x, 8), 8) == x && Rotl(Rotr(x, 8), 8) == x
  {}

  lemma RotateBack7(x: word)
    ensures Rotr(Rotl(x, 7), 7) == x && Rotl(Rotr(x, 7), 7) == x
  {}

  lemma RotateBack(x: word, n: word)
    requires n == 16 || n == 12 || n == 8 || n == 7
    ensures Rotr(Rotl(x, n), n) == x && Rotl(Rotr(x, n), n) == x
  {
    hide Rotl, Rotr;
    RotateBack16(x);
    RotateBack12(x);
    RotateBack8(x);
    RotateBack7(x);
  }

  lemma XorBack(x: word, y: word)
    ensures XorWord(XorWord(x, y), y) == x
  {}

  lemma LineUndone(a: word, b: word, d: word, n: word)
    requires n == 16 || n == 12 || n == 8 || n == 7
    ensures var (s, e) := AddXorRotate(a, b, d, n); InvAddXorRotate(s, b, e, n) == (a, d)
    ensures var (s, e) := InvAddXorRotate(a, b, d, n); AddXorRotate(s, b, e, n) == (a, d)
  {
    hide Add32, Sub32, XorWord, Rotl, Rotr;
    SubAdd(a, b);
    AddSub(a, b);
    RotateBack(XorWord(d, Add32(a, b)), n);
    XorBack(d, Add32(a, b));
    RotateBack(d, n);
    XorBack(Rotr(d, n), a);
  }

  lemma QuarterUndone(q: Quad)
    ensures InvQuarter(Quarter(q)) == q && Quarter(InvQuarter(q)) == q
  {
    hide AddXorRotate, InvAddXorRotate;
    var (a1, d1) := AddXorRotate(q.a, q.b, q.d, 16);
    var (c1, b1) := AddXorRotate(q.c, d1, q.b, 12);
    var (a2, d2) := AddXorRotate(a1, b1, d1, 8);
    LineUndone(q.a, q.b, q.d, 16);
    LineUndone(q.c, d1, q.b, 12);
    LineUndone(a1, b1, d1, 8);
    LineUndone(c1, d2, b1, 7);
    var (z1, y1) := InvAddXorRotate(q.c, q.d, q.b, 7);
    var (x1, w1) := InvAddXorRotate(q.a, y1, q.d, 8);
    var (z0, y0) := InvAddXorRotate(z1, w1, y1, 12);
    LineUndone(q.c, q.d, q.b, 7);
    LineUndone(q.a, y1, q.d, 8);
    LineUndone(z1, w1, y1, 12);
    LineUndone(x1, y0, w1, 16);
  }

  function InvQuarterRound(s: seq<word>, x: nat, y: nat, z: nat, w: nat): (r: seq<word>)
    requires |s| == 16 && x < 16 && y < 16 && z < 16 && w < 16
    ensures |r| == 16
  {
    var q := InvQuarter(Quad(s[x], s[y], s[z], s[w]));
    s[x := q.a][y := q.b][z := q.c][w := q.d]
  }

  lemma QuarterRoundUndone(s: seq<word>, x: nat, y: nat, z: nat, w: nat)
    requires |s| == 16 && x < 16 && y < 16 && z < 16 && w < 16
    requires x != y && x != z && x != w && y != z && y != w && z != w
    ensures InvQuarterRound(QuarterRound(s, x, y, z, w), x, y, z, w) == s
    ensures QuarterRound(InvQuarterRound(s, x, y, z, w), x, y, z, w) == s
  {
    hide Quarter, InvQuarter;
    QuarterUndone(Quad(s[x], s[y], s[z], s[w]));
  }

  function InvDoubleRound(s: seq<word>): (r: seq<word>)
    requires |s| == 16
    ensures |r| == 16
  {
    var t := InvQuarterRound(InvQuarterRound(s, 3, 4, 9, 14), 2, 7, 8, 13);
    var u := InvQuarterRound(InvQuarterRound(t, 1, 6, 11, 12), 0, 5, 10, 15);
    var v := InvQuarterRound(InvQuarterRound(u, 3, 7, 11, 15), 2, 6, 10, 14);
    InvQuarterRound(InvQuarterRound(v, 1, 5, 9, 13), 0, 4, 8, 12)
  }

  /** The explicit inverse of n double rounds. */
  function InvDoubleRounds(s: seq<word>, n: nat): (r: seq<word>)
    requires |s| == 16
    ensures |r| == 16
    decreases n
  {
    if n == 0 then s else InvDoubleRounds(InvDoubleRound(s), n - 1)
  }

  lemma ColumnRoundsUndone(s: seq<word>)
    requires |s| == 16
    ensures InvDoubleRound(DiagonalRounds(ColumnRounds(s))) == s
    ensures DiagonalRounds(ColumnRounds(InvDoubleRound(s))) == s
  {
    hide QuarterRound, InvQuarterRound;
    var c1 := QuarterRound(s, 0, 4, 8, 12);
    var c2 := QuarterRound(c1, 1, 5, 9, 13);
    var c3 := QuarterRound(c2, 2, 6, 10, 14);
    var c4 := QuarterRound(c3, 3, 7, 11, 15);
    var d1 := QuarterRound(c4, 0, 5, 10, 15);
    var d2 := QuarterRound(d1, 1, 6, 11, 12);
    var d3 := QuarterRound(d2, 2, 7, 8, 13);
    QuarterRoundUndone(s, 0, 4, 8, 12);
    QuarterRoundUndone(c1, 1, 5, 9, 13);
    QuarterRoundUndone(c2, 2, 6, 10, 14);
    QuarterRoundUndone(c3, 3, 7, 11, 15);
    QuarterRoundUndone(c4, 0, 5, 10, 15);
    QuarterRoundUndone(d1, 1, 6, 11, 12);
    QuarterRoundUndone(d2, 2, 7, 8, 13);
    QuarterRoundUndone(d3, 3, 4, 9, 14);
    var e1 := InvQuarterRound(s, 3, 4, 9, 14);
    var e2 := InvQuarterRound(e1, 2, 7, 8, 13);
    var e3 := InvQuarterRound(e2, 1, 6, 11, 12);
    var e4 := InvQuarterRound(e3, 0, 5, 10, 15);
    var f1 := InvQuarterRound(e4, 3, 7, 11, 15);
    var f2 := InvQuarterRound(f1, 2, 6, 10, 14);
    var f3 := InvQuarterRound(f2, 1, 5, 9, 13);
    QuarterRoundUndone(s, 3, 4, 9, 14);
    QuarterRoundUndone(e1, 2, 7, 8, 13);
    QuarterRoundUndone(e2, 1, 6, 11, 12);
    QuarterRoundUndone(e3, 0, 5, 10, 15);
    QuarterRoundUndone(e4, 3, 7, 11, 15);
    QuarterRoundUndone(f1, 2, 6, 10, 14);
    QuarterRoundUndone(f2, 1, 5, 9, 13);
    QuarterRoundUndone(f3, 0, 4, 8, 12);
  }

  lemma {:induction false} DoubleRoundsOuter(s: seq<word>, n: nat)
    requires |s| == 16
    ensures DoubleRounds(DiagonalRounds(ColumnRounds(s)), n) == DoubleRounds(s, n + 1)
  {
    hide DiagonalRounds, ColumnRounds;
    if n != 0 {
      DoubleRoundsOuter(s, n - 1);
    }
  }

  /** The rounds are a bijection of the sixteen-word states. */
  lemma {:induction false} DoubleRoundsBijective(s: seq<word>, n: nat)
    requires |s| == 16
    ensures InvDoubleRounds(DoubleRounds(s, n), n) == s
    ensures DoubleRounds(InvDoubleRounds(s, n), n) == s
    decreases n
  {
    hide DiagonalRounds, ColumnRounds, InvDoubleRound;
    if n != 0 {
      ColumnRoundsUndone(DoubleRounds(s, n - 1));
      DoubleRoundsBijective(s, n - 1);
      DoubleRoundsBijective(InvDoubleRound(s), n - 1);
      ColumnRoundsUndone(s);
    }
  }

  /** The feed-forward is what keeps the block function from being undone: only with the initial state taken off again,
      word by word, do the inverse rounds lead back to it. */
  lemma BlockUndone(s: seq<word>)
    requires |s| == 16
    ensures InvDoubleRounds(seq(16, i requires 0 <= i < 16 => Sub32(BlockWords(s)[i], s[i])), 10) == s
  {
    hide DoubleRounds, InvDoubleRounds, Add32, Sub32;
    var mixed := DoubleRounds(s, 10);
    var taken := seq(16, i requires 0 <= i < 16 => Sub32(BlockWords(s)[i], s[i]));
    forall i | 0 <= i < 16
      ensures taken[i] == mixed[i]
    {
      SubAdd(mixed[i], s[i]);
    }
    assert taken == mixed;
    DoubleRoundsBijective(s, 10);
  }

  // ---- The rounds on columns and diagonals ----

  /** The state as four columns. */
  datatype Columns = Columns(q0: Quad, q1: Quad, q2: Quad, q3: Quad)

  // s lists the words of g row by row.
  predicate Lists(s: seq<word>, g: Columns)
    requires |s| == 16
  {
    && s[0] == g.q0.a && s[1] == g.q1.a && s[2] == g.q2.a && s[3] == g.q3.a
    && s[4] == g.q0.b && s[5] == g.q1.b && s[6] == g.q2.b && s[7] == g.q3.b
    && s[8] == g.q0.c && s[9] == g.q1.c && s[10] == g.q2.c && s[11] == g.q3.c
    && s[12] == g.q0.d && s[13] == g.q1.d && s[14] == g.q2.d && s[15] == g.q3.d
  }

  function Quarters(g: Columns): Columns {
    Columns(Quarter(g.q0), Quarter(g.q1), Quarter(g.q2), Quarter(g.q3))
  }

  // Row i goes left by i columns, so that the diagonals become columns; and back.
  function Turned(g: Columns): Columns {
    Columns(Quad(g.q0.a, g.q1.b, g.q2.c, g.q3.d), Quad(g.q1.a, g.q2.b, g.q3.c, g.q0.d),
            Quad(g.q2.a, g.q3.b, g.q0.c, g.q1.d), Quad(g.q3.a, g.q0.b, g.q1.c, g.q2.d))
  }

  function TurnedBack(g: Columns): Columns {
    Columns(Quad(g.q0.a, g.q3.b, g.q2.c, g.q1.d), Quad(g.q1.a, g.q0.b, g.q3.c, g.q2.d),
            Quad(g.q2.a, g.q1.b, g.q0.c, g.q3.d), Quad(g.q3.a, g.q2.b, g.q1.c, g.q0.d))
  }

  /** A double round is four independent quarter rounds on the columns, then four on the diagonals. */
  lemma DoubleRoundIsQuarters(s: seq<word>, g: Columns)
    requires |s| == 16 && Lists(s, g)
    ensures Lists(DiagonalRounds(ColumnRounds(s)), TurnedBack(Quarters(Turned(Quarters(g)))))
  {
    hide Quarter, QuarterRound, Lists;
    ColumnRoundsAreQuarters(s, g);
    DiagonalRoundsAreQuarters(ColumnRounds(s), Quarters(g));
  }

  lemma ColumnRoundsAreQuarters(s: seq<word>, g: Columns)
    requires |s| == 16 && Lists(s, g)
    ensures Lists(ColumnRounds(s), Quarters(g))
  {
    hide Quarter, QuarterRound, Lists;
    var g1 := g.(q0 := Quarter(g.q0));
    var g2 := g1.(q1 := Quarter(g.q1));
    var g3 := g2.(q2 := Quarter(g.q2));
    var s1 := QuarterRound(s, 0, 4, 8, 12);
    var s2 := QuarterRound(s1, 1, 5, 9, 13);
    var s3 := QuarterRound(s2, 2, 6, 10, 14);
    Column0(s, g);
    Column1(s1, g1);
    Column2(s2, g2);
    Column3(s3, g3);
  }

  lemma DiagonalRoundsAreQuarters(s: seq<word>, g: Columns)
    requires |s| == 16 && Lists(s, g)
    ensures Lists(DiagonalRounds(s), TurnedBack(Quarters(Turned(g))))
  {
    hide Quarter, QuarterRound, Lists;
    var h := Turned(g);
    var h1 := h.(q0 := Quarter(h.q0));
    var h2 := h1.(q1 := Quarter(h.q1));
    var h3 := h2.(q2 := Quarter(h.q2));
    var s1 := QuarterRound(s, 0, 5, 10, 15);
    var s2 := QuarterRound(s1, 1, 6, 11, 12);
    var s3 := QuarterRound(s2, 2, 7, 8, 13);
    assert TurnedBack(h) == g;
    Diagonal0(s, h);
    Diagonal1(s1, h1);
    Diagonal2(s2, h2);
    Diagonal3(s3, h3);
  }

  lemma Column0(s: seq<word>, g: Columns)
    requires |s| == 16 && Lists(s, g)
    ensures Lists(QuarterRound(s, 0, 4, 8, 12), g.(q0 := Quarter(g.q0)))
  {
    hide Quarter, QuarterRound;
    QuarterRoundAt(s, 0, 4, 8, 12);
  }

  lemma Column1(s: seq<word>, g: Columns)
    requires |s| == 16 && Lists(s, g)
    ensures Lists(QuarterRound(s, 1, 5, 9, 13), g.(q1 := Quarter(g.q1)))
  {
    hide Quarter, QuarterRound;
    QuarterRoundAt(s, 1, 5, 9, 13);
  }

  lemma Column2(s: seq<word>, g: Columns)
    requires |s| == 16 && Lists(s, g)
    ensures Lists(QuarterRound(s, 2, 6, 10, 14), g.(q2 := Quarter(g.q2)))
  {
    hide Quarter, QuarterRound;
    QuarterRoundAt(s, 2, 6, 10, 14);
  }

  lemma Column3(s: seq<word>, g: Columns)
    requires |s| == 16 && Lists(s, g)
    ensures Lists(QuarterRound(s, 3, 7, 11, 15), g.(q3 := Quarter(g.q3)))
  {
    hide Quarter, QuarterRound;
    QuarterRoundAt(s, 3, 7, 11, 15);
  }

  lemma Diagonal0(s: seq<word>, g: Columns)
    requires |s| == 16 && Lists(s, TurnedBack(g))
    ensures Lists(QuarterRound(s, 0, 5, 10, 15), TurnedBack(g.(q0 := Quarter(g.q0))))
  {
    hide Quarter, QuarterRound;
    QuarterRoundAt(s, 0, 5, 10, 15);
  }

  lemma Diagonal1(s: seq<word>, g: Columns)
    requires |s| == 16 && Lists(s, TurnedBack(g))
    ensures Lists(QuarterRound(s, 1, 6, 11, 12), TurnedBack(g.(q1 := Quarter(g.q1))))
  {
    hide Quarter, QuarterRound;
    QuarterRoundAt(s, 1, 6, 11, 12);
  }

  lemma Diagonal2(s: seq<word>, g: Columns)
    requires |s| == 16 && Lists(s, TurnedBack(g))
    ensures Lists(QuarterRound(s, 2, 7, 8, 13), TurnedBack(g.(q2 := Quarter(g.q2))))
  {
    hide Quarter, QuarterRound;
    QuarterRoundAt(s, 2, 7, 8, 13);
  }

  lemma Diagonal3(s: seq<word>, g: Columns)
    requires |s| == 16 && Lists(s, TurnedBack(g))
    ensures Lists(QuarterRound(s, 3, 4, 9, 14), TurnedBack(g.(q3 := Quarter(g.q3))))
  {
    hide Quarter, QuarterRound;
    QuarterRoundAt(s, 3, 4, 9, 14);
  }

  // A quarter round changes its four words and no other.
  lemma QuarterRoundAt(s: seq<word>, x: nat, y: nat, z: nat, w: nat)
    requires |s| == 16 && x < 16 && y < 16 && z < 16 && w < 16
    requires x != y && x != z && x != w && y != z && y != w && z != w
    ensures var r, q := QuarterRound(s, x, y, z, w), Quarter(Quad(s[x], s[y], s[z], s[w]));
            && r[x] == q.a && r[y] == q.b && r[z] == q.c && r[w] == q.d
            && (forall i :: 0 <= i < 16 && i != x && i != y && i != z && i != w ==> r[i] == s[i])
  {
    hide Quarter;
  }

  // ---- Where the bytes of the cipher come from ----

  /** Byte 64 n + 4 j + r of the keystream is byte r, lowest first, of word j of the block whose counter is the one
      of the
      IV plus n. */
  lemma KeystreamAt(key: seq<byte>, iv: seq<byte>, n: nat, j: nat, r: nat)
    requires |key| == 32 && |iv| == 16 && j < 16 && r < 4
    ensures var counter := Add32(LoadWord(iv, 0), WordOfNat(n));
            KeystreamByte(key, iv, 64 * n + 4 * j + r) ==
            ByteOf(BlockWords(InitialState(key, counter, iv[4..]))[j], r)
  {
    hide BlockWords, InitialState, ByteOf, LoadWord, Add32, WordOfNat;
    WithinBlock(n, 4 * j + r);
    WithinWord(16 * n, j, r);
  }

  lemma WithinBlock(n: nat, i: nat)
    requires i < 64
    ensures (64 * n + i) / 64 == n && (64 * n + i) % 64 == i
  {}

  lemma WithinWord(n: nat, j: nat, r: nat)
    requires r < 4
    ensures (4 * j + r) / 4 == j && (4 * n + 4 * j + r) % 4 == r
  {}
}
