/** The ChaCha20 compute shader, one invocation. */
module ChaChaKernel {
  import opened Bytes
  import opened Words
  import R = Rfc8439

  // Word offsets of the parameter buffer: batchSize@0, key[8]@4, nonce[4]@12 with the counter last.
  const KEY: nat := 4
  const NONCE: nat := 12
  const PARAM_WORDS: nat := 16

  /** quarter_round on four elements of the working state. */
  method QuarterRound(x: array<word>, i: nat, j: nat, k: nat, l: nat)
    requires x.Length == 16 && i < 16 && j < 16 && k < 16 && l < 16
    modifies x
    ensures x[..] == R.QuarterRound(old(x[..]), i, j, k, l)
  {
    hide Add32, XorWord, R.Rotl;
    var a, b, c, d := x[i], x[j], x[k], x[l];
    a := Add32(a, b); d := XorWord(d, a); d := R.Rotl(d, 16);
    c := Add32(c, d); b := XorWord(b, c); b := R.Rotl(b, 12);
    a := Add32(a, b); d := XorWord(d, a); d := R.Rotl(d, 8);
    c := Add32(c, d); b := XorWord(b, c); b := R.Rotl(b, 7);
    x[i] := a;
    x[j] := b;
    x[k] := c;
    x[l] := d;
  }

  // The state the shader sets up from its parameters.
  function ShaderState(params: seq<word>, gID: word): (r: seq<word>)
    requires |params| >= PARAM_WORDS
    ensures |r| == 16
  {
    [0x61707865, 0x3320646e, 0x79622d32, 0x6b206574] + params[KEY..KEY + 8] +
    [Add32(params[NONCE + 3], gID), params[NONCE], params[NONCE + 1], params[NONCE + 2]]
  }

  /** The unrolled rounds: eighty quarter rounds, which are the ten double rounds of RFC 8439 section 2.3. */
  method TwentyRounds(x: array<word>)
    requires x.Length == 16
    modifies x
    ensures x[..] == R.DoubleRounds(old(x[..]), 10)
  {
    hide R.QuarterRound;
    ghost var s := x[..];
    // Rounds 1 and 2
    QuarterRound(x, 0, 4, 8, 12); QuarterRound(x, 1, 5, 9, 13);
    QuarterRound(x, 2, 6, 10, 14); QuarterRound(x, 3, 7, 11, 15);
    QuarterRound(x, 0, 5, 10, 15); QuarterRound(x, 1, 6, 11, 12);
    QuarterRound(x, 2, 7, 8, 13); QuarterRound(x, 3, 4, 9, 14);
    assert x[..] == R.DoubleRounds(s, 1);
    // Rounds 3 and 4
    QuarterRound(x, 0, 4, 8, 12); QuarterRound(x, 1, 5, 9, 13);
    QuarterRound(x, 2, 6, 10, 14); QuarterRound(x, 3, 7, 11, 15);
    QuarterRound(x, 0, 5, 10, 15); QuarterRound(x, 1, 6, 11, 12);
    QuarterRound(x, 2, 7, 8, 13); QuarterRound(x, 3, 4, 9, 14);
    assert x[..] == R.DoubleRounds(s, 2);
    // Rounds 5 and 6
    QuarterRound(x, 0, 4, 8, 12); QuarterRound(x, 1, 5, 9, 13);
    QuarterRound(x, 2, 6, 10, 14); QuarterRound(x, 3, 7, 11, 15);
    QuarterRound(x, 0, 5, 10, 15); QuarterRound(x, 1, 6, 11, 12);
    QuarterRound(x, 2, 7, 8, 13); QuarterRound(x, 3, 4, 9, 14);
    assert x[..] == R.DoubleRounds(s, 3);
    // Rounds 7 and 8
    QuarterRound(x, 0, 4, 8, 12); QuarterRound(x, 1, 5, 9, 13);
    QuarterRound(x, 2, 6, 10, 14); QuarterRound(x, 3, 7, 11, 15);
    QuarterRound(x, 0, 5, 10, 15); QuarterRound(x, 1, 6, 11, 12);
    QuarterRound(x, 2, 7, 8, 13); QuarterRound(x, 3, 4, 9, 14);
    assert x[..] == R.DoubleRounds(s, 4);
    // Rounds 9 and 10
    QuarterRound(x, 0, 4, 8, 12); QuarterRound(x, 1, 5, 9, 13);
    QuarterRound(x, 2, 6, 10, 14); QuarterRound(x, 3, 7, 11, 15);
    QuarterRound(x, 0, 5, 10, 15); QuarterRound(x, 1, 6, 11, 12);
    QuarterRound(x, 2, 7, 8, 13); QuarterRound(x, 3, 4, 9, 14);
    assert x[..] == R.DoubleRounds(s, 5);
    // Rounds 11 and 12
    QuarterRound(x, 0, 4, 8, 12); QuarterRound(x, 1, 5, 9, 13);
    QuarterRound(x, 2, 6, 10, 14); QuarterRound(x, 3, 7, 11, 15);
    QuarterRound(x, 0, 5, 10, 15); QuarterRound(x, 1, 6, 11, 12);
    QuarterRound(x, 2, 7, 8, 13); QuarterRound(x, 3, 4, 9, 14);
    assert x[..] == R.DoubleRounds(s, 6);
    // Rounds 13 and 14
    QuarterRound(x, 0, 4, 8, 12); QuarterRound(x, 1, 5, 9, 13);
    QuarterRound(x, 2, 6, 10, 14); QuarterRound(x, 3, 7, 11, 15);
    QuarterRound(x, 0, 5, 10, 15); QuarterRound(x, 1, 6, 11, 12);
    QuarterRound(x, 2, 7, 8, 13); QuarterRound(x, 3, 4, 9, 14);
    assert x[..] == R.DoubleRounds(s, 7);
    // Rounds 15 and 16
    QuarterRound(x, 0, 4, 8, 12); QuarterRound(x, 1, 5, 9, 13);
    QuarterRound(x, 2, 6, 10, 14); QuarterRound(x, 3, 7, 11, 15);
    QuarterRound(x, 0, 5, 10, 15); QuarterRound(x, 1, 6, 11, 12);
    QuarterRound(x, 2, 7, 8, 13); QuarterRound(x, 3, 4, 9, 14);
    assert x[..] == R.DoubleRounds(s, 8);
    // Rounds 17 and 18
    QuarterRound(x, 0, 4, 8, 12); QuarterRound(x, 1, 5, 9, 13);
    QuarterRound(x, 2, 6, 10, 14); QuarterRound(x, 3, 7, 11, 15);
    QuarterRound(x, 0, 5, 10, 15); QuarterRound(x, 1, 6, 11, 12);
    QuarterRound(x, 2, 7, 8, 13); QuarterRound(x, 3, 4, 9, 14);
    assert x[..] == R.DoubleRounds(s, 9);
    // Rounds 19 and 20
    QuarterRound(x, 0, 4, 8, 12); QuarterRound(x, 1, 5, 9, 13);
    QuarterRound(x, 2, 6, 10, 14); QuarterRound(x, 3, 7, 11, 15);
    QuarterRound(x, 0, 5, 10, 15); QuarterRound(x, 1, 6, 11, 12);
    QuarterRound(x, 2, 7, 8, 13); QuarterRound(x, 3, 4, 9, 14);
    assert x[..] == R.DoubleRounds(s, 10);
  }

  /** One invocation up to its sixteen keystream words. */
  method KeystreamBlock(params: seq<word>, gID: word) returns (x: array<word>)
    requires |params| >= PARAM_WORDS
    ensures fresh(x) && x.Length == 16
    ensures x[..] == R.BlockWords(ShaderState(params, gID))
  {
    hide R.DoubleRounds, Add32, ShaderState;
    var state := ShaderState(params, gID);
    x := new word[16];
    var i: nat := 0;
    while i < 16
      invariant 0 <= i <= 16
      invariant x[..i] == state[..i]
    {
      x[i] := state[i];
      i := i + 1;
    }
    assert x[..] == state;
    TwentyRounds(x);
    ghost var mixed := x[..];
    i := 0;
    while i < 16
      invariant 0 <= i <= 16
      invariant forall p :: 0 <= p < i ==> x[p] == Add32(mixed[p], state[p])
      invariant forall p :: i <= p < 16 ==> x[p] == mixed[p]
    {
      x[i] := Add32(x[i], state[i]);
      i := i + 1;
    }
  }
}
