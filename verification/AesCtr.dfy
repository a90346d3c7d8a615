/** AES-256 in counter mode: the standard (SP 800-38A section 6.5), and what one GPU job computes instead. */
module AesCtr {
  import opened Bytes
  import opened Counter
  import opened Words
  import opened ShaderCounter
  import F = Fips197
  import Sbox

  const BLOCK: nat := 16
  const ROUNDS: nat := 14

  function ColumnAt(s: seq<byte>, i: nat): F.Column
    requires 4 * i + 4 <= |s|
  {
    F.Column(s[4 * i], s[4 * i + 1], s[4 * i + 2], s[4 * i + 3])
  }

  /** The state filled column by column from a 16-byte block (FIPS 197 section 3.4). */
  function BlockState(s: seq<byte>): F.State
    requires |s| == BLOCK
  {
    F.State(ColumnAt(s, 0), ColumnAt(s, 1), ColumnAt(s, 2), ColumnAt(s, 3))
  }

  function ColumnBytes(c: F.Column): (r: seq<byte>)
    ensures |r| == 4
  {
    [c.b0, c.b1, c.b2, c.b3]
  }

  function StateBytes(s: F.State): (r: seq<byte>)
    ensures |r| == BLOCK
  {
    ColumnBytes(s.c0) + ColumnBytes(s.c1) + ColumnBytes(s.c2) + ColumnBytes(s.c3)
  }

  lemma StateRoundTrip(s: F.State, b: seq<byte>)
    requires |b| == BLOCK
    ensures BlockState(StateBytes(s)) == s && StateBytes(BlockState(b)) == b
  {}

  /** AES-256 applied to one block. */
  function EncryptBlock(key: seq<byte>, block: seq<byte>): (r: seq<byte>)
    requires |key| == 32 && |block| == BLOCK
    ensures |r| == BLOCK
  {
    StateBytes(F.Cipher(Sbox.SBox, F.KeyExpansion(Sbox.SBox, key), ROUNDS, BlockState(block)))
  }

  /** Distinct counter blocks never give the same keystream block. */
  lemma EncryptInjective(key: seq<byte>, a: seq<byte>, b: seq<byte>)
    requires |key| == 32 && |a| == |b| == BLOCK
    ensures EncryptBlock(key, a) == EncryptBlock(key, b) <==> a == b
  {
    hide Sbox.SBox, F.Cipher, StateBytes, BlockState;
    var w := F.KeyExpansion(Sbox.SBox, key);
    Sbox.SBoxInjective();
    F.CipherInjective(Sbox.SBox, w, ROUNDS, BlockState(a), BlockState(b));
    StateRoundTrip(F.Cipher(Sbox.SBox, w, ROUNDS, BlockState(a)), a);
    StateRoundTrip(F.Cipher(Sbox.SBox, w, ROUNDS, BlockState(b)), b);
  }

  /** Byte p of the standard keystream: counter block p / 16 is iv plus p / 16 modulo 2^128. */
  function CtrByte(key: seq<byte>, iv: seq<byte>, p: nat): byte
    requires |key| == 32 && |iv| == BLOCK
  {
    EncryptBlock(key, Advance(iv, p / BLOCK))[p % BLOCK]
  }

  /** Byte p of the keystream that a single job starting at iv uses. */
  function JobByte(key: seq<byte>, iv: seq<byte>, p: nat): byte
    requires |key| == 32 && |iv| == BLOCK
  {
    EncryptBlock(key, ShaderBlock(iv, WordOfNat(p / BLOCK)))[p % BLOCK]
  }

  /** SP 800-38A section 6.5. */
  function CtrEncrypt(key: seq<byte>, iv: seq<byte>, message: seq<byte>): seq<byte>
    requires |key| == 32 && |iv| == BLOCK
  {
    Xor(message, (p: nat) => CtrByte(key, iv, p), 0)
  }

  /** The output of one job. */
  function JobOutput(key: seq<byte>, iv: seq<byte>, data: seq<byte>): seq<byte>
    requires |key| == 32 && |iv| == BLOCK
  {
    Xor(data, (p: nat) => JobByte(key, iv, p), 0)
  }

  /** A job's keystream block g is the standard one exactly when the lower half of the counter does not overflow at g:
      in the other case it differs, because the cipher is injective. */
  lemma JobBlockExact(key: seq<byte>, iv: seq<byte>, g: nat)
    requires |key| == 32 && |iv| == BLOCK && g < TWO_32
    ensures EncryptBlock(key, ShaderBlock(iv, WordOfNat(g))) == EncryptBlock(key, Advance(iv, g)) <==>
            Low64(iv) + g < TWO_64
  {
    hide EncryptBlock, ShaderBlock, Advance, WordOfNat, Low64, WordNat;
    WordOfNatValue(g);
    ShaderCounterExact(iv, WordOfNat(g));
    EncryptInjective(key, ShaderBlock(iv, WordOfNat(g)), Advance(iv, g));
  }
}
