/** ChaCha20 through the streaming layer: always the cipher of RFC 8439. */
module ChaChaStream {
  import opened Bytes
  import opened Words
  import R = Rfc8439
  import S = Stream

  /** The IV n blocks further on: the little-endian counter in its first four bytes moves, modulo 2^32. */
  function Advance32(iv: S.Iv, n: nat): S.Iv {
    Le(Add32(LoadWord(iv, 0), WordOfNat(n))) + iv[4..]
  }

  function ChaChaEngine(key: seq<byte>): S.Engine
    requires |key| == 32
  {
    S.Engine(R.BLOCK, (iv: S.Iv, p: nat) => R.KeystreamByte(key, iv, p), (iv: S.Iv, n: nat) => Advance32(iv, n))
  }

  lemma LoadOfLe(w: word, rest: seq<byte>)
    ensures LoadWord(Le(w) + rest, 0) == w
  {
    hide Pack, B0, B1, B2, B3;
    PackBytes(w);
  }

  lemma AdvanceZero(iv: S.Iv)
    ensures Advance32(iv, 0) == iv
  {
    hide LoadWord, Le, Add32, WordOfNat;
    AddZero(LoadWord(iv, 0));
    LeOfLoad(iv, 0);
    assert iv == iv[..4] + iv[4..];
  }

  lemma AdvanceAdds(iv: S.Iv, a: nat, b: nat)
    ensures Advance32(Advance32(iv, a), b) == Advance32(iv, a + b)
  {
    hide LoadWord, Add32, WordOfNat, B0, B1, B2, B3;
    LoadOfLe(Add32(LoadWord(iv, 0), WordOfNat(a)), iv[4..]);
    AddNats(LoadWord(iv, 0), a, b);
    assert Advance32(iv, a)[4..] == iv[4..];
  }

  lemma EngineLawful(key: seq<byte>)
    requires |key| == 32
    ensures ChaChaEngine(key).Lawful()
  {
    hide Advance32;
    var e := ChaChaEngine(key);
    forall iv: S.Iv
      ensures e.advance(iv, 0) == iv
    {
      AdvanceZero(iv);
    }
    forall iv: S.Iv, a: nat, b: nat
      ensures e.advance(e.advance(iv, a), b) == e.advance(iv, a + b)
    {
      AdvanceAdds(iv, a, b);
    }
  }

  /** A job n blocks into the stream uses the keystream from byte 64 n on, for every IV: both counters wrap alike. */
  lemma JobKeystream(key: seq<byte>, iv: S.Iv, n: nat, i: nat)
    requires |key| == 32
    ensures R.KeystreamByte(key, Advance32(iv, n), i) == R.KeystreamByte(key, iv, 64 * n + i)
  {
    hide R.BlockWords, R.InitialState, ByteOf, LoadWord, Le, Add32, WordOfNat;
    var c := LoadWord(iv, 0);
    LoadOfLe(Add32(c, WordOfNat(n)), iv[4..]);
    assert Advance32(iv, n)[4..] == iv[4..];
    AddNats(c, n, i / 64);
    BlockPlace(n, i);
  }

  lemma BlockPlace(n: nat, i: nat)
    ensures (64 * n + i) / 64 == n + i / 64 && (64 * n + i) % 64 == i % 64 && (64 * n + i) % 4 == i % 4
  {
    var q, r := i / 64, i % 64;
    assert 64 * n + i == 64 * (n + q) + r;
    assert (64 * n + i) / 64 == n + q;
    Fourth(16 * n, i);
  }

  lemma Fourth(m: nat, i: nat)
    ensures (4 * m + i) % 4 == i % 4
  {}

  /** End to end, for every key, IV, message and split into updates, all calls successful: the cipher of RFC 8439. */
  lemma ChaChaEndToEnd(key: seq<byte>, iv: S.Iv, calls: seq<S.Call>, outsize: nat, finalOk: bool)
    requires |key| == 32 && S.WholeRun(ChaChaEngine(key), iv, calls, outsize, finalOk).ok
    ensures S.WholeRun(ChaChaEngine(key), iv, calls, outsize, finalOk).output == R.Encrypt(key, iv, S.Message(calls))
  {
    hide S.WholeRun, S.Message, S.Data, S.Blocks, R.KeystreamByte, Advance32, Xor;
    var e := ChaChaEngine(key);
    var ks := (p: nat) => R.KeystreamByte(key, iv, p);
    var jobs := S.WholeRun(e, iv, calls, outsize, finalOk).jobs;
    EngineLawful(key);
    forall k | 0 <= k < |jobs|
      ensures S.JobAgrees(e, jobs, ks, k)
    {
      S.WholeRunPlaces(e, iv, calls, outsize, finalOk, k);
      var n := S.Blocks(e, jobs[..k]);
      forall i | 0 <= i < |jobs[k].data|
        ensures e.jobByte(jobs[k].iv, i) == ks(|S.Data(jobs[..k])| + i)
      {
        JobKeystream(key, iv, n, i);
      }
    }
    S.WholeRunExact(e, iv, calls, outsize, finalOk, ks);
    EncryptIs(key, iv, S.Message(calls), ks);
  }

  lemma EncryptIs(key: seq<byte>, iv: S.Iv, message: seq<byte>, ks: nat -> byte)
    requires |key| == 32 && forall p: nat :: ks(p) == R.KeystreamByte(key, iv, p)
    ensures R.Encrypt(key, iv, message) == Xor(message, ks, 0)
  {
    hide R.KeystreamByte, XorByte;
  }

  /** Decrypting under any other split gives the message back, for every IV. */
  lemma ChaChaRoundTrip(key: seq<byte>, iv: S.Iv, calls: seq<S.Call>, outsize: nat, finalOk: bool,
                        calls': seq<S.Call>, outsize': nat, finalOk': bool)
    requires |key| == 32
    requires S.WholeRun(ChaChaEngine(key), iv, calls, outsize, finalOk).ok
    requires S.WholeRun(ChaChaEngine(key), iv, calls', outsize', finalOk').ok
    requires S.Message(calls') == S.WholeRun(ChaChaEngine(key), iv, calls, outsize, finalOk).output
    ensures S.WholeRun(ChaChaEngine(key), iv, calls', outsize', finalOk').output == S.Message(calls)
  {
    hide S.WholeRun, S.Message, R.KeystreamByte;
    ChaChaEndToEnd(key, iv, calls, outsize, finalOk);
    ChaChaEndToEnd(key, iv, calls', outsize', finalOk');
    var ks := (p: nat) => R.KeystreamByte(key, iv, p);
    EncryptIs(key, iv, S.Message(calls), ks);
    EncryptIs(key, iv, S.Message(calls'), ks);
    XorTwice(S.Message(calls), ks, 0);
  }
}
