/** ChaCha20 streams at the wrap of the 32-bit block counter. */
module ChaChaLimits {
  import opened Bytes
  import opened Words
  import opened ChaChaStream
  import opened Reuse
  import R = Rfc8439
  import S = Stream

  /** Two blocks of one stream have the same counter exactly when their indices agree modulo 2^32. */
  lemma Advance32Injective(iv: S.Iv, a: nat, b: nat)
    requires a <= b
    ensures Advance32(iv, a) == Advance32(iv, b) <==> (b - a) % TWO_32 == 0
  {
    hide LoadWord, Le, Add32, WordOfNat, WordNat;
    var c := LoadWord(iv, 0);
    var x, y := Add32(c, WordOfNat(a)), Add32(c, WordOfNat(b));
    LoadOfLe(x, iv[4..]);
    LoadOfLe(y, iv[4..]);
    AddMod(c, WordOfNat(a));
    AddMod(c, WordOfNat(b));
    WordOfNatMod(a);
    WordOfNatMod(b);
    WordNatBound(c);
    ModDistance(WordNat(c), a, b);
    if WordNat(x) == WordNat(y) {
      WordNatInjective(x, y);
    }
  }

  lemma ModDistance(c: nat, a: nat, b: nat)
    requires a <= b
    ensures (c + a % TWO_32) % TWO_32 == (c + b % TWO_32) % TWO_32 <==> (b - a) % TWO_32 == 0
  {}

  lemma EnginePeriod(key: seq<byte>)
    requires |key| == 32
    ensures HasPeriod(ChaChaEngine(key), TWO_32)
  {
    hide Advance32;
    var e := ChaChaEngine(key);
    forall iv: S.Iv, a: nat, b: nat | a <= b
      ensures e.advance(iv, a) == e.advance(iv, b) <==> (b - a) % TWO_32 == 0
    {
      Advance32Injective(iv, a, b);
    }
  }

  // ---- What the invocations start from ----

  // The sixteen words that the invocation of block g of job k sets up.
  function StartOf(key: seq<byte>, jobs: seq<S.Job>, k: nat, g: nat): seq<word>
    requires |key| == 32 && k < |jobs|
  {
    var iv := jobs[k].iv;
    R.InitialState(key, Add32(LoadWord(iv, 0), WordOfNat(g)), iv[4..])
  }

  predicate SameStart(key: seq<byte>, jobs: seq<S.Job>, k: nat, g: nat, m: nat, h: nat)
    requires |key| == 32
  {
    var e := ChaChaEngine(key);
    IsBlock(e, jobs, k, g) && IsBlock(e, jobs, m, h) && StartOf(key, jobs, k, g) == StartOf(key, jobs, m, h)
  }

  ghost predicate StartsDiffer(key: seq<byte>, jobs: seq<S.Job>)
    requires |key| == 32
  {
    forall k, g, m, h :: SameStart(key, jobs, k, g, m, h) ==> k == m && g == h
  }

  // The state the invocation sets up is the one of the advanced IV, and tells it.
  lemma StartIsCounter(key: seq<byte>, iv: S.Iv, g: nat, other: S.Iv, h: nat)
    requires |key| == 32
    ensures R.InitialState(key, Add32(LoadWord(iv, 0), WordOfNat(g)), iv[4..]) ==
            R.InitialState(key, Add32(LoadWord(other, 0), WordOfNat(h)), other[4..]) <==>
            Advance32(iv, g) == Advance32(other, h)
  {
    hide LoadWord, Le, Add32, WordOfNat, R.InitialState;
    var x, y := Add32(LoadWord(iv, 0), WordOfNat(g)), Add32(LoadWord(other, 0), WordOfNat(h));
    LoadOfLe(x, iv[4..]);
    LoadOfLe(y, other[4..]);
    assert Advance32(iv, g)[4..] == iv[4..] && Advance32(other, h)[4..] == other[4..];
    StateTellsCounter(key, x, iv[4..], y, other[4..]);
  }

  lemma StateTellsCounter(key: seq<byte>, x: word, nonce: seq<byte>, y: word, other: seq<byte>)
    requires |key| == 32 && |nonce| == |other| == 12
    ensures R.InitialState(key, x, nonce) == R.InitialState(key, y, other) <==> x == y && nonce == other
  {
    hide R.InitialState, LoadWord;
    if R.InitialState(key, x, nonce) == R.InitialState(key, y, other) {
      StateWords(key, x, nonce);
      StateWords(key, y, other);
      NonceWords(nonce, other);
    }
  }

  lemma StateWords(key: seq<byte>, x: word, nonce: seq<byte>)
    requires |key| == 32 && |nonce| == 12
    ensures var s := R.InitialState(key, x, nonce);
            s[12] == x && s[13] == LoadWord(nonce, 0) && s[14] == LoadWord(nonce, 1) && s[15] == LoadWord(nonce, 2)
  {
    hide LoadWord;
  }

  lemma NonceWords(a: seq<byte>, b: seq<byte>)
    requires |a| == |b| == 12
    requires LoadWord(a, 0) == LoadWord(b, 0) && LoadWord(a, 1) == LoadWord(b, 1) && LoadWord(a, 2) == LoadWord(b, 2)
    ensures a == b
  {
    hide LoadWord;
    SameWord(a, b, 0);
    SameWord(a, b, 1);
    SameWord(a, b, 2);
    ThreeWords(a);
    ThreeWords(b);
  }

  lemma SameWord(a: seq<byte>, b: seq<byte>, i: nat)
    requires |a| == |b| && 4 * i + 4 <= |a| && LoadWord(a, i) == LoadWord(b, i)
    ensures a[4 * i..4 * i + 4] == b[4 * i..4 * i + 4]
  {
    hide LoadWord, Le;
    LeOfLoad(a, i);
    LeOfLoad(b, i);
  }

  lemma ThreeWords(a: seq<byte>)
    requires |a| == 12
    ensures a == a[0..4] + a[4..8] + a[8..12]
  {}

  lemma SameStartIsSameCounter(key: seq<byte>, jobs: seq<S.Job>, k: nat, g: nat, m: nat, h: nat)
    requires |key| == 32
    ensures SameStart(key, jobs, k, g, m, h) <==> SameCounter(ChaChaEngine(key), jobs, k, g, m, h)
  {
    hide Advance32, R.InitialState, LoadWord, Add32, WordOfNat;
    if IsBlock(ChaChaEngine(key), jobs, k, g) && IsBlock(ChaChaEngine(key), jobs, m, h) {
      StartIsCounter(key, jobs[k].iv, g, jobs[m].iv, h);
    }
  }

  // ---- Whole runs ----

  /** Over any run, whatever failed: all the blocks of the successful updates and the final call have different
      counters, and different states to start from, exactly when there are at most 2^32 of them. */
  lemma RunCountersDifferExact(key: seq<byte>, iv: S.Iv, calls: seq<S.Call>, finalOk: bool)
    requires |key| == 32
    ensures var e := ChaChaEngine(key);
            var jobs := Submitted(e, iv, calls, finalOk);
            && (CountersDiffer(e, jobs) <==> S.Blocks(e, jobs) <= TWO_32)
            && (StartsDiffer(key, jobs) <==> S.Blocks(e, jobs) <= TWO_32)
  {
    hide Submitted, S.Blocks, S.Consecutive, HasPeriod, SameStart, SameCounter;
    var e := ChaChaEngine(key);
    var jobs := Submitted(e, iv, calls, finalOk);
    EngineLawful(key);
    EnginePeriod(key);
    SubmittedConsecutive(e, iv, calls, finalOk);
    CountersDifferExact(e, iv, jobs, TWO_32);
    forall k, g, m, h
      ensures SameStart(key, jobs, k, g, m, h) <==> SameCounter(e, jobs, k, g, m, h)
    {
      SameStartIsSameCounter(key, jobs, k, g, m, h);
    }
  }

  /** For a successful run with its final call the limit is one on the message: 2^38 bytes. */
  lemma MessageCountersDifferExact(key: seq<byte>, iv: S.Iv, calls: seq<S.Call>)
    requires |key| == 32 && S.Run(ChaChaEngine(key), iv, calls).ok
    ensures StartsDiffer(key, Submitted(ChaChaEngine(key), iv, calls, true)) <==> |S.Message(calls)| <= 64 * TWO_32
  {
    hide Submitted, S.Run, S.Blocks, S.Message, StartsDiffer, CountersDiffer;
    EngineLawful(key);
    RunCountersDifferExact(key, iv, calls, true);
    SubmittedBlocks(ChaChaEngine(key), iv, calls);
  }

  /** Beyond 2^32 blocks some block of the run is enciphered with the keystream of another one. */
  lemma KeystreamComesRound(key: seq<byte>, iv: S.Iv, calls: seq<S.Call>, finalOk: bool)
    returns (k: nat, g: nat, m: nat, h: nat)
    requires |key| == 32
    requires var e := ChaChaEngine(key); TWO_32 < S.Blocks(e, Submitted(e, iv, calls, finalOk))
    ensures var e := ChaChaEngine(key);
            var jobs := Submitted(e, iv, calls, finalOk);
            && IsBlock(e, jobs, k, g) && IsBlock(e, jobs, m, h) && !(k == m && g == h)
            && (forall i :: 0 <= i < 64 ==> SameKeyByte(key, jobs, k, g, m, h, i))
  {
    hide Submitted, S.Blocks, S.Consecutive, HasPeriod, R.KeystreamByte, CounterOf;
    var e := ChaChaEngine(key);
    var jobs := Submitted(e, iv, calls, finalOk);
    EngineLawful(key);
    EnginePeriod(key);
    SubmittedConsecutive(e, iv, calls, finalOk);
    k, g, m, h := MeetBeyondPeriod(e, iv, jobs, TWO_32);
    forall i | 0 <= i < 64
      ensures SameKeyByte(key, jobs, k, g, m, h, i)
    {
      CounterGivesKey(key, jobs, k, g, m, h, i);
    }
  }

  // Byte i of the keystream of the two blocks is the same.
  predicate SameKeyByte(key: seq<byte>, jobs: seq<S.Job>, k: nat, g: nat, m: nat, h: nat, i: nat)
    requires |key| == 32 && k < |jobs| && m < |jobs|
  {
    R.KeystreamByte(key, jobs[k].iv, 64 * g + i) == R.KeystreamByte(key, jobs[m].iv, 64 * h + i)
  }

  lemma CounterGivesKey(key: seq<byte>, jobs: seq<S.Job>, k: nat, g: nat, m: nat, h: nat, i: nat)
    requires |key| == 32 && SameCounter(ChaChaEngine(key), jobs, k, g, m, h)
    ensures SameKeyByte(key, jobs, k, g, m, h, i)
  {
    hide R.KeystreamByte, Advance32;
    JobKeystream(key, jobs[k].iv, g, i);
    JobKeystream(key, jobs[m].iv, h, i);
  }
}
