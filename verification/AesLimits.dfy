/** AES-256 streams at the 64-bit wrap: when the split of a message matters, and why keystream is never used twice. */
module AesLimits {
  import opened Bytes
  import opened Counter
  import opened Words
  import opened Sizes
  import opened ShaderCounter
  import opened AesCtr
  import opened AesStream
  import opened Retry
  import opened Reuse
  import S = Stream

  // ---- Splits ----

  // One way to send a message: its updates and what the final call is met with.
  datatype Sending = Sending(calls: seq<S.Call>, outsize: nat, finalOk: bool)

  predicate Succeeds(key: seq<byte>, iv: S.Iv, message: seq<byte>, x: Sending)
    requires |key| == 32
  {
    S.Message(x.calls) == message && S.WholeRun(AesEngine(key), iv, x.calls, x.outsize, x.finalOk).ok
  }

  function Sent(key: seq<byte>, iv: S.Iv, x: Sending): seq<byte>
    requires |key| == 32
  {
    S.WholeRun(AesEngine(key), iv, x.calls, x.outsize, x.finalOk).output
  }

  // The whole blocks of the message stay below the wrap.
  predicate BelowWrap(iv: S.Iv, message: seq<byte>) {
    Low64(iv) + |message| / 16 <= TWO_64
  }

  /** Every successful way to send a message gives the standard ciphertext exactly when the message stays below the
      wrap. */
  lemma EverySplitStandardExact(key: seq<byte>, iv: S.Iv, message: seq<byte>)
    requires |key| == 32
    ensures (forall x :: Succeeds(key, iv, message, x) ==> Sent(key, iv, x) == CtrEncrypt(key, iv, message)) <==>
            Low64(iv) + |message| / 16 <= TWO_64
  {
    hide Succeeds, Sent, CtrEncrypt, Low64;
    if BelowWrap(iv, message) {
      forall x | Succeeds(key, iv, message, x)
        ensures Sent(key, iv, x) == CtrEncrypt(key, iv, message)
      {
        StandardBelowWrap(key, iv, message, x);
      }
    } else {
      RightAndWrong(key, iv, message);
    }
  }

  /** The split of a message does not matter exactly when the message stays below the wrap. */
  lemma SplitIndependenceExact(key: seq<byte>, iv: S.Iv, message: seq<byte>)
    requires |key| == 32
    ensures (forall x, y :: Succeeds(key, iv, message, x) && Succeeds(key, iv, message, y) ==>
                            Sent(key, iv, x) == Sent(key, iv, y)) <==>
            Low64(iv) + |message| / 16 <= TWO_64
  {
    hide Succeeds, Sent, CtrEncrypt, Low64;
    if BelowWrap(iv, message) {
      forall x, y | Succeeds(key, iv, message, x) && Succeeds(key, iv, message, y)
        ensures Sent(key, iv, x) == Sent(key, iv, y)
      {
        StandardBelowWrap(key, iv, message, x);
        StandardBelowWrap(key, iv, message, y);
      }
    } else {
      RightAndWrong(key, iv, message);
    }
  }

  lemma StandardBelowWrap(key: seq<byte>, iv: S.Iv, message: seq<byte>, x: Sending)
    requires |key| == 32 && BelowWrap(iv, message) && Succeeds(key, iv, message, x)
    ensures Sent(key, iv, x) == CtrEncrypt(key, iv, message)
  {
    hide S.WholeRun, S.Message, CtrEncrypt, CrossesNowhere, Low64;
    ShortEnough(iv, x.calls);
    AesEndToEnd(key, iv, x.calls, x.outsize, x.finalOk);
  }

  lemma {:induction false} ShortEnough(iv: S.Iv, calls: seq<S.Call>)
    requires BelowWrap(iv, S.Message(calls))
    ensures CrossesNowhere(iv, calls)
  {
    hide Low64;
    if calls != [] {
      ShortEnough(iv, calls[..|calls| - 1]);
    }
  }

  // ---- Two ways to send a message that reaches the wrap ----

  // Byte by byte: no update ever submits more than a block.
  function Bytewise(message: seq<byte>): (calls: seq<S.Call>)
    ensures forall c :: c in calls ==> |c.data| == 1 && c.flushOk && c.bulkOk
    ensures S.Message(calls) == message
  {
    if message == [] then []
    else
      var n := |message| - 1;
      assert message == message[..n] + message[n..];
      var calls := Bytewise(message[..n]);
      assert (calls + [S.Call(message[n..], true, true)])[..|calls|] == calls;
      calls + [S.Call(message[n..], true, true)]
  }

  // Byte by byte but for the two blocks around the wrap.
  function AcrossWrap(iv: S.Iv, message: seq<byte>): seq<S.Call>
    requires !BelowWrap(iv, message)
  {
    var at := LastBelow(iv, message);
    (Bytewise(message[..at]) + [S.Call(message[at..at + 32], true, true)]) + Bytewise(message[at + 32..])
  }

  // Where the last block below the wrap starts.
  function LastBelow(iv: S.Iv, message: seq<byte>): (at: nat)
    requires !BelowWrap(iv, message)
    ensures at + 32 <= |message| && at % 16 == 0
    ensures at / 16 == TWO_64 - 1 - Low64(iv)
  {
    Low64Bound(iv);
    16 * (TWO_64 - 1 - Low64(iv))
  }

  lemma RightAndWrong(key: seq<byte>, iv: S.Iv, message: seq<byte>)
    requires |key| == 32 && !BelowWrap(iv, message)
    ensures var right, wrong := Sending(Bytewise(message), 16, true), Sending(AcrossWrap(iv, message), 16, true);
            && Succeeds(key, iv, message, right) && Sent(key, iv, right) == CtrEncrypt(key, iv, message)
            && Succeeds(key, iv, message, wrong) && Sent(key, iv, wrong) != CtrEncrypt(key, iv, message)
  {
    hide S.WholeRun, S.Message, CtrEncrypt, CrossesNowhere, Low64, Bytewise, AcrossWrap;
    ShortCallsSucceed(key, iv, Bytewise(message));
    SmallCallsNeverCross(iv, Bytewise(message));
    AesEndToEnd(key, iv, Bytewise(message), 16, true);
    AcrossWrapSends(iv, message);
    ShortCallsSucceed(key, iv, AcrossWrap(iv, message));
    AcrossWrapCrosses(iv, message);
    AesEndToEnd(key, iv, AcrossWrap(iv, message), 16, true);
  }

  lemma {:induction false} MessageConcat(a: seq<S.Call>, b: seq<S.Call>)
    ensures S.Message(a + b) == S.Message(a) + S.Message(b)
  {
    if b == [] {
      assert a + b == a;
    } else {
      assert (a + b)[..|a + b| - 1] == a + b[..|b| - 1];
      MessageConcat(a, b[..|b| - 1]);
    }
  }

  lemma AcrossWrapSends(iv: S.Iv, message: seq<byte>)
    requires !BelowWrap(iv, message)
    ensures S.Message(AcrossWrap(iv, message)) == message
    ensures forall c :: c in AcrossWrap(iv, message) ==> |c.data| <= 32 && c.flushOk && c.bulkOk
  {
    hide Low64, BelowWrap, Bytewise, S.Message;
    var at := LastBelow(iv, message);
    var before, c, after := Bytewise(message[..at]), S.Call(message[at..at + 32], true, true),
                            Bytewise(message[at + 32..]);
    assert AcrossWrap(iv, message) == (before + [c]) + after;
    hide AcrossWrap;
    MessageConcat(before, [c]);
    MessageConcat(before + [c], after);
    OneCall(iv, c);
    ThreeParts(message, at);
  }

  lemma ThreeParts(message: seq<byte>, at: nat)
    requires at + 32 <= |message|
    ensures (message[..at] + message[at..at + 32]) + message[at + 32..] == message
  {}

  // A crossing update is a crossing run, whatever follows.
  lemma {:induction false} CrossingStays(iv: S.Iv, a: seq<S.Call>, b: seq<S.Call>)
    requires !CrossesNowhere(iv, a)
    ensures !CrossesNowhere(iv, a + b)
  {
    hide BulkFits;
    if b == [] {
      assert a + b == a;
    } else {
      assert (a + b)[..|a + b| - 1] == a + b[..|b| - 1];
      CrossingStays(iv, a, b[..|b| - 1]);
    }
  }

  lemma AcrossWrapCrosses(iv: S.Iv, message: seq<byte>)
    requires !BelowWrap(iv, message)
    ensures !CrossesNowhere(iv, AcrossWrap(iv, message))
  {
    hide Low64, BelowWrap, Bytewise, S.Message;
    var at := LastBelow(iv, message);
    var before, c := Bytewise(message[..at]), S.Call(message[at..at + 32], true, true);
    Low64Bound(iv);
    assert (before + [c])[..|before|] == before;
    assert (at + 15) / 16 == at / 16 && (at + 32) / 16 == at / 16 + 2;
    assert !BulkFits(iv, at, 32);
    CrossingStays(iv, before + [c], Bytewise(message[at + 32..]));
  }

  lemma {:induction false} SmallCallsNeverCross(iv: S.Iv, calls: seq<S.Call>)
    requires forall c :: c in calls ==> |c.data| <= 16
    ensures CrossesNowhere(iv, calls)
  {
    hide Low64, S.Message;
    if calls != [] {
      SmallCallsNeverCross(iv, calls[..|calls| - 1]);
      var sent, len := |S.Message(calls[..|calls| - 1])|, |calls[|calls| - 1].data|;
      assert (sent + len) / 16 - (sent + 15) / 16 <= 1;
    }
  }

  lemma OneCall(iv: S.Iv, c: S.Call)
    ensures S.Message([c]) == c.data
    ensures CrossesNowhere(iv, [c]) <==> BulkFits(iv, 0, |c.data|)
  {
    hide BulkFits;
    assert [c][..0] == [];
  }

  // Calls within the job limit that meet no failure succeed.
  lemma ShortCallsSucceed(key: seq<byte>, iv: S.Iv, calls: seq<S.Call>)
    requires |key| == 32
    requires forall c :: c in calls ==> |c.data| <= RING_SIZE && c.flushOk && c.bulkOk
    ensures S.WholeRun(AesEngine(key), iv, calls, 16, true).ok
  {
    hide S.Run, S.Final, JobByte, Advance;
    var e := AesEngine(key);
    EngineLawful(key);
    ShortRunSucceeds(key, iv, calls);
    S.FinalOk(e, S.Run(e, iv, calls).state, 16);
  }

  lemma {:induction false} ShortRunSucceeds(key: seq<byte>, iv: S.Iv, calls: seq<S.Call>)
    requires |key| == 32
    requires forall c :: c in calls ==> |c.data| <= RING_SIZE && c.flushOk && c.bulkOk
    ensures S.Run(AesEngine(key), iv, calls).ok
  {
    hide S.Update, JobByte, Advance;
    EngineLawful(key);
    if calls != [] {
      var before, c := calls[..|calls| - 1], calls[|calls| - 1];
      ShortRunSucceeds(key, iv, before);
      AcceptedExactly(AesEngine(key), S.Run(AesEngine(key), iv, before).state, c.data);
    }
  }

  // ---- The wrap at its smallest ----

  // An IV whose lower half is about to wrap.
  function LastBeforeWrap(): S.Iv {
    seq(8, i => 0) + Repeated(0xFF, 8)
  }

  lemma LastBeforeWrapLow()
    ensures Low64(LastBeforeWrap()) == TWO_64 - 1
  {
    hide Val;
    RepeatedValue(8);
    PowValues();
    assert LastBeforeWrap()[8..] == Repeated(0xFF, 8);
  }

  /** For every key: two blocks sent in one update come out wrong, and the same two blocks sent in two updates come out
      right. */
  lemma SplitMattersAtTheWrap(key: seq<byte>, first: seq<byte>, second: seq<byte>)
    requires |key| == 32 && |first| == |second| == 16
    ensures var e, iv, message := AesEngine(key), LastBeforeWrap(), first + second;
            var one := S.WholeRun(e, iv, [S.Call(message, true, true)], 16, true);
            var two := S.WholeRun(e, iv, [S.Call(first, true, true), S.Call(second, true, true)], 16, true);
            one.ok && two.ok && one.output != CtrEncrypt(key, iv, message) && two.output == CtrEncrypt(key, iv, message)
  {
    hide CtrEncrypt, Low64, LastBeforeWrap, CrossesNowhere, S.WholeRun, S.Run, S.Message, AesEngine;
    var iv, message := LastBeforeWrap(), first + second;
    var c, c1, c2 := S.Call(message, true, true), S.Call(first, true, true), S.Call(second, true, true);
    LastBeforeWrapLow();
    OneCall(iv, c);
    MessageConcat([c1], [c2]);
    OneCall(iv, c1);
    OneCall(iv, c2);
    assert [c1] + [c2] == [c1, c2];
    SmallCallsNeverCross(iv, [c1, c2]);
    ShortCallsSucceed(key, iv, [c]);
    ShortCallsSucceed(key, iv, [c1, c2]);
    AesEndToEnd(key, iv, [c], 16, true);
    AesEndToEnd(key, iv, [c1, c2], 16, true);
  }

  // ---- Keystream blocks over a whole run ----

  // The keystream block of invocation g of job k.
  function KeystreamBlock(key: seq<byte>, jobs: seq<S.Job>, k: nat, g: nat): seq<byte>
    requires |key| == 32 && k < |jobs|
  {
    EncryptBlock(key, ShaderBlock(jobs[k].iv, WordOfNat(g)))
  }

  lemma Low64OfShaderBlock(iv: S.Iv, n: nat, g: nat)
    requires g < TWO_32
    ensures Low64(ShaderBlock(Advance(iv, n), WordOfNat(g))) == (Low64(iv) + n + g) % TWO_64
  {
    hide ShaderBlock, Advance, Val, WordOfNat, WordNat;
    var start := Advance(iv, n);
    WordOfNatValue(g);
    Low64Advance(iv, n);
    ShaderBlockValue(start, WordOfNat(g));
    Low64OfVal(ShaderBlock(start, WordOfNat(g)));
  }

  lemma SumsDiffer(l: nat, i: nat, j: nat)
    requires i < TWO_64 && j < TWO_64 && i != j
    ensures (l + i) % TWO_64 != (l + j) % TWO_64
  {}

  /** Consecutive jobs never share a keystream block, wrap or no wrap, up to 2^64 blocks: the shader gets the lower half
      of every counter right, and the cipher is injective. */
  lemma KeystreamNeverRepeats(key: seq<byte>, iv: S.Iv, jobs: seq<S.Job>, k: nat, g: nat, m: nat, h: nat)
    requires |key| == 32 && S.Consecutive(AesEngine(key), iv, jobs) && S.Blocks(AesEngine(key), jobs) <= TWO_64
    requires k < |jobs| && m < |jobs| && g < |jobs[k].data| / 16 && h < |jobs[m].data| / 16
    ensures KeystreamBlock(key, jobs, k, g) == KeystreamBlock(key, jobs, m, h) <==> k == m && g == h
  {
    hide S.Blocks, EncryptBlock, ShaderBlock, Advance, Low64, WordOfNat, JobByte;
    var e := AesEngine(key);
    assert S.InSequence(e, iv, jobs, k) && S.InSequence(e, iv, jobs, m);
    var a, b := S.Blocks(e, jobs[..k]), S.Blocks(e, jobs[..m]);
    PlaceInjective(e, jobs, k, g, m, h);
    PlaceInjective(e, jobs, m, h, k, g);
    if a + g != b + h {
      SumsDiffer(Low64(iv), a + g, b + h);
      Low64OfShaderBlock(iv, a, g);
      Low64OfShaderBlock(iv, b, h);
      EncryptInjective(key, ShaderBlock(jobs[k].iv, WordOfNat(g)), ShaderBlock(jobs[m].iv, WordOfNat(h)));
    }
  }

  /** No keystream reuse: over any run, whatever failed and wherever the counter wraps, all the blocks that the
      successful updates and the final call encrypt with are different. */
  lemma RunNeverReusesKeystream(key: seq<byte>, iv: S.Iv, calls: seq<S.Call>, finalOk: bool, k: nat, g: nat, m: nat,
                                h: nat)
    requires |key| == 32 && S.Blocks(AesEngine(key), Submitted(AesEngine(key), iv, calls, finalOk)) <= TWO_64
    requires k < |Submitted(AesEngine(key), iv, calls, finalOk)| &&
             g < |Submitted(AesEngine(key), iv, calls, finalOk)[k].data| / 16
    requires m < |Submitted(AesEngine(key), iv, calls, finalOk)| &&
             h < |Submitted(AesEngine(key), iv, calls, finalOk)[m].data| / 16
    ensures var jobs := Submitted(AesEngine(key), iv, calls, finalOk);
            KeystreamBlock(key, jobs, k, g) == KeystreamBlock(key, jobs, m, h) <==> k == m && g == h
  {
    hide Submitted, S.Blocks, KeystreamBlock, S.Consecutive, JobByte, Advance;
    EngineLawful(key);
    SubmittedConsecutive(AesEngine(key), iv, calls, finalOk);
    KeystreamNeverRepeats(key, iv, Submitted(AesEngine(key), iv, calls, finalOk), k, g, m, h);
  }

  /** The provider's counters, too, differ over a run exactly up to 2^128 blocks. */
  lemma RunCountersDifferExact(key: seq<byte>, iv: S.Iv, calls: seq<S.Call>, finalOk: bool)
    requires |key| == 32
    ensures var e := AesEngine(key);
            CountersDiffer(e, Submitted(e, iv, calls, finalOk)) <==>
                S.Blocks(e, Submitted(e, iv, calls, finalOk)) <= TWO_128
  {
    hide Submitted, S.Blocks, S.Consecutive, CountersDiffer, JobByte, Advance;
    var e := AesEngine(key);
    EngineLawful(key);
    SubmittedConsecutive(e, iv, calls, finalOk);
    forall v: S.Iv, a: nat, b: nat | a <= b
      ensures e.advance(v, a) == e.advance(v, b) <==> (b - a) % TWO_128 == 0
    {
      AdvanceInjective(v, a, b);
    }
    CountersDifferExact(e, iv, Submitted(e, iv, calls, finalOk), TWO_128);
  }
}
