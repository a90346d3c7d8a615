/** AES-256 streams across the 64-bit wrap: which two splits of a message still use the same keystream. */
module AesEpochs {
  import opened Bytes
  import opened Counter
  import opened Words
  import opened Sizes
  import opened ShaderCounter
  import opened AesCtr
  import opened AesStream
  import opened Reuse
  import S = Stream

  // ---- Where the job of a block starts ----

  /** The block at which the job that enciphers block i of the message starts. It takes the lengths of the updates only:
      a bulk job starts at the first block boundary of its update, any other job is a single block. */
  function JobStart(calls: seq<S.Call>, i: nat): (n: nat)
    ensures n <= i
  {
    if calls == [] then i
    else
      var before := calls[..|calls| - 1];
      var sent, total := |S.Message(before)|, |S.Message(calls)|;
      var first := (sent + 15) / 16;
      if i < sent / 16 then JobStart(before, i)
      else if first <= i < total / 16 then first
      else i
  }

  predicate StartsAt(calls: seq<S.Call>, n: nat, g: nat) {
    JobStart(calls, n + g) == n
  }

  // The job that starts at block n and has this length.
  ghost predicate JobStarts(calls: seq<S.Call>, n: nat, len: nat) {
    forall g: nat :: 16 * g < len ==> StartsAt(calls, n, g)
  }

  lemma {:induction false} RunStarts(key: seq<byte>, iv: S.Iv, calls: seq<S.Call>, k: nat)
    requires |key| == 32 && S.Run(AesEngine(key), iv, calls).ok && k < |S.Run(AesEngine(key), iv, calls).jobs|
    ensures var jobs := S.Run(AesEngine(key), iv, calls).jobs;
            JobStarts(calls, S.Blocks(AesEngine(key), jobs[..k]), |jobs[k].data|)
  {
    hide S.Update, S.Message, S.Blocks, S.Data, S.Output, S.Consecutive, JobByte, Advance, JobStarts;
    var e := AesEngine(key);
    EngineLawful(key);
    if calls != [] {
      var before := calls[..|calls| - 1];
      var r, jobs := S.Run(e, iv, before), S.Run(e, iv, calls).jobs;
      if k < |r.jobs| {
        RunStarts(key, iv, before, k);
        RunBlocks(key, iv, before);
        S.RunInvariant(e, iv, before);
        assert jobs[..k] == r.jobs[..k] && jobs[k] == r.jobs[k];
        EarlierJobs(key, iv, calls, r.jobs, k);
      } else {
        LaterJobs(key, iv, calls, k);
      }
    }
  }

  lemma LaterJobs(key: seq<byte>, iv: S.Iv, calls: seq<S.Call>, k: nat)
    requires |key| == 32 && S.Run(AesEngine(key), iv, calls).ok && calls != []
    requires |S.Run(AesEngine(key), iv, calls[..|calls| - 1]).jobs| <= k < |S.Run(AesEngine(key), iv, calls).jobs|
    ensures var jobs := S.Run(AesEngine(key), iv, calls).jobs;
            JobStarts(calls, S.Blocks(AesEngine(key), jobs[..k]), |jobs[k].data|)
  {
    hide S.Update, S.Message, S.Blocks, S.Data, S.Output, JobByte, Advance, S.FlushJobs, S.BulkJobs, JobStarts;
    var e := AesEngine(key);
    var before, c := calls[..|calls| - 1], calls[|calls| - 1];
    var r, jobs := S.Run(e, iv, before), S.Run(e, iv, calls).jobs;
    EngineLawful(key);
    StateAfter(key, iv, before);
    RunBlocks(key, iv, before);
    S.UpdateShape(e, r.state, c.data, c.flushOk, c.bulkOk);
    var added, m := S.FlushJobs(e, r.state, c.data) + S.BulkJobs(e, r.state, c.data), k - |r.jobs|;
    assert jobs == r.jobs + added;
    LastJobs(e, calls, r, c.data, m);
    assert jobs[..k] == r.jobs + added[..m];
    S.JobsConcat(e, r.jobs, added[..m]);
  }

  lemma RunBlocks(key: seq<byte>, iv: S.Iv, calls: seq<S.Call>)
    requires |key| == 32 && S.Run(AesEngine(key), iv, calls).ok
    ensures S.Blocks(AesEngine(key), S.Run(AesEngine(key), iv, calls).jobs) == |S.Message(calls)| / 16
  {
    hide S.Run, S.Message, S.Blocks, S.Data, S.Output, S.Consecutive, S.Final, JobByte, Advance;
    var e := AesEngine(key);
    var r := S.Run(e, iv, calls);
    EngineLawful(key);
    S.RunInvariant(e, iv, calls);
    S.WholeJobs(e, iv, r.jobs);
    S.LengthConservation(e, iv, calls, 0, true);
    var q: nat := S.Blocks(e, r.jobs);
    assert |S.Message(calls)| == 16 * q + |r.state.partial|;
  }

  // The jobs of earlier calls keep their starts.
  lemma EarlierJobs(key: seq<byte>, iv: S.Iv, calls: seq<S.Call>, jobs: seq<S.Job>, k: nat)
    requires |key| == 32 && calls != [] && k < |jobs| && S.Consecutive(AesEngine(key), iv, jobs)
    requires S.Blocks(AesEngine(key), jobs) == |S.Message(calls[..|calls| - 1])| / 16
    requires JobStarts(calls[..|calls| - 1], S.Blocks(AesEngine(key), jobs[..k]), |jobs[k].data|)
    ensures JobStarts(calls, S.Blocks(AesEngine(key), jobs[..k]), |jobs[k].data|)
  {
    hide S.Message, S.Blocks, JobByte, Advance;
    var e := AesEngine(key);
    assert S.InSequence(e, iv, jobs, k);
    BlocksGrow(e, jobs, k, |jobs|);
    assert jobs[..|jobs|] == jobs;
    var before, n := calls[..|calls| - 1], S.Blocks(e, jobs[..k]);
    forall g: nat | 16 * g < |jobs[k].data|
      ensures StartsAt(calls, n, g)
    {
      assert StartsAt(before, n, g);
    }
  }

  // The jobs of the last call: the flush is its own start, the bulk job starts at the next boundary.
  lemma LastJobs(e: S.Engine, calls: seq<S.Call>, r: S.RunResult, data: seq<byte>, m: nat)
    requires e.block == 16 && calls != [] && data == calls[|calls| - 1].data && |r.state.partial| < 16
    requires |r.state.partial| == |S.Message(calls[..|calls| - 1])| % 16
    requires var jobs := S.FlushJobs(e, r.state, data) + S.BulkJobs(e, r.state, data); m < |jobs|
    ensures var jobs := S.FlushJobs(e, r.state, data) + S.BulkJobs(e, r.state, data);
            JobStarts(calls, |S.Message(calls[..|calls| - 1])| / 16 + S.Blocks(e, jobs[..m]), |jobs[m].data|)
  {
    hide S.Engine.JobOutput, S.Blocks;
    var flush, bulk := S.FlushJobs(e, r.state, data), S.BulkJobs(e, r.state, data);
    var sent, total := |S.Message(calls[..|calls| - 1])|, |S.Message(calls)|;
    var jobs := flush + bulk;
    S.NoJobs(e);
    assert total == sent + |data|;
    if m < |flush| {
      assert jobs[..m] == [] && jobs[m] == flush[0];
      assert StartsAt(calls, sent / 16, 0);
    } else {
      assert jobs[..m] == flush && jobs[m] == bulk[0];
      if flush != [] {
        assert flush == [flush[0]];
        S.OneJob(e, flush[0]);
      }
      BulkStarts(calls, sent, total);
      assert sent / 16 + |flush| == (sent + 15) / 16;
    }
  }

  lemma BulkStarts(calls: seq<S.Call>, sent: nat, total: nat)
    requires calls != [] && sent == |S.Message(calls[..|calls| - 1])| && total == |S.Message(calls)|
    ensures var first, last := (sent + 15) / 16, total / 16;
            first < last ==> JobStarts(calls, first, 16 * (last - first))
  {
    hide S.Message;
  }

  // The final job, and any block still pending, is its own start.
  lemma PendingStarts(calls: seq<S.Call>)
    ensures JobStart(calls, |S.Message(calls)| / 16) == |S.Message(calls)| / 16
  {}

  // ---- Epochs ----

  // How often the lower 64 bits have wrapped when the stream gets to block n, as far as the counter can tell.
  function Epoch(iv: S.Iv, n: nat): nat {
    (Low64(iv) + n) / TWO_64 % TWO_64
  }

  lemma UpperHalf(iv: S.Iv, n: nat)
    ensures Val(Advance(iv, n)[..8]) == (Val(iv[..8]) + (Low64(iv) + n) / TWO_64) % TWO_64
  {
    hide Val, Advance;
    var x := Advance(iv, n);
    assert iv == iv[..8] + iv[8..] && x == x[..8] + x[8..];
    ValConcat(iv[..8], iv[8..]);
    ValConcat(x[..8], x[8..]);
    PowValues();
    ValBound(x[..8]);
    ValBound(x[8..]);
    AdvanceValue(iv, n);
    UpperOf(Val(iv[..8]), Low64(iv) + n, Val(x[..8]), Val(x[8..]));
  }

  lemma UpperOf(h: nat, l: nat, newH: nat, newL: nat)
    requires newH < TWO_64 && newL < TWO_64
    requires newH * TWO_64 + newL == (h * TWO_64 + l) % TWO_128
    ensures newH == (h + l / TWO_64) % TWO_64
  {
    var q := h + l / TWO_64;
    assert h * TWO_64 + l == q * TWO_64 + l % TWO_64;
    assert q * TWO_64 + l % TWO_64 == q / TWO_64 * TWO_128 + (q % TWO_64 * TWO_64 + l % TWO_64);
    ModMultiple(h * TWO_64 + l, q / TWO_64);
  }

  lemma SameSum(h: nat, q: nat, p: nat)
    ensures (h + q) % TWO_64 == (h + p) % TWO_64 <==> q % TWO_64 == p % TWO_64
  {}

  // The block of invocation i - s of a job that starts at block s.
  function ShaderBlockAt(iv: S.Iv, s: nat, i: nat): (r: seq<byte>)
    requires s <= i
    ensures |r| == 16
  {
    ShaderBlock(Advance(iv, s), WordOfNat(i - s))
  }

  lemma ShaderBlockAtValue(iv: S.Iv, s: nat, i: nat)
    requires s <= i < s + TWO_32
    ensures Val(ShaderBlockAt(iv, s, i)) == Val(Advance(iv, s)[..8]) * TWO_64 + (Low64(iv) + i) % TWO_64
  {
    hide Val, Advance, ShaderBlock, WordOfNat, WordNat, Low64;
    WordOfNatValue(i - s);
    ShaderBlockValue(Advance(iv, s), WordOfNat(i - s));
    Low64Advance(iv, s);
    LowIs(Advance(iv, s));
    assert ((Low64(iv) + s) % TWO_64 + (i - s)) % TWO_64 == (Low64(iv) + i) % TWO_64;
  }

  lemma LowIs(iv: S.Iv)
    ensures Low64(iv) == Val(iv[8..])
  {}

  /** Jobs that start at s and at t use the same keystream for block i exactly when both start in the same epoch. */
  lemma SameKeyBlockExact(key: seq<byte>, iv: S.Iv, s: nat, t: nat, i: nat)
    requires |key| == 32 && s <= i < s + TWO_32 && t <= i < t + TWO_32
    ensures EncryptBlock(key, ShaderBlockAt(iv, s, i)) == EncryptBlock(key, ShaderBlockAt(iv, t, i)) <==>
            Epoch(iv, s) == Epoch(iv, t)
  {
    hide Val, Advance, ShaderBlockAt, EncryptBlock, Low64;
    var x, y := ShaderBlockAt(iv, s, i), ShaderBlockAt(iv, t, i);
    EncryptInjective(key, x, y);
    ShaderBlockAtValue(iv, s, i);
    ShaderBlockAtValue(iv, t, i);
    SameValue(x, y);
    UpperEpoch(iv, s, t);
  }

  lemma SameValue(x: seq<byte>, y: seq<byte>)
    requires |x| == |y|
    ensures x == y <==> Val(x) == Val(y)
  {
    hide Val, ToBytes;
    BytesOfVal(x);
    BytesOfVal(y);
  }

  lemma UpperEpoch(iv: S.Iv, s: nat, t: nat)
    ensures Val(Advance(iv, s)[..8]) == Val(Advance(iv, t)[..8]) <==> Epoch(iv, s) == Epoch(iv, t)
  {
    hide Val, Advance, Low64;
    UpperHalf(iv, s);
    UpperHalf(iv, t);
    SameSum(Val(iv[..8]), (Low64(iv) + s) / TWO_64, (Low64(iv) + t) / TWO_64);
  }

  // ---- The keystream of a whole run ----

  function StreamByte(key: seq<byte>, iv: S.Iv, calls: seq<S.Call>, p: nat): byte
    requires |key| == 32
  {
    var start := JobStart(calls, p / 16);
    JobByte(key, Advance(iv, start), p - 16 * start)
  }

  lemma StreamByteOfBlock(key: seq<byte>, iv: S.Iv, calls: seq<S.Call>, i: nat, r: nat)
    requires |key| == 32 && r < 16
    ensures StreamByte(key, iv, calls, 16 * i + r) ==
            EncryptBlock(key, ShaderBlockAt(iv, JobStart(calls, i), i))[r]
  {
    hide JobStart, Advance, EncryptBlock, ShaderBlock, WordOfNat;
    var s := JobStart(calls, i);
    InBlock(i, r);
    InBlock(i - s, r);
    assert 16 * i + r - 16 * s == 16 * (i - s) + r;
  }

  lemma InBlock(i: nat, r: nat)
    requires r < 16
    ensures (16 * i + r) / 16 == i && (16 * i + r) % 16 == r
  {}

  lemma JobKeystream(key: seq<byte>, iv: S.Iv, calls: seq<S.Call>, n: nat, len: nat, i: nat)
    requires |key| == 32 && JobStarts(calls, n, len) && i < len
    ensures JobByte(key, Advance(iv, n), i) == StreamByte(key, iv, calls, 16 * n + i)
  {
    hide JobByte, Advance, JobStart;
    assert StartsAt(calls, n, i / 16);
    assert (16 * n + i) / 16 == n + i / 16;
  }

  lemma WholeRunStarts(key: seq<byte>, iv: S.Iv, calls: seq<S.Call>, outsize: nat, finalOk: bool, k: nat)
    requires |key| == 32 && S.WholeRun(AesEngine(key), iv, calls, outsize, finalOk).ok
    requires k < |S.WholeRun(AesEngine(key), iv, calls, outsize, finalOk).jobs|
    ensures var jobs := S.WholeRun(AesEngine(key), iv, calls, outsize, finalOk).jobs;
            JobStarts(calls, S.Blocks(AesEngine(key), jobs[..k]), |jobs[k].data|)
  {
    hide S.Run, S.Final, S.Message, S.Blocks, JobByte, Advance, JobStart;
    var e := AesEngine(key);
    var r, jobs := S.Run(e, iv, calls), S.WholeRun(e, iv, calls, outsize, finalOk).jobs;
    if k < |r.jobs| {
      RunStarts(key, iv, calls, k);
      assert jobs[..k] == r.jobs[..k];
    } else {
      assert jobs[..k] == r.jobs;
      RunBlocks(key, iv, calls);
      StateAfter(key, iv, calls);
      PendingStarts(calls);
    }
  }

  /** Every successful run enciphers with this keystream, byte for byte. */
  lemma RunUsesStream(key: seq<byte>, iv: S.Iv, calls: seq<S.Call>, outsize: nat, finalOk: bool, ks: nat -> byte)
    requires |key| == 32 && forall p: nat :: ks(p) == StreamByte(key, iv, calls, p)
    requires S.WholeRun(AesEngine(key), iv, calls, outsize, finalOk).ok
    ensures S.WholeRun(AesEngine(key), iv, calls, outsize, finalOk).output == Xor(S.Message(calls), ks, 0)
  {
    hide S.WholeRun, S.Message, S.Data, S.Blocks, StreamByte, JobByte, Advance, JobStarts, Xor;
    var e := AesEngine(key);
    var jobs := S.WholeRun(e, iv, calls, outsize, finalOk).jobs;
    EngineLawful(key);
    forall k | 0 <= k < |jobs|
      ensures S.JobAgrees(e, jobs, ks, k)
    {
      S.WholeRunPlaces(e, iv, calls, outsize, finalOk, k);
      WholeRunStarts(key, iv, calls, outsize, finalOk, k);
      var n := S.Blocks(e, jobs[..k]);
      forall i | 0 <= i < |jobs[k].data|
        ensures e.jobByte(jobs[k].iv, i) == ks(|S.Data(jobs[..k])| + i)
      {
        JobKeystream(key, iv, calls, n, |jobs[k].data|, i);
      }
    }
    S.WholeRunExact(e, iv, calls, outsize, finalOk, ks);
  }

  // Every block of a successful run lies in a job that the rings could hold.
  lemma StartIsNear(key: seq<byte>, iv: S.Iv, calls: seq<S.Call>, i: nat)
    requires |key| == 32 && S.Run(AesEngine(key), iv, calls).ok && i < |S.Message(calls)| / 16
    ensures i < JobStart(calls, i) + TWO_32
  {
    hide S.Run, S.Message, S.Blocks, S.Data, S.Output, JobByte, Advance, JobStart, S.Consecutive;
    var e := AesEngine(key);
    var jobs := S.Run(e, iv, calls).jobs;
    EngineLawful(key);
    RunBlocks(key, iv, calls);
    S.RunInvariant(e, iv, calls);
    assert jobs[..|jobs|] == jobs;
    var k, g := BlockAt(e, jobs, |jobs|, i);
    RunStarts(key, iv, calls, k);
    assert StartsAt(calls, S.Blocks(e, jobs[..k]), g);
    JobWithinRing(e, iv, jobs, k);
  }

  lemma JobWithinRing(e: S.Engine, iv: S.Iv, jobs: seq<S.Job>, k: nat)
    requires 0 < e.block && S.Consecutive(e, iv, jobs) && k < |jobs|
    ensures |jobs[k].data| <= RING_SIZE
  {
    hide S.Blocks;
    assert S.InSequence(e, iv, jobs, k);
  }

  // ---- Two splits ----

  // Block i is enciphered in the same epoch under both splits.
  predicate SameEpoch(iv: S.Iv, a: seq<S.Call>, b: seq<S.Call>, i: nat) {
    Epoch(iv, JobStart(a, i)) == Epoch(iv, JobStart(b, i))
  }

  ghost predicate SameEpochs(iv: S.Iv, a: seq<S.Call>, b: seq<S.Call>, blocks: nat) {
    forall i :: 0 <= i < blocks ==> SameEpoch(iv, a, b, i)
  }

  predicate SameByte(key: seq<byte>, iv: S.Iv, a: seq<S.Call>, b: seq<S.Call>, p: nat)
    requires |key| == 32
  {
    StreamByte(key, iv, a, p) == StreamByte(key, iv, b, p)
  }

  predicate SameByteOfBlock(key: seq<byte>, iv: S.Iv, a: seq<S.Call>, b: seq<S.Call>, i: nat, r: nat)
    requires |key| == 32
  {
    SameByte(key, iv, a, b, 16 * i + r)
  }

  lemma BlockAgreesExact(key: seq<byte>, iv: S.Iv, a: seq<S.Call>, b: seq<S.Call>, i: nat)
    requires |key| == 32 && S.Run(AesEngine(key), iv, a).ok && S.Run(AesEngine(key), iv, b).ok
    requires |S.Message(a)| == |S.Message(b)| && i < |S.Message(a)| / 16
    ensures (forall r :: 0 <= r < 16 ==> SameByteOfBlock(key, iv, a, b, i, r)) <==> SameEpoch(iv, a, b, i)
  {
    hide S.Run, S.Message, JobStart, Epoch, StreamByte, EncryptBlock, ShaderBlockAt, JobByte;
    var s, t := JobStart(a, i), JobStart(b, i);
    StartIsNear(key, iv, a, i);
    StartIsNear(key, iv, b, i);
    SameKeyBlockExact(key, iv, s, t, i);
    var x, y := EncryptBlock(key, ShaderBlockAt(iv, s, i)), EncryptBlock(key, ShaderBlockAt(iv, t, i));
    forall r | 0 <= r < 16
      ensures SameByteOfBlock(key, iv, a, b, i, r) <==> x[r] == y[r]
    {
      StreamByteOfBlock(key, iv, a, i, r);
      StreamByteOfBlock(key, iv, b, i, r);
    }
    if x != y {
      BlocksDiffer(x, y);
      var r :| 0 <= r < 16 && x[r] != y[r];
      assert !SameByteOfBlock(key, iv, a, b, i, r);
    }
  }

  /** Two successful splits of one length use the same keystream exactly when every whole block is enciphered in the
      same epoch under both. */
  lemma StreamsAgreeExact(key: seq<byte>, iv: S.Iv, a: seq<S.Call>, b: seq<S.Call>)
    requires |key| == 32 && S.Run(AesEngine(key), iv, a).ok && S.Run(AesEngine(key), iv, b).ok
    requires |S.Message(a)| == |S.Message(b)|
    ensures (forall p :: 0 <= p < |S.Message(a)| ==> SameByte(key, iv, a, b, p)) <==>
            SameEpochs(iv, a, b, |S.Message(a)| / 16)
  {
    hide S.Run, S.Message, JobStart, SameEpoch, SameByte, JobByte;
    var len := |S.Message(a)|;
    if SameEpochs(iv, a, b, len / 16) {
      forall p | 0 <= p < len
        ensures SameByte(key, iv, a, b, p)
      {
        if p / 16 < len / 16 {
          assert SameEpoch(iv, a, b, p / 16);
          BlockAgreesExact(key, iv, a, b, p / 16);
          assert SameByteOfBlock(key, iv, a, b, p / 16, p % 16);
        } else {
          TailAgrees(key, iv, a, b, p);
        }
      }
    } else {
      var i :| 0 <= i < len / 16 && !SameEpoch(iv, a, b, i);
      BlockAgreesExact(key, iv, a, b, i);
      var r :| 0 <= r < 16 && !SameByteOfBlock(key, iv, a, b, i, r);
      assert !SameByte(key, iv, a, b, 16 * i + r);
    }
  }

  // The last, short block is a job of its own under every split.
  lemma TailAgrees(key: seq<byte>, iv: S.Iv, a: seq<S.Call>, b: seq<S.Call>, p: nat)
    requires |key| == 32 && |S.Message(a)| == |S.Message(b)| && p / 16 == |S.Message(a)| / 16
    ensures SameByte(key, iv, a, b, p)
  {
    hide S.Message, JobStart, JobByte, Advance;
    PendingStarts(a);
    PendingStarts(b);
  }

  /** The exact round trip: encrypting under split a and decrypting under split b gives the message back if and only if
      every whole block is in the same epoch under both. */
  lemma AesRoundTripExact(key: seq<byte>, iv: S.Iv, a: seq<S.Call>, outsizeA: nat, finalA: bool,
                          b: seq<S.Call>, outsizeB: nat, finalB: bool)
    requires |key| == 32
    requires S.WholeRun(AesEngine(key), iv, a, outsizeA, finalA).ok &&
             S.WholeRun(AesEngine(key), iv, b, outsizeB, finalB).ok
    requires S.Message(b) == S.WholeRun(AesEngine(key), iv, a, outsizeA, finalA).output
    ensures S.WholeRun(AesEngine(key), iv, b, outsizeB, finalB).output == S.Message(a) <==>
            SameEpochs(iv, a, b, |S.Message(a)| / 16)
  {
    hide S.WholeRun, S.Run, S.Message, SameEpochs, StreamByte, XorByte, Xor;
    var m := S.Message(a);
    var ka, kb := (p: nat) => StreamByte(key, iv, a, p), (p: nat) => StreamByte(key, iv, b, p);
    RunUsesStream(key, iv, a, outsizeA, finalA, ka);
    RunUsesStream(key, iv, b, outsizeB, finalB, kb);
    RunsOk(key, iv, a, outsizeA, finalA);
    RunsOk(key, iv, b, outsizeB, finalB);
    S.XorLength(m, ka, 0);
    StreamsAgreeExact(key, iv, a, b);
    XorBackExact(m, ka, kb);
    assert forall p: nat :: S.SameKey(ka, 0, kb, 0, p) <==> SameByte(key, iv, a, b, p);
  }

  /** Two successful splits of one message give the same ciphertext under the same condition. */
  lemma SameCiphertextExact(key: seq<byte>, iv: S.Iv, a: seq<S.Call>, outsizeA: nat, finalA: bool,
                            b: seq<S.Call>, outsizeB: nat, finalB: bool)
    requires |key| == 32 && S.Message(a) == S.Message(b)
    requires S.WholeRun(AesEngine(key), iv, a, outsizeA, finalA).ok &&
             S.WholeRun(AesEngine(key), iv, b, outsizeB, finalB).ok
    ensures S.WholeRun(AesEngine(key), iv, a, outsizeA, finalA).output ==
            S.WholeRun(AesEngine(key), iv, b, outsizeB, finalB).output <==>
            SameEpochs(iv, a, b, |S.Message(a)| / 16)
  {
    hide S.WholeRun, S.Run, S.Message, SameEpochs, StreamByte, XorByte, Xor;
    var ka, kb := (p: nat) => StreamByte(key, iv, a, p), (p: nat) => StreamByte(key, iv, b, p);
    RunUsesStream(key, iv, a, outsizeA, finalA, ka);
    RunUsesStream(key, iv, b, outsizeB, finalB, kb);
    RunsOk(key, iv, a, outsizeA, finalA);
    RunsOk(key, iv, b, outsizeB, finalB);
    StreamsAgreeExact(key, iv, a, b);
    S.XorSame(S.Message(a), ka, 0, kb, 0);
    assert forall p: nat :: S.SameKey(ka, 0, kb, 0, p) <==> SameByte(key, iv, a, b, p);
  }

  lemma RunsOk(key: seq<byte>, iv: S.Iv, calls: seq<S.Call>, outsize: nat, finalOk: bool)
    requires |key| == 32 && S.WholeRun(AesEngine(key), iv, calls, outsize, finalOk).ok
    ensures S.Run(AesEngine(key), iv, calls).ok
  {
    hide S.Run, S.Final;
  }

  lemma XorBackExact(m: seq<byte>, ka: nat -> byte, kb: nat -> byte)
    ensures Xor(Xor(m, ka, 0), kb, 0) == m <==> forall p :: 0 <= p < |m| ==> S.SameKey(ka, 0, kb, 0, p)
  {
    hide Xor;
    XorTwice(m, ka, 0);
    S.XorLength(m, ka, 0);
    S.XorSame(Xor(m, ka, 0), kb, 0, ka, 0);
    assert forall p: nat :: S.SameKey(kb, 0, ka, 0, p) <==> S.SameKey(ka, 0, kb, 0, p);
  }
}
