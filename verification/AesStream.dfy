/** AES-256 through the streaming layer: SP 800-38A counter mode, exactly when no job crosses the 64-bit wrap. */
module AesStream {
  import opened Bytes
  import opened Counter
  import opened Words
  import opened Sizes
  import opened ShaderCounter
  import opened AesCtr
  import S = Stream

  function AesEngine(key: seq<byte>): S.Engine
    requires |key| == 32
  {
    S.Engine(BLOCK, (iv: S.Iv, p: nat) => JobByte(key, iv, p), (iv: S.Iv, n: nat) => Advance(iv, n))
  }

  lemma EngineLawful(key: seq<byte>)
    requires |key| == 32
    ensures AesEngine(key).Lawful()
  {
    hide Advance;
    var e := AesEngine(key);
    forall iv: S.Iv
      ensures e.advance(iv, 0) == iv
    {
      AdvanceZero(iv);
    }
    forall iv: S.Iv, a: nat, b: nat
      ensures e.advance(e.advance(iv, a), b) == e.advance(iv, a + b)
    {
      AdvanceAdd(iv, a, b);
    }
  }

  // ---- One job ----

  /** The job's counters do not overflow the lower 64 bits. */
  predicate Fits(j: S.Job) {
    Low64(j.iv) + (|j.data| + 15) / 16 <= TWO_64
  }

  // The job that starts n blocks into the stream uses the standard keystream, byte for byte.
  ghost predicate UsesStandard(key: seq<byte>, iv: S.Iv, n: nat, len: nat)
    requires |key| == 32
  {
    forall i :: 0 <= i < len ==> JobByte(key, Advance(iv, n), i) == CtrByte(key, iv, 16 * n + i)
  }

  lemma ByteOfBlocks(key: seq<byte>, iv: S.Iv, n: nat, i: nat)
    requires |key| == 32
    ensures CtrByte(key, iv, 16 * n + i) == EncryptBlock(key, Advance(Advance(iv, n), i / 16))[i % 16]
  {
    hide EncryptBlock, Advance;
    AdvanceAdd(iv, n, i / 16);
    assert (16 * n + i) / 16 == n + i / 16 && (16 * n + i) % 16 == i % 16;
  }

  lemma StandardIfFits(key: seq<byte>, iv: S.Iv, n: nat, len: nat)
    requires |key| == 32 && len <= RING_SIZE
    requires Low64(Advance(iv, n)) + (len + 15) / 16 <= TWO_64
    ensures UsesStandard(key, iv, n, len)
  {
    hide EncryptBlock, Advance, ShaderBlock, WordOfNat, Low64, CtrByte;
    forall i | 0 <= i < len
      ensures JobByte(key, Advance(iv, n), i) == CtrByte(key, iv, 16 * n + i)
    {
      JobBlockExact(key, Advance(iv, n), i / 16);
      ByteOfBlocks(key, iv, n, i);
    }
  }

  // The first block past the wrap comes out wrong somewhere.
  lemma WrongIfNotFits(key: seq<byte>, iv: S.Iv, n: nat, len: nat)
    requires |key| == 32 && len <= RING_SIZE && len % 16 == 0
    requires Low64(Advance(iv, n)) + (len + 15) / 16 > TWO_64
    ensures !UsesStandard(key, iv, n, len)
  {
    hide EncryptBlock, Advance, ShaderBlock, WordOfNat, Low64, CtrByte;
    Low64Bound(Advance(iv, n));
    var g := TWO_64 - Low64(Advance(iv, n));
    assert 16 * g + 16 <= len;
    JobBlockExact(key, Advance(iv, n), g);
    var a := EncryptBlock(key, ShaderBlock(Advance(iv, n), WordOfNat(g)));
    var b := EncryptBlock(key, Advance(Advance(iv, n), g));
    BlocksDiffer(a, b);
    var r :| 0 <= r < 16 && a[r] != b[r];
    var i := 16 * g + r;
    assert i / 16 == g && i % 16 == r;
    ByteOfBlocks(key, iv, n, i);
    assert JobByte(key, Advance(iv, n), i) != CtrByte(key, iv, 16 * n + i);
  }

  lemma BlocksDiffer(a: seq<byte>, b: seq<byte>)
    requires |a| == |b| && a != b
    ensures exists r :: 0 <= r < |a| && a[r] != b[r]
  {}

  lemma Low64Bound(iv: seq<byte>)
    requires |iv| == 16
    ensures Low64(iv) < TWO_64
  {
    PowValues();
    ValBound(iv[8..]);
  }

  /** A job of whole blocks, or a final one of less than a block, uses the standard keystream exactly when it fits. */
  lemma JobStandardExact(key: seq<byte>, iv: S.Iv, n: nat, len: nat)
    requires |key| == 32 && 0 < len <= RING_SIZE && (len % 16 == 0 || len < 16)
    ensures UsesStandard(key, iv, n, len) <==> Low64(Advance(iv, n)) + (len + 15) / 16 <= TWO_64
  {
    hide UsesStandard, Advance, Low64;
    Low64Bound(Advance(iv, n));
    if Low64(Advance(iv, n)) + (len + 15) / 16 <= TWO_64 {
      StandardIfFits(key, iv, n, len);
    } else {
      WrongIfNotFits(key, iv, n, len);
    }
  }

  // ---- Whole messages ----

  ghost predicate AllFit(jobs: seq<S.Job>) {
    forall j :: j in jobs ==> Fits(j)
  }

  /** The condition a caller can check before an update of `len` bytes after `sent` bytes: the blocks from the next
      block boundary to the last one reached do not cross the wrap of the lower 64 counter bits. */
  predicate BulkFits(iv: S.Iv, sent: nat, len: nat) {
    var first, last := (sent + 15) / 16, (sent + len) / 16;
    first < last ==> (Low64(iv) + first) % TWO_64 + (last - first) <= TWO_64
  }

  predicate CrossesNowhere(iv: S.Iv, calls: seq<S.Call>) {
    if calls == [] then true
    else
      var before := calls[..|calls| - 1];
      CrossesNowhere(iv, before) && BulkFits(iv, |S.Message(before)|, |calls[|calls| - 1].data|)
  }

  lemma Low64OfVal(iv: seq<byte>)
    requires |iv| == 16
    ensures Low64(iv) == Val(iv) % TWO_64
  {
    hide Val;
    assert iv == iv[..8] + iv[8..];
    PowValues();
    ValConcat(iv[..8], iv[8..]);
    ValBound(iv[8..]);
  }

  lemma Low64Advance(iv: S.Iv, n: nat)
    ensures Low64(Advance(iv, n)) == (Low64(iv) + n) % TWO_64
  {
    hide Low64, Advance, Val;
    Low64OfVal(iv);
    Low64OfVal(Advance(iv, n));
    AdvanceValue(iv, n);
  }

  // For one update in the middle of a run.
  lemma UpdateFitsExact(key: seq<byte>, iv: S.Iv, s: S.State, c: S.Call, sent: nat)
    requires |key| == 32 && s.iv == Advance(iv, sent / 16) && |s.partial| == sent % 16
    requires S.LastUpdate(AesEngine(key), s, c).ok
    ensures AllFit(S.LastUpdate(AesEngine(key), s, c).jobs) <==> BulkFits(iv, sent, |c.data|)
  {
    hide Advance, Low64, S.Update, JobByte;
    var e, len := AesEngine(key), |c.data|;
    var u := S.LastUpdate(e, s, c);
    EngineLawful(key);
    S.UpdateShape(e, s, c.data, c.flushOk, c.bulkOk);
    var from, first, last := (|s.partial| + 15) / 16, (sent + 15) / 16, (sent + len) / 16;
    assert sent / 16 + from == first && sent / 16 + (|s.partial| + len) / 16 == last;
    AdvanceAdd(iv, sent / 16, from);
    Low64Advance(iv, first);
    Low64Bound(s.iv);
    assert forall j :: j in S.FlushJobs(e, s, c.data) ==> Fits(j);
    assert (forall j :: j in S.BulkJobs(e, s, c.data) ==> Fits(j)) <==> BulkFits(iv, sent, len) by {
      if first < last {
        var j := S.BulkJobs(e, s, c.data)[0];
        assert S.BulkJobs(e, s, c.data) == [j] && j.iv == Advance(iv, first) && |j.data| == 16 * (last - first);
        assert Fits(j) <==> BulkFits(iv, sent, len);
      } else {
        assert S.BulkJobs(e, s, c.data) == [];
      }
    }
    assert forall j :: j in u.jobs <==> j in S.FlushJobs(e, s, c.data) || j in S.BulkJobs(e, s, c.data);
  }

  lemma {:induction false} RunFitsExact(key: seq<byte>, iv: S.Iv, calls: seq<S.Call>)
    requires |key| == 32 && S.Run(AesEngine(key), iv, calls).ok
    ensures AllFit(S.Run(AesEngine(key), iv, calls).jobs) <==> CrossesNowhere(iv, calls)
  {
    hide Advance, Fits, BulkFits, S.Update, S.Message, S.Data, S.Blocks, S.Output, JobByte;
    var e := AesEngine(key);
    if calls != [] {
      var before, c := calls[..|calls| - 1], calls[|calls| - 1];
      var r := S.Run(e, iv, before);
      var sent := |S.Message(before)|;
      EngineLawful(key);
      RunFitsExact(key, iv, before);
      StateAfter(key, iv, before);
      UpdateFitsExact(key, iv, r.state, c, sent);
      var u := S.LastUpdate(e, r.state, c);
      assert forall j :: j in r.jobs + u.jobs <==> j in r.jobs || j in u.jobs;
    }
  }

  lemma StateAfter(key: seq<byte>, iv: S.Iv, calls: seq<S.Call>)
    requires |key| == 32 && S.Run(AesEngine(key), iv, calls).ok
    ensures var r, sent := S.Run(AesEngine(key), iv, calls), |S.Message(calls)|;
            r.state.iv == Advance(iv, sent / 16) && |r.state.partial| == sent % 16
  {
    hide Advance, S.Run, S.Message, S.Data, S.Blocks, S.Output, S.Final, S.Consecutive, JobByte;
    var e := AesEngine(key);
    var r := S.Run(e, iv, calls);
    EngineLawful(key);
    S.RunInvariant(e, iv, calls);
    S.WholeJobs(e, iv, r.jobs);
    S.LengthConservation(e, iv, calls, 0, true);
    var q: nat := S.Blocks(e, r.jobs);
    assert |S.Message(calls)| == 16 * q + |r.state.partial|;
    assert |S.Message(calls)| / 16 == q;
  }

  lemma JobAgreesExact(key: seq<byte>, iv: S.Iv, calls: seq<S.Call>, outsize: nat, finalOk: bool, ks: nat -> byte,
                       k: nat)
    requires |key| == 32 && forall p: nat :: ks(p) == CtrByte(key, iv, p)
    requires S.WholeRun(AesEngine(key), iv, calls, outsize, finalOk).ok
    requires k < |S.WholeRun(AesEngine(key), iv, calls, outsize, finalOk).jobs|
    ensures var jobs := S.WholeRun(AesEngine(key), iv, calls, outsize, finalOk).jobs;
            S.JobAgrees(AesEngine(key), jobs, ks, k) <==> Fits(jobs[k])
  {
    hide S.WholeRun, S.Data, S.Blocks, Advance, JobByte, CtrByte, Low64;
    var e := AesEngine(key);
    var jobs := S.WholeRun(e, iv, calls, outsize, finalOk).jobs;
    EngineLawful(key);
    S.WholeRunPlaces(e, iv, calls, outsize, finalOk, k);
    var n := S.Blocks(e, jobs[..k]);
    JobStandardExact(key, iv, n, |jobs[k].data|);
    forall i | 0 <= i < |jobs[k].data|
      ensures e.jobByte(jobs[k].iv, i) == ks(|S.Data(jobs[..k])| + i) <==>
              JobByte(key, Advance(iv, n), i) == CtrByte(key, iv, 16 * n + i)
    {}
  }

  /** End to end, for every key, IV, message and split into updates, all calls successful: the output is SP 800-38A
      counter mode if and only if no update crosses the wrap of the lower 64 counter bits. */
  lemma AesEndToEnd(key: seq<byte>, iv: S.Iv, calls: seq<S.Call>, outsize: nat, finalOk: bool)
    requires |key| == 32 && S.WholeRun(AesEngine(key), iv, calls, outsize, finalOk).ok
    ensures S.WholeRun(AesEngine(key), iv, calls, outsize, finalOk).output == CtrEncrypt(key, iv, S.Message(calls)) <==>
            CrossesNowhere(iv, calls)
  {
    hide S.WholeRun, S.Message, S.JobAgrees, JobByte, CtrByte, Fits, CrossesNowhere, CtrEncrypt, Xor;
    var e := AesEngine(key);
    var ks := (p: nat) => CtrByte(key, iv, p);
    var jobs := S.WholeRun(e, iv, calls, outsize, finalOk).jobs;
    EngineLawful(key);
    S.WholeRunExact(e, iv, calls, outsize, finalOk, ks);
    CtrEncryptIs(key, iv, S.Message(calls), ks);
    forall k | 0 <= k < |jobs|
      ensures S.JobAgrees(e, jobs, ks, k) <==> Fits(jobs[k])
    {
      JobAgreesExact(key, iv, calls, outsize, finalOk, ks, k);
    }
    AllFitByIndex(jobs);
    WholeFitsExact(key, iv, calls, outsize, finalOk);
  }

  lemma AllFitByIndex(jobs: seq<S.Job>)
    ensures AllFit(jobs) <==> forall k :: 0 <= k < |jobs| ==> Fits(jobs[k])
  {
    hide Fits;
  }

  // The final call is a single block, which always fits.
  lemma WholeFitsExact(key: seq<byte>, iv: S.Iv, calls: seq<S.Call>, outsize: nat, finalOk: bool)
    requires |key| == 32 && S.WholeRun(AesEngine(key), iv, calls, outsize, finalOk).ok
    ensures AllFit(S.WholeRun(AesEngine(key), iv, calls, outsize, finalOk).jobs) <==> CrossesNowhere(iv, calls)
  {
    hide S.Run, S.Final, CrossesNowhere, Low64, JobByte, Advance;
    var r := S.Run(AesEngine(key), iv, calls);
    RunFitsExact(key, iv, calls);
    Low64Bound(r.state.iv);
    StateAfter(key, iv, calls);
  }

  lemma CtrEncryptIs(key: seq<byte>, iv: S.Iv, message: seq<byte>, ks: nat -> byte)
    requires |key| == 32 && forall p: nat :: ks(p) == CtrByte(key, iv, p)
    ensures CtrEncrypt(key, iv, message) == Xor(message, ks, 0)
  {
    hide CtrByte, XorByte;
  }

  /** Decrypting under any other split gives the message back when neither split crosses the wrap. */
  lemma AesRoundTrip(key: seq<byte>, iv: S.Iv, calls: seq<S.Call>, outsize: nat, finalOk: bool,
                     calls': seq<S.Call>, outsize': nat, finalOk': bool)
    requires |key| == 32 && CrossesNowhere(iv, calls) && CrossesNowhere(iv, calls')
    requires S.WholeRun(AesEngine(key), iv, calls, outsize, finalOk).ok
    requires S.WholeRun(AesEngine(key), iv, calls', outsize', finalOk').ok
    requires S.Message(calls') == S.WholeRun(AesEngine(key), iv, calls, outsize, finalOk).output
    ensures S.WholeRun(AesEngine(key), iv, calls', outsize', finalOk').output == S.Message(calls)
  {
    hide S.WholeRun, S.Message, CtrByte, CtrEncrypt, CrossesNowhere;
    AesEndToEnd(key, iv, calls, outsize, finalOk);
    AesEndToEnd(key, iv, calls', outsize', finalOk');
    var ks := (p: nat) => CtrByte(key, iv, p);
    CtrEncryptIs(key, iv, S.Message(calls), ks);
    CtrEncryptIs(key, iv, S.Message(calls'), ks);
    XorTwice(S.Message(calls), ks, 0);
  }
}
