/** A caller's session over real buffers: init, any number of updates, one final. Either context, end to end. */
module Session {
  import opened Bytes
  import opened Memory
  import A = AesStream
  import C = ChaChaStream
  import AesCtr
  import Rfc8439
  import AesBatcher
  import ChaChaBatcher
  import AesProvider
  import ChaChaProvider
  import R = Retry
  import S = Stream

  // After i successful updates, n bytes read and m written.
  ghost predicate Progress(e: S.Engine, iv: S.Iv, calls: seq<S.Call>, i: nat, s: S.State, n: nat, m: nat,
                           output: seq<byte>)
    requires 0 < e.block && i <= |calls|
  {
    var r := S.Run(e, iv, calls[..i]);
    r.ok && s == r.state && n == |S.Message(calls[..i])| && m == |r.reported| && output == r.reported
  }

  lemma Begin(e: S.Engine, iv: S.Iv, calls: seq<S.Call>)
    requires 0 < e.block
    ensures Progress(e, iv, calls, 0, S.State(iv, []), 0, 0, [])
  {
    assert calls[..0] == [];
  }

  // What is read is what is written and what is pending.
  lemma ProgressLength(e: S.Engine, iv: S.Iv, calls: seq<S.Call>, i: nat, s: S.State, n: nat, m: nat, output: seq<byte>)
    requires e.Lawful() && i <= |calls| && Progress(e, iv, calls, i, s, n, m, output)
    ensures n == m + |s.partial|
  {
    hide S.Run, S.Message, S.Final;
    S.LengthConservation(e, iv, calls[..i], 0, true);
    if e.block == 16 {} else {}
  }

  lemma Step(e: S.Engine, iv: S.Iv, calls: seq<S.Call>, i: nat, s: S.State, n: nat, m: nat, output: seq<byte>)
    requires 0 < e.block && i < |calls| && Progress(e, iv, calls, i, s, n, m, output)
    ensures |s.partial| <= e.block && n + |calls[i].data| <= |S.Message(calls)|
    ensures S.Message(calls)[n..n + |calls[i].data|] == calls[i].data
    ensures var u := S.LastUpdate(e, s, calls[i]);
            if u.ok then
              Progress(e, iv, calls, i + 1, u.state, n + |calls[i].data|, m + |u.written|, output + u.written)
            else !S.Run(e, iv, calls).ok
  {
    hide S.Run, S.Message, S.LastUpdate;
    S.MessagePlace(calls, i);
    S.RunStep(e, iv, calls, i);
    if !S.LastUpdate(e, s, calls[i]).ok {
      S.FailedRun(e, iv, calls, i + 1);
    }
  }

  // The final call after the last update, and the bytes in the output buffer.
  lemma End(e: S.Engine, iv: S.Iv, calls: seq<S.Call>, s: S.State, n: nat, m: nat, output: seq<byte>, finalOk: bool)
    requires e.Lawful() && Progress(e, iv, calls, |calls|, s, n, m, output) && |s.partial| <= e.block
    ensures var w, f := S.WholeRun(e, iv, calls, n, finalOk), S.Final(e, s, |s.partial|, finalOk);
            n == |S.Message(calls)| == m + |s.partial| && w.ok == f.ok
            && (f.ok ==> w.output == output + f.written && |w.output| == n)
  {
    hide S.Run, S.Message, S.Engine.JobOutput;
    assert calls[..|calls|] == calls;
    ProgressLength(e, iv, calls, |calls|, s, n, m, output);
  }

  // The new prefix of the output buffer, and a full buffer as its own prefix.
  lemma Appended(before: seq<byte>, m: nat, data: seq<byte>)
    requires m + |data| <= |before|
    ensures Overwrite(before, m, data)[..m + |data|] == before[..m] + data
  {}

  // A caller's updates with a context that has just been initialized.
  method AesUpdates(ctx: AesProvider.AesContext, backend: AesBatcher.AES256Batcher, src: array<byte>,
                    calls: seq<S.Call>, dst: array<byte>) returns (ok: bool, n: nat, m: nat)
    requires ctx.Valid() && ctx.keyLen == 32 && ctx.partialLen == 0 && backend.Valid() && ctx.Owns(backend)
    requires src != dst && ctx.Apart(backend, src) && ctx.Apart(backend, dst)
    requires S.Message(calls) == src[..] && src.Length == dst.Length
    modifies ctx`partialLen, ctx.iv, ctx.partialBuf, dst, backend.inputRing, backend.outputRing, backend.paramBuffer
    ensures ctx.Valid() && m <= dst.Length
    ensures if ok then Progress(A.AesEngine(ctx.key[..]), old(ctx.iv[..]), calls, |calls|, ctx.State(), n, m, dst[..m])
            else !S.Run(A.AesEngine(ctx.key[..]), old(ctx.iv[..]), calls).ok
  {
    hide S.Run, S.Message, S.Update, A.AesEngine, Overwrite, Progress;
    ghost var k, start, message := ctx.key[..], ctx.iv[..], src[..];
    ghost var e := A.AesEngine(k);
    A.EngineLawful(k);
    AesProvider.EngineBlock(k);
    Begin(e, start, calls);
    n, m := 0, 0;
    var i: nat := 0;
    while i < |calls|
      invariant i <= |calls| && ctx.Valid() && src[..] == message && m <= dst.Length
      invariant Progress(e, start, calls, i, ctx.State(), n, m, dst[..m])
    {
      var len := |calls[i].data|;
      ghost var s, was := ctx.State(), dst[..];
      ProgressLength(e, start, calls, i, s, n, m, dst[..m]);
      Step(e, start, calls, i, s, n, m, dst[..m]);
      assert src[n..n + len] == message[n..n + len] == calls[i].data;
      ghost var u := S.LastUpdate(e, s, calls[i]);
      var done, outl := ctx.Update(backend, dst, m, src, n, len, calls[i].flushOk, calls[i].bulkOk);
      if !done {
        return false, n, m;
      }
      Appended(was, m, u.written);
      n, m, i := n + len, m + outl, i + 1;
    }
    return true, n, m;
  }

  /** AES-256 over buffers: the output is SP 800-38A counter mode exactly when no update crosses the 64-bit wrap. */
  method AesEncrypt(backend: AesBatcher.AES256Batcher, key: array<byte>, iv: array<byte>, src: array<byte>,
                    calls: seq<S.Call>, dst: array<byte>, finalOk: bool) returns (ok: bool)
    requires backend.Valid() && key.Length == 32 && iv.Length == 16 && src.Length == dst.Length
    requires src != dst && {src, dst} !! {backend.inputRing, backend.outputRing}
    requires S.Message(calls) == src[..]
    modifies dst, backend.inputRing, backend.outputRing, backend.paramBuffer
    ensures ok == S.WholeRun(A.AesEngine(old(key[..])), old(iv[..]), calls, src.Length, finalOk).ok
    ensures ok ==>
              (dst[..] == AesCtr.CtrEncrypt(old(key[..]), old(iv[..]), src[..]) <==>
                  A.CrossesNowhere(old(iv[..]), calls))
  {
    hide S.WholeRun, S.Run, S.Message, S.Final, A.AesEngine, A.CrossesNowhere, AesCtr.CtrEncrypt, Overwrite, Progress;
    ghost var k, start := key[..], iv[..];
    ghost var e := A.AesEngine(k);
    A.EngineLawful(k);
    AesProvider.EngineBlock(k);
    var ctx := new AesProvider.AesContext();
    var initialized := ctx.Init(key, iv);
    OverwriteAll(S.Zeros(32), k);
    OverwriteAll(S.Zeros(16), start);
    var updated, n, m := AesUpdates(ctx, backend, src, calls, dst);
    if !updated {
      NotWhole(e, start, calls, src.Length, finalOk);
      return false;
    }
    ghost var s, was := ctx.State(), dst[..];
    End(e, start, calls, s, n, m, dst[..m], finalOk);
    var last: nat;
    ok, last := ctx.Final(backend, dst, m, src.Length - m, finalOk);
    if ok {
      Appended(was, m, S.Final(e, s, n - m, finalOk).written);
      A.AesEndToEnd(k, start, calls, src.Length, finalOk);
      assert m + last == dst.Length;
    }
  }

  // The same loop for ChaCha20.
  method ChaChaUpdates(ctx: ChaChaProvider.ChaChaContext, backend: ChaChaBatcher.Batcher, src: array<byte>,
                       calls: seq<S.Call>, dst: array<byte>) returns (ok: bool, n: nat, m: nat)
    requires ctx.Valid() && ctx.partialLen == 0 && backend.Valid() && ctx.Owns(backend)
    requires src != dst && ctx.Apart(backend, src) && ctx.Apart(backend, dst)
    requires S.Message(calls) == src[..] && src.Length == dst.Length
    modifies ctx`partialLen, ctx.iv, ctx.partialBuf, dst, backend`offset, backend`history
    modifies backend.inputRing, backend.outputRing, backend.paramBuffer
    ensures ctx.Valid() && backend.Valid() && m <= dst.Length
    ensures if ok then
              Progress(C.ChaChaEngine(ctx.key[..]), old(ctx.iv[..]), calls, |calls|, ctx.State(), n, m, dst[..m])
            else !S.Run(C.ChaChaEngine(ctx.key[..]), old(ctx.iv[..]), calls).ok
  {
    hide S.Run, S.Message, S.Update, C.ChaChaEngine, Overwrite, Progress;
    ghost var k, start, message := ctx.key[..], ctx.iv[..], src[..];
    ghost var e := C.ChaChaEngine(k);
    C.EngineLawful(k);
    ChaChaProvider.EngineBlock(k);
    Begin(e, start, calls);
    n, m := 0, 0;
    var i: nat := 0;
    while i < |calls|
      invariant i <= |calls| && ctx.Valid() && backend.Valid() && src[..] == message && m <= dst.Length
      invariant Progress(e, start, calls, i, ctx.State(), n, m, dst[..m])
    {
      var len := |calls[i].data|;
      ghost var s, was := ctx.State(), dst[..];
      ProgressLength(e, start, calls, i, s, n, m, dst[..m]);
      Step(e, start, calls, i, s, n, m, dst[..m]);
      assert src[n..n + len] == message[n..n + len] == calls[i].data;
      ghost var u := S.LastUpdate(e, s, calls[i]);
      var done, outl := ctx.Update(backend, dst, m, src, n, len, calls[i].flushOk, calls[i].bulkOk);
      if !done {
        return false, n, m;
      }
      Appended(was, m, u.written);
      n, m, i := n + len, m + outl, i + 1;
    }
    return true, n, m;
  }

  /** ChaCha20 over buffers: the output is the cipher of RFC 8439, whatever the IV and the split. */
  method ChaChaEncrypt(backend: ChaChaBatcher.Batcher, key: array<byte>, iv: array<byte>, src: array<byte>,
                       calls: seq<S.Call>, dst: array<byte>, finalOk: bool) returns (ok: bool)
    requires backend.Valid() && key.Length == 32 && iv.Length == 16 && src.Length == dst.Length
    requires src != dst && {src, dst} !! {backend.inputRing, backend.outputRing}
    requires S.Message(calls) == src[..]
    modifies dst, backend`offset, backend`history, backend.inputRing, backend.outputRing, backend.paramBuffer
    ensures backend.Valid()
    ensures ok == S.WholeRun(C.ChaChaEngine(old(key[..])), old(iv[..]), calls, src.Length, finalOk).ok
    ensures ok ==> dst[..] == Rfc8439.Encrypt(old(key[..]), old(iv[..]), src[..])
  {
    hide ChaChaBatcher.Batcher.Valid, S.WholeRun, S.Run, S.Message, S.Final, C.ChaChaEngine, Rfc8439.Encrypt,
         Overwrite, Progress;
    ghost var k, start := key[..], iv[..];
    ghost var e := C.ChaChaEngine(k);
    C.EngineLawful(k);
    ChaChaProvider.EngineBlock(k);
    var ctx := new ChaChaProvider.ChaChaContext();
    var initialized := ctx.Init(key, iv);
    OverwriteAll(S.Zeros(16), start);
    var updated, n, m := ChaChaUpdates(ctx, backend, src, calls, dst);
    if !updated {
      NotWhole(e, start, calls, src.Length, finalOk);
      return false;
    }
    ghost var s, was := ctx.State(), dst[..];
    End(e, start, calls, s, n, m, dst[..m], finalOk);
    var last: nat;
    ok, last := ctx.Final(backend, dst, m, src.Length - m, finalOk);
    if ok {
      Appended(was, m, S.Final(e, s, n - m, finalOk).written);
      C.ChaChaEndToEnd(k, start, calls, src.Length, finalOk);
      assert m + last == dst.Length;
    }
  }

  // One attempt, by what it leaves as a whole.
  method AesAttempt(ctx: AesProvider.AesContext, backend: AesBatcher.AES256Batcher, dst: array<byte>, dstOff: nat,
                    src: array<byte>, srcOff: nat, len: nat, flushOk: bool, bulkOk: bool) returns (ok: bool, outl: nat)
    requires ctx.Valid() && ctx.keyLen == 32 && backend.Valid() && ctx.Owns(backend)
    requires src != dst && ctx.Apart(backend, src) && ctx.Apart(backend, dst)
    requires srcOff + len <= src.Length && dstOff + (ctx.partialLen + len) / 16 * 16 <= dst.Length
    modifies ctx`partialLen, ctx.iv, ctx.partialBuf, dst
    modifies backend.inputRing, backend.outputRing, backend.paramBuffer
    ensures ctx.Valid()
    ensures var e, data := A.AesEngine(ctx.key[..]), src[srcOff..srcOff + len];
            var u := S.Update(e, old(ctx.State()), data, flushOk, bulkOk);
            && ctx.State() == u.state && ok == u.ok && outl == (if ok then |u.written| else 0)
            && dstOff + |u.written| <= dst.Length && dst[..] == Overwrite(old(dst[..]), dstOff, u.written)
  {
    hide S.Update, A.AesEngine, Overwrite;
    ok, outl := ctx.Update(backend, dst, dstOff, src, srcOff, len, flushOk, bulkOk);
  }

  method ChaChaAttempt(ctx: ChaChaProvider.ChaChaContext, backend: ChaChaBatcher.Batcher, dst: array<byte>,
                       dstOff: nat, src: array<byte>, srcOff: nat, len: nat, flushOk: bool, bulkOk: bool)
    returns (ok: bool, outl: nat)
    requires ctx.Valid() && backend.Valid() && ctx.Owns(backend)
    requires src != dst && ctx.Apart(backend, src) && ctx.Apart(backend, dst)
    requires srcOff + len <= src.Length && dstOff + (ctx.partialLen + len) / 64 * 64 <= dst.Length
    modifies ctx`partialLen, ctx.iv, ctx.partialBuf, dst
    modifies backend`offset, backend`history, backend.inputRing, backend.outputRing, backend.paramBuffer
    ensures ctx.Valid() && backend.Valid()
    ensures var e, data := C.ChaChaEngine(ctx.key[..]), src[srcOff..srcOff + len];
            var u := S.Update(e, old(ctx.State()), data, flushOk, bulkOk);
            && ctx.State() == u.state && ok == u.ok && outl == (if ok then |u.written| else 0)
            && dstOff + |u.written| <= dst.Length && dst[..] == Overwrite(old(dst[..]), dstOff, u.written)
  {
    hide S.Update, C.ChaChaEngine, Overwrite;
    ok, outl := ctx.Update(backend, dst, dstOff, src, srcOff, len, flushOk, bulkOk);
  }

  /** An update whose first attempt may fail, resumed at the same output position, as the reported length suggests. The
      context ends up as after one successful update. So does the output, unless the failed attempt had flushed a block:
      that block is lost and the rest stands one block too early. */
  method AesResume(ctx: AesProvider.AesContext, backend: AesBatcher.AES256Batcher, dst: array<byte>, dstOff: nat,
                   src: array<byte>, srcOff: nat, len: nat, flushOk: bool, bulkOk: bool) returns (outl: nat)
    requires ctx.Valid() && ctx.keyLen == 32 && backend.Valid() && ctx.Owns(backend)
    requires src != dst && ctx.Apart(backend, src) && ctx.Apart(backend, dst)
    requires srcOff + len <= src.Length && dstOff + (ctx.partialLen + len) / 16 * 16 <= dst.Length
    requires R.WithinLimit(A.AesEngine(ctx.key[..]), ctx.State(), src[srcOff..srcOff + len])
    modifies ctx`partialLen, ctx.iv, ctx.partialBuf, dst
    modifies backend.inputRing, backend.outputRing, backend.paramBuffer
    ensures ctx.Valid()
    ensures var e, s, data := A.AesEngine(ctx.key[..]), old(ctx.State()), src[srcOff..srcOff + len];
            var left := R.Left(e, s, data, flushOk, bulkOk);
            && ctx.State() == S.Update(e, s, data, true, true).state && outl == |left| && dstOff + outl <= dst.Length
            && dst[..] == Overwrite(old(dst[..]), dstOff, left)
  {
    hide S.Update, A.AesEngine, Overwrite, R.WithinLimit, R.Flushes, R.Left;
    ghost var e, s, data, was := A.AesEngine(ctx.key[..]), ctx.State(), src[srcOff..srcOff + len], dst[..];
    A.EngineLawful(ctx.key[..]);
    AesProvider.EngineBlock(ctx.key[..]);
    var taken := if ctx.partialLen == 0 then 0 else if len <= 16 - ctx.partialLen then len else 16 - ctx.partialLen;
    R.OneCallFits(e, s, data);
    ghost var left := R.Left(e, s, data, flushOk, bulkOk);
    var ok: bool;
    ok, outl := AesAttempt(ctx, backend, dst, dstOff, src, srcOff, len, flushOk, bulkOk);
    if ok {
      R.SuccessLeaves(e, s, data, flushOk, bulkOk);
    } else {
      ghost var u := S.Update(e, s, data, flushOk, bulkOk);
      ghost var r := S.Update(e, u.state, data[taken..], true, true);
      R.ResumeInPlace(e, s, data, flushOk, bulkOk, was, dstOff);
      R.StillFits(e, s, data, flushOk, bulkOk);
      assert dst[..] == Overwrite(was, dstOff, u.written);
      assert data[taken..] == src[srcOff + taken..srcOff + len];
      ok, outl := AesAttempt(ctx, backend, dst, dstOff, src, srcOff + taken, len - taken, true, true);
      assert ctx.State() == r.state && outl == |left|;
      assert dst[..] == Overwrite(Overwrite(was, dstOff, u.written), dstOff, r.written);
    }
  }

  // The same for ChaCha20.
  method ChaChaResume(ctx: ChaChaProvider.ChaChaContext, backend: ChaChaBatcher.Batcher, dst: array<byte>, dstOff: nat,
                      src: array<byte>, srcOff: nat, len: nat, flushOk: bool, bulkOk: bool) returns (outl: nat)
    requires ctx.Valid() && backend.Valid() && ctx.Owns(backend)
    requires src != dst && ctx.Apart(backend, src) && ctx.Apart(backend, dst)
    requires srcOff + len <= src.Length && dstOff + (ctx.partialLen + len) / 64 * 64 <= dst.Length
    requires R.WithinLimit(C.ChaChaEngine(ctx.key[..]), ctx.State(), src[srcOff..srcOff + len])
    modifies ctx`partialLen, ctx.iv, ctx.partialBuf, dst
    modifies backend`offset, backend`history, backend.inputRing, backend.outputRing, backend.paramBuffer
    ensures ctx.Valid() && backend.Valid()
    ensures var e, s, data := C.ChaChaEngine(ctx.key[..]), old(ctx.State()), src[srcOff..srcOff + len];
            var left := R.Left(e, s, data, flushOk, bulkOk);
            && ctx.State() == S.Update(e, s, data, true, true).state && outl == |left| && dstOff + outl <= dst.Length
            && dst[..] == Overwrite(old(dst[..]), dstOff, left)
  {
    hide S.Update, C.ChaChaEngine, Overwrite, R.WithinLimit, R.Flushes, R.Left;
    ghost var e, s, data, was := C.ChaChaEngine(ctx.key[..]), ctx.State(), src[srcOff..srcOff + len], dst[..];
    C.EngineLawful(ctx.key[..]);
    ChaChaProvider.EngineBlock(ctx.key[..]);
    var taken := if ctx.partialLen == 0 then 0 else if len <= 64 - ctx.partialLen then len else 64 - ctx.partialLen;
    R.OneCallFits(e, s, data);
    ghost var left := R.Left(e, s, data, flushOk, bulkOk);
    var ok: bool;
    ok, outl := ChaChaAttempt(ctx, backend, dst, dstOff, src, srcOff, len, flushOk, bulkOk);
    if ok {
      R.SuccessLeaves(e, s, data, flushOk, bulkOk);
    } else {
      ghost var u := S.Update(e, s, data, flushOk, bulkOk);
      ghost var r := S.Update(e, u.state, data[taken..], true, true);
      R.ResumeInPlace(e, s, data, flushOk, bulkOk, was, dstOff);
      R.StillFits(e, s, data, flushOk, bulkOk);
      assert dst[..] == Overwrite(was, dstOff, u.written);
      assert data[taken..] == src[srcOff + taken..srcOff + len];
      ok, outl := ChaChaAttempt(ctx, backend, dst, dstOff, src, srcOff + taken, len - taken, true, true);
      assert ctx.State() == r.state && outl == |left|;
      assert dst[..] == Overwrite(Overwrite(was, dstOff, u.written), dstOff, r.written);
    }
  }

  lemma NotWhole(e: S.Engine, iv: S.Iv, calls: seq<S.Call>, outsize: nat, finalOk: bool)
    requires 0 < e.block && !S.Run(e, iv, calls).ok
    ensures !S.WholeRun(e, iv, calls, outsize, finalOk).ok
  {}
}
