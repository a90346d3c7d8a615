/** The provider's ChaCha20 context: the code behind init, update and final, proved to behave like the streaming
    layer. */
module ChaChaProvider {
  import opened Bytes
  import opened Words
  import opened Memory
  import opened ChaChaStream
  import opened R = Rfc8439
  import B = ChaChaBatcher
  import S = Stream

  /** A job of the batcher is a job of the stream. */
  lemma SameOutput(key: seq<byte>, iv: S.Iv, data: seq<byte>)
    requires |key| == 32
    ensures R.Encrypt(key, iv, data) == ChaChaEngine(key).JobOutput(iv, data)
  {
    hide R.KeystreamByte, XorByte;
  }

  lemma EngineBlock(key: seq<byte>)
    requires |key| == 32
    ensures ChaChaEngine(key).block == BLOCK
  {}

  lemma Room(before: nat, len: nat, taken: nat, written: nat, after: nat)
    requires taken <= len && taken + before == written + after && (written == 0 || written == BLOCK)
    requires taken == len || after == 0
    ensures written + (len - taken) / BLOCK * BLOCK <= (before + len) / BLOCK * BLOCK
  {}

  function Clipped(iv: seq<byte>): (r: seq<byte>)
    ensures |r| <= 16
  {
    if |iv| > 16 then iv[..16] else iv
  }

  class ChaChaContext {
    const key: array<byte>
    const iv: array<byte>
    const partialBuf: array<byte>
    var partialLen: nat
    var setKey: bool
    var setIv: bool

    ghost predicate Valid()
      reads this
    {
      && key.Length == 32 && iv.Length == 16 && partialBuf.Length == BLOCK
      && key != iv && key != partialBuf && iv != partialBuf
      && partialLen <= BLOCK
    }

    ghost function State(): S.State
      reads this, iv, partialBuf
      requires Valid()
    {
      S.State(iv[..], partialBuf[..partialLen])
    }

    ghost predicate Apart(backend: B.Batcher, a: array<byte>)
      reads this
    {
      a !in {key, iv, partialBuf, backend.inputRing, backend.outputRing}
    }

    // The context's memory is not the batcher's.
    ghost predicate Owns(backend: B.Batcher)
      reads this
    {
      {key, iv, partialBuf} !! {backend.inputRing, backend.outputRing}
    }

    constructor ()
      ensures Valid() && fresh(key) && fresh(iv) && fresh(partialBuf)
      ensures partialLen == 0 && !setKey && !setIv
      ensures key[..] == S.Zeros(32) && State() == S.State(S.Zeros(16), [])
    {
      key := new byte[32](_ => 0);
      iv := new byte[16](_ => 0);
      partialBuf := new byte[BLOCK](_ => 0);
      partialLen, setKey, setIv := 0, false, false;
    }

    /** Key and IV are optional; a key of the wrong length is refused and changes nothing; of a longer IV the first
        sixteen bytes are used. Pending bytes are dropped. */
    method Init(newKey: array?<byte>, newIv: array?<byte>) returns (ok: bool)
      requires Valid() && newKey !in {key, iv, partialBuf} && newIv !in {key, iv, partialBuf}
      modifies this, key, iv
      ensures Valid() && (ok <==> newKey == null || newKey.Length == 32)
      ensures !ok ==> key[..] == old(key[..]) && State() == old(State()) && setKey == old(setKey) && setIv == old(setIv)
      ensures ok && newKey != null ==> key[..] == newKey[..] && setKey
      ensures ok && newKey == null ==> key[..] == old(key[..]) && setKey == old(setKey)
      ensures ok && newIv != null ==> State() == S.State(Overwrite(old(iv[..]), 0, Clipped(newIv[..])), []) && setIv
      ensures ok && newIv != null ==> var n := if newIv.Length < 16 then newIv.Length else 16;
                iv[..n] == newIv[..n] && iv[n..] == old(iv[n..])
      ensures ok && newIv == null ==> State() == S.State(old(iv[..]), []) && setIv == old(setIv)
    {
      if newKey != null {
        if newKey.Length != 32 {
          return false;
        }
        Copy(newKey, 0, key, 0, 32);
        OverwriteAll(old(key[..]), newKey[..]);
        assert newKey[0..32] == newKey[..];
        setKey := true;
      }
      if newIv != null {
        var ivLen := newIv.Length;
        if ivLen > 16 {
          ivLen := 16;
        }
        Copy(newIv, 0, iv, 0, ivLen);
        assert newIv[0..ivLen] == Clipped(newIv[..]);
        setIv := true;
      }
      partialLen := 0;
      return true;
    }

    /** One update. On failure nothing is reported, but a block flushed before the failure has been stored. */
    method Update(backend: B.Batcher, dst: array<byte>, dstOff: nat, src: array<byte>, srcOff: nat, len: nat,
                  flushOk: bool, bulkOk: bool) returns (ok: bool, outl: nat)
      requires Valid() && backend.Valid() && Owns(backend)
      requires src != dst && Apart(backend, src) && Apart(backend, dst)
      requires srcOff + len <= src.Length && dstOff + (partialLen + len) / BLOCK * BLOCK <= dst.Length
      modifies this`partialLen, iv, partialBuf, dst, backend`offset, backend`history
      modifies backend.inputRing, backend.outputRing, backend.paramBuffer
      ensures Valid() && backend.Valid()
      ensures var u := S.Update(ChaChaEngine(key[..]), old(State()), src[srcOff..srcOff + len], flushOk, bulkOk);
              && State() == u.state && ok == u.ok && outl == (if ok then |u.written| else 0)
              && dstOff + |u.written| <= dst.Length && dst[..] == Overwrite(old(dst[..]), dstOff, u.written)
              && dst[..dstOff] == old(dst[..dstOff]) && dst[dstOff..dstOff + |u.written|] == u.written
              && dst[dstOff + |u.written|..] == old(dst[dstOff + |u.written|..])
    {
      hide B.Batcher.Valid, S.Engine.JobOutput, Advance32, ChaChaEngine, S.Update, S.FlushStage, S.BulkStage,
           S.Absorbed, Overwrite;
      ghost var e, s, data, was := ChaChaEngine(key[..]), State(), src[srcOff..srcOff + len], dst[..];
      var flushed, taken, written := Flush(backend, dst, dstOff, src, srcOff, len, flushOk);
      EngineBlock(key[..]);
      S.UpdateCases(e, s, data, flushOk, bulkOk, taken);
      ghost var u := S.Update(e, s, data, flushOk, bulkOk);
      if !flushed {
        OverwriteSlices(was, dstOff, u.written);
        return false, 0;
      }
      assert data[taken..] == src[srcOff + taken..srcOff + len];
      ghost var f := S.FlushStage(e, s, data, flushOk).written;
      ghost var b := S.BulkStage(e, State(), data[taken..], bulkOk).written;
      Room(old(partialLen), len, taken, written, partialLen);
      var done, more := Bulk(backend, dst, dstOff + written, src, srcOff + taken, len - taken, bulkOk);
      OverwriteTwice(was, dstOff, f, b);
      OverwriteSlices(was, dstOff, u.written);
      if !done {
        return false, 0;
      }
      return true, written + more;
    }

    // The little-endian counter word in front of the IV.
    method AdvanceCounter(blocks: nat)
      requires Valid()
      modifies iv
      ensures iv[..] == Advance32(old(iv[..]), blocks)
      ensures iv[4..] == old(iv[4..]) && LoadWord(iv[..], 0) == Add32(old(LoadWord(iv[..], 0)), WordOfNat(blocks))
    {
      hide LoadWord, WordOfNat, Add32, B0, B1, B2, B3;
      var counter := LoadWord(iv[..], 0);
      counter := Add32(counter, WordOfNat(blocks));
      iv[0] := B0(counter);
      iv[1] := B1(counter);
      iv[2] := B2(counter);
      iv[3] := B3(counter);
      LoadOfLe(counter, iv[4..]);
      assert iv[..] == Le(counter) + iv[4..];
    }

    // One job of whole blocks, and the counter behind it.
    method SubmitBlocks(backend: B.Batcher, dst: array<byte>, dstOff: nat, src: array<byte>, srcOff: nat, len: nat,
                        queueOk: bool) returns (ok: bool)
      requires Valid() && backend.Valid() && Owns(backend)
      requires src != dst && src !in {backend.inputRing, backend.outputRing} && Apart(backend, dst)
      requires srcOff + len <= src.Length && dstOff + len <= dst.Length && len % BLOCK == 0
      modifies iv, dst, backend`offset, backend`history, backend.inputRing, backend.outputRing, backend.paramBuffer
      ensures backend.Valid()
      ensures ok <==> S.Accepts(old(src[srcOff..srcOff + len]), queueOk)
      ensures ok ==> iv[..] == Advance32(old(iv[..]), len / BLOCK)
      ensures ok ==> dst[..] == Overwrite(old(dst[..]), dstOff,
                                          ChaChaEngine(key[..]).JobOutput(old(iv[..]), old(src[srcOff..srcOff + len])))
      ensures !ok ==> iv[..] == old(iv[..]) && dst[..] == old(dst[..])
    {
      hide B.Batcher.Valid, S.Engine.JobOutput, Advance32, R.KeystreamByte, R.Encrypt, Overwrite, ChaChaEngine;
      SameOutput(key[..], iv[..], src[srcOff..srcOff + len]);
      ok := backend.Submit(src, srcOff, dst, dstOff, len, key, iv, queueOk);
      if ok {
        AdvanceCounter(len / BLOCK);
      }
    }

    // Complete the pending block and encrypt it when it is full.
    method Flush(backend: B.Batcher, dst: array<byte>, dstOff: nat, src: array<byte>, srcOff: nat, len: nat,
                 flushOk: bool) returns (ok: bool, taken: nat, written: nat)
      requires Valid() && backend.Valid() && Owns(backend)
      requires src != dst && Apart(backend, src) && Apart(backend, dst)
      requires srcOff + len <= src.Length && dstOff + (partialLen + len) / BLOCK * BLOCK <= dst.Length
      modifies this`partialLen, iv, partialBuf, dst, backend`offset, backend`history
      modifies backend.inputRing, backend.outputRing, backend.paramBuffer
      ensures Valid() && backend.Valid()
      ensures var e, data := ChaChaEngine(key[..]), src[srcOff..srcOff + len];
              var f := S.FlushStage(e, old(State()), data, flushOk);
              && State() == f.state && ok == f.ok && taken == S.Absorbed(e, old(State()), data)
              && written == |f.written|
              && dstOff + written <= dst.Length && dst[..] == Overwrite(old(dst[..]), dstOff, f.written)
      ensures taken == len || partialLen == 0 || !ok
      ensures taken + old(partialLen) == written + partialLen && (written == 0 || written == BLOCK)
    {
      hide B.Batcher.Valid, S.Engine.JobOutput, Advance32, R.KeystreamByte, R.Encrypt, S.FlushStage, Overwrite;
      taken, written := 0, 0;
      ghost var e, s, data := ChaChaEngine(key[..]), State(), src[srcOff..srcOff + len];
      ghost var pending := s.partial + data[..S.Absorbed(e, s, data)];
      S.FlushCases(e, s, data, flushOk, pending);
      OverwriteNothing(dst[..], dstOff);
      if partialLen > 0 {
        taken := Absorb(src, srcOff, len);
        assert data[..taken] == src[srcOff..srcOff + taken];
        if partialLen == BLOCK {
          assert partialBuf[0..0 + BLOCK] == partialBuf[..BLOCK] == pending;
          var res := SubmitBlocks(backend, dst, dstOff, partialBuf, 0, BLOCK, flushOk);
          if !res {
            return false, taken, 0;
          }
          written := BLOCK;
          partialLen := 0;
        }
      }
      return true, taken, written;
    }

    // Input bytes into the buffer, until one of the two is exhausted.
    method Absorb(src: array<byte>, srcOff: nat, len: nat) returns (taken: nat)
      requires Valid() && src != partialBuf && srcOff + len <= src.Length
      modifies this`partialLen, partialBuf
      ensures Valid() && taken == (if len <= BLOCK - old(partialLen) then len else BLOCK - old(partialLen))
      ensures partialLen == old(partialLen) + taken
      ensures partialBuf[..partialLen] == old(partialBuf[..partialLen]) + src[srcOff..srcOff + taken]
    {
      ghost var pending := partialBuf[..partialLen];
      taken := 0;
      while taken < len && partialLen < BLOCK
        invariant taken <= len && partialLen == |pending| + taken <= BLOCK
        invariant partialBuf[..partialLen] == pending + src[srcOff..srcOff + taken]
      {
        partialBuf[partialLen] := src[srcOff + taken];
        partialLen := partialLen + 1;
        taken := taken + 1;
      }
    }

    // Encrypt whole blocks straight from the input, keep the rest.
    method Bulk(backend: B.Batcher, dst: array<byte>, dstOff: nat, src: array<byte>, srcOff: nat, len: nat,
                bulkOk: bool) returns (ok: bool, written: nat)
      requires Valid() && backend.Valid() && Owns(backend) && (len == 0 || partialLen == 0)
      requires src != dst && Apart(backend, src) && Apart(backend, dst)
      requires srcOff + len <= src.Length && dstOff + len / BLOCK * BLOCK <= dst.Length
      modifies this`partialLen, iv, partialBuf, dst, backend`offset, backend`history
      modifies backend.inputRing, backend.outputRing, backend.paramBuffer
      ensures Valid() && backend.Valid()
      ensures var b := S.BulkStage(ChaChaEngine(key[..]), old(State()), src[srcOff..srcOff + len], bulkOk);
              && State() == b.state && ok == b.ok && written == |b.written|
              && dstOff + written <= dst.Length && dst[..] == Overwrite(old(dst[..]), dstOff, b.written)
    {
      hide B.Batcher.Valid, S.Engine.JobOutput, Advance32, R.KeystreamByte, R.Encrypt, Overwrite, S.BulkStage;
      ghost var e, s, data := ChaChaEngine(key[..]), State(), src[srcOff..srcOff + len];
      S.BulkCases(e, s, data, bulkOk, len - len % BLOCK);
      OverwriteNothing(dst[..], dstOff);
      written := 0;
      if len >= BLOCK {
        var full := len - len % BLOCK;
        assert data[..full] == src[srcOff..srcOff + full];
        var res := SubmitBlocks(backend, dst, dstOff, src, srcOff, full, bulkOk);
        if !res {
          return false, 0;
        }
        written := full;
      }
      assert data[written..] == src[srcOff + written..srcOff + len];
      Keep(src, srcOff + written, len - written);
      return true, written;
    }

    // The tail of the input into the buffer.
    method Keep(src: array<byte>, srcOff: nat, len: nat)
      requires Valid() && src != partialBuf && srcOff + len <= src.Length && partialLen + len <= BLOCK
      modifies this`partialLen, partialBuf
      ensures Valid() && partialLen == old(partialLen) + len
      ensures partialBuf[..partialLen] == old(partialBuf[..partialLen]) + src[srcOff..srcOff + len]
    {
      ghost var pending := partialBuf[..partialLen];
      var i: nat := 0;
      while i < len
        invariant i <= len && partialLen == |pending| + i
        invariant partialBuf[..partialLen] == pending + src[srcOff..srcOff + i]
      {
        partialBuf[partialLen] := src[srcOff + i];
        partialLen := partialLen + 1;
        i := i + 1;
      }
    }

    /** The last call: pad, encrypt in place, copy the valid bytes out. */
    method Final(backend: B.Batcher, dst: array<byte>, dstOff: nat, outsize: nat, queueOk: bool)
      returns (ok: bool, outl: nat)
      requires Valid() && backend.Valid() && Owns(backend) && Apart(backend, dst)
      requires dstOff + outsize <= dst.Length
      modifies partialBuf, dst, backend`offset, backend`history
      modifies backend.inputRing, backend.outputRing, backend.paramBuffer
      ensures Valid() && backend.Valid()
      ensures var e, s := ChaChaEngine(key[..]), old(State());
              var f, padded := S.Final(e, s, outsize, queueOk), s.partial + S.Zeros(BLOCK - |s.partial|);
              && ok == f.ok && outl == |f.written|
              && dstOff + outl <= dst.Length && dst[..] == Overwrite(old(dst[..]), dstOff, f.written)
              && partialBuf[..] == (if s.partial == [] then old(partialBuf[..])
                                    else if queueOk then e.JobOutput(s.iv, padded) else padded)
      ensures State() == S.AfterFinal(ChaChaEngine(key[..]), old(State()), queueOk)
    {
      hide B.Batcher.Valid, S.Engine.JobOutput, Advance32, R.KeystreamByte, R.Encrypt, S.Final, S.Zeros, Overwrite;
      ghost var e, s := ChaChaEngine(key[..]), State();
      ghost var padded := s.partial + S.Zeros(BLOCK - |s.partial|);
      S.FinalCases(e, s, outsize, queueOk, padded);
      OverwriteNothing(dst[..], dstOff);
      outl := 0;
      if partialLen > 0 {
        Pad();
        SameOutput(key[..], iv[..], padded);
        assert partialBuf[0..0 + BLOCK] == padded;
        var res := backend.Submit(partialBuf, 0, partialBuf, 0, BLOCK, key, iv, queueOk);
        if !res {
          return false, 0;
        }
        OverwriteAll(padded, e.JobOutput(s.iv, padded));
        if outsize < partialLen {
          return false, 0;
        }
        Copy(partialBuf, 0, dst, dstOff, partialLen);
        assert partialBuf[0..0 + partialLen] == e.JobOutput(s.iv, padded)[..partialLen];
        outl := partialLen;
      }
      return true, outl;
    }

    // Zeros behind the pending bytes.
    method Pad()
      requires Valid()
      modifies partialBuf
      ensures partialBuf[..] == old(partialBuf[..partialLen]) + S.Zeros(BLOCK - partialLen)
    {
      ghost var pending := partialBuf[..partialLen];
      var i: nat := partialLen;
      while i < BLOCK
        invariant partialLen <= i <= BLOCK
        invariant partialBuf[..i] == pending + S.Zeros(i - partialLen)
      {
        partialBuf[i] := 0;
        i := i + 1;
      }
      assert partialBuf[..] == partialBuf[..BLOCK];
    }
  }
}
