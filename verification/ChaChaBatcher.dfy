/** The shared batcher's ChaCha20 branch: ring allocation, parameter buffer, dispatch over the allocated range. */
module ChaChaBatcher {
  import opened Bytes
  import opened Words
  import opened Sizes
  import opened Memory
  import opened ChaChaKernel
  import opened RingAllocator
  import R = Rfc8439
  import D = Dispatch

  // ---- What a filled parameter buffer makes the invocations do ----

  function KeystreamWord(params: seq<word>, g: nat, j: nat): word
    requires |params| >= PARAM_WORDS
  {
    if j < 16 then R.BlockWords(ShaderState(params, WordOfNat(g)))[j] else 0
  }

  function KernelOf(params: seq<word>): D.Kernel
    requires |params| >= PARAM_WORDS
  {
    D.Kernel(WordNat(params[0]), 16, (g: nat, j: nat) => KeystreamWord(params, g, j))
  }

  /** The parameter buffer for a key, an IV and a block count: the twelve nonce bytes first, then the counter. */
  ghost predicate Filled(params: seq<word>, key: seq<byte>, iv: seq<byte>, blocks: nat)
    requires |key| == 32 && |iv| == 16
  {
    && |params| == PARAM_BUFFER_WORDS
    && WordNat(params[0]) == blocks
    && (forall i :: 0 <= i < 8 ==> params[KEY + i] == LoadWord(key, i))
    && params[NONCE] == LoadWord(iv, 1) && params[NONCE + 1] == LoadWord(iv, 2) && params[NONCE + 2] == LoadWord(iv, 3)
    && params[NONCE + 3] == LoadWord(iv, 0)
  }

  /** The layout, by word offset: the count at 0, the key at 4, the nonce at 12, the counter at 15. */
  lemma Layout(params: seq<word>, key: seq<byte>, iv: seq<byte>, blocks: nat)
    requires |key| == 32 && |iv| == 16 && Filled(params, key, iv, blocks)
    ensures |params| >= 16 && WordNat(params[0]) == blocks
    ensures forall i :: 0 <= i < 8 ==> params[4 + i] == LoadWord(key, i)
    ensures params[12] == LoadWord(iv, 1) && params[13] == LoadWord(iv, 2) && params[14] == LoadWord(iv, 3)
    ensures params[15] == LoadWord(iv, 0)
  {
    hide LoadWord, WordNat;
    assert forall i :: 0 <= i < 8 ==> params[KEY + i] == LoadWord(key, i);
  }

  lemma ShaderStateIsInitial(params: seq<word>, key: seq<byte>, iv: seq<byte>, blocks: nat, gID: word)
    requires |key| == 32 && |iv| == 16 && Filled(params, key, iv, blocks)
    ensures ShaderState(params, gID) == R.InitialState(key, Add32(LoadWord(iv, 0), gID), iv[4..])
  {
    hide Pack, Add32, WordNat;
    assert params[NONCE] == LoadWord(iv[4..], 0);
    assert params[NONCE + 1] == LoadWord(iv[4..], 1);
    assert params[NONCE + 2] == LoadWord(iv[4..], 2);
    assert params[KEY..KEY + 8] == seq(8, i requires 0 <= i < 8 => LoadWord(key, i));
  }

  /** Byte p of what the invocations add is keystream byte p of RFC 8439, counter wrap included. */
  lemma KeystreamIsRfcByte(params: seq<word>, key: seq<byte>, iv: seq<byte>, blocks: nat, p: nat)
    requires |key| == 32 && |iv| == 16 && Filled(params, key, iv, blocks)
    ensures KernelOf(params).KeyByte(p) == R.KeystreamByte(key, iv, p)
  {
    hide R.BlockWords, ShaderState, R.InitialState, ByteOf, WordOfNat, WordNat, LoadWord, Add32;
    ShaderStateIsInitial(params, key, iv, blocks, WordOfNat(p / 64));
    assert p % 64 / 4 < 16;
  }

  function BlockCount(len: nat): nat {
    (len + 63) / 64
  }

  lemma BatchFits(len: nat)
    requires len <= RING_SIZE
    ensures len <= 64 * BlockCount(len) < len + 64
    ensures var groups := (BlockCount(len) + 255) / 256;
            BlockCount(len) <= GROUP_SIZE * (if groups == 0 then 1 else groups) <= TWO_32
  {}

  lemma WholeBlocks(len: nat)
    ensures 64 * BlockCount(len) <= len <==> len % 64 == 0
  {}

  /** The bound range has the length of the job. The invocations never step outside it exactly when the job is a whole
      number of blocks; otherwise the last word of the last block lies outside. */
  lemma RangeExact(params: seq<word>, key: seq<byte>, iv: seq<byte>, len: nat)
    requires |key| == 32 && |iv| == 16 && Filled(params, key, iv, BlockCount(len))
    ensures (forall m, g :: !StepsOutside(KernelOf(params), m, g, len)) <==> len % 64 == 0
  {
    hide Filled, KeystreamWord;
    BatchOf(params, key, iv, BlockCount(len));
    WholeBlocks(len);
    var k := KernelOf(params);
    if len % 64 == 0 {
      forall m: D.Machine, g | StepsOutside(k, m, g, len)
        ensures false
      {
        D.TargetInside(k, m, g);
      }
    } else {
      var last := BlockCount(len) - 1;
      assert StepsOutside(k, D.Machine(seq(BlockCount(len), i => 15), []), last, len);
    }
  }

  // The next word that invocation g writes is not within len bytes.
  predicate StepsOutside(k: D.Kernel, m: D.Machine, g: nat, len: nat) {
    D.CanStep(k, m, g) && 4 * D.Target(k, m, g) + 4 > len
  }

  // The offset is the one the jobs so far, all of whole blocks, have left.
  ghost predicate Recorded(offset: nat, history: seq<nat>) {
    && offset <= RING_SIZE && offset % 64 == 0
    && offset == FinalOffset(0, history)
    && (forall m :: 0 <= m < |history| ==> history[m] % 64 == 0)
  }

  lemma EmptyRecord()
    ensures Recorded(0, [])
  {}

  lemma RecordJob(offset: nat, history: seq<nat>, len: nat)
    requires Recorded(offset, history) && len % 64 == 0
    ensures offset <= RING_SIZE
    ensures Recorded(if len <= RING_SIZE then Allocate(offset, len).next else offset, history + [len])
  {
    hide FinalOffset;
    OneMoreJob(0, history, len);
  }

  class Batcher {
    const inputRing: array<byte>
    const outputRing: array<byte>
    const paramBuffer: array<word>
    var offset: nat
    // The lengths of all jobs so far, refused ones included.
    ghost var history: seq<nat>

    ghost predicate Allocated() {
      && inputRing.Length == outputRing.Length == RING_SIZE
      && inputRing != outputRing
      && paramBuffer.Length == PARAM_BUFFER_WORDS
    }

    ghost predicate Valid()
      reads this
    {
      && Allocated()
      && Recorded(offset, history)
    }

    constructor ()
      ensures Valid() && fresh(inputRing) && fresh(outputRing) && fresh(paramBuffer) && offset == 0 && history == []
    {
      inputRing := new byte[RING_SIZE];
      outputRing := new byte[RING_SIZE];
      paramBuffer := new word[PARAM_BUFFER_WORDS];
      offset := 0;
      history := [];
      EmptyRecord();
    }

    /** One job of whole blocks. `queueOk` is the outcome of the queue submission and the wait; the ring offset
        has advanced even when it fails. */
    method Submit(src: array<byte>, srcOff: nat, dst: array<byte>, dstOff: nat, len: nat,
                  key: array<byte>, iv: array<byte>, queueOk: bool) returns (ok: bool)
      requires Valid() && key.Length == 32 && iv.Length == 16 && len % 64 == 0
      requires srcOff + len <= src.Length && dstOff + len <= dst.Length
      requires {src, dst, key, iv} !! {inputRing, outputRing}
      modifies this`offset, this`history, inputRing, outputRing, paramBuffer, dst
      ensures Valid()
      ensures ok <==> len <= 64 * 1024 * 1024 && queueOk
      ensures ok ==> dst[..] == Overwrite(old(dst[..]), dstOff,
                                          R.Encrypt(old(key[..]), old(iv[..]), old(src[srcOff..srcOff + len])))
      ensures ok ==> dst[dstOff..dstOff + len] ==
                     R.Encrypt(old(key[..]), old(iv[..]), old(src[srcOff..srcOff + len]))
      ensures dst[..dstOff] == old(dst[..dstOff]) && dst[dstOff + len..] == old(dst[dstOff + len..])
      ensures !ok ==> dst[..] == old(dst[..])
      ensures history == old(history) + [len]
      ensures len > RING_SIZE ==> offset == old(offset)
      ensures len <= RING_SIZE ==> var at := if old(offset) + len > RING_SIZE then 0 else old(offset);
                offset == at + len && inputRing[at..at + len] == old(src[srcOff..srcOff + len]) &&
                inputRing[..at] == old(inputRing[..at]) && inputRing[at + len..] == old(inputRing[at + len..]) &&
                outputRing[..at] == old(outputRing[..at]) && outputRing[at + len..] == old(outputRing[at + len..])
      ensures len > RING_SIZE ==> inputRing[..] == old(inputRing[..]) && outputRing[..] == old(outputRing[..])
      ensures !ok ==> outputRing[..] == old(outputRing[..])
      ensures if len <= RING_SIZE then Filled(paramBuffer[..], old(key[..]), old(iv[..]), BlockCount(len))
              else paramBuffer[..] == old(paramBuffer[..])
    {
      hide Filled, R.Encrypt, Recorded;
      RecordJob(offset, history, len);
      history := history + [len];
      if len > RING_SIZE {
        return false;
      }
      if offset + len > RING_SIZE {
        offset := 0;
      }
      var currentInfoOffset := offset;
      ghost var data := src[srcOff..srcOff + len];
      Copy(src, srcOff, inputRing, currentInfoOffset, len);
      FillParams(BlockCount(len), key[..], iv[..]);
      offset := offset + len;
      if !queueOk {
        return false;
      }
      RunJob(currentInfoOffset, len, key[..], iv[..]);
      assert Bound(inputRing, currentInfoOffset, len) == data;
      Copy(outputRing, currentInfoOffset, dst, dstOff, len);
      return true;
    }

    // Dispatch enough groups for the job whose input lies at `base`.
    method RunJob(base: nat, len: nat, ghost key: seq<byte>, ghost iv: seq<byte>)
      requires Allocated() && base + len <= RING_SIZE && len % 64 == 0
      requires |key| == 32 && |iv| == 16 && Filled(paramBuffer[..], key, iv, BlockCount(len))
      modifies outputRing
      ensures Bound(outputRing, base, len) == R.Encrypt(key, iv, Bound(inputRing, base, len))
      ensures outputRing[..base] == old(outputRing[..base])
      ensures outputRing[base + len..] == old(outputRing[base + len..])
    {
      hide Filled, WordNat, KeystreamWord, R.Encrypt, D.Sequential;
      BatchFits(len);
      WholeBlocks(len);
      BatchOf(paramBuffer[..], key, iv, BlockCount(len));
      var groupCount := (BlockCount(len) + 255) / 256;
      if groupCount == 0 {
        groupCount := 1;
      }
      ghost var before := Bound(outputRing, base, len);
      RunInvocations(base, len, groupCount);
      JobOutput(paramBuffer[..], key, iv, Bound(inputRing, base, len), before, len);
    }

    // Key words, nonce words, then the counter word.
    method FillParams(blocks: nat, key: seq<byte>, iv: seq<byte>)
      requires Allocated() && blocks < TWO_32 && |key| == 32 && |iv| == 16
      modifies paramBuffer
      ensures Filled(paramBuffer[..], key, iv, blocks)
    {
      hide LoadWord, WordOfNat, WordNat;
      WordOfNatValue(blocks);
      paramBuffer[0] := WordOfNat(blocks);
      var i: nat := 0;
      while i < 8
        invariant 0 <= i <= 8 && WordNat(paramBuffer[0]) == blocks
        invariant forall p :: 0 <= p < i ==> paramBuffer[KEY + p] == LoadWord(key, p)
      {
        paramBuffer[KEY + i] := LoadWord(key, i);
        i := i + 1;
      }
      paramBuffer[NONCE] := LoadWord(iv, 1);
      paramBuffer[NONCE + 1] := LoadWord(iv, 2);
      paramBuffer[NONCE + 2] := LoadWord(iv, 3);
      paramBuffer[NONCE + 3] := LoadWord(iv, 0);
    }

    // outputBuffer[i] = key ^ inputBuffer[i], inside the bound range
    method WriteWord(base: nat, size: nat, i: nat, key: word)
      requires Allocated() && base + size <= RING_SIZE && 4 * i + 4 <= size
      modifies outputRing
      ensures Bound(outputRing, base, size) ==
              StoreWord(old(Bound(outputRing, base, size)), i, XorWord(key, LoadWord(Bound(inputRing, base, size), i)))
      ensures outputRing[..base] == old(outputRing[..base])
      ensures outputRing[base + size..] == old(outputRing[base + size..])
    {
      hide StoreWord, XorWord, LoadWord;
      Store(outputRing, base, size, i, XorWord(key, LoadWord(Bound(inputRing, base, size), i)));
    }

    /** One dispatch over the range [base, base + size) of the rings, in any order of steps. */
    method RunInvocations(base: nat, size: nat, groupCount: nat)
      requires Allocated() && base + size <= RING_SIZE
      requires WordNat(paramBuffer[0]) <= GROUP_SIZE * groupCount <= TWO_32
      requires 64 * WordNat(paramBuffer[0]) <= size
      modifies outputRing
      ensures Bound(outputRing, base, size) ==
              D.Sequential(KernelOf(paramBuffer[..]), Bound(inputRing, base, size), old(Bound(outputRing, base, size)))
      ensures outputRing[..base] == old(outputRing[..base])
      ensures outputRing[base + size..] == old(outputRing[base + size..])
    {
      hide KeystreamWord, WordOfNat, WordNat, StoreWord, XorWord, LoadWord;
      hide D.Inv, D.Remaining, RegistersHold, HoldsKeystream, D.Step;
      var params := paramBuffer[..];
      ghost var k, input, before := KernelOf(params), Bound(inputRing, base, size), Bound(outputRing, base, size);
      var threads := GROUP_SIZE * groupCount;
      var batch: nat := WordNat(params[0]);
      var pc: seq<nat> := seq(threads, i => 0);
      var registers: map<nat, seq<word>> := map[];
      D.StartInv(k, input, before, threads);
      NoRegisters(params, threads);
      while exists g: nat :: g < threads && g < batch && pc[g] < 16
        invariant |pc| == threads && Bound(inputRing, base, size) == input
        invariant D.Inv(k, input, before, D.Machine(pc, Bound(outputRing, base, size)))
        invariant RegistersHold(params, pc, registers)
        invariant outputRing[..base] == old(outputRing[..base])
        invariant outputRing[base + size..] == old(outputRing[base + size..])
        decreases D.Remaining(k, pc)
      {
        var g: nat :| g < threads && g < batch && pc[g] < 16;
        var j := pc[g];
        if j == 0 {
          var block := Invocation(params, g);
          RegistersStart(params, pc, registers, g, block);
          registers := registers[g := block];
        }
        ghost var m := D.Machine(pc, Bound(outputRing, base, size));
        D.InvFits(k, input, before, m);
        D.StepKeepsInv(k, input, before, m, g);
        D.RemainingStep(k, pc, g);
        D.TargetInside(k, m, g);
        RegistersStep(params, pc, registers, g, j);
        WriteWord(base, size, 16 * g + j, registers[g][j]);
        D.StepEffect(k, input, m, g, 16 * g + j, registers[g][j], Bound(outputRing, base, size));
        pc := pc[g := j + 1];
      }
      D.QuiescentIsSequential(k, input, before, D.Machine(pc, Bound(outputRing, base, size)));
    }
  }

  lemma BatchOf(params: seq<word>, key: seq<byte>, iv: seq<byte>, blocks: nat)
    requires |key| == 32 && |iv| == 16 && Filled(params, key, iv, blocks)
    ensures |params| >= PARAM_WORDS && KernelOf(params).batch == WordNat(params[0]) == blocks
  {
    hide WordNat;
  }

  lemma JobOutput(params: seq<word>, key: seq<byte>, iv: seq<byte>, input: seq<byte>, before: seq<byte>, len: nat)
    requires |key| == 32 && |iv| == 16 && Filled(params, key, iv, BlockCount(len))
    requires |input| == |before| == len && len % 64 == 0 && KernelOf(params).Fits(input, before)
    ensures D.Sequential(KernelOf(params), input, before) == R.Encrypt(key, iv, input)
  {
    hide D.Kernel.KeyByte, XorByte, R.KeystreamByte, Filled, KeystreamWord;
    BatchOf(params, key, iv, BlockCount(len));
    WholeBlocks(len);
    assert KernelOf(params).BlockBytes() * KernelOf(params).batch == len;
    forall p | 0 <= p < len
      ensures D.Sequential(KernelOf(params), input, before)[p] == R.Encrypt(key, iv, input)[p]
    {
      KeystreamIsRfcByte(params, key, iv, BlockCount(len), p);
      XorByteSwap(KernelOf(params).KeyByte(p), input[p]);
    }
  }

  ghost predicate HoldsKeystream(params: seq<word>, g: nat, block: seq<word>)
    requires |params| >= PARAM_WORDS
  {
    |block| == 16 && forall j :: 0 <= j < 16 ==> block[j] == KeystreamWord(params, g, j)
  }

  // Every invocation that has started holds its keystream words.
  ghost predicate RegistersHold(params: seq<word>, pc: seq<nat>, registers: map<nat, seq<word>>)
    requires |params| >= PARAM_WORDS
  {
    forall g :: 0 <= g < |pc| && 0 < pc[g] ==> g in registers && HoldsKeystream(params, g, registers[g])
  }

  lemma NoRegisters(params: seq<word>, threads: nat)
    requires |params| >= PARAM_WORDS
    ensures RegistersHold(params, seq(threads, i => 0), map[])
  {}

  lemma RegistersStart(params: seq<word>, pc: seq<nat>, registers: map<nat, seq<word>>, g: nat, block: seq<word>)
    requires |params| >= PARAM_WORDS
    requires RegistersHold(params, pc, registers) && HoldsKeystream(params, g, block)
    ensures RegistersHold(params, pc, registers[g := block])
  {}

  lemma RegistersStep(params: seq<word>, pc: seq<nat>, registers: map<nat, seq<word>>, g: nat, j: nat)
    requires |params| >= PARAM_WORDS
    requires g < |pc| && j == pc[g] < 16 && RegistersHold(params, pc, registers)
    requires 0 < j || (g in registers && HoldsKeystream(params, g, registers[g]))
    ensures RegistersHold(params, pc[g := j + 1], registers)
    ensures g in registers && |registers[g]| == 16 && registers[g][j] == KeystreamWord(params, g, j)
  {}

  /** The private part of one invocation: its sixteen keystream words. */
  method Invocation(params: seq<word>, g: nat) returns (block: seq<word>)
    requires |params| >= PARAM_WORDS
    ensures HoldsKeystream(params, g, block)
  {
    hide R.BlockWords, ShaderState, WordOfNat;
    var x := KeystreamBlock(params, WordOfNat(g));
    block := x[..];
  }
}
