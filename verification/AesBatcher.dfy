/** The AES-256 batcher: key expansion, parameter buffer, rings, dispatch. */
module AesBatcher {
  import opened Bytes
  import opened Words
  import opened Sizes
  import opened Memory
  import opened AesKernel
  import opened ShaderCounter
  import opened AesCtr
  import F = Fips197
  import D = Dispatch
  import KeySchedule
  import Sbox

  // ---- What a filled parameter buffer makes the invocations do ----

  function ColumnOf(s: F.State, j: nat): F.Column
    requires j < 4
  {
    if j == 0 then s.c0 else if j == 1 then s.c1 else if j == 2 then s.c2 else s.c3
  }

  function PackColumn(c: F.Column): word {
    Pack(c.b0, c.b1, c.b2, c.b3)
  }

  ghost predicate Runnable(params: seq<word>) {
    HoldsSBox(params, Sbox.SBox) && 1 <= WordNat(params[1]) <= 14
  }

  predicate BatchInRing(params: seq<word>) {
    |params| >= PARAM_WORDS && BLOCK * WordNat(params[0]) <= RING_SIZE
  }

  // The output ring when every invocation has finished, one block after the other.
  ghost function AfterDispatch(params: seq<word>, input: seq<byte>, before: seq<byte>): seq<byte>
    requires Runnable(params) && BatchInRing(params) && |input| == |before| == RING_SIZE
  {
    D.Sequential(KernelOf(params), input, before)
  }

  function KeystreamWord(params: seq<word>, g: nat, j: nat): word
    requires |params| >= PARAM_WORDS && 1 <= WordNat(params[1]) <= 14
  {
    if j < 4 then
      var start := CounterState(params, WordOfNat(g));
      PackColumn(ColumnOf(F.Cipher(Sbox.SBox, RoundKeys(params), WordNat(params[1]), start), j))
    else 0
  }

  function KernelOf(params: seq<word>): D.Kernel
    requires |params| >= PARAM_WORDS && 1 <= WordNat(params[1]) <= 14
  {
    D.Kernel(WordNat(params[0]), 4, (g: nat, j: nat) => KeystreamWord(params, g, j))
  }

  lemma PackUnpacked(w: word)
    ensures PackColumn(Unpack(w)) == w
  {
    hide Pack, B0, B1, B2, B3;
    PackBytes(w);
  }

  /** The parameter buffer for a key, an IV and a block count, as the shader reads it. */
  ghost predicate Filled(params: seq<word>, key: seq<byte>, iv: seq<byte>, blocks: nat)
    requires |key| == 32 && |iv| == BLOCK
  {
    && HoldsSBox(params, Sbox.SBox)
    && WordNat(params[0]) == blocks && WordNat(params[1]) == ROUNDS
    && (forall i :: 0 <= i < 60 ==> Unpack(params[ROUND_KEY + i]) == F.KeyWord(Sbox.SBox, key, i))
    && (forall i :: 0 <= i < 4 ==> params[IV + i] == LoadWord(iv, i))
  }

  /** The layout, by word offset: counts at 0 and 1, 60 round keys at 4, the IV at 64, the substitution box at 68. */
  lemma Layout(params: seq<word>, key: seq<byte>, iv: seq<byte>, blocks: nat)
    requires |key| == 32 && |iv| == BLOCK && Filled(params, key, iv, blocks)
    ensures |params| >= 324 && WordNat(params[0]) == blocks && WordNat(params[1]) == 14
    ensures forall i :: 0 <= i < 60 ==> Unpack(params[4 + i]) == F.KeyExpansion(Sbox.SBox, key)[i]
    ensures forall i :: 0 <= i < 4 ==> params[64 + i] == LoadWord(iv, i)
    ensures forall b: byte :: params[68 + b as nat] == Widen(Sbox.SBox(b))
  {
    hide F.KeyWord, Unpack, LoadWord, Sbox.SBox, Widen, WordNat;
    forall b: byte
      ensures params[68 + b as nat] == Widen(Sbox.SBox(b))
    {
      LookUp(params, Sbox.SBox, b);
    }
  }

  lemma FilledRunnable(params: seq<word>, key: seq<byte>, iv: seq<byte>, blocks: nat)
    requires |key| == 32 && |iv| == BLOCK && Filled(params, key, iv, blocks)
    ensures Runnable(params) && KernelOf(params).batch == WordNat(params[0]) == blocks
  {
    hide WordNat, Sbox.SBox;
  }

  lemma UnpackLoad(s: seq<byte>, i: nat)
    requires 4 * i + 4 <= |s|
    ensures Unpack(LoadWord(s, i)) == ColumnAt(s, i)
  {}

  lemma UnpackLe(w: word)
    ensures Unpack(w) == ColumnAt(Le(w), 0)
  {}

  lemma CounterStateIsBlock(params: seq<word>, iv: seq<byte>, gID: word)
    requires |params| >= PARAM_WORDS && |iv| == BLOCK
    requires forall i :: 0 <= i < 4 ==> params[IV + i] == LoadWord(iv, i)
    ensures CounterState(params, gID) == BlockState(ShaderBlock(iv, gID))
  {
    hide LoadWord, Unpack, CounterWord2, CounterWord3, B0, B1, B2, B3;
    var c2 := CounterWord2(LoadWord(iv, 2), LoadWord(iv, 3), gID);
    var c3 := CounterWord3(LoadWord(iv, 3), gID);
    assert params[IV + 0] == LoadWord(iv, 0) && params[IV + 1] == LoadWord(iv, 1);
    assert params[IV + 2] == LoadWord(iv, 2) && params[IV + 3] == LoadWord(iv, 3);
    UnpackLoad(iv, 0);
    UnpackLoad(iv, 1);
    UnpackLe(c2);
    UnpackLe(c3);
  }

  lemma PackedByte(c: F.Column, r: nat)
    requires r < 4
    ensures ByteOf(PackColumn(c), r) == ColumnBytes(c)[r]
  {
    hide Pack, B0, B1, B2, B3;
    assert PackColumn(c) == Pack(c.b0, c.b1, c.b2, c.b3);
  }

  lemma StateByte(s: F.State, q: nat)
    requires q < BLOCK
    ensures ColumnBytes(ColumnOf(s, q / 4))[q % 4] == StateBytes(s)[q]
  {
    hide ColumnBytes;
    if q < 4 {} else if q < 8 {} else if q < 12 {} else {}
  }

  /** The word the invocation of block p / 16 adds at word p % 16 / 4 carries the job's keystream byte p. */
  lemma KeystreamIsJobByte(params: seq<word>, key: seq<byte>, iv: seq<byte>, blocks: nat, p: nat)
    requires |key| == 32 && |iv| == BLOCK && Filled(params, key, iv, blocks)
    ensures KernelOf(params).KeyByte(p) == JobByte(key, iv, p)
  {
    hide F.Cipher, PackColumn, StateBytes, BlockState, ShaderBlock, CounterState, WordOfNat, WordNat, Sbox.SBox;
    hide F.KeyWord, ByteOf, Unpack, ColumnBytes, ColumnOf;
    var gID, q := WordOfNat(p / 16), p % 16;
    CounterStateIsBlock(params, iv, gID);
    RoundKeysExpanded(params, key, iv, blocks);
    var s := F.Cipher(Sbox.SBox, F.KeyExpansion(Sbox.SBox, key), ROUNDS, BlockState(ShaderBlock(iv, gID)));
    PackedByte(ColumnOf(s, q / 4), q % 4);
    StateByte(s, q);
    assert q % 4 == p % 4;
    assert KernelOf(params).KeyByte(p) == ByteOf(KeystreamWord(params, p / 16, q / 4), p % 4);
  }

  lemma RoundKeysExpanded(params: seq<word>, key: seq<byte>, iv: seq<byte>, blocks: nat)
    requires |key| == 32 && |iv| == BLOCK && Filled(params, key, iv, blocks)
    ensures RoundKeys(params) == F.KeyExpansion(Sbox.SBox, key)
  {
    hide F.KeyWord, Unpack, Sbox.SBox;
  }

  class AES256Batcher {
    const inputRing: array<byte>
    const outputRing: array<byte>
    const paramBuffer: array<word>

    ghost predicate Valid() {
      && inputRing.Length == outputRing.Length == RING_SIZE
      && inputRing != outputRing
      && paramBuffer.Length == PARAM_BUFFER_WORDS
    }

    constructor ()
      ensures Valid() && fresh(inputRing) && fresh(outputRing) && fresh(paramBuffer)
    {
      inputRing := new byte[RING_SIZE];
      outputRing := new byte[RING_SIZE];
      paramBuffer := new word[PARAM_BUFFER_WORDS];
    }

    // outputData[i] = key ^ inputData[i]
    method WriteWord(i: nat, key: word)
      requires Valid() && 4 * i + 4 <= RING_SIZE
      modifies outputRing
      ensures outputRing[..] == StoreWord(old(outputRing[..]), i, XorWord(key, LoadWord(inputRing[..], i)))
    {
      hide StoreWord, XorWord, LoadWord;
      WholeRange(outputRing);
      Store(outputRing, 0, RING_SIZE, i, XorWord(key, LoadWord(inputRing[..], i)));
      WholeRange(outputRing);
    }

    /** One dispatch: as long as some invocation has work left, any such invocation takes its next step. */
    method RunInvocations(groupCount: nat)
      requires Valid() && Runnable(paramBuffer[..]) && BatchInRing(paramBuffer[..])
      requires WordNat(paramBuffer[0]) <= GROUP_SIZE * groupCount <= TWO_32
      modifies outputRing
      ensures outputRing[..] == AfterDispatch(paramBuffer[..], inputRing[..], old(outputRing[..]))
    {
      hide KeystreamWord, F.Cipher, WordOfNat, WordNat, Sbox.SBox, StoreWord, XorWord, LoadWord, HoldsSBox;
      hide D.Inv, D.Remaining, RegistersHold, HoldsKeystream, D.Step;
      var params := paramBuffer[..];
      ghost var k, input, before := KernelOf(params), inputRing[..], outputRing[..];
      var threads := GROUP_SIZE * groupCount;
      var batch: nat := WordNat(params[0]);
      var pc: seq<nat> := seq(threads, i => 0);
      var registers: map<nat, seq<word>> := map[];
      D.StartInv(k, input, before, threads);
      NoRegisters(params, threads);
      while exists g: nat :: g < threads && g < batch && pc[g] < 4
        invariant |pc| == threads && inputRing[..] == input
        invariant D.Inv(k, input, before, D.Machine(pc, outputRing[..]))
        invariant RegistersHold(params, pc, registers)
        decreases D.Remaining(k, pc)
      {
        var g: nat :| g < threads && g < batch && pc[g] < 4;
        var j := pc[g];
        if j == 0 {
          var block := Invocation(params, g);
          RegistersStart(params, pc, registers, g, block);
          registers := registers[g := block];
        }
        ghost var m := D.Machine(pc, outputRing[..]);
        D.InvFits(k, input, before, m);
        D.StepKeepsInv(k, input, before, m, g);
        D.RemainingStep(k, pc, g);
        D.TargetInside(k, m, g);
        RegistersStep(params, pc, registers, g, j);
        WriteWord(4 * g + j, registers[g][j]);
        D.StepEffect(k, input, m, g, 4 * g + j, registers[g][j], outputRing[..]);
        pc := pc[g := j + 1];
      }
      D.QuiescentIsSequential(k, input, before, D.Machine(pc, outputRing[..]));
    }

    /** One job. `queueOk` is the outcome of the queue submission. */
    method Submit(src: array<byte>, srcOff: nat, dst: array<byte>, dstOff: nat, len: nat,
                  key: array<byte>, iv: array<byte>, queueOk: bool) returns (ok: bool)
      requires Valid() && key.Length == 32 && iv.Length == BLOCK
      requires srcOff + len <= src.Length && dstOff + len <= dst.Length
      requires {src, dst, key, iv} !! {inputRing, outputRing}
      modifies inputRing, outputRing, paramBuffer, dst
      ensures ok <==> len <= 64 * 1024 * 1024 && queueOk
      ensures ok ==> dst[..] == Overwrite(old(dst[..]), dstOff,
                                          JobOutput(old(key[..]), old(iv[..]), old(src[srcOff..srcOff + len])))
      ensures ok ==> dst[dstOff..dstOff + len] == JobOutput(old(key[..]), old(iv[..]), old(src[srcOff..srcOff + len]))
      ensures dst[..dstOff] == old(dst[..dstOff]) && dst[dstOff + len..] == old(dst[dstOff + len..])
      ensures !ok ==> dst[..] == old(dst[..])
      ensures inputRing[..] == if len <= RING_SIZE then Overwrite(old(inputRing[..]), 0, old(src[srcOff..srcOff + len]))
                               else old(inputRing[..])
      ensures len <= RING_SIZE ==>
                && inputRing[..len] == old(src[srcOff..srcOff + len]) && inputRing[len..] == old(inputRing[len..])
                && outputRing[BLOCK * BlockCount(len)..] == old(outputRing[BLOCK * BlockCount(len)..])
      ensures !ok ==> outputRing[..] == old(outputRing[..])
      ensures if len <= RING_SIZE then Filled(paramBuffer[..], old(key[..]), old(iv[..]), BlockCount(len))
              else paramBuffer[..] == old(paramBuffer[..])
    {
      hide Filled, Sbox.SBox, WordNat, KeystreamWord, JobByte, D.Kernel.KeyByte, XorByte;
      if len > RING_SIZE {
        return false;
      }
      BatchFits(len);
      Copy(src, srcOff, inputRing, 0, len);
      FillParams(BlockCount(len), key[..], iv[..]);
      ghost var params := paramBuffer[..];
      var groupCount := (BlockCount(len) + 255) / 256;
      if groupCount == 0 {
        groupCount := 1;
      }
      if !queueOk {
        return false;
      }
      FilledRunnable(params, key[..], iv[..], BlockCount(len));
      RunInvocations(groupCount);
      JobIsolated(params, key[..], iv[..], inputRing[..], old(outputRing[..]), len);
      Copy(outputRing, 0, dst, dstOff, len);
      return true;
    }

    // The parameter writes of `submit`: counts, round keys, IV, substitution box.
    method FillParams(blocks: nat, key: seq<byte>, iv: seq<byte>)
      requires Valid() && blocks < TWO_32 && |key| == 32 && |iv| == BLOCK
      modifies paramBuffer
      ensures Filled(paramBuffer[..], key, iv, blocks)
      ensures paramBuffer[PARAM_WORDS..] == old(paramBuffer[PARAM_WORDS..])
    {
      hide F.KeyWord, Unpack, LoadWord, WordOfNat, WordNat, Sbox.SBox, ToByte, Widen, SBoxEntry;
      WordOfNatValue(blocks);
      WordOfNatValue(ROUNDS);
      paramBuffer[0] := WordOfNat(blocks);
      paramBuffer[1] := WordOfNat(ROUNDS);
      var schedule := KeySchedule.ExpandKey(Sbox.SBox, key);
      var w := schedule[..];
      var i: nat := 0;
      while i < 60
        invariant 0 <= i <= 60
        invariant HeaderDone(paramBuffer[..], blocks)
        invariant KeysDone(paramBuffer[..], key, i)
        invariant paramBuffer[PARAM_WORDS..] == old(paramBuffer[PARAM_WORDS..])
      {
        paramBuffer[ROUND_KEY + i] := w[i];
        i := i + 1;
      }
      i := 0;
      while i < 4
        invariant 0 <= i <= 4
        invariant HeaderDone(paramBuffer[..], blocks) && KeysDone(paramBuffer[..], key, 60)
        invariant IvDone(paramBuffer[..], iv, i)
        invariant paramBuffer[PARAM_WORDS..] == old(paramBuffer[PARAM_WORDS..])
      {
        paramBuffer[IV + i] := LoadWord(iv, i);
        i := i + 1;
      }
      i := 0;
      while i < 256
        invariant 0 <= i <= 256
        invariant HeaderDone(paramBuffer[..], blocks) && KeysDone(paramBuffer[..], key, 60) &&
                  IvDone(paramBuffer[..], iv, 4)
        invariant BoxDone(paramBuffer[..], i)
        invariant paramBuffer[PARAM_WORDS..] == old(paramBuffer[PARAM_WORDS..])
      {
        ghost var was := paramBuffer[..];
        paramBuffer[SBOX + i] := Widen(Sbox.SBox(ToByte(i)));
        BoxStep(was, paramBuffer[..], i);
        i := i + 1;
      }
      AllDone(paramBuffer[..], key, iv, blocks);
    }
  }

  /** Whole blocks covering len bytes. */
  function BlockCount(len: nat): nat {
    (len + 15) / 16
  }

  /** The padded batch is the fewest whole blocks that hold the job and still fits the ring, the indices fit 32 bits,
      and the groups
      cover the batch. */
  lemma BatchFits(len: nat)
    requires len <= RING_SIZE
    ensures len <= 16 * BlockCount(len) < len + 16 && 16 * BlockCount(len) <= RING_SIZE
    ensures var groups := (BlockCount(len) + 255) / 256;
            BlockCount(len) <= GROUP_SIZE * (if groups == 0 then 1 else groups) <= TWO_32
  {}

  // The first len bytes the batch leaves depend on this job alone.
  lemma JobIsolated(params: seq<word>, key: seq<byte>, iv: seq<byte>, input: seq<byte>, before: seq<byte>, len: nat)
    requires |key| == 32 && |iv| == BLOCK && Filled(params, key, iv, BlockCount(len))
    requires |input| == |before| == RING_SIZE && len <= RING_SIZE
    requires KernelOf(params).Fits(input, before)
    ensures D.Sequential(KernelOf(params), input, before)[..len] == JobOutput(key, iv, input[..len])
  {
    hide D.Kernel.KeyByte, XorByte, JobByte, Filled, KeystreamWord;
    FilledRunnable(params, key, iv, BlockCount(len));
    BatchFits(len);
    forall p | 0 <= p < len
      ensures D.Sequential(KernelOf(params), input, before)[p] == JobOutput(key, iv, input[..len])[p]
    {
      KeystreamIsJobByte(params, key, iv, BlockCount(len), p);
      XorByteSwap(KernelOf(params).KeyByte(p), input[p]);
    }
  }

  predicate HeaderDone(params: seq<word>, blocks: nat) {
    |params| == PARAM_BUFFER_WORDS && WordNat(params[0]) == blocks && WordNat(params[1]) == ROUNDS
  }

  ghost predicate KeysDone(params: seq<word>, key: seq<byte>, n: nat)
    requires |key| == 32
  {
    |params| == PARAM_BUFFER_WORDS && n <= 60 &&
    forall i :: 0 <= i < n ==> Unpack(params[ROUND_KEY + i]) == F.KeyWord(Sbox.SBox, key, i)
  }

  predicate IvDone(params: seq<word>, iv: seq<byte>, n: nat)
    requires |iv| == BLOCK
  {
    |params| == PARAM_BUFFER_WORDS && n <= 4 && forall i :: 0 <= i < n ==> params[IV + i] == LoadWord(iv, i)
  }

  predicate BoxDone(params: seq<word>, n: nat) {
    |params| == PARAM_BUFFER_WORDS && n <= 256 &&
    forall i :: 0 <= i < n ==> SBoxEntry(params, Sbox.SBox, i)
  }

  lemma BoxStep(was: seq<word>, params: seq<word>, i: nat)
    requires i < 256 && BoxDone(was, i) && params == was[SBOX + i := Widen(Sbox.SBox(ToByte(i)))]
    ensures BoxDone(params, i + 1)
  {
    hide Sbox.SBox, Widen, ToByte;
    forall n | 0 <= n < i + 1
      ensures SBoxEntry(params, Sbox.SBox, n)
    {
      assert n < i ==> SBoxEntry(was, Sbox.SBox, n);
    }
  }

  lemma AllDone(params: seq<word>, key: seq<byte>, iv: seq<byte>, blocks: nat)
    requires |key| == 32 && |iv| == BLOCK
    requires HeaderDone(params, blocks) && KeysDone(params, key, 60) && IvDone(params, iv, 4) && BoxDone(params, 256)
    ensures Filled(params, key, iv, blocks)
  {
    hide F.KeyWord, Unpack, LoadWord, Sbox.SBox, WordNat, SBoxEntry;
  }

  ghost predicate HoldsKeystream(params: seq<word>, g: nat, block: seq<word>)
    requires |params| >= PARAM_WORDS && 1 <= WordNat(params[1]) <= 14
  {
    |block| == 4 && forall j :: 0 <= j < 4 ==> block[j] == KeystreamWord(params, g, j)
  }

  // Every invocation that has started holds its keystream words.
  ghost predicate RegistersHold(params: seq<word>, pc: seq<nat>, registers: map<nat, seq<word>>)
    requires |params| >= PARAM_WORDS && 1 <= WordNat(params[1]) <= 14
  {
    forall g :: 0 <= g < |pc| && 0 < pc[g] ==> g in registers && HoldsKeystream(params, g, registers[g])
  }

  lemma NoRegisters(params: seq<word>, threads: nat)
    requires |params| >= PARAM_WORDS && 1 <= WordNat(params[1]) <= 14
    ensures RegistersHold(params, seq(threads, i => 0), map[])
  {}

  lemma RegistersStart(params: seq<word>, pc: seq<nat>, registers: map<nat, seq<word>>, g: nat, block: seq<word>)
    requires |params| >= PARAM_WORDS && 1 <= WordNat(params[1]) <= 14
    requires RegistersHold(params, pc, registers) && HoldsKeystream(params, g, block)
    ensures RegistersHold(params, pc, registers[g := block])
  {}

  lemma RegistersStep(params: seq<word>, pc: seq<nat>, registers: map<nat, seq<word>>, g: nat, j: nat)
    requires |params| >= PARAM_WORDS && 1 <= WordNat(params[1]) <= 14
    requires g < |pc| && j == pc[g] < 4 && RegistersHold(params, pc, registers)
    requires 0 < j || (g in registers && HoldsKeystream(params, g, registers[g]))
    ensures RegistersHold(params, pc[g := j + 1], registers)
    ensures g in registers && |registers[g]| == 4 && registers[g][j] == KeystreamWord(params, g, j)
  {}

  /** The private part of one invocation: its four keystream words. */
  method Invocation(params: seq<word>, g: nat) returns (block: seq<word>)
    requires Runnable(params)
    ensures HoldsKeystream(params, g, block)
  {
    hide F.Cipher, WordOfNat, WordNat, Sbox.SBox, PackColumn, Unpack, CounterState, RoundKeys;
    var s0, s1, s2, s3 := KeystreamBlock(params, WordOfNat(g), Sbox.SBox);
    PackUnpacked(s0);
    PackUnpacked(s1);
    PackUnpacked(s2);
    PackUnpacked(s3);
    block := [s0, s1, s2, s3];
  }
}
