/** A compute dispatch: all invocations run together, each writing the words of its own block one at a time,
    in an order nobody controls. */
module Dispatch {
  import opened Bytes

  /** What the invocations do: invocation g < batch writes `width` words, word j being key(g, j) added to the input
      word. */
  datatype Kernel = Kernel(batch: nat, width: nat, key: (nat, nat) -> word) {
    // Four words a block for AES, sixteen for ChaCha20.
    predicate Valid() {
      width == 4 || width == 16
    }

    function BlockBytes(): nat {
      4 * width
    }

    function KeyByte(p: nat): byte
      requires Valid()
    {
      ByteOf(key(p / BlockBytes(), p % BlockBytes() / 4), p % 4)
    }

    // Both buffers hold every block of the batch.
    predicate Fits(input: seq<byte>, output: seq<byte>) {
      BlockBytes() * batch <= |input| && BlockBytes() * batch <= |output|
    }
  }

  /** pc[g] is how many words invocation g has written. */
  datatype Machine = Machine(pc: seq<nat>, output: seq<byte>)

  predicate CanStep(k: Kernel, m: Machine, g: nat) {
    g < |m.pc| && g < k.batch && m.pc[g] < k.width
  }

  // The word index that the next step of invocation g writes.
  function Target(k: Kernel, m: Machine, g: nat): nat
    requires CanStep(k, m, g)
  {
    k.width * g + m.pc[g]
  }

  lemma TargetInside(k: Kernel, m: Machine, g: nat)
    requires CanStep(k, m, g)
    ensures Target(k, m, g) < k.width * k.batch
    ensures 4 * Target(k, m, g) + 4 <= k.BlockBytes() * k.batch
  {
    assert k.width * (g + 1) <= k.width * k.batch;
  }

  function Step(k: Kernel, input: seq<byte>, m: Machine, g: nat): Machine
    requires k.Fits(input, m.output) && CanStep(k, m, g)
  {
    TargetInside(k, m, g);
    var i := Target(k, m, g);
    Machine(m.pc[g := m.pc[g] + 1], StoreWord(m.output, i, XorWord(k.key(g, m.pc[g]), LoadWord(input, i))))
  }

  lemma StepEffect(k: Kernel, input: seq<byte>, m: Machine, g: nat, i: nat, key: word, output: seq<byte>)
    requires k.Fits(input, m.output) && CanStep(k, m, g)
    requires i == Target(k, m, g) && key == k.key(g, m.pc[g])
    requires 4 * i + 4 <= |input| && 4 * i + 4 <= |m.output|
    requires output == StoreWord(m.output, i, XorWord(key, LoadWord(input, i)))
    ensures Step(k, input, m, g) == Machine(m.pc[g := m.pc[g] + 1], output)
  {
    hide StoreWord, XorWord, LoadWord;
  }

  /** The memory after the whole batch, block by block. */
  function Sequential(k: Kernel, input: seq<byte>, before: seq<byte>): (r: seq<byte>)
    requires k.Valid() && k.Fits(input, before)
    ensures |r| == |before|
  {
    seq(|before|, p requires 0 <= p < |before| =>
      if p < k.BlockBytes() * k.batch then XorByte(k.KeyByte(p), input[p]) else before[p])
  }

  // ---- Every reachable state ----

  predicate Written(k: Kernel, m: Machine, p: nat)
    requires k.Valid() && k.batch <= |m.pc|
  {
    p < k.BlockBytes() * k.batch && p % k.BlockBytes() / 4 < m.pc[p / k.BlockBytes()]
  }

  predicate ByteDone(k: Kernel, input: seq<byte>, before: seq<byte>, m: Machine, p: nat)
    requires k.Valid() && k.Fits(input, before) && k.batch <= |m.pc|
    requires |m.output| == |before| && p < |before|
  {
    m.output[p] == if Written(k, m, p) then XorByte(k.KeyByte(p), input[p]) else before[p]
  }

  ghost predicate Inv(k: Kernel, input: seq<byte>, before: seq<byte>, m: Machine) {
    && k.Valid() && k.Fits(input, before) && k.batch <= |m.pc| && |m.output| == |before|
    && (forall g :: 0 <= g < |m.pc| ==> m.pc[g] <= if g < k.batch then k.width else 0)
    && (forall p :: 0 <= p < |before| ==> ByteDone(k, input, before, m, p))
  }

  lemma InvFits(k: Kernel, input: seq<byte>, before: seq<byte>, m: Machine)
    requires Inv(k, input, before, m)
    ensures k.Valid() && k.Fits(input, m.output) && k.batch <= |m.pc|
  {}

  lemma StepKeepsInv(k: Kernel, input: seq<byte>, before: seq<byte>, m: Machine, g: nat)
    requires Inv(k, input, before, m) && CanStep(k, m, g)
    ensures Inv(k, input, before, Step(k, input, m, g))
  {
    hide ByteDone;
    forall p | 0 <= p < |before|
      ensures ByteDone(k, input, before, Step(k, input, m, g), p)
    {
      StepByte(k, input, before, m, g, p);
    }
  }

  lemma StepByte(k: Kernel, input: seq<byte>, before: seq<byte>, m: Machine, g: nat, p: nat)
    requires Inv(k, input, before, m) && CanStep(k, m, g) && p < |before|
    ensures ByteDone(k, input, before, Step(k, input, m, g), p)
  {
    hide XorWord, XorByte, ByteOf, LoadWord, Step, ByteDone;
    TargetInside(k, m, g);
    var i := Target(k, m, g);
    if 4 * i <= p < 4 * i + 4 {
      TargetByte(k, input, before, m, g, p);
    } else {
      OtherByte(k, input, before, m, g, p);
    }
  }

  // A byte of the word that is written.
  lemma TargetByte(k: Kernel, input: seq<byte>, before: seq<byte>, m: Machine, g: nat, p: nat)
    requires k.Valid() && k.Fits(input, before) && k.batch <= |m.pc| && |m.output| == |before|
    requires CanStep(k, m, g) && 4 * Target(k, m, g) <= p < 4 * Target(k, m, g) + 4 && p < |before|
    ensures ByteDone(k, input, before, Step(k, input, m, g), p)
  {
    hide XorWord, XorByte, ByteOf, LoadWord;
    TargetInside(k, m, g);
    var i, j := Target(k, m, g), m.pc[g];
    Position(k.width, g, j, p);
    XorByteOf(k.key(g, j), LoadWord(input, i), p - 4 * i);
    LoadedByte(input, i, p - 4 * i);
  }

  // Any other byte.
  lemma OtherByte(k: Kernel, input: seq<byte>, before: seq<byte>, m: Machine, g: nat, p: nat)
    requires k.Valid() && k.Fits(input, before) && k.batch <= |m.pc| && |m.output| == |before|
    requires CanStep(k, m, g) && p < |before| && (p < 4 * Target(k, m, g) || 4 * Target(k, m, g) + 4 <= p)
    requires ByteDone(k, input, before, m, p)
    ensures ByteDone(k, input, before, Step(k, input, m, g), p)
  {
    hide XorWord, XorByte, ByteOf, LoadWord, Kernel.KeyByte, Written, StoreWord, Kernel.BlockBytes;
    TargetInside(k, m, g);
    assert Step(k, input, m, g).output[p] == m.output[p];
    WrittenKept(k, m, Step(k, input, m, g), g, p);
  }

  lemma WrittenKept(k: Kernel, m: Machine, n: Machine, g: nat, p: nat)
    requires k.Valid() && k.batch <= |m.pc| && CanStep(k, m, g) && n.pc == m.pc[g := m.pc[g] + 1]
    requires p < 4 * Target(k, m, g) || 4 * Target(k, m, g) + 4 <= p
    ensures Written(k, n, p) <==> Written(k, m, p)
  {
    OtherPosition(k.width, g, m.pc[g], p);
    if p < k.BlockBytes() * k.batch {
      BlockOf(k.width, k.batch, p);
    }
  }

  lemma Position(width: nat, g: nat, j: nat, p: nat)
    requires (width == 4 || width == 16) && j < width
    requires 4 * (width * g + j) <= p < 4 * (width * g + j) + 4
    ensures p / (4 * width) == g && p % (4 * width) / 4 == j && p % 4 == p - 4 * (width * g + j)
  {
    if width == 4 {
      PositionOf4(g, j, p - 16 * g - 4 * j);
    } else {
      PositionOf16(g, j, p - 64 * g - 4 * j);
    }
  }

  lemma PositionOf4(g: nat, j: nat, r: nat)
    requires j < 4 && r < 4
    ensures var p := 16 * g + 4 * j + r; p / 16 == g && p % 16 / 4 == j && p % 4 == r
  {
    Split16(g, 4 * j + r);
    Split4(j, r);
    Split4(4 * g + j, r);
  }

  lemma PositionOf16(g: nat, j: nat, r: nat)
    requires j < 16 && r < 4
    ensures var p := 64 * g + 4 * j + r; p / 64 == g && p % 64 / 4 == j && p % 4 == r
  {
    Split64(g, 4 * j + r);
    Split4(j, r);
    Split4(16 * g + j, r);
  }

  lemma Split4(q: nat, r: nat)
    requires r < 4
    ensures (4 * q + r) / 4 == q && (4 * q + r) % 4 == r
  {}

  lemma Split16(q: nat, r: nat)
    requires r < 16
    ensures (16 * q + r) / 16 == q && (16 * q + r) % 16 == r
  {}

  lemma Split64(q: nat, r: nat)
    requires r < 64
    ensures (64 * q + r) / 64 == q && (64 * q + r) % 64 == r
  {}

  lemma OtherPosition(width: nat, g: nat, j: nat, p: nat)
    requires (width == 4 || width == 16) && j < width
    requires p < 4 * (width * g + j) || 4 * (width * g + j) + 4 <= p
    ensures !(p / (4 * width) == g && p % (4 * width) / 4 == j)
  {
    if width == 4 {} else {}
  }

  // ---- Whole runs, under every schedule ----

  // The machine after the invocations named in `schedule` have taken one step each, in that order.
  ghost predicate ValidRun(k: Kernel, input: seq<byte>, m: Machine, schedule: seq<nat>)
    requires k.Fits(input, m.output)
    decreases |schedule|
  {
    schedule == [] || (CanStep(k, m, schedule[0]) && ValidRun(k, input, Step(k, input, m, schedule[0]), schedule[1..]))
  }

  ghost function Execute(k: Kernel, input: seq<byte>, m: Machine, schedule: seq<nat>): Machine
    requires k.Fits(input, m.output) && ValidRun(k, input, m, schedule)
    decreases |schedule|
  {
    if schedule == [] then m else Execute(k, input, Step(k, input, m, schedule[0]), schedule[1..])
  }

  // The word indices written, in order.
  ghost function Writes(k: Kernel, input: seq<byte>, m: Machine, schedule: seq<nat>): seq<nat>
    requires k.Fits(input, m.output) && ValidRun(k, input, m, schedule)
    decreases |schedule|
  {
    if schedule == [] then []
    else [Target(k, m, schedule[0])] + Writes(k, input, Step(k, input, m, schedule[0]), schedule[1..])
  }

  // Nobody has a step left.
  predicate Quiescent(k: Kernel, m: Machine) {
    forall g :: 0 <= g < |m.pc| ==> !CanStep(k, m, g)
  }

  function Start(threads: nat, before: seq<byte>): Machine {
    Machine(seq(threads, i => 0), before)
  }

  lemma StartInv(k: Kernel, input: seq<byte>, before: seq<byte>, threads: nat)
    requires k.Valid() && k.Fits(input, before) && k.batch <= threads
    ensures Inv(k, input, before, Start(threads, before))
  {}

  lemma {:induction false} ExecuteKeepsInv(k: Kernel, input: seq<byte>, before: seq<byte>, m: Machine,
                                           schedule: seq<nat>)
    requires Inv(k, input, before, m) && ValidRun(k, input, m, schedule)
    ensures Inv(k, input, before, Execute(k, input, m, schedule))
    decreases |schedule|
  {
    hide ByteDone;
    if schedule != [] {
      StepKeepsInv(k, input, before, m, schedule[0]);
      ExecuteKeepsInv(k, input, before, Step(k, input, m, schedule[0]), schedule[1..]);
    }
  }

  lemma QuiescentIsSequential(k: Kernel, input: seq<byte>, before: seq<byte>, m: Machine)
    requires Inv(k, input, before, m) && Quiescent(k, m)
    ensures m.output == Sequential(k, input, before)
  {
    hide XorByte, Kernel.KeyByte;
    forall p | 0 <= p < |before|
      ensures m.output[p] == Sequential(k, input, before)[p]
    {
      assert ByteDone(k, input, before, m, p);
      if p < k.BlockBytes() * k.batch {
        BlockOf(k.width, k.batch, p);
        assert !CanStep(k, m, p / k.BlockBytes());
      }
    }
  }

  lemma BlockOf(width: nat, batch: nat, p: nat)
    requires width == 4 || width == 16
    requires p < 4 * width * batch
    ensures p / (4 * width) < batch && p % (4 * width) / 4 < width
  {
    if width == 4 {} else {}
  }

  /** Every schedule that runs the batch to its end leaves the same memory: the sequential one. */
  lemma DispatchDeterministic(k: Kernel, input: seq<byte>, before: seq<byte>, threads: nat, schedule: seq<nat>)
    requires k.Valid() && k.Fits(input, before) && k.batch <= threads
    requires ValidRun(k, input, Start(threads, before), schedule)
    requires Quiescent(k, Execute(k, input, Start(threads, before), schedule))
    ensures Execute(k, input, Start(threads, before), schedule).output == Sequential(k, input, before)
  {
    StartInv(k, input, before, threads);
    ExecuteKeepsInv(k, input, before, Start(threads, before), schedule);
    QuiescentIsSequential(k, input, before, Execute(k, input, Start(threads, before), schedule));
  }

  // Steps left; every step uses one up, so a dispatch ends.
  function Remaining(k: Kernel, pc: seq<nat>): nat {
    if pc == [] then 0
    else
      var g := |pc| - 1;
      Remaining(k, pc[..g]) + (if g < k.batch && pc[g] < k.width then k.width - pc[g] else 0)
  }

  lemma {:induction false} RemainingStep(k: Kernel, pc: seq<nat>, g: nat)
    requires g < |pc| && g < k.batch && pc[g] < k.width
    ensures Remaining(k, pc[g := pc[g] + 1]) + 1 == Remaining(k, pc)
  {
    var last := |pc| - 1;
    if g < last {
      RemainingStep(k, pc[..last], g);
      assert pc[g := pc[g] + 1][..last] == pc[..last][g := pc[g] + 1];
    } else {
      assert pc[g := pc[g] + 1][..last] == pc[..last];
    }
  }

  // ---- Who writes what ----

  // Word w of the batch has been written in m.
  predicate WordWritten(k: Kernel, m: Machine, w: nat)
    requires k.Valid() && k.batch <= |m.pc|
  {
    w < k.width * k.batch && w % k.width < m.pc[w / k.width]
  }

  lemma WordOf(width: nat, batch: nat, g: nat, j: nat, w: nat)
    requires (width == 4 || width == 16) && g < batch && j < width
    ensures w == width * g + j <==> w / width == g && w % width == j
    ensures w < width * batch <==> w / width < batch
  {
    if width == 4 {} else {}
  }

  lemma StepWritesOne(k: Kernel, input: seq<byte>, m: Machine, g: nat, w: nat)
    requires k.Valid() && k.Fits(input, m.output) && k.batch <= |m.pc| && CanStep(k, m, g)
    ensures WordWritten(k, Step(k, input, m, g), w) <==> WordWritten(k, m, w) || w == Target(k, m, g)
    ensures !WordWritten(k, m, Target(k, m, g))
  {
    WordOf(k.width, k.batch, g, m.pc[g], w);
    WordOf(k.width, k.batch, g, m.pc[g], Target(k, m, g));
  }

  // Along a run the words written are exactly those that become written, each of them once.
  lemma {:induction false} WritesExact(k: Kernel, input: seq<byte>, m: Machine, schedule: seq<nat>)
    requires k.Valid() && k.Fits(input, m.output) && k.batch <= |m.pc| && ValidRun(k, input, m, schedule)
    ensures |Execute(k, input, m, schedule).pc| == |m.pc|
    ensures forall w: nat :: w in Writes(k, input, m, schedule) <==>
              !WordWritten(k, m, w) && WordWritten(k, Execute(k, input, m, schedule), w)
    ensures forall w: nat :: WordWritten(k, m, w) ==> WordWritten(k, Execute(k, input, m, schedule), w)
    ensures forall i, j :: 0 <= i < j < |Writes(k, input, m, schedule)| ==>
              Writes(k, input, m, schedule)[i] != Writes(k, input, m, schedule)[j]
    decreases |schedule|
  {
    hide WordWritten, StoreWord, Target;
    if schedule != [] {
      var g := schedule[0];
      var n := Step(k, input, m, g);
      forall w: nat
        ensures WordWritten(k, n, w) <==> WordWritten(k, m, w) || w == Target(k, m, g)
        ensures !WordWritten(k, m, Target(k, m, g))
      {
        StepWritesOne(k, input, m, g, w);
      }
      WritesExact(k, input, n, schedule[1..]);
      var t, tail := Target(k, m, g), Writes(k, input, n, schedule[1..]);
      assert Writes(k, input, m, schedule) == [t] + tail;
      assert forall w: nat :: w in [t] + tail <==> w == t || w in tail;
      assert t !in tail;
    }
  }

  /** In every complete run each word of the batch is written by exactly one step, and no other word is written. */
  lemma EachWordWrittenOnce(k: Kernel, input: seq<byte>, before: seq<byte>, threads: nat, schedule: seq<nat>)
    requires k.Valid() && k.Fits(input, before) && k.batch <= threads
    requires ValidRun(k, input, Start(threads, before), schedule)
    requires Quiescent(k, Execute(k, input, Start(threads, before), schedule))
    ensures var ws := Writes(k, input, Start(threads, before), schedule);
            && (forall w: nat :: w in ws <==> w < k.width * k.batch)
            && (forall i, j :: 0 <= i < j < |ws| ==> ws[i] != ws[j])
  {
    var m, n := Start(threads, before), Execute(k, input, Start(threads, before), schedule);
    WritesExact(k, input, m, schedule);
    forall w: nat
      ensures !WordWritten(k, m, w)
      ensures WordWritten(k, n, w) <==> w < k.width * k.batch
    {
      if w < k.width * k.batch {
        if k.width == 4 {} else {}
        assert !CanStep(k, n, w / k.width);
      }
    }
  }
}
