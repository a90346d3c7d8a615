/** The ring offset allocator of the shared batcher, over whole sequences of jobs. */
module RingAllocator {
  import opened Sizes

  /** Where a job is placed, and the offset afterwards. */
  datatype Slot = Slot(start: nat, next: nat) {
    function Length(): int {
      next - start
    }
  }

  function Allocate(offset: nat, len: nat): Slot
    requires len <= RING_SIZE
  {
    var start := if offset + len > RING_SIZE then 0 else offset;
    Slot(start, start + len)
  }

  // The slots of a sequence of jobs. A job longer than the ring is turned away before it touches the offset;
  // a job whose queue submission fails keeps its slot.
  function Slots(offset: nat, jobs: seq<nat>): seq<Slot>
    decreases |jobs|
  {
    if jobs == [] then []
    else if jobs[0] > RING_SIZE then Slots(offset, jobs[1..])
    else
      var slot := Allocate(offset, jobs[0]);
      [slot] + Slots(slot.next, jobs[1..])
  }

  function FinalOffset(offset: nat, jobs: seq<nat>): nat {
    var slots := Slots(offset, jobs);
    if slots == [] then offset else slots[|slots| - 1].next
  }

  function TotalLength(slots: seq<Slot>): int {
    if slots == [] then 0 else slots[0].Length() + TotalLength(slots[1..])
  }

  /** One more job takes the slot that the offset left by the others gives it. */
  lemma {:induction false} OneMoreJob(offset: nat, jobs: seq<nat>, len: nat)
    ensures var last := FinalOffset(offset, jobs);
            && Slots(offset, jobs + [len]) ==
               Slots(offset, jobs) + (if len <= RING_SIZE then [Allocate(last, len)] else [])
            && FinalOffset(offset, jobs + [len]) == if len <= RING_SIZE then Allocate(last, len).next else last
    decreases |jobs|
  {
    hide Allocate;
    if jobs == [] {
      assert [len][1..] == [];
    } else {
      assert (jobs + [len])[1..] == jobs[1..] + [len];
      if jobs[0] > RING_SIZE {
        OneMoreJob(offset, jobs[1..], len);
      } else {
        OneMoreJob(Allocate(offset, jobs[0]).next, jobs[1..], len);
      }
    }
  }

  // The accepted jobs, in order.
  function Accepted(jobs: seq<nat>): seq<nat> {
    if jobs == [] then []
    else if jobs[0] > RING_SIZE then Accepted(jobs[1..])
    else [jobs[0]] + Accepted(jobs[1..])
  }

  predicate StartRule(previous: nat, len: nat, slot: Slot) {
    slot.start == (if previous + len > RING_SIZE then 0 else previous) && slot.next == slot.start + len
  }

  ghost predicate Placed(offset: nat, lens: seq<nat>, slots: seq<Slot>) {
    && |slots| == |lens|
    && (forall m :: 0 <= m < |slots| ==> slots[m].next <= RING_SIZE && slots[m].Length() == lens[m])
    && (slots != [] ==> StartRule(offset, lens[0], slots[0]))
    && (forall m :: 0 < m < |slots| ==> StartRule(slots[m - 1].next, lens[m], slots[m]))
  }

  lemma PlacedFirst(offset: nat, len: nat, slot: Slot, lens: seq<nat>, slots: seq<Slot>)
    requires StartRule(offset, len, slot) && slot.next <= RING_SIZE && slot.Length() == len
    requires Placed(slot.next, lens, slots)
    ensures Placed(offset, [len] + lens, [slot] + slots)
  {
    hide StartRule;
    forall m | 0 < m < |slots| + 1
      ensures StartRule(([slot] + slots)[m - 1].next, ([len] + lens)[m], ([slot] + slots)[m])
    {
      if m > 1 {
        assert StartRule(slots[m - 2].next, lens[m - 1], slots[m - 1]);
      }
    }
  }

  lemma {:induction false} SlotsPlaced(offset: nat, jobs: seq<nat>)
    requires offset <= RING_SIZE
    ensures Placed(offset, Accepted(jobs), Slots(offset, jobs))
    decreases |jobs|
  {
    hide StartRule, Allocate;
    if jobs != [] {
      if jobs[0] > RING_SIZE {
        SlotsPlaced(offset, jobs[1..]);
      } else {
        hide Placed;
        var slot := Allocate(offset, jobs[0]);
        OneSlot(offset, jobs[0]);
        SlotsPlaced(slot.next, jobs[1..]);
        PlacedFirst(offset, jobs[0], slot, Accepted(jobs[1..]), Slots(slot.next, jobs[1..]));
      }
    }
  }

  lemma OneSlot(offset: nat, len: nat)
    requires len <= RING_SIZE
    ensures var slot := Allocate(offset, len);
            StartRule(offset, len, slot) && slot.next <= RING_SIZE && slot.Length() == len
  {}

  /** Every accepted job lies in the ring, has its own length, and starts where the last one ended or, when it would
      not fit there, at the beginning. */
  lemma SlotsWellPlaced(offset: nat, jobs: seq<nat>)
    requires offset <= RING_SIZE
    ensures var slots, lens := Slots(offset, jobs), Accepted(jobs);
            && |slots| == |lens|
            && (forall m :: 0 <= m < |slots| ==>
                  slots[m].next <= RING_SIZE && slots[m].next == slots[m].start + lens[m])
            && (slots != [] ==> slots[0].start == if offset + lens[0] > RING_SIZE then 0 else offset)
            && (forall m :: 0 < m < |slots| ==>
                  slots[m].start == (if slots[m - 1].next + lens[m] > RING_SIZE then 0 else slots[m - 1].next))
            && FinalOffset(offset, jobs) <= RING_SIZE
  {
    hide Slots, Accepted;
    SlotsPlaced(offset, jobs);
  }

  // No wrap between slots i and j.
  predicate Chained(slots: seq<Slot>, i: nat, j: nat)
    requires i <= j < |slots|
  {
    forall m :: i < m <= j ==> slots[m].start == slots[m - 1].next
  }

  /** Between two wraps the jobs fill one contiguous stretch: their lengths add up to it, and no two of them overlap. */
  lemma {:induction false} ChainContiguous(offset: nat, jobs: seq<nat>, i: nat, j: nat)
    requires offset <= RING_SIZE && i <= j < |Slots(offset, jobs)| && Chained(Slots(offset, jobs), i, j)
    ensures var slots := Slots(offset, jobs);
            && TotalLength(slots[i..j + 1]) == slots[j].next - slots[i].start
            && (i < j ==> slots[i].next <= slots[j].start)
    decreases j - i
  {
    var slots := Slots(offset, jobs);
    SlotsPlaced(offset, jobs);
    if i < j {
      ChainContiguous(offset, jobs, i + 1, j);
      assert slots[i..j + 1] == [slots[i]] + slots[i + 1..j + 1];
      assert slots[i + 1].start == slots[i].next;
    } else {
      assert slots[i..j + 1] == [slots[i]];
    }
  }

  /** The first stretch is what the offset counts: without a wrap it is the sum of the accepted lengths. */
  lemma OffsetIsSum(jobs: seq<nat>)
    requires var slots := Slots(0, jobs); slots != [] && Chained(slots, 0, |slots| - 1)
    ensures FinalOffset(0, jobs) == TotalLength(Slots(0, jobs))
  {
    var slots := Slots(0, jobs);
    SlotsPlaced(0, jobs);
    ChainContiguous(0, jobs, 0, |slots| - 1);
    assert slots[0..|slots|] == slots;
  }

  /** Jobs of whole 64-byte blocks keep every slot on a 64-byte boundary. */
  lemma {:induction false} SlotsAligned(offset: nat, jobs: seq<nat>)
    requires offset % 64 == 0
    requires forall m :: 0 <= m < |jobs| ==> jobs[m] % 64 == 0
    ensures forall m :: 0 <= m < |Slots(offset, jobs)| ==>
              Slots(offset, jobs)[m].start % 64 == 0 && Slots(offset, jobs)[m].next % 64 == 0
    decreases |jobs|
  {
    if jobs != [] {
      if jobs[0] > RING_SIZE {
        SlotsAligned(offset, jobs[1..]);
      } else {
        var slot := Allocate(offset, jobs[0]);
        SlotsAligned(slot.next, jobs[1..]);
      }
    }
  }
}
