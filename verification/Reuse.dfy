/** The counters that a stream's blocks use, over whole runs. */
module Reuse {
  import opened Stream

  // The job of a final call: the pending bytes padded to a block, if any are pending and the job is accepted.
  function FinalJobs(e: Engine, s: State, finalOk: bool): seq<Job>
    requires |s.partial| <= e.block
  {
    if s.partial == [] || !finalOk then [] else [Job(s.iv, s.partial + Zeros(e.block - |s.partial|))]
  }

  // Everything that is enciphered over a run and its final call; without a final call finalOk is false.
  function Submitted(e: Engine, iv: Iv, calls: seq<Call>, finalOk: bool): seq<Job>
    requires 0 < e.block
  {
    var r := Run(e, iv, calls);
    r.jobs + FinalJobs(e, r.state, finalOk)
  }

  lemma SubmittedConsecutive(e: Engine, iv: Iv, calls: seq<Call>, finalOk: bool)
    requires e.Lawful()
    ensures Consecutive(e, iv, Submitted(e, iv, calls, finalOk))
  {
    hide Run, Blocks, Data, Output, Message, Taken, Consecutive;
    var r := Run(e, iv, calls);
    RunInvariant(e, iv, calls);
    if r.state.partial == [] || !finalOk {
      assert r.jobs + [] == r.jobs;
    } else {
      var last := Job(r.state.iv, r.state.partial + Zeros(e.block - |r.state.partial|));
      AloneConsecutive(e, r.state.iv, last);
      ConsecutiveConcat(e, iv, r.jobs, [last]);
    }
  }

  // What a final call delivers comes from its job, and there is one exactly if bytes are pending.
  lemma FinalFromJobs(e: Engine, s: State, outsize: nat, finalOk: bool)
    requires e.Lawful() && |s.partial| <= e.block && Final(e, s, outsize, finalOk).ok
    ensures FinalJobs(e, s, finalOk) == [] <==> s.partial == []
    ensures Final(e, s, outsize, finalOk).written == Output(e, FinalJobs(e, s, finalOk))[..|s.partial|]
  {
    hide Engine.JobOutput, Output;
    NoJobs(e);
    if s.partial != [] {
      OneJob(e, Job(s.iv, s.partial + Zeros(e.block - |s.partial|)));
    }
  }

  /** A successful run with its final call uses one block for every block of the message, begun or whole. */
  lemma SubmittedBlocks(e: Engine, iv: Iv, calls: seq<Call>)
    requires e.Lawful() && Run(e, iv, calls).ok
    ensures Blocks(e, Submitted(e, iv, calls, true)) == (|Message(calls)| + e.block - 1) / e.block
  {
    hide Run, Blocks, Data, Output, Message, Taken, Consecutive, Final, Engine.JobOutput;
    var r := Run(e, iv, calls);
    RunInvariant(e, iv, calls);
    WholeJobs(e, iv, r.jobs);
    LengthConservation(e, iv, calls, 0, true);
    assert |Message(calls)| == e.block * Blocks(e, r.jobs) + |r.state.partial|;
    BegunBlocks(e.block, Blocks(e, r.jobs), |r.state.partial|);
    NoJobs(e);
    JobsConcat(e, r.jobs, FinalJobs(e, r.state, true));
    if r.state.partial != [] {
      OneJob(e, Job(r.state.iv, r.state.partial + Zeros(e.block - |r.state.partial|)));
    }
  }

  lemma BegunBlocks(b: nat, q: nat, r: nat)
    requires (b == 16 || b == 64) && r < b
    ensures (b * q + r + b - 1) / b == (if r == 0 then q else q + 1) && b / b == 1
  {
    if b == 16 {} else {}
  }

  lemma AloneConsecutive(e: Engine, iv: Iv, j: Job)
    requires e.Lawful() && j.iv == iv && |j.data| == e.block
    ensures Consecutive(e, iv, [j])
  {
    NoJobs(e);
    assert [j][..0] == [];
  }

  // ---- The blocks of a list of jobs ----

  // Block g of job k exists.
  predicate IsBlock(e: Engine, jobs: seq<Job>, k: nat, g: nat)
    requires 0 < e.block
  {
    k < |jobs| && g < |jobs[k].data| / e.block
  }

  // Its place among all blocks.
  function Place(e: Engine, jobs: seq<Job>, k: nat, g: nat): nat
    requires 0 < e.block && IsBlock(e, jobs, k, g)
  {
    Blocks(e, jobs[..k]) + g
  }

  lemma BlocksStep(e: Engine, jobs: seq<Job>, n: nat)
    requires 0 < e.block && n < |jobs|
    ensures Blocks(e, jobs[..n + 1]) == Blocks(e, jobs[..n]) + |jobs[n].data| / e.block
  {
    hide Data, Output, Engine.JobOutput;
    assert jobs[..n + 1] == jobs[..n] + [jobs[n]];
    OneMore(e, jobs[..n], jobs[n]);
  }

  lemma {:induction false} BlocksGrow(e: Engine, jobs: seq<Job>, k: nat, n: nat)
    requires 0 < e.block && k < n <= |jobs|
    ensures Blocks(e, jobs[..k]) + |jobs[k].data| / e.block <= Blocks(e, jobs[..n])
    decreases n
  {
    hide Blocks;
    BlocksStep(e, jobs, n - 1);
    if k < n - 1 {
      BlocksGrow(e, jobs, k, n - 1);
    }
  }

  /** Different blocks have different places, all below the number of blocks. */
  lemma PlaceInjective(e: Engine, jobs: seq<Job>, k: nat, g: nat, m: nat, h: nat)
    requires 0 < e.block && IsBlock(e, jobs, k, g) && IsBlock(e, jobs, m, h)
    ensures Place(e, jobs, k, g) < Blocks(e, jobs)
    ensures Place(e, jobs, k, g) == Place(e, jobs, m, h) <==> k == m && g == h
  {
    hide Blocks;
    assert jobs[..|jobs|] == jobs;
    BlocksGrow(e, jobs, k, |jobs|);
    if k < m {
      BlocksGrow(e, jobs, k, m);
    } else if m < k {
      BlocksGrow(e, jobs, m, k);
    }
  }

  /** Every place below the number of blocks is taken. */
  lemma {:induction false} BlockAt(e: Engine, jobs: seq<Job>, n: nat, i: nat) returns (k: nat, g: nat)
    requires 0 < e.block && n <= |jobs| && i < Blocks(e, jobs[..n])
    ensures IsBlock(e, jobs, k, g) && Place(e, jobs, k, g) == i
    decreases n
  {
    if n == 0 {
      assert false;
    } else {
      hide Blocks;
      BlocksStep(e, jobs, n - 1);
      if i < Blocks(e, jobs[..n - 1]) {
        k, g := BlockAt(e, jobs, n - 1, i);
      } else {
        k, g := n - 1, i - Blocks(e, jobs[..n - 1]);
      }
    }
  }

  // ---- Their counters ----

  function CounterOf(e: Engine, jobs: seq<Job>, k: nat, g: nat): Iv
    requires 0 < e.block && IsBlock(e, jobs, k, g)
  {
    e.advance(jobs[k].iv, g)
  }

  predicate SameCounter(e: Engine, jobs: seq<Job>, k: nat, g: nat, m: nat, h: nat)
    requires 0 < e.block
  {
    IsBlock(e, jobs, k, g) && IsBlock(e, jobs, m, h) && CounterOf(e, jobs, k, g) == CounterOf(e, jobs, m, h)
  }

  ghost predicate CountersDiffer(e: Engine, jobs: seq<Job>)
    requires 0 < e.block
  {
    forall k, g, m, h :: SameCounter(e, jobs, k, g, m, h) ==> k == m && g == h
  }

  // The counter comes round after exactly `period` blocks.
  ghost predicate HasPeriod(e: Engine, period: nat) {
    0 < period &&
    forall iv: Iv, a: nat, b: nat :: a <= b ==> (e.advance(iv, a) == e.advance(iv, b) <==> (b - a) % period == 0)
  }

  lemma CounterAtPlace(e: Engine, iv: Iv, jobs: seq<Job>, k: nat, g: nat)
    requires e.Lawful() && Consecutive(e, iv, jobs) && IsBlock(e, jobs, k, g)
    ensures CounterOf(e, jobs, k, g) == e.advance(iv, Place(e, jobs, k, g))
  {
    hide Blocks;
    assert InSequence(e, iv, jobs, k);
  }

  /** The blocks of consecutive jobs all have different counters exactly when there are no more than the period. */
  lemma CountersDifferExact(e: Engine, iv: Iv, jobs: seq<Job>, period: nat)
    requires e.Lawful() && Consecutive(e, iv, jobs) && HasPeriod(e, period)
    ensures CountersDiffer(e, jobs) <==> Blocks(e, jobs) <= period
  {
    hide Blocks, Consecutive, HasPeriod, SameCounter;
    if Blocks(e, jobs) <= period {
      forall k, g, m, h | SameCounter(e, jobs, k, g, m, h)
        ensures k == m && g == h
      {
        DifferWithinPeriod(e, iv, jobs, period, k, g, m, h);
      }
    } else {
      var k, g, m, h := MeetBeyondPeriod(e, iv, jobs, period);
    }
  }

  lemma DifferWithinPeriod(e: Engine, iv: Iv, jobs: seq<Job>, period: nat, k: nat, g: nat, m: nat, h: nat)
    requires e.Lawful() && Consecutive(e, iv, jobs) && HasPeriod(e, period) && Blocks(e, jobs) <= period
    requires SameCounter(e, jobs, k, g, m, h)
    ensures k == m && g == h
  {
    hide Blocks, Consecutive, HasPeriod, IsBlock, Place, CounterOf;
    CounterAtPlace(e, iv, jobs, k, g);
    CounterAtPlace(e, iv, jobs, m, h);
    PlaceInjective(e, jobs, k, g, m, h);
    PlaceInjective(e, jobs, m, h, k, g);
    ShortDistance(e, iv, Place(e, jobs, k, g), Place(e, jobs, m, h), period);
  }

  lemma MeetBeyondPeriod(e: Engine, iv: Iv, jobs: seq<Job>, period: nat) returns (k: nat, g: nat, m: nat, h: nat)
    requires e.Lawful() && Consecutive(e, iv, jobs) && HasPeriod(e, period) && period < Blocks(e, jobs)
    ensures SameCounter(e, jobs, k, g, m, h) && !(k == m && g == h)
  {
    hide Blocks, Consecutive, HasPeriod, IsBlock, Place, CounterOf;
    assert jobs[..|jobs|] == jobs;
    PeriodPositive(e, period);
    k, g := BlockAt(e, jobs, |jobs|, 0);
    m, h := BlockAt(e, jobs, |jobs|, period);
    CounterAtPlace(e, iv, jobs, k, g);
    CounterAtPlace(e, iv, jobs, m, h);
    Meet(e, iv, jobs, period, k, g, m, h);
  }

  lemma PeriodPositive(e: Engine, period: nat)
    requires HasPeriod(e, period)
    ensures 0 < period
  {}

  lemma Meet(e: Engine, iv: Iv, jobs: seq<Job>, period: nat, k: nat, g: nat, m: nat, h: nat)
    requires 0 < e.block && HasPeriod(e, period) && IsBlock(e, jobs, k, g) && IsBlock(e, jobs, m, h)
    requires Place(e, jobs, k, g) == 0 && CounterOf(e, jobs, k, g) == e.advance(iv, 0)
    requires Place(e, jobs, m, h) == period && CounterOf(e, jobs, m, h) == e.advance(iv, period)
    ensures SameCounter(e, jobs, k, g, m, h) && !(k == m && g == h)
  {
    hide Blocks, HasPeriod, IsBlock, CounterOf, Place;
    PeriodPositive(e, period);
    ComesRound(e, iv, period);
  }

  lemma ComesRound(e: Engine, iv: Iv, period: nat)
    requires HasPeriod(e, period)
    ensures 0 < period && e.advance(iv, 0) == e.advance(iv, period)
  {
    assert (period - 0) % period == 0;
  }

  lemma ShortDistance(e: Engine, iv: Iv, a: nat, b: nat, period: nat)
    requires HasPeriod(e, period) && a < period && b < period && e.advance(iv, a) == e.advance(iv, b)
    ensures a == b
  {
    var lo, hi := if a <= b then a else b, if a <= b then b else a;
    assert (hi - lo) % period == 0;
    assert hi - lo < period;
  }
}
