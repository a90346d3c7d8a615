/** The provider's streaming logic as functions: a partial-block buffer and a running counter, with jobs that may fail.
    Both ciphers instantiate it; their contexts are proved to behave like it. */
module Stream {
  import opened Bytes
  import opened Sizes

  const IV_BYTES: nat := 16

  type Iv = s: seq<byte> | |s| == IV_BYTES witness seq(IV_BYTES, i => 0)

  /** A cipher to stream: block size, keystream byte p of a job started at an IV, and the IV n blocks further on. */
  datatype Engine = Engine(block: nat, jobByte: (Iv, nat) -> byte, advance: (Iv, nat) -> Iv) {
    ghost predicate Lawful() {
      && (block == 16 || block == 64)
      && (forall iv: Iv :: advance(iv, 0) == iv)
      && (forall iv: Iv, a: nat, b: nat :: advance(advance(iv, a), b) == advance(iv, a + b))
    }

    function JobOutput(iv: Iv, data: seq<byte>): (r: seq<byte>)
      ensures |r| == |data|
    {
      Xor(data, (p: nat) => jobByte(iv, p), 0)
    }
  }

  datatype State = State(iv: Iv, partial: seq<byte>)

  /** A job that succeeded. */
  datatype Job = Job(iv: Iv, data: seq<byte>)

  /** One update call: the new state, the bytes stored to the output, whether it succeeded, and its successful jobs.
      The caller is told about the stored bytes only when the call succeeds. */
  datatype UpdateResult = UpdateResult(state: State, written: seq<byte>, ok: bool, jobs: seq<Job>)

  predicate Accepts(data: seq<byte>, queueOk: bool) {
    |data| <= RING_SIZE && queueOk
  }

  // ---- The three stages of an update ----

  // How many input bytes complete the pending block.
  function Absorbed(e: Engine, s: State, data: seq<byte>): (n: nat)
    requires |s.partial| <= e.block
    ensures n <= |data|
  {
    if s.partial == [] then 0
    else if |data| <= e.block - |s.partial| then |data|
    else e.block - |s.partial|
  }

  function FlushStage(e: Engine, s: State, data: seq<byte>, queueOk: bool): (r: UpdateResult)
    requires |s.partial| <= e.block && 0 < e.block
    ensures |r.state.partial| <= e.block
    ensures r.ok && Absorbed(e, s, data) < |data| ==> r.state.partial == []
  {
    var pending := s.partial + data[..Absorbed(e, s, data)];
    if |pending| < e.block then UpdateResult(State(s.iv, pending), [], true, [])
    else if !Accepts(pending, queueOk) then UpdateResult(State(s.iv, pending), [], false, [])
    else UpdateResult(State(e.advance(s.iv, 1), []), e.JobOutput(s.iv, pending), true, [Job(s.iv, pending)])
  }

  // Unfolds the function where a proof hides it.
  lemma FlushCases(e: Engine, s: State, data: seq<byte>, queueOk: bool, pending: seq<byte>)
    requires |s.partial| <= e.block && 0 < e.block && pending == s.partial + data[..Absorbed(e, s, data)]
    ensures FlushStage(e, s, data, queueOk) ==
            if |pending| < e.block then UpdateResult(State(s.iv, pending), [], true, [])
            else if !Accepts(pending, queueOk) then UpdateResult(State(s.iv, pending), [], false, [])
            else UpdateResult(State(e.advance(s.iv, 1), []), e.JobOutput(s.iv, pending), true, [Job(s.iv, pending)])
  {}

  // The part of n bytes that is whole blocks.
  function WholeLength(n: nat, block: nat): (m: nat)
    requires 0 < block
    ensures m <= n < m + block
  {
    n - n % block
  }

  // Whole blocks, then the rest into the buffer.
  function BulkStage(e: Engine, s: State, rest: seq<byte>, queueOk: bool): (r: UpdateResult)
    requires 0 < e.block
    ensures s.partial == [] ==> |r.state.partial| < e.block
    ensures rest == [] ==> r.state.partial == s.partial
  {
    var full := WholeLength(|rest|, e.block);
    if full == 0 then UpdateResult(State(s.iv, s.partial + rest), [], true, [])
    else if !Accepts(rest[..full], queueOk) then UpdateResult(s, [], false, [])
    else UpdateResult(State(e.advance(s.iv, full / e.block), s.partial + rest[full..]),
                      e.JobOutput(s.iv, rest[..full]), true, [Job(s.iv, rest[..full])])
  }

  // Unfolds the function where a proof hides it.
  lemma BulkCases(e: Engine, s: State, rest: seq<byte>, queueOk: bool, full: nat)
    requires 0 < e.block && full == WholeLength(|rest|, e.block)
    ensures BulkStage(e, s, rest, queueOk) ==
            if full == 0 then UpdateResult(State(s.iv, s.partial + rest), [], true, [])
            else if !Accepts(rest[..full], queueOk) then UpdateResult(s, [], false, [])
            else UpdateResult(State(e.advance(s.iv, full / e.block), s.partial + rest[full..]),
                              e.JobOutput(s.iv, rest[..full]), true, [Job(s.iv, rest[..full])])
  {}

  function Update(e: Engine, s: State, data: seq<byte>, flushOk: bool, bulkOk: bool): (r: UpdateResult)
    requires |s.partial| <= e.block && 0 < e.block
    ensures |r.state.partial| <= e.block
  {
    var f := FlushStage(e, s, data, flushOk);
    if !f.ok then f
    else
      var b := BulkStage(e, f.state, data[Absorbed(e, s, data)..], bulkOk);
      UpdateResult(b.state, f.written + b.written, b.ok, f.jobs + b.jobs)
  }

  // Unfolds the function where a proof hides it.
  lemma UpdateCases(e: Engine, s: State, data: seq<byte>, flushOk: bool, bulkOk: bool, n: nat)
    requires |s.partial| <= e.block && 0 < e.block && n == Absorbed(e, s, data)
    ensures var u, f := Update(e, s, data, flushOk, bulkOk), FlushStage(e, s, data, flushOk);
            var b := BulkStage(e, f.state, data[n..], bulkOk);
            u.state == (if f.ok then b.state else f.state) && u.ok == (f.ok && b.ok) &&
            u.written == (if f.ok then f.written + b.written else f.written)
  {}

  lemma UpdateJobCases(e: Engine, s: State, data: seq<byte>, flushOk: bool, bulkOk: bool, n: nat)
    requires |s.partial| <= e.block && 0 < e.block && n == Absorbed(e, s, data)
    ensures var u, f := Update(e, s, data, flushOk, bulkOk), FlushStage(e, s, data, flushOk);
            u.jobs == if f.ok then f.jobs + BulkStage(e, f.state, data[n..], bulkOk).jobs else f.jobs
  {}

  function Zeros(n: nat): (r: seq<byte>)
    ensures |r| == n && forall i :: 0 <= i < n ==> r[i] == 0
  {
    seq(n, i => 0)
  }

  datatype FinalResult = FinalResult(ok: bool, written: seq<byte>)

  /** The last call: the pending bytes, padded with zeros to a block, encrypted, cut back. */
  function Final(e: Engine, s: State, outsize: nat, queueOk: bool): FinalResult
    requires |s.partial| <= e.block
  {
    var padded := s.partial + Zeros(e.block - |s.partial|);
    if s.partial == [] then FinalResult(true, [])
    else if !Accepts(padded, queueOk) || outsize < |s.partial| then FinalResult(false, [])
    else FinalResult(true, e.JobOutput(s.iv, padded)[..|s.partial|])
  }

  // Unfolds the function where a proof hides it.
  lemma FinalCases(e: Engine, s: State, outsize: nat, queueOk: bool, padded: seq<byte>)
    requires |s.partial| <= e.block && padded == s.partial + Zeros(e.block - |s.partial|)
    ensures Final(e, s, outsize, queueOk) ==
            if s.partial == [] then FinalResult(true, [])
            else if !Accepts(padded, queueOk) || outsize < |s.partial| then FinalResult(false, [])
            else FinalResult(true, e.JobOutput(s.iv, padded)[..|s.partial|])
  {}

  // ---- One update, for every state and every pattern of failures ----

  lemma FlushEffect(e: Engine, s: State, data: seq<byte>, queueOk: bool)
    requires e.Lawful() && |s.partial| <= e.block
    ensures var f := FlushStage(e, s, data, queueOk);
            && |f.state.partial| <= e.block
            && (f.ok ==> |f.state.partial| < e.block && f.written == Output(e, f.jobs))
            && (f.ok ==> Data(f.jobs) + f.state.partial == s.partial + data[..Absorbed(e, s, data)])
            && f.state.iv == e.advance(s.iv, Blocks(e, f.jobs))
            && |f.jobs| <= 1 && (f.jobs != [] ==> f.jobs[0].iv == s.iv && |f.jobs[0].data| == e.block)
  {
    hide Engine.JobOutput, Data, Output, Blocks;
    NoJobs(e);
    if FlushStage(e, s, data, queueOk).jobs != [] {
      OneJob(e, FlushStage(e, s, data, queueOk).jobs[0]);
    }
  }

  lemma BulkEffect(e: Engine, s: State, rest: seq<byte>, queueOk: bool)
    requires e.Lawful() && |s.partial| < e.block && (rest != [] ==> s.partial == [])
    ensures var b := BulkStage(e, s, rest, queueOk);
            && |b.state.partial| < e.block
            && (b.ok ==> b.written == Output(e, b.jobs))
            && (b.ok ==> Data(b.jobs) + b.state.partial == s.partial + rest)
            && (!b.ok ==> b.state == s && b.jobs == [])
            && b.state.iv == e.advance(s.iv, Blocks(e, b.jobs))
            && |b.jobs| <= 1
            && (b.jobs != [] ==> b.jobs[0].iv == s.iv && b.jobs[0].data != [] && |b.jobs[0].data| % e.block == 0 &&
                                 |b.jobs[0].data| <= RING_SIZE)
  {
    hide Engine.JobOutput, Data, Output, Blocks, BulkStage;
    var full := WholeLength(|rest|, e.block);
    BulkCases(e, s, rest, queueOk, full);
    WholeBlocks(|rest|, e.block);
    if BulkStage(e, s, rest, queueOk).ok {
      BulkOutput(e, s, rest, queueOk, full);
    }
    NoJobs(e);
    if full == 0 {
      assert e.advance(s.iv, 0) == s.iv;
    } else {
      OneJob(e, Job(s.iv, rest[..full]));
    }
  }

  lemma BulkOutput(e: Engine, s: State, rest: seq<byte>, queueOk: bool, full: nat)
    requires 0 < e.block && full == WholeLength(|rest|, e.block) && (rest != [] ==> s.partial == [])
    requires BulkStage(e, s, rest, queueOk).ok
    ensures var b := BulkStage(e, s, rest, queueOk);
            b.written == Output(e, b.jobs) && Data(b.jobs) + b.state.partial == s.partial + rest
  {
    hide Engine.JobOutput, Data, Output, Blocks, BulkStage;
    BulkCases(e, s, rest, queueOk, full);
    NoJobs(e);
    if full == 0 {
      assert [] + (s.partial + rest) == s.partial + rest;
    } else {
      OneJob(e, Job(s.iv, rest[..full]));
      assert rest[..full] + ([] + rest[full..]) == rest == [] + rest;
    }
  }

  lemma WholeBlocks(n: nat, b: nat)
    requires b == 16 || b == 64
    ensures (n - n % b) % b == 0 && (n - n % b) / b == n / b
  {
    if b == 16 {} else {}
  }

  // ---- Sequences of jobs ----

  /** The input bytes of the jobs, end to end. */
  function Data(jobs: seq<Job>): seq<byte> {
    if jobs == [] then [] else Data(jobs[..|jobs| - 1]) + jobs[|jobs| - 1].data
  }

  /** Their output bytes, end to end. */
  function Output(e: Engine, jobs: seq<Job>): seq<byte> {
    if jobs == [] then []
    else Output(e, jobs[..|jobs| - 1]) + e.JobOutput(jobs[|jobs| - 1].iv, jobs[|jobs| - 1].data)
  }

  /** The counter blocks they used up. */
  function Blocks(e: Engine, jobs: seq<Job>): nat
    requires 0 < e.block
  {
    if jobs == [] then 0 else Blocks(e, jobs[..|jobs| - 1]) + |jobs[|jobs| - 1].data| / e.block
  }

  lemma NoJobs(e: Engine)
    requires 0 < e.block
    ensures Data([]) == [] && Output(e, []) == [] && Blocks(e, []) == 0
  {}

  lemma OneJob(e: Engine, j: Job)
    requires 0 < e.block
    ensures Data([j]) == j.data && Output(e, [j]) == e.JobOutput(j.iv, j.data) && Blocks(e, [j]) == |j.data| / e.block
  {
    assert [j][..0] == [];
  }

  lemma {:induction false} JobsConcat(e: Engine, a: seq<Job>, b: seq<Job>)
    requires 0 < e.block
    ensures Data(a + b) == Data(a) + Data(b)
    ensures Output(e, a + b) == Output(e, a) + Output(e, b)
    ensures Blocks(e, a + b) == Blocks(e, a) + Blocks(e, b)
  {
    hide Data, Output, Blocks, Engine.JobOutput;
    if b == [] {
      assert a + b == a;
      NoJobs(e);
    } else {
      var c, j := b[..|b| - 1], b[|b| - 1];
      assert a + b == (a + c) + [j] && b == c + [j];
      JobsConcat(e, a, c);
      OneMore(e, a + c, j);
      OneMore(e, c, j);
      Associates(Data(a), Data(c), j.data);
      Associates(Output(e, a), Output(e, c), e.JobOutput(j.iv, j.data));
    }
  }

  lemma Associates(a: seq<byte>, b: seq<byte>, c: seq<byte>)
    ensures (a + b) + c == a + (b + c)
  {}

  lemma OneMore(e: Engine, jobs: seq<Job>, j: Job)
    requires 0 < e.block
    ensures Data(jobs + [j]) == Data(jobs) + j.data
    ensures Output(e, jobs + [j]) == Output(e, jobs) + e.JobOutput(j.iv, j.data)
    ensures Blocks(e, jobs + [j]) == Blocks(e, jobs) + |j.data| / e.block
  {
    hide Engine.JobOutput;
    assert (jobs + [j])[..|jobs|] == jobs;
  }

  // ---- One update as a whole ----

  // Job k starts where the jobs before it left the counter, and is a positive whole number of blocks within the limit.
  predicate InSequence(e: Engine, iv: Iv, jobs: seq<Job>, k: nat)
    requires k < |jobs| && 0 < e.block
  {
    && jobs[k].iv == e.advance(iv, Blocks(e, jobs[..k]))
    && jobs[k].data != [] && |jobs[k].data| % e.block == 0 && |jobs[k].data| <= RING_SIZE
  }

  ghost predicate Consecutive(e: Engine, iv: Iv, jobs: seq<Job>)
    requires 0 < e.block
  {
    forall k :: 0 <= k < |jobs| ==> InSequence(e, iv, jobs, k)
  }

  // Input bytes a call has taken over: all of them, or on failure those that went into the pending block.
  function Consumed(e: Engine, s: State, data: seq<byte>, ok: bool): (n: nat)
    requires |s.partial| <= e.block
    ensures n <= |data|
  {
    if ok then |data| else Absorbed(e, s, data)
  }

  // The counter and the jobs of one update.
  lemma UpdateJobs(e: Engine, s: State, data: seq<byte>, flushOk: bool, bulkOk: bool)
    requires e.Lawful() && |s.partial| <= e.block
    ensures var u := Update(e, s, data, flushOk, bulkOk);
            && |u.state.partial| <= e.block
            && (u.ok ==> |u.state.partial| < e.block)
            && u.state.iv == e.advance(s.iv, Blocks(e, u.jobs))
            && Consecutive(e, s.iv, u.jobs)
  {
    hide Engine.JobOutput, Data, Output, Blocks, FlushStage, BulkStage, Consecutive;
    NoJobs(e);
    var f := FlushStage(e, s, data, flushOk);
    FlushEffect(e, s, data, flushOk);
    if f.ok {
      var rest := data[Absorbed(e, s, data)..];
      var b := BulkStage(e, f.state, rest, bulkOk);
      FlushLeavesEmpty(e, s, data, flushOk);
      BulkEffect(e, f.state, rest, bulkOk);
      JobsConcat(e, f.jobs, b.jobs);
      SequenceOfTwo(e, s.iv, f.jobs, b.jobs);
    } else {
      FlushFails(e, s, data, flushOk);
      SequenceOfTwo(e, s.iv, [], []);
      assert [] + f.jobs == [];
    }
  }

  // The bytes of one update.
  lemma UpdateBytes(e: Engine, s: State, data: seq<byte>, flushOk: bool, bulkOk: bool)
    requires e.Lawful() && |s.partial| <= e.block
    ensures var u := Update(e, s, data, flushOk, bulkOk);
            && u.written == Output(e, u.jobs)
            && Data(u.jobs) + u.state.partial == s.partial + data[..Consumed(e, s, data, u.ok)]
  {
    hide Engine.JobOutput, Data, Output, Blocks, FlushStage, BulkStage;
    NoJobs(e);
    var n := Absorbed(e, s, data);
    var f := FlushStage(e, s, data, flushOk);
    FlushEffect(e, s, data, flushOk);
    if f.ok {
      var rest := data[n..];
      var b := BulkStage(e, f.state, rest, bulkOk);
      FlushLeavesEmpty(e, s, data, flushOk);
      BulkEffect(e, f.state, rest, bulkOk);
      JobsConcat(e, f.jobs, b.jobs);
      if b.ok {
        assert data[..n] + rest == data == data[..|data|];
        Glue(Data(f.jobs), Data(b.jobs), b.state.partial, f.state.partial, rest, s.partial, data[..n]);
      } else {
        BulkFails(e, f.state, rest, bulkOk);
        assert f.jobs + b.jobs == f.jobs;
        assert f.written + b.written == f.written;
      }
    } else {
      FlushFails(e, s, data, flushOk);
    }
  }

  /** What one update does, whatever fails: the counter moves by the blocks of the successful jobs, those jobs are
      consecutive, and no input byte is lost or repeated: it is in a job, still pending, or not taken. */
  lemma UpdateEffect(e: Engine, s: State, data: seq<byte>, flushOk: bool, bulkOk: bool)
    requires e.Lawful() && |s.partial| <= e.block
    ensures var u := Update(e, s, data, flushOk, bulkOk);
            && |u.state.partial| <= e.block
            && (u.ok ==> |u.state.partial| < e.block)
            && u.state.iv == e.advance(s.iv, Blocks(e, u.jobs))
            && Consecutive(e, s.iv, u.jobs)
            && u.written == Output(e, u.jobs)
            && Data(u.jobs) + u.state.partial == s.partial + data[..Consumed(e, s, data, u.ok)]
  {
    hide Update, Data, Output, Blocks, Consecutive, Consumed;
    UpdateJobs(e, s, data, flushOk, bulkOk);
    UpdateBytes(e, s, data, flushOk, bulkOk);
  }

  lemma BulkFails(e: Engine, s: State, rest: seq<byte>, queueOk: bool)
    requires e.Lawful() && !BulkStage(e, s, rest, queueOk).ok
    ensures var b := BulkStage(e, s, rest, queueOk); b.jobs == [] && b.written == [] && b.state == s
  {}

  lemma Glue(a: seq<byte>, b: seq<byte>, pending: seq<byte>, middle: seq<byte>, rest: seq<byte>, before: seq<byte>,
             taken: seq<byte>)
    requires b + pending == middle + rest && a + middle == before + taken
    ensures (a + b) + pending == before + (taken + rest)
  {
    assert (a + b) + pending == a + (b + pending) == (a + middle) + rest;
  }

  lemma FlushLeavesEmpty(e: Engine, s: State, data: seq<byte>, queueOk: bool)
    requires e.Lawful() && |s.partial| <= e.block
    ensures var f := FlushStage(e, s, data, queueOk);
            f.ok && data[Absorbed(e, s, data)..] != [] ==> f.state.partial == []
  {}

  lemma FlushFails(e: Engine, s: State, data: seq<byte>, queueOk: bool)
    requires e.Lawful() && |s.partial| <= e.block && !FlushStage(e, s, data, queueOk).ok
    ensures var f := FlushStage(e, s, data, queueOk);
            f.jobs == [] && f.written == [] && f.state.partial == s.partial + data[..Absorbed(e, s, data)]
  {}

  // A flush job of one block, then a bulk job.
  lemma SequenceOfTwo(e: Engine, iv: Iv, f: seq<Job>, b: seq<Job>)
    requires e.Lawful() && |f| <= 1 && |b| <= 1
    requires f != [] ==> f[0].iv == iv && |f[0].data| == e.block
    requires b != [] ==> b[0].iv == e.advance(iv, Blocks(e, f)) && b[0].data != [] && |b[0].data| % e.block == 0
    requires b != [] ==> |b[0].data| <= RING_SIZE
    ensures Consecutive(e, iv, f + b)
  {
    forall k | 0 <= k < |f + b|
      ensures InSequence(e, iv, f + b, k)
    {
      if k == 0 {
        assert (f + b)[..0] == [];
        if f == [] {
          assert (f + b)[0] == b[0];
        }
      } else {
        assert (f + b)[..1] == f;
      }
    }
  }

  // ---- Runs: any number of updates, whatever fails ----

  datatype Call = Call(data: seq<byte>, flushOk: bool, bulkOk: bool)

  /** The state after the calls, every byte stored, the bytes reported to the caller, the successful jobs, and whether
      every call succeeded. */
  datatype RunResult = RunResult(state: State, stored: seq<byte>, reported: seq<byte>, jobs: seq<Job>, ok: bool)

  function Run(e: Engine, iv: Iv, calls: seq<Call>): (r: RunResult)
    requires 0 < e.block
    ensures |r.state.partial| <= e.block
  {
    if calls == [] then RunResult(State(iv, []), [], [], [], true)
    else
      var r := Run(e, iv, calls[..|calls| - 1]);
      var u := LastUpdate(e, r.state, calls[|calls| - 1]);
      RunResult(u.state, r.stored + u.written, r.reported + (if u.ok then u.written else []), r.jobs + u.jobs,
                r.ok && u.ok)
  }

  function LastUpdate(e: Engine, s: State, c: Call): (u: UpdateResult)
    requires |s.partial| <= e.block && 0 < e.block
    ensures |u.state.partial| <= e.block
  {
    Update(e, s, c.data, c.flushOk, c.bulkOk)
  }

  // The input bytes the calls have taken over.
  function Taken(e: Engine, iv: Iv, calls: seq<Call>): seq<byte>
    requires 0 < e.block
  {
    if calls == [] then []
    else
      var r := Run(e, iv, calls[..|calls| - 1]);
      var c := calls[|calls| - 1];
      Taken(e, iv, calls[..|calls| - 1]) + c.data[..Consumed(e, r.state, c.data, LastUpdate(e, r.state, c).ok)]
  }

  function Message(calls: seq<Call>): seq<byte> {
    if calls == [] then [] else Message(calls[..|calls| - 1]) + calls[|calls| - 1].data
  }

  // Call i of a run starts at byte |Message(calls[..i])| of the message.
  lemma {:induction false} MessagePlace(calls: seq<Call>, i: nat)
    requires i < |calls|
    ensures var at, next := |Message(calls[..i])|, |Message(calls[..i + 1])|;
            at + |calls[i].data| == next <= |Message(calls)| && Message(calls)[at..next] == calls[i].data
  {
    var n := |calls| - 1;
    if i == n {
      assert calls[..i + 1] == calls;
    } else {
      MessagePlace(calls[..n], i);
      assert calls[..n][..i] == calls[..i] && calls[..n][..i + 1] == calls[..i + 1];
    }
  }

  lemma RunStep(e: Engine, iv: Iv, calls: seq<Call>, i: nat)
    requires 0 < e.block && i < |calls|
    ensures var r := Run(e, iv, calls[..i]);
            var u := LastUpdate(e, r.state, calls[i]);
            Run(e, iv, calls[..i + 1]) ==
            RunResult(u.state, r.stored + u.written, r.reported + (if u.ok then u.written else []), r.jobs + u.jobs,
                      r.ok && u.ok)
  {
    hide LastUpdate;
    assert calls[..i + 1][..i] == calls[..i];
  }

  // A run with a failed call stays a failed run.
  lemma {:induction false} FailedRun(e: Engine, iv: Iv, calls: seq<Call>, i: nat)
    requires 0 < e.block && i <= |calls| && !Run(e, iv, calls[..i]).ok
    ensures !Run(e, iv, calls).ok
  {
    hide LastUpdate;
    if i == |calls| {
      assert calls[..i] == calls;
    } else {
      assert calls[..|calls| - 1][..i] == calls[..i];
      FailedRun(e, iv, calls[..|calls| - 1], i);
    }
  }

  lemma ConsecutiveConcat(e: Engine, iv: Iv, a: seq<Job>, b: seq<Job>)
    requires e.Lawful() && Consecutive(e, iv, a) && Consecutive(e, e.advance(iv, Blocks(e, a)), b)
    ensures Consecutive(e, iv, a + b)
  {
    hide Blocks, InSequence;
    forall k | 0 <= k < |a + b|
      ensures InSequence(e, iv, a + b, k)
    {
      if k < |a| {
        SequenceLeft(e, iv, a, b, k);
      } else {
        SequenceRight(e, iv, a, b, k - |a|);
      }
    }
  }

  lemma SequenceLeft(e: Engine, iv: Iv, a: seq<Job>, b: seq<Job>, k: nat)
    requires 0 < e.block && k < |a| && InSequence(e, iv, a, k)
    ensures InSequence(e, iv, a + b, k)
  {
    hide Blocks;
    assert (a + b)[..k] == a[..k];
  }

  lemma SequenceRight(e: Engine, iv: Iv, a: seq<Job>, b: seq<Job>, m: nat)
    requires e.Lawful() && m < |b| && InSequence(e, e.advance(iv, Blocks(e, a)), b, m)
    ensures InSequence(e, iv, a + b, |a| + m)
  {
    hide Blocks;
    assert (a + b)[..|a| + m] == a + b[..m];
    assert (a + b)[|a| + m] == b[m];
    JobsConcat(e, a, b[..m]);
  }

  /** In every reachable state, whatever jobs failed on the way: the counter is the initial one plus the blocks of all
      successful jobs, these jobs use consecutive counters, at most a block is pending, a full one only after a call
      that failed, and the bytes taken over are exactly those in the jobs and those still pending. */
  lemma {:induction false} RunInvariant(e: Engine, iv: Iv, calls: seq<Call>)
    requires e.Lawful()
    ensures var r := Run(e, iv, calls);
            && r.state.iv == e.advance(iv, Blocks(e, r.jobs))
            && Consecutive(e, iv, r.jobs)
            && |r.state.partial| <= e.block
            && (|r.state.partial| == e.block ==> !r.ok)
            && r.stored == Output(e, r.jobs)
            && Data(r.jobs) + r.state.partial == Taken(e, iv, calls)
            && (r.ok ==> r.reported == r.stored && Taken(e, iv, calls) == Message(calls))
  {
    hide Run, Taken, Message, Blocks, Data, Output, Consecutive;
    RunCounter(e, iv, calls);
    RunBytes(e, iv, calls);
  }

  lemma {:induction false} RunCounter(e: Engine, iv: Iv, calls: seq<Call>)
    requires e.Lawful()
    ensures var r := Run(e, iv, calls);
            && r.state.iv == e.advance(iv, Blocks(e, r.jobs))
            && Consecutive(e, iv, r.jobs)
            && (|r.state.partial| == e.block ==> !r.ok)
  {
    hide Update, Data, Output, Blocks, Consecutive;
    NoJobs(e);
    if calls == [] {
      SequenceOfTwo(e, iv, [], []);
      var none: seq<Job> := [];
      assert none + none == none;
    } else {
      var r, c := Run(e, iv, calls[..|calls| - 1]), calls[|calls| - 1];
      var u := LastUpdate(e, r.state, c);
      RunCounter(e, iv, calls[..|calls| - 1]);
      UpdateJobs(e, r.state, c.data, c.flushOk, c.bulkOk);
      JobsConcat(e, r.jobs, u.jobs);
      ConsecutiveConcat(e, iv, r.jobs, u.jobs);
    }
  }

  lemma {:induction false} RunBytes(e: Engine, iv: Iv, calls: seq<Call>)
    requires e.Lawful()
    ensures var r := Run(e, iv, calls);
            && r.stored == Output(e, r.jobs)
            && Data(r.jobs) + r.state.partial == Taken(e, iv, calls)
            && (r.ok ==> r.reported == r.stored && Taken(e, iv, calls) == Message(calls))
  {
    hide Update, Data, Output, Blocks;
    NoJobs(e);
    if calls != [] {
      var before, c := calls[..|calls| - 1], calls[|calls| - 1];
      var r := Run(e, iv, before);
      var u := LastUpdate(e, r.state, c);
      RunBytes(e, iv, before);
      UpdateBytes(e, r.state, c.data, c.flushOk, c.bulkOk);
      JobsConcat(e, r.jobs, u.jobs);
      var taken := c.data[..Consumed(e, r.state, c.data, u.ok)];
      assert [] + taken == taken && Taken(e, iv, before) + [] == Taken(e, iv, before);
      Glue(Data(r.jobs), Data(u.jobs), u.state.partial, r.state.partial, taken, Taken(e, iv, before), []);
    }
  }

  // ---- Against a keystream given byte by byte ----

  // Byte i of job k used the keystream byte of its place in the message.
  ghost predicate JobAgrees(e: Engine, jobs: seq<Job>, ks: nat -> byte, k: nat)
    requires k < |jobs|
  {
    forall i :: 0 <= i < |jobs[k].data| ==> e.jobByte(jobs[k].iv, i) == ks(|Data(jobs[..k])| + i)
  }

  ghost predicate Agree(e: Engine, jobs: seq<Job>, ks: nat -> byte) {
    forall k :: 0 <= k < |jobs| ==> JobAgrees(e, jobs, ks, k)
  }

  predicate SameKey(ks: nat -> byte, from: nat, other: nat -> byte, otherFrom: nat, i: nat) {
    ks(from + i) == other(otherFrom + i)
  }

  lemma XorSame(data: seq<byte>, ks: nat -> byte, from: nat, other: nat -> byte, otherFrom: nat)
    ensures Xor(data, ks, from) == Xor(data, other, otherFrom) <==>
            forall i :: 0 <= i < |data| ==> SameKey(ks, from, other, otherFrom, i)
  {
    hide XorByte;
    var x, y := Xor(data, ks, from), Xor(data, other, otherFrom);
    forall i | 0 <= i < |data|
      ensures x[i] == y[i] <==> SameKey(ks, from, other, otherFrom, i)
    {
      XorInjective(data[i], ks(from + i), other(otherFrom + i));
    }
    if x != y {
      var i :| 0 <= i < |data| && x[i] != y[i];
      assert !SameKey(ks, from, other, otherFrom, i);
    }
  }

  lemma ConcatSame(a: seq<byte>, b: seq<byte>, c: seq<byte>, d: seq<byte>)
    requires |a| == |c|
    ensures a + b == c + d <==> a == c && b == d
  {
    if a + b == c + d {
      assert a == (a + b)[..|a|] == (c + d)[..|c|] == c;
      assert b == (a + b)[|a|..] == (c + d)[|c|..] == d;
    }
  }

  lemma {:induction false} OutputLength(e: Engine, jobs: seq<Job>)
    ensures |Output(e, jobs)| == |Data(jobs)|
  {
    if jobs != [] {
      OutputLength(e, jobs[..|jobs| - 1]);
    }
  }

  lemma AgreeSplit(e: Engine, jobs: seq<Job>, ks: nat -> byte)
    requires jobs != []
    ensures var n := |jobs| - 1; Agree(e, jobs, ks) <==> Agree(e, jobs[..n], ks) && JobAgrees(e, jobs, ks, n)
  {
    hide Data;
    var n := |jobs| - 1;
    forall k | 0 <= k < n
      ensures JobAgrees(e, jobs, ks, k) <==> JobAgrees(e, jobs[..n], ks, k)
    {
      assert jobs[..n][..k] == jobs[..k];
    }
  }

  /** The jobs' output is the message under the keystream exactly when every job used the right keystream bytes. */
  lemma {:induction false} OutputExact(e: Engine, jobs: seq<Job>, ks: nat -> byte)
    ensures Output(e, jobs) == Xor(Data(jobs), ks, 0) <==> Agree(e, jobs, ks)
  {
    if jobs != [] {
      hide Xor;
      var n := |jobs| - 1;
      var before, j := jobs[..n], jobs[n];
      OutputExact(e, before, ks);
      OutputLength(e, before);
      XorLength(Data(before), ks, 0);
      XorConcat(Data(before), j.data, ks, 0);
      ConcatSame(Output(e, before), e.JobOutput(j.iv, j.data),
                 Xor(Data(before), ks, 0), Xor(j.data, ks, |Data(before)|));
      JobExact(e, jobs, ks, n);
      AgreeSplit(e, jobs, ks);
    }
  }

  lemma XorLength(data: seq<byte>, ks: nat -> byte, from: nat)
    ensures |Xor(data, ks, from)| == |data|
  {}

  lemma JobExact(e: Engine, jobs: seq<Job>, ks: nat -> byte, k: nat)
    requires k < |jobs|
    ensures e.JobOutput(jobs[k].iv, jobs[k].data) == Xor(jobs[k].data, ks, |Data(jobs[..k])|) <==>
            JobAgrees(e, jobs, ks, k)
  {
    hide Xor, Data;
    var iv := jobs[k].iv;
    var key := (p: nat) => e.jobByte(iv, p);
    XorSame(jobs[k].data, key, 0, ks, |Data(jobs[..k])|);
    assert e.JobOutput(iv, jobs[k].data) == Xor(jobs[k].data, key, 0);
    assert forall i: nat ::
        SameKey(key, 0, ks, |Data(jobs[..k])|, i) <==> e.jobByte(iv, i) == ks(|Data(jobs[..k])| + i);
  }

  // ---- Whole messages: updates, then the final call ----

  datatype Whole = Whole(ok: bool, output: seq<byte>, jobs: seq<Job>)

  // The final job is listed with its unpadded bytes.
  function WholeRun(e: Engine, iv: Iv, calls: seq<Call>, outsize: nat, finalOk: bool): Whole
    requires 0 < e.block
  {
    var r := Run(e, iv, calls);
    var f := Final(e, r.state, outsize, finalOk);
    Whole(r.ok && f.ok, r.reported + f.written,
          r.jobs + (if r.state.partial == [] then [] else [Job(r.state.iv, r.state.partial)]))
  }

  lemma FinalIsCutJob(e: Engine, s: State, outsize: nat, queueOk: bool)
    requires |s.partial| <= e.block && Final(e, s, outsize, queueOk).ok
    ensures s.partial != [] ==> Final(e, s, outsize, queueOk).written == e.JobOutput(s.iv, s.partial)
    ensures s.partial == [] ==> Final(e, s, outsize, queueOk).written == []
  {
    hide XorByte;
    var padded := s.partial + Zeros(e.block - |s.partial|);
    assert e.JobOutput(s.iv, padded)[..|s.partial|] == e.JobOutput(s.iv, s.partial);
  }

  /** When a final call succeeds, and what it delivers. */
  lemma FinalExactly(e: Engine, s: State, outsize: nat, queueOk: bool)
    requires e.Lawful() && |s.partial| <= e.block
    ensures var f := Final(e, s, outsize, queueOk);
            && (f.ok <==> |s.partial| == 0 || (queueOk && |s.partial| <= outsize))
            && f.written == if f.ok then e.JobOutput(s.iv, s.partial) else []
  {
    if Final(e, s, outsize, queueOk).ok {
      FinalIsCutJob(e, s, outsize, queueOk);
    }
    hide Engine.JobOutput;
  }

  // The context behind a final call, which works in the buffer and leaves the pending length alone.
  function AfterFinal(e: Engine, s: State, queueOk: bool): (r: State)
    requires |s.partial| <= e.block
    ensures |r.partial| == |s.partial|
  {
    var padded := s.partial + Zeros(e.block - |s.partial|);
    if s.partial == [] || !Accepts(padded, queueOk) then s else State(s.iv, e.JobOutput(s.iv, padded)[..|s.partial|])
  }

  /** A second final call with room enough gives the right bytes if the first job was refused. If it was accepted, also
      when only the output was too small, the second call gives the plaintext. */
  lemma SecondFinal(e: Engine, s: State, queueOk: bool, outsize: nat)
    requires e.Lawful() && |s.partial| <= e.block && |s.partial| <= outsize
    ensures var again := Final(e, AfterFinal(e, s, queueOk), outsize, true);
            again.ok && again.written == (if queueOk then s.partial else Final(e, s, outsize, true).written)
  {
    hide Xor, Final;
    var t := AfterFinal(e, s, queueOk);
    FinalOk(e, s, outsize);
    FinalOk(e, t, outsize);
    FinalIsCutJob(e, t, outsize, true);
    if s.partial != [] && queueOk {
      FinalOk(e, s, |s.partial|);
      FinalIsCutJob(e, s, |s.partial|, true);
      XorTwice(s.partial, (p: nat) => e.jobByte(s.iv, p), 0);
    }
  }

  lemma FinalOk(e: Engine, s: State, outsize: nat)
    requires e.Lawful() && |s.partial| <= e.block && |s.partial| <= outsize
    ensures Final(e, s, outsize, true).ok
    ensures s.partial != [] ==> Final(e, s, outsize, true).written == AfterFinal(e, s, true).partial
  {}

  lemma WholeRunIsJobs(e: Engine, iv: Iv, calls: seq<Call>, outsize: nat, finalOk: bool)
    requires e.Lawful() && WholeRun(e, iv, calls, outsize, finalOk).ok
    ensures var w := WholeRun(e, iv, calls, outsize, finalOk);
            w.output == Output(e, w.jobs) && Data(w.jobs) == Message(calls)
  {
    hide Run, Data, Output, Blocks, Consecutive, Final, Message, Engine.JobOutput;
    var r := Run(e, iv, calls);
    RunInvariant(e, iv, calls);
    FinalIsCutJob(e, r.state, outsize, finalOk);
    if r.state.partial != [] {
      var j := Job(r.state.iv, r.state.partial);
      OneJob(e, j);
      JobsConcat(e, r.jobs, [j]);
    } else {
      assert r.jobs + [] == r.jobs && r.reported + [] == r.reported;
      assert Data(r.jobs) + [] == Data(r.jobs);
    }
  }

  /** For every split of the message into updates, with every call successful: what comes out is the message under the
      keystream exactly when each job used the right keystream bytes. */
  lemma WholeRunExact(e: Engine, iv: Iv, calls: seq<Call>, outsize: nat, finalOk: bool, ks: nat -> byte)
    requires e.Lawful() && WholeRun(e, iv, calls, outsize, finalOk).ok
    ensures var w := WholeRun(e, iv, calls, outsize, finalOk);
            w.output == Xor(Message(calls), ks, 0) <==> Agree(e, w.jobs, ks)
  {
    hide WholeRun, Message, Xor;
    WholeRunIsJobs(e, iv, calls, outsize, finalOk);
    OutputExact(e, WholeRun(e, iv, calls, outsize, finalOk).jobs, ks);
  }

  /** Length conservation: successful updates report all the whole blocks so far, the rest stays pending, and the final
      call delivers it. */
  lemma LengthConservation(e: Engine, iv: Iv, calls: seq<Call>, outsize: nat, finalOk: bool)
    requires e.Lawful() && Run(e, iv, calls).ok
    ensures var r, total := Run(e, iv, calls), |Message(calls)|;
            && |r.reported| == total - total % e.block
            && |r.state.partial| == total % e.block
            && (Final(e, r.state, outsize, finalOk).ok ==>
                  |Final(e, r.state, outsize, finalOk).written| == total % e.block)
  {
    hide Run, Data, Output, Blocks, Message, Final, Taken, Consecutive;
    var r := Run(e, iv, calls);
    RunInvariant(e, iv, calls);
    OutputLength(e, r.jobs);
    WholeJobs(e, iv, r.jobs);
    assert |Data(r.jobs)| + |r.state.partial| == |Message(calls)|;
    QuotientRemainder(e.block, Blocks(e, r.jobs), |r.state.partial|);
    if Final(e, r.state, outsize, finalOk).ok {
      FinalIsCutJob(e, r.state, outsize, finalOk);
    }
  }

  lemma QuotientRemainder(b: nat, q: nat, r: nat)
    requires (b == 16 || b == 64) && r < b
    ensures (b * q + r) % b == r
  {
    if b == 16 {} else {}
  }

  lemma {:induction false} WholeJobs(e: Engine, iv: Iv, jobs: seq<Job>)
    requires e.Lawful() && Consecutive(e, iv, jobs)
    ensures |Data(jobs)| == e.block * Blocks(e, jobs)
  {
    if jobs != [] {
      var n := |jobs| - 1;
      ConsecutivePrefix(e, iv, jobs, n);
      WholeJobs(e, iv, jobs[..n]);
      assert InSequence(e, iv, jobs, n);
      if e.block == 16 {} else {}
    }
  }

  lemma ConsecutivePrefix(e: Engine, iv: Iv, jobs: seq<Job>, n: nat)
    requires 0 < e.block && Consecutive(e, iv, jobs) && n <= |jobs|
    ensures Consecutive(e, iv, jobs[..n])
  {
    hide Blocks;
    forall k | 0 <= k < n
      ensures InSequence(e, iv, jobs[..n], k)
    {
      assert InSequence(e, iv, jobs, k);
      assert jobs[..n][..k] == jobs[..k];
    }
  }

  lemma MultipleOfBlock(b: nat, q: nat)
    requires b == 16 || b == 64
    ensures (b * q) % b == 0
  {
    if b == 16 {} else {}
  }

  /** No update stores more than it was given and had pending; every job is a whole number of blocks. */
  lemma UpdateLength(e: Engine, s: State, data: seq<byte>, flushOk: bool, bulkOk: bool)
    requires e.Lawful() && |s.partial| <= e.block
    ensures var u := Update(e, s, data, flushOk, bulkOk);
            |u.written| <= |s.partial| + |data| && |u.written| % e.block == 0
  {
    hide Update, Data, Output, Blocks, Consecutive;
    var u := Update(e, s, data, flushOk, bulkOk);
    UpdateEffect(e, s, data, flushOk, bulkOk);
    OutputLength(e, u.jobs);
    WholeJobs(e, s.iv, u.jobs);
    MultipleOfBlock(e.block, Blocks(e, u.jobs));
  }

  /** Job k of a whole run sits at a block boundary of the message, and its counter is the initial one plus the blocks
      before it. Only the last job may be short of whole blocks, and then it is short of one. */
  lemma WholeRunPlaces(e: Engine, iv: Iv, calls: seq<Call>, outsize: nat, finalOk: bool, k: nat)
    requires e.Lawful() && k < |WholeRun(e, iv, calls, outsize, finalOk).jobs|
    requires WholeRun(e, iv, calls, outsize, finalOk).ok
    ensures var jobs := WholeRun(e, iv, calls, outsize, finalOk).jobs;
            && jobs[k].iv == e.advance(iv, Blocks(e, jobs[..k]))
            && |Data(jobs[..k])| == e.block * Blocks(e, jobs[..k])
            && 0 < |jobs[k].data| <= RING_SIZE
            && (|jobs[k].data| % e.block == 0 || (k == |jobs| - 1 && |jobs[k].data| < e.block))
  {
    hide Run, Data, Blocks, Final;
    var r, jobs := Run(e, iv, calls), WholeRun(e, iv, calls, outsize, finalOk).jobs;
    RunInvariant(e, iv, calls);
    if k < |r.jobs| {
      assert InSequence(e, iv, r.jobs, k);
      ConsecutivePrefix(e, iv, r.jobs, k);
      WholeJobs(e, iv, r.jobs[..k]);
      assert jobs[..k] == r.jobs[..k];
    } else {
      WholeJobs(e, iv, r.jobs);
      assert jobs[..k] == r.jobs;
    }
  }

  // ---- What a successful update makes of the pending bytes and the new ones, taken together ----

  // The first block, if bytes were pending and it is complete.
  function FlushJobs(e: Engine, s: State, data: seq<byte>): seq<Job>
    requires |s.partial| <= e.block
  {
    var joined := s.partial + data;
    if s.partial != [] && e.block <= |joined| then [Job(s.iv, joined[..e.block])] else []
  }

  // From the first block boundary behind the pending bytes to the last boundary reached.
  function BulkJobs(e: Engine, s: State, data: seq<byte>): seq<Job>
    requires |s.partial| <= e.block && 0 < e.block
  {
    var joined := s.partial + data;
    var first, last := if s.partial == [] then 0 else 1, |joined| / e.block;
    if first < last then [Job(e.advance(s.iv, first), Blocked(joined, e.block, first, last))] else []
  }

  // The bytes behind the last block boundary.
  function Behind(s: seq<byte>, block: nat): (r: seq<byte>)
    requires 0 < block
    ensures |r| == |s| % block
  {
    s[WholeLength(|s|, block)..]
  }

  // Blocks first to last - 1 of a byte string.
  function Blocked(s: seq<byte>, block: nat, first: nat, last: nat): (r: seq<byte>)
    requires 0 < block && first <= last <= |s| / block
    ensures |r| == block * (last - first)
  {
    WithinBlocks(|s|, block, first, last);
    s[block * first..block * last]
  }

  lemma WithinBlocks(n: nat, block: nat, first: nat, last: nat)
    requires 0 < block && first <= last <= n / block
    ensures 0 <= block * first <= block * last <= n
    ensures block * last - block * first == block * (last - first)
  {
    assert block * (last - first) >= 0;
    assert block * (n / block - last) >= 0;
  }

  /** A successful update from any state submits exactly these jobs, in this order, and keeps the bytes behind the last
      block boundary. */
  lemma UpdateShape(e: Engine, s: State, data: seq<byte>, flushOk: bool, bulkOk: bool)
    requires e.Lawful() && |s.partial| <= e.block && Update(e, s, data, flushOk, bulkOk).ok
    ensures var u, joined := Update(e, s, data, flushOk, bulkOk), s.partial + data;
            && u.jobs == FlushJobs(e, s, data) + BulkJobs(e, s, data)
            && u.state == State(e.advance(s.iv, |joined| / e.block), Behind(joined, e.block))
  {
    hide Update, BulkStage, FlushStage, FlushJobs, BulkJobs, Behind, WholeLength, Engine.JobOutput;
    var n := Absorbed(e, s, data);
    var f := FlushStage(e, s, data, flushOk);
    UpdateCases(e, s, data, flushOk, bulkOk, n);
    UpdateJobCases(e, s, data, flushOk, bulkOk, n);
    FlushCases(e, s, data, flushOk, s.partial + data[..n]);
    if s.partial == [] {
      assert s.partial + data[..n] == [];
      assert data[n..] == data == s.partial + data;
      assert f == UpdateResult(s, [], true, []);
      OnlyBulk(e, s, data, bulkOk);
      assert [] + BulkJobs(e, s, data) == BulkJobs(e, s, data);
    } else if |s.partial| + |data| < e.block {
      OnlyPending(e, s, data, f, bulkOk);
    } else {
      FlushAndBulk(e, s, data, f, bulkOk);
    }
  }

  // Nothing pending.
  lemma OnlyBulk(e: Engine, s: State, data: seq<byte>, bulkOk: bool)
    requires e.Lawful() && s.partial == [] && BulkStage(e, s, data, bulkOk).ok
    ensures var b := BulkStage(e, s, data, bulkOk);
            && b.jobs == BulkJobs(e, s, data) && FlushJobs(e, s, data) == []
            && b.state == State(e.advance(s.iv, |data| / e.block), Behind(data, e.block))
  {
    hide BulkStage, Engine.JobOutput, Blocked, WholeLength, Behind;
    var full := WholeLength(|data|, e.block);
    BulkCases(e, s, data, bulkOk, full);
    LeadingBlocks(data, e.block);
    assert s.partial + data == data && s.partial + data[full..] == data[full..];
    assert e.advance(s.iv, 0) == s.iv;
  }

  lemma LeadingBlocks(data: seq<byte>, b: nat)
    requires b == 16 || b == 64
    ensures var full, n := WholeLength(|data|, b), |data| / b;
            && full / b == n && (full == 0 <==> n == 0)
            && Blocked(data, b, 0, n) == data[..full] && Behind(data, b) == data[full..]
  {
    WholeBlocks(|data|, b);
    if b == 16 {} else {}
  }

  // The pending block stays short.
  lemma OnlyPending(e: Engine, s: State, data: seq<byte>, f: UpdateResult, bulkOk: bool)
    requires e.Lawful() && s.partial != [] && |s.partial| + |data| < e.block
    requires f == UpdateResult(State(s.iv, s.partial + data[..|data|]), [], true, [])
    ensures var b, joined := BulkStage(e, f.state, data[|data|..], bulkOk), s.partial + data;
            && b.jobs == [] && FlushJobs(e, s, data) == [] && BulkJobs(e, s, data) == []
            && b.state == State(e.advance(s.iv, |joined| / e.block), Behind(joined, e.block))
  {
    hide BulkStage, Engine.JobOutput, WholeLength, Behind, Blocked;
    ShortOfBlock([], e.block);
    ShortOfBlock(s.partial + data, e.block);
    BulkCases(e, f.state, data[|data|..], bulkOk, 0);
    assert e.advance(s.iv, 0) == s.iv;
    assert data[..|data|] == data && data[|data|..] == [];
    assert (s.partial + data) + [] == s.partial + data;
  }

  // The pending block is completed; the bulk job starts one block on.
  lemma FlushAndBulk(e: Engine, s: State, data: seq<byte>, f: UpdateResult, bulkOk: bool)
    requires e.Lawful() && 0 < |s.partial| <= e.block <= |s.partial| + |data|
    requires var pending := s.partial + data[..e.block - |s.partial|];
             f.state == State(e.advance(s.iv, 1), []) && f.jobs == [Job(s.iv, pending)]
    requires BulkStage(e, f.state, data[e.block - |s.partial|..], bulkOk).ok
    ensures var b, joined := BulkStage(e, f.state, data[e.block - |s.partial|..], bulkOk), s.partial + data;
            && f.jobs == FlushJobs(e, s, data) && b.jobs == BulkJobs(e, s, data)
            && b.state == State(e.advance(s.iv, |joined| / e.block), Behind(joined, e.block))
  {
    hide BulkStage, Engine.JobOutput, FlushJobs, BulkJobs, WholeLength, Behind;
    var rest, joined := data[e.block - |s.partial|..], s.partial + data;
    assert joined[..e.block] == s.partial + data[..e.block - |s.partial|] && joined[e.block..] == rest;
    OnlyBulk(e, f.state, rest, bulkOk);
    Shifted(e, s, data, rest);
    OneBlockOn(joined, e.block, rest);
    assert e.advance(e.advance(s.iv, 1), |rest| / e.block) == e.advance(s.iv, 1 + |rest| / e.block);
  }

  lemma Shifted(e: Engine, s: State, data: seq<byte>, rest: seq<byte>)
    requires e.Lawful() && 0 < |s.partial| <= e.block <= |s.partial| + |data| && rest == (s.partial + data)[e.block..]
    ensures BulkJobs(e, State(e.advance(s.iv, 1), []), rest) == BulkJobs(e, s, data)
    ensures FlushJobs(e, s, data) == [Job(s.iv, (s.partial + data)[..e.block])]
  {
    hide Blocked;
    OneBlockOn(s.partial + data, e.block, rest);
    assert [] + rest == rest;
    assert e.advance(e.advance(s.iv, 1), 0) == e.advance(s.iv, 1);
  }

  lemma OneBlockOn(joined: seq<byte>, b: nat, rest: seq<byte>)
    requires (b == 16 || b == 64) && b <= |joined| && rest == joined[b..]
    ensures var n := |rest| / b;
            |joined| / b == 1 + n && Blocked(rest, b, 0, n) == Blocked(joined, b, 1, 1 + n)
    ensures Behind(joined, b) == Behind(rest, b)
  {
    if b == 16 {} else {}
  }

  lemma ShortOfBlock(s: seq<byte>, b: nat)
    requires |s| < b
    ensures WholeLength(|s|, b) == 0 && |s| / b == 0 && Behind(s, b) == s
  {}

  lemma ExactBlock(s: seq<byte>, b: nat)
    requires |s| == b > 0
    ensures WholeLength(|s|, b) == b && |s| / b == 1 && Behind(s, b) == []
  {}
}
