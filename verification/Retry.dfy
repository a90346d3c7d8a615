/** What a caller can do after a failed update: resume, which always works, or repeat, which works in some states
    only. */
module Retry {
  import opened Bytes
  import opened Memory
  import opened Sizes
  import opened Stream

  // ---- What a failure leaves behind ----

  // The call completes a pending block.
  predicate Flushes(e: Engine, s: State, data: seq<byte>) {
    s.partial != [] && e.block <= |s.partial| + |data|
  }

  // No job of the call is longer than the rings.
  predicate WithinLimit(e: Engine, s: State, data: seq<byte>)
    requires |s.partial| <= e.block && 0 < e.block
  {
    var rest := |data| - Absorbed(e, s, data);
    WholeLength(rest, e.block) <= RING_SIZE
  }

  // A refused flush leaves the full block pending. A bulk job refused after the flush leaves the block in the output,
  // unreported, and the counter behind it. Without a flush nothing has happened.
  lemma FailureExactly(e: Engine, s: State, data: seq<byte>, flushOk: bool, bulkOk: bool)
    requires e.Lawful() && |s.partial| <= e.block && !Update(e, s, data, flushOk, bulkOk).ok
    ensures var u, n := Update(e, s, data, flushOk, bulkOk), Absorbed(e, s, data);
            var pending := s.partial + data[..n];
            if Flushes(e, s, data) && !flushOk then
              u == UpdateResult(State(s.iv, pending), [], false, []) && |pending| == e.block
            else if Flushes(e, s, data) then
              u == UpdateResult(State(e.advance(s.iv, 1), []), e.JobOutput(s.iv, pending), false, [Job(s.iv, pending)])
              && |pending| == e.block
            else u == UpdateResult(s, [], false, []) && s.partial == []
  {
    hide Engine.JobOutput;
    if s.partial == [] {
      assert s.partial + data[..0] == [];
    }
  }

  /** When no job fails, only its length can stop a call. */
  lemma AcceptedExactly(e: Engine, s: State, data: seq<byte>)
    requires e.Lawful() && |s.partial| <= e.block
    ensures Update(e, s, data, true, true).ok <==> WithinLimit(e, s, data)
  {
    hide Update, FlushStage, BulkStage, Engine.JobOutput;
    var n := Absorbed(e, s, data);
    var f := FlushStage(e, s, data, true);
    FlushCases(e, s, data, true, s.partial + data[..n]);
    UpdateCases(e, s, data, true, true, n);
    BulkCases(e, f.state, data[n..], true, WholeLength(|data| - n, e.block));
  }

  // ---- Resuming ----

  // A full block pending: it is flushed, then the call goes on as from an empty buffer.
  lemma FromFullBlock(e: Engine, s: State, pending: seq<byte>, rest: seq<byte>)
    requires e.Lawful() && s.partial == pending && |pending| == e.block
    ensures var u, b := Update(e, s, rest, true, true), BulkStage(e, State(e.advance(s.iv, 1), []), rest, true);
            u == UpdateResult(b.state, e.JobOutput(s.iv, pending) + b.written, b.ok, [Job(s.iv, pending)] + b.jobs)
  {
    hide BulkStage, Engine.JobOutput;
    assert s.partial + rest[..0] == pending && rest[0..] == rest;
  }

  // Nothing pending: the call is its bulk stage.
  lemma FromEmpty(e: Engine, s: State, rest: seq<byte>, bulkOk: bool)
    requires e.Lawful() && s.partial == []
    ensures var u, b := Update(e, s, rest, true, bulkOk), BulkStage(e, s, rest, bulkOk);
            u == UpdateResult(b.state, b.written, b.ok, b.jobs)
  {
    hide BulkStage, Engine.JobOutput;
    assert s.partial + rest[..0] == [] && rest[0..] == rest;
    var b := BulkStage(e, s, rest, bulkOk);
    assert [] + b.written == b.written && [] + b.jobs == b.jobs;
  }

  // The single call, seen from its completed block.
  lemma FromFlush(e: Engine, s: State, data: seq<byte>)
    requires e.Lawful() && |s.partial| <= e.block && Flushes(e, s, data)
    ensures var n := Absorbed(e, s, data);
            Update(e, s, data, true, true) == Update(e, State(s.iv, s.partial + data[..n]), data[n..], true, true)
            && |s.partial + data[..n]| == e.block
  {
    hide BulkStage, Engine.JobOutput;
    var n := Absorbed(e, s, data);
    FromFullBlock(e, State(s.iv, s.partial + data[..n]), s.partial + data[..n], data[n..]);
  }

  /** Recovery, after any failure: an update with the input that was not absorbed completes the call. Both together
      store the bytes, submit the jobs and reach the state of one successful call. What the failed call stored is never
      reported: it is the flushed block exactly if there was one, and the resumed call reports the rest only. */
  lemma ResumeCompletes(e: Engine, s: State, data: seq<byte>, flushOk: bool, bulkOk: bool)
    requires e.Lawful() && |s.partial| <= e.block && WithinLimit(e, s, data)
    requires !Update(e, s, data, flushOk, bulkOk).ok
    ensures var u, one := Update(e, s, data, flushOk, bulkOk), Update(e, s, data, true, true);
            var r := Update(e, u.state, data[Absorbed(e, s, data)..], true, true);
            && one.ok && r.ok && r.state == one.state
            && u.written + r.written == one.written && u.jobs + r.jobs == one.jobs
            && |u.written| == (if Flushes(e, s, data) && flushOk then e.block else 0)
  {
    hide Update, BulkStage, Engine.JobOutput;
    var u, one := Update(e, s, data, flushOk, bulkOk), Update(e, s, data, true, true);
    var n := Absorbed(e, s, data);
    var pending, rest := s.partial + data[..n], data[n..];
    FailureExactly(e, s, data, flushOk, bulkOk);
    AcceptedExactly(e, s, data);
    if Flushes(e, s, data) {
      FromFlush(e, s, data);
      FromFullBlock(e, State(s.iv, pending), pending, rest);
      FromEmpty(e, State(e.advance(s.iv, 1), []), rest, true);
    } else {
      assert rest == data;
    }
    var r := Update(e, u.state, rest, true, true);
    assert [] + r.written == r.written && [] + r.jobs == r.jobs;
  }

  // A bulk job that was refused has at least a block to store when it is resumed.
  lemma ResumeStores(e: Engine, s: State, data: seq<byte>, flushOk: bool, bulkOk: bool)
    requires e.Lawful() && |s.partial| <= e.block && WithinLimit(e, s, data)
    requires !Update(e, s, data, flushOk, bulkOk).ok
    ensures var u := Update(e, s, data, flushOk, bulkOk);
            |u.written| <= |Update(e, u.state, data[Absorbed(e, s, data)..], true, true).written|
  {
    hide Update, BulkStage, FlushStage, Engine.JobOutput;
    var n := Absorbed(e, s, data);
    FailureExactly(e, s, data, flushOk, bulkOk);
    if Flushes(e, s, data) && flushOk {
      AcceptedExactly(e, s, data);
      BulkRefused(e, s, data, bulkOk);
      FromEmpty(e, State(e.advance(s.iv, 1), []), data[n..], true);
      BulkStores(e, State(e.advance(s.iv, 1), []), data[n..]);
    }
  }

  lemma BulkRefused(e: Engine, s: State, data: seq<byte>, bulkOk: bool)
    requires e.Lawful() && |s.partial| <= e.block && Flushes(e, s, data) && !Update(e, s, data, true, bulkOk).ok
    ensures |data| - Absorbed(e, s, data) >= e.block
  {
    hide Engine.JobOutput, WholeLength;
    if |data| - Absorbed(e, s, data) < e.block {
      ShortOfBlock(data[Absorbed(e, s, data)..], e.block);
    }
  }

  lemma BulkStores(e: Engine, s: State, rest: seq<byte>)
    requires 0 < e.block <= |rest| && WholeLength(|rest|, e.block) <= RING_SIZE
    ensures e.block <= |BulkStage(e, s, rest, true).written|
  {
    WholeLengthLarge(|rest|, e.block);
    hide WholeLength;
  }

  lemma WholeLengthLarge(n: nat, block: nat)
    requires 0 < block <= n
    ensures WholeLength(n, block) >= block
  {
    assert n / block >= 1 && n == block * (n / block) + n % block;
    assert block * (n / block) >= block;
  }

  // The bytes that end up in the output when a failed call is resumed at the same position: those of one call, but
  // without
  // the block that the failed call had flushed.
  function Left(e: Engine, s: State, data: seq<byte>, flushOk: bool, bulkOk: bool): seq<byte>
    requires |s.partial| <= e.block && 0 < e.block
  {
    var u, one := Update(e, s, data, flushOk, bulkOk), Update(e, s, data, true, true);
    if !u.ok && |u.written| <= |one.written| then one.written[|u.written|..] else one.written
  }

  /** What a caller finds who resumes at the same output position, having been told that nothing was stored. Without a
      successful flush it is the output of one call. With one the flushed block is overwritten: what follows it stands
      one block too early, and the block itself is nowhere. The bytes around it stay. */
  lemma ResumeInPlace(e: Engine, s: State, data: seq<byte>, flushOk: bool, bulkOk: bool, memory: seq<byte>, at: nat)
    requires e.Lawful() && |s.partial| <= e.block && WithinLimit(e, s, data)
    requires !Update(e, s, data, flushOk, bulkOk).ok
    requires at + |Update(e, s, data, true, true).written| <= |memory|
    ensures var u, one := Update(e, s, data, flushOk, bulkOk), Update(e, s, data, true, true);
            var r, lost := Update(e, u.state, data[Absorbed(e, s, data)..], true, true), Flushes(e, s, data) && flushOk;
            var left := Left(e, s, data, flushOk, bulkOk);
            && r.ok && r.state == one.state && |u.written| <= |one.written| && r.written == left
            && (lost ==> e.block <= |one.written|) && left == (if lost then one.written[e.block..] else one.written)
            && Overwrite(Overwrite(memory, at, u.written), at, r.written) == Overwrite(memory, at, left)
  {
    hide Update, WithinLimit, Flushes, Overwrite;
    ResumeCompletes(e, s, data, flushOk, bulkOk);
    ResumeStores(e, s, data, flushOk, bulkOk);
    var u := Update(e, s, data, flushOk, bulkOk);
    var r := Update(e, u.state, data[Absorbed(e, s, data)..], true, true);
    OverwriteOver(memory, at, u.written, r.written);
    assert (u.written + r.written)[|u.written|..] == r.written;
  }

  // Room for the whole blocks of pending and new bytes is room for the output of one call.
  lemma OneCallFits(e: Engine, s: State, data: seq<byte>)
    requires e.Lawful() && |s.partial| <= e.block && WithinLimit(e, s, data)
    ensures |Update(e, s, data, true, true).written| == (|s.partial| + |data|) / e.block * e.block
  {
    hide Update, Data, Output, Blocks, Consecutive, WithinLimit, FlushJobs, BulkJobs;
    AcceptedExactly(e, s, data);
    UpdateShape(e, s, data, true, true);
    UpdateEffect(e, s, data, true, true);
    var u := Update(e, s, data, true, true);
    OutputLength(e, u.jobs);
    assert data[..|data|] == data;
    assert |Data(u.jobs)| + |u.state.partial| == |s.partial| + |data|;
    assert |u.state.partial| == (|s.partial| + |data|) % e.block;
  }

  // The room that a resumed call needs is within the room that the call needed.
  lemma StillFits(e: Engine, s: State, data: seq<byte>, flushOk: bool, bulkOk: bool)
    requires e.Lawful() && |s.partial| <= e.block && !Update(e, s, data, flushOk, bulkOk).ok
    ensures var n, p := Absorbed(e, s, data), |Update(e, s, data, flushOk, bulkOk).state.partial|;
            (p + (|data| - n)) / e.block * e.block <= (|s.partial| + |data|) / e.block * e.block
  {
    hide Update, Engine.JobOutput;
    FailureExactly(e, s, data, flushOk, bulkOk);
    if e.block == 16 {} else {}
  }

  // What the jobs of one attempt are met with.
  datatype Outcome = Outcome(flushOk: bool, bulkOk: bool)

  // A caller who resumes after every failed attempt; the attempt after the last outcome listed meets no failure.
  function Resuming(e: Engine, s: State, data: seq<byte>, outcomes: seq<Outcome>): UpdateResult
    requires |s.partial| <= e.block && 0 < e.block
    decreases |outcomes|
  {
    if outcomes == [] then Update(e, s, data, true, true)
    else
      var u := Update(e, s, data, outcomes[0].flushOk, outcomes[0].bulkOk);
      if u.ok then u
      else
        var r := Resuming(e, u.state, data[Absorbed(e, s, data)..], outcomes[1..]);
        UpdateResult(r.state, u.written + r.written, r.ok, u.jobs + r.jobs)
  }

  lemma SuccessIsOne(e: Engine, s: State, data: seq<byte>, flushOk: bool, bulkOk: bool)
    requires e.Lawful() && |s.partial| <= e.block && Update(e, s, data, flushOk, bulkOk).ok
    ensures Update(e, s, data, flushOk, bulkOk) == Update(e, s, data, true, true)
  {
    hide Engine.JobOutput;
  }

  lemma SuccessLeaves(e: Engine, s: State, data: seq<byte>, flushOk: bool, bulkOk: bool)
    requires e.Lawful() && |s.partial| <= e.block && Update(e, s, data, flushOk, bulkOk).ok
    ensures var u := Update(e, s, data, flushOk, bulkOk);
            u == Update(e, s, data, true, true) && Left(e, s, data, flushOk, bulkOk) == u.written
  {
    hide Update;
    SuccessIsOne(e, s, data, flushOk, bulkOk);
  }

  // What is left to resume is within the limit when the call was.
  lemma StillWithinLimit(e: Engine, s: State, data: seq<byte>, flushOk: bool, bulkOk: bool)
    requires e.Lawful() && |s.partial| <= e.block && WithinLimit(e, s, data)
    requires !Update(e, s, data, flushOk, bulkOk).ok
    ensures WithinLimit(e, Update(e, s, data, flushOk, bulkOk).state, data[Absorbed(e, s, data)..])
  {
    hide Update, Engine.JobOutput;
    FailureExactly(e, s, data, flushOk, bulkOk);
  }

  /** After any number of failures a caller who keeps resuming ends up with exactly one successful call. */
  lemma {:induction false} ResumingIsOneCall(e: Engine, s: State, data: seq<byte>, outcomes: seq<Outcome>)
    requires e.Lawful() && |s.partial| <= e.block && WithinLimit(e, s, data)
    ensures Resuming(e, s, data, outcomes).ok && Resuming(e, s, data, outcomes) == Update(e, s, data, true, true)
    decreases |outcomes|
  {
    hide Update, WithinLimit, Absorbed, Flushes;
    AcceptedExactly(e, s, data);
    if outcomes != [] {
      var u := Update(e, s, data, outcomes[0].flushOk, outcomes[0].bulkOk);
      if u.ok {
        SuccessIsOne(e, s, data, outcomes[0].flushOk, outcomes[0].bulkOk);
      } else {
        StillWithinLimit(e, s, data, outcomes[0].flushOk, outcomes[0].bulkOk);
        ResumeCompletes(e, s, data, outcomes[0].flushOk, outcomes[0].bulkOk);
        ResumingIsOneCall(e, u.state, data[Absorbed(e, s, data)..], outcomes[1..]);
      }
    }
  }

  // ---- Repeating ----

  ghost predicate FailureKeepsState(e: Engine, s: State, data: seq<byte>)
    requires |s.partial| <= e.block && 0 < e.block
  {
    forall flushOk, bulkOk ::
      !Update(e, s, data, flushOk, bulkOk).ok ==> Update(e, s, data, flushOk, bulkOk).state == s
  }

  // Whatever failed, the same call again, with its jobs accepted, does and reports what one successful call does.
  ghost predicate RepeatIsOneCall(e: Engine, s: State, data: seq<byte>)
    requires |s.partial| <= e.block && 0 < e.block
  {
    forall flushOk, bulkOk ::
      var u, one := Update(e, s, data, flushOk, bulkOk), Update(e, s, data, true, true);
      !u.ok ==> SameForCaller(Update(e, u.state, data, true, true), one)
  }

  // Equal but for the list of jobs, which no caller sees.
  predicate SameForCaller(a: UpdateResult, b: UpdateResult) {
    a.ok == b.ok && a.state == b.state && a.written == b.written
  }

  // What a caller can check before the call: nothing pending, or no block gets full, or one is full already and the
  // input does not fill another.
  predicate RepeatSafe(e: Engine, s: State, data: seq<byte>) {
    s.partial == [] || |s.partial| + |data| < e.block || (|s.partial| == e.block && |data| < e.block)
  }

  // With RepeatSafe a failed call leaves no trace.
  lemma NoTrace(e: Engine, s: State, data: seq<byte>, flushOk: bool, bulkOk: bool)
    requires e.Lawful() && |s.partial| <= e.block && RepeatSafe(e, s, data)
    requires !Update(e, s, data, flushOk, bulkOk).ok
    ensures Update(e, s, data, flushOk, bulkOk).state == s
  {
    hide Engine.JobOutput;
    assert s.partial + data[..0] == s.partial;
  }

  // The flush fails: the pending block has grown.
  lemma FlushTrace(e: Engine, s: State, data: seq<byte>)
    requires e.Lawful() && 0 < |s.partial| < e.block && Flushes(e, s, data)
    ensures var u := Update(e, s, data, false, true);
            !u.ok && u.state == State(s.iv, s.partial + data[..e.block - |s.partial|])
  {
    hide Engine.JobOutput;
  }

  // The flush succeeds and the bulk job fails: the block is gone.
  lemma BulkTrace(e: Engine, s: State, data: seq<byte>)
    requires e.Lawful() && |s.partial| == e.block <= |data|
    ensures var u := Update(e, s, data, true, false);
            !u.ok && u.state == State(e.advance(s.iv, 1), []) && |u.written| == e.block
  {
    assert s.partial + data[..0] == s.partial;
    assert WholeLength(|data|, e.block) != 0;
  }

  /** A failed update leaves the context as it was, for every way to fail, exactly when RepeatSafe. */
  lemma FailureKeepsStateExactly(e: Engine, s: State, data: seq<byte>)
    requires e.Lawful() && |s.partial| <= e.block
    ensures FailureKeepsState(e, s, data) <==> RepeatSafe(e, s, data)
  {
    hide Update;
    if RepeatSafe(e, s, data) {
      forall flushOk, bulkOk | !Update(e, s, data, flushOk, bulkOk).ok
        ensures Update(e, s, data, flushOk, bulkOk).state == s
      {
        NoTrace(e, s, data, flushOk, bulkOk);
      }
    } else if |s.partial| < e.block {
      FlushTrace(e, s, data);
      assert |Update(e, s, data, false, true).state.partial| == e.block;
    } else {
      BulkTrace(e, s, data);
      assert Update(e, s, data, true, false).state.partial == [];
    }
  }

  /** Repeating a failed call amounts to one successful call, for every way to fail, exactly when RepeatSafe. */
  lemma RetryIsSafeExactly(e: Engine, s: State, data: seq<byte>)
    requires e.Lawful() && |s.partial| <= e.block && WithinLimit(e, s, data)
    ensures RepeatIsOneCall(e, s, data) <==> RepeatSafe(e, s, data)
  {
    hide Update;
    AcceptedExactly(e, s, data);
    if RepeatSafe(e, s, data) {
      FailureKeepsStateExactly(e, s, data);
    } else if |s.partial| < e.block {
      RepeatDoubles(e, s, data);
    } else {
      RepeatDrops(e, s, data);
    }
  }

  // A repeat after a refused flush leaves a different number of bytes pending than one call.
  lemma RepeatDoubles(e: Engine, s: State, data: seq<byte>)
    requires e.Lawful() && 0 < |s.partial| < e.block && Flushes(e, s, data) && Update(e, s, data, true, true).ok
    ensures var u, one := Update(e, s, data, false, true), Update(e, s, data, true, true);
            var r := Update(e, u.state, data, true, true);
            !u.ok && (r.ok ==> |r.state.partial| != |one.state.partial|)
  {
    hide Update, FlushJobs, BulkJobs;
    var u := Update(e, s, data, false, true);
    FlushTrace(e, s, data);
    UpdateShape(e, s, data, true, true);
    if Update(e, u.state, data, true, true).ok {
      UpdateShape(e, u.state, data, true, true);
      OtherRemainder(e.block, |s.partial|, |data|);
    }
  }

  lemma OtherRemainder(b: nat, p: nat, len: nat)
    requires (b == 16 || b == 64) && 0 < p < b
    ensures (p + len) % b != (b + len) % b
  {
    if b == 16 {} else {}
  }

  // A repeat after a refused bulk job reports one block less than one call.
  lemma RepeatDrops(e: Engine, s: State, data: seq<byte>)
    requires e.Lawful() && |s.partial| == e.block <= |data| && WithinLimit(e, s, data)
    ensures var u := Update(e, s, data, true, false);
            var r, one := Update(e, u.state, data, true, true), Update(e, s, data, true, true);
            !u.ok && one.ok && r.ok && r.state == one.state && |one.written| == |r.written| + e.block
  {
    hide Update;
    BulkTrace(e, s, data);
    assert data[Absorbed(e, s, data)..] == data;
    ResumeCompletes(e, s, data, true, false);
  }

  /** What a repeat enciphers, whatever failed: the absorbed input twice. */
  lemma RepeatEnciphers(e: Engine, s: State, data: seq<byte>, flushOk: bool, bulkOk: bool, flushOk': bool,
                        bulkOk': bool)
    requires e.Lawful() && |s.partial| <= e.block && !Update(e, s, data, flushOk, bulkOk).ok
    requires Update(e, Update(e, s, data, flushOk, bulkOk).state, data, flushOk', bulkOk').ok
    ensures var u := Update(e, s, data, flushOk, bulkOk);
            var r, n := Update(e, u.state, data, flushOk', bulkOk'), Absorbed(e, s, data);
            && Data(u.jobs + r.jobs) + r.state.partial == s.partial + (data[..n] + data)
            && (Data(u.jobs + r.jobs) + r.state.partial == s.partial + data <==>
                s.partial == [] || |s.partial| == e.block || data == [])
  {
    hide Update, Data, Output, Blocks, Consecutive;
    var u := Update(e, s, data, flushOk, bulkOk);
    var r, n := Update(e, u.state, data, flushOk', bulkOk'), Absorbed(e, s, data);
    UpdateEffect(e, s, data, flushOk, bulkOk);
    UpdateEffect(e, u.state, data, flushOk', bulkOk');
    JobsConcat(e, u.jobs, r.jobs);
    assert data[..|data|] == data;
    Glue(Data(u.jobs), Data(r.jobs), r.state.partial, u.state.partial, data, s.partial, data[..n]);
    assert n == 0 ==> data[..n] + data == data;
    assert n != 0 ==> |s.partial + (data[..n] + data)| != |s.partial + data|;
  }

  // ---- Two failing inputs ----

  /** One byte short of a block, one byte more, and the flush is refused: the byte is in the context already. The same
      call again enciphers it twice. */
  lemma AByteTwice(e: Engine, s: State, data: seq<byte>)
    requires e.Lawful() && |s.partial| == e.block - 1 && |data| == 1
    ensures var u := Update(e, s, data, false, true);
            var r, one := Update(e, u.state, data, true, true), Update(e, s, data, true, true);
            && !u.ok && u.state != s
            && r.ok && Data(u.jobs + r.jobs) + r.state.partial == s.partial + (data + data)
            && one.ok && Data(one.jobs) + one.state.partial == s.partial + data
            && r.state.partial == data && one.state.partial == []
  {
    hide Update, Data;
    var u := Update(e, s, data, false, true);
    OneByteLeft(e, s, data);
    FlushTrace(e, s, data);
    assert data[..1] == data;
    OneByteMore(e, u.state, data);
    RepeatEnciphers(e, s, data, false, true, true, true);
  }

  lemma OneByteLeft(e: Engine, s: State, data: seq<byte>)
    requires e.Lawful() && |s.partial| == e.block - 1 && |data| == 1
    ensures var one := Update(e, s, data, true, true);
            Flushes(e, s, data) && one.ok && one.state.partial == [] && Data(one.jobs) + [] == s.partial + data
  {
    hide Update, Data, FlushJobs, BulkJobs, WholeLength, Behind;
    assert data[..1] == data;
    ShortOfBlock([], e.block);
    ExactBlock(s.partial + data, e.block);
    AcceptedExactly(e, s, data);
    UpdateShape(e, s, data, true, true);
    UpdateEffect(e, s, data, true, true);
  }

  lemma OneByteMore(e: Engine, s: State, data: seq<byte>)
    requires e.Lawful() && |s.partial| == e.block && |data| == 1
    ensures var r := Update(e, s, data, true, true); r.ok && r.state.partial == data
  {
    hide Update, FlushJobs, BulkJobs, WholeLength, Behind;
    ShortOfBlock(data, e.block);
    AcceptedExactly(e, s, data);
    UpdateShape(e, s, data, true, true);
    assert (s.partial + data)[e.block..] == data;
    OneBlockOn(s.partial + data, e.block, data);
  }

  /** A full block pending, one block more, and only the bulk job is refused: the repeat ends in the right state, but
      neither call reports the flushed block. */
  lemma ABlockUnreported(e: Engine, s: State, data: seq<byte>)
    requires e.Lawful() && |s.partial| == e.block == |data|
    ensures var u := Update(e, s, data, true, false);
            var r, one := Update(e, u.state, data, true, true), Update(e, s, data, true, true);
            && !u.ok && u.written == e.JobOutput(s.iv, s.partial)
            && r.ok && one.ok && r.state == one.state
            && one.written == u.written + r.written && |r.written| == e.block
  {
    hide Update, BulkStage, FlushStage, WithinLimit, Flushes, Absorbed, Engine.JobOutput;
    var t := State(e.advance(s.iv, 1), []);
    FullBlocks(e, s, data);
    BulkTrace(e, s, data);
    FailureExactly(e, s, data, true, false);
    assert s.partial + data[..0] == s.partial && data[0..] == data;
    ResumeCompletes(e, s, data, true, false);
    FromEmpty(e, t, data, true);
    OneBlock(e, t, data);
  }

  lemma FullBlocks(e: Engine, s: State, data: seq<byte>)
    requires e.Lawful() && |s.partial| == e.block == |data|
    ensures Absorbed(e, s, data) == 0 && Flushes(e, s, data) && WithinLimit(e, s, data)
  {}

  lemma OneBlock(e: Engine, s: State, data: seq<byte>)
    requires 0 < e.block == |data|
    ensures var b := BulkStage(e, s, data, true); b.ok ==> |b.written| == e.block
  {}

  // ---- Repeating a final call ----

  // Whatever failed, the final call again, with its job accepted and room enough, gives what it should have given.
  ghost predicate FinalRepeatIsOneCall(e: Engine, s: State, outsize: nat)
    requires |s.partial| <= e.block
  {
    forall queueOk, room: nat ::
      !Final(e, s, outsize, queueOk).ok && |s.partial| <= room ==>
      Final(e, AfterFinal(e, s, queueOk), room, true) == Final(e, s, room, true)
  }

  /** A failed final call can be repeated, for every way to fail, exactly when its output was large enough; or when the
      keystream happens to leave the pending bytes as they are. */
  lemma FinalRepeatIsSafeExactly(e: Engine, s: State, outsize: nat)
    requires e.Lawful() && |s.partial| <= e.block
    ensures FinalRepeatIsOneCall(e, s, outsize) <==> |s.partial| <= outsize || e.JobOutput(s.iv, s.partial) == s.partial
  {
    hide Final, AfterFinal, Engine.JobOutput;
    if |s.partial| <= outsize || e.JobOutput(s.iv, s.partial) == s.partial {
      forall queueOk, room: nat | !Final(e, s, outsize, queueOk).ok && |s.partial| <= room
        ensures Final(e, AfterFinal(e, s, queueOk), room, true) == Final(e, s, room, true)
      {
        FinalUndisturbed(e, s, outsize, queueOk);
      }
    } else {
      FinalDisturbed(e, s, outsize);
    }
  }

  lemma FinalUndisturbed(e: Engine, s: State, outsize: nat, queueOk: bool)
    requires e.Lawful() && |s.partial| <= e.block && !Final(e, s, outsize, queueOk).ok
    requires |s.partial| <= outsize || e.JobOutput(s.iv, s.partial) == s.partial
    ensures AfterFinal(e, s, queueOk) == s
  {
    hide Final, Engine.JobOutput;
    FinalOk(e, s, |s.partial|);
    FinalIsCutJob(e, s, |s.partial|, true);
    if queueOk && |s.partial| <= outsize {
      FinalOk(e, s, outsize);
    }
  }

  // The job is accepted and the output is too small: the next final call gives the plaintext.
  lemma FinalDisturbed(e: Engine, s: State, outsize: nat)
    requires e.Lawful() && outsize < |s.partial| <= e.block && e.JobOutput(s.iv, s.partial) != s.partial
    ensures var room := |s.partial|;
            && !Final(e, s, outsize, true).ok
            && Final(e, AfterFinal(e, s, true), room, true) != Final(e, s, room, true)
  {
    hide AfterFinal, Engine.JobOutput;
    SecondFinal(e, s, true, |s.partial|);
    FinalOk(e, s, |s.partial|);
    FinalIsCutJob(e, s, |s.partial|, true);
  }

  /** Failing input: five bytes pending, room for four, the job accepted. Asked again with room for five, the final call
      hands out the five bytes it was given. */
  lemma FinalTooSmall(e: Engine, s: State)
    requires e.Lawful() && |s.partial| == 5
    ensures !Final(e, s, 4, true).ok
    ensures Final(e, AfterFinal(e, s, true), 5, true) == FinalResult(true, s.partial)
  {
    hide AfterFinal, Engine.JobOutput;
    SecondFinal(e, s, true, 5);
  }
}
