# A verified model of the GPU cipher provider

The repository is an OpenSSL 3 provider that runs AES-256-CTR and ChaCha20 on the Raspberry Pi 4 GPU. This project models
it as three layers and proves that they compose to the published ciphers:

1. **Kernels.** One GPU invocation computes one keystream block: AES on packed column words with a byte-swapped counter
   (`AesKernel`, `ShaderCounter`), ChaCha20 as eighty unrolled quarter rounds (`ChaChaKernel`). The references are
   FIPS 197 (`Fips197`, `Sbox`, `InverseCipher`), SP 800-38A section 6.5 (`AesCtr`, `Counter`) and RFC 8439 (`Rfc8439`),
   held to published values by `AesVectors` and `ChaChaVectors`.
2. **Submission.** A job expands the key (`KeySchedule`), fills the word-addressed parameter buffer, copies through the
   rings and dispatches the invocations (`AesBatcher`, `ChaChaBatcher`, `RingAllocator`, `Memory`). A dispatch is a set of
   invocations that take their memory steps in any order (`Dispatch`); the batchers' methods choose the next step
   arbitrarily.
3. **The provider.** A context buffers partial blocks and carries a counter from call to call, while any job may fail.
   `Stream` states this as functions with both ciphers as instances (`AesStream`, `ChaChaStream`), `Retry`, `Reuse`,
   `AesLimits`, `AesEpochs` and `ChaChaLimits` say what follows at the limits; `AesProvider` and
   `ChaChaProvider` are the contexts themselves, updated in place and proved to behave like those functions.

`Session` puts everything together: init, updates and final on real buffers, down to single invocation steps. The
end results:

- ChaCha20 equals RFC 8439 for every key, IV, message and split into updates.
- AES-256 equals SP 800-38A counter mode **exactly when** no update crosses a wrap of the lower 64 counter bits. The
  shader carries from the last counter word into the one before it and stops (`src/shaders/aes256_ctr.comp:63-71`), while
  the repository's README promises a 128-bit counter; the model follows the code. All ways to split a message give the same
  ciphertext exactly when the message stays below the wrap (`AesLimits.SplitIndependenceExact`).
- Encrypting under one split and decrypting under another gives the message back exactly when every block is enciphered in
  the same 2^64 epoch of the counter under both (`AesEpochs.AesRoundTripExact`); for ChaCha20 always.
- Within 2^64 blocks of one AES stream no keystream block is used twice, wrap or no wrap. A ChaCha20 stream uses different
  counters exactly up to 2^32 blocks, which is 2^38 bytes, and repeats keystream beyond.
- Whatever fails on the way, the counter is the initial one plus the blocks of all successful jobs, and every input byte
  taken over is in exactly one job or still pending.
- Repeating a failed update does not always give what one successful update would: exactly if the call completes a pending
  block (or fills another one behind a full one), the repeat can encipher the absorbed input twice or leave a block
  unreported (`Retry.RetryIsSafeExactly`, with failing inputs). Resuming with the input that was not absorbed always
  completes a call that the rings can hold (`Retry.ResumingIsOneCall`), but at the same output position it loses a block
  that had been flushed (`Session.AesResume`). A failed final call can be repeated, whatever failed, exactly
  if its output was large enough or the keystream leaves the pending bytes unchanged (`Retry.FinalRepeatIsSafeExactly`).

Conventions: a byte is a `bv8`, a `uint` a `bv32`, host and GPU are little-endian. `queueOk`, `flushOk` and `bulkOk` say
whether the queue submission of a job succeeds; they are arbitrary. `JobByte` is the keystream one job uses, `CtrByte` the
standard one. `State` of a context is its IV and its pending bytes.

## Model

| member | source | states |
|---|---|---|
| Session.AesEncrypt | src/provider/ciphers.c:44-176 | init, any updates and final over buffers, from any ring and parameter contents: the call succeeds exactly as the stream model says, and then the output buffer holds SP 800-38A CTR of the input if and only if no update crosses the 64-bit wrap |
| Session.ChaChaEncrypt | src/provider/ciphers.c:308-411 | the same for ChaCha20: the output buffer holds the RFC 8439 ciphertext, for every IV and split |
| Session.AesUpdates | src/provider/ciphers.c:114-176 | updates in sequence on one context: the output buffer grows by what each reports, counter and pending bytes follow the stream model, and the first failure ends it |
| Session.ChaChaUpdates | src/provider/ciphers.c:328-387 | the same for ChaCha20 |
| AesStream.AesEndToEnd | src/provider/ciphers.c:64-176 | for every key, IV, message, split and final: streamed output equals CTR over FIPS 197 AES-256 if and only if no update crosses the wrap |
| AesStream.AesRoundTrip | src/provider/ciphers.c:258-261 | decryption is encryption: any split B of the ciphertext made under any split A gives the message back when neither crosses the wrap |
| AesEpochs.AesRoundTripExact | src/provider/ciphers.c:258-261 | the exact round trip: decrypting under split B what split A encrypted gives the message back if and only if, for every whole block, the jobs that hold it under A and B start in the same 2^64 epoch of the counter, a condition on IV and update lengths |
| AesEpochs.SameCiphertextExact | src/provider/ciphers.c:114-176 | two successful splits of one message give the same ciphertext under the same condition |
| AesEpochs.SameKeyBlockExact | src/shaders/aes256_ctr.comp:61-114 | jobs started at two places use the same keystream for a block if and only if both places are in the same epoch |
| AesEpochs.RunUsesStream | src/provider/ciphers.c:64-176 | every successful run enciphers byte p with the keystream of the job that the update lengths assign to it |
| AesStream.JobStandardExact | src/shaders/aes256_ctr.comp:55-71 | a job uses the standard keystream bytes if and only if its counters stay below the wrap; otherwise some byte is wrong, since the cipher is injective |
| AesStream.UpdateFitsExact | src/provider/ciphers.c:123-165 | the jobs an update makes in mid-stream fit if and only if a condition on IV, bytes sent so far and length holds |
| AesStream.RunFitsExact | src/provider/ciphers.c:114-176 | the same for whole runs |
| AesStream.StateAfter | src/provider/ciphers.c:114-176 | after successful updates the counter stands at IV + sent/16 and sent mod 16 bytes are pending |
| AesLimits.EverySplitStandardExact | src/provider/ciphers.c:64-176 | every successful way to send a message gives the standard ciphertext if and only if low64(IV) + whole blocks is at most 2^64, whatever the length |
| AesLimits.SplitIndependenceExact | src/provider/ciphers.c:64-176 | any two successful ways to send a message give the same output if and only if low64(IV) + whole blocks is at most 2^64 |
| AesLimits.RightAndWrong | src/shaders/aes256_ctr.comp:67-71 | for every key, IV and message beyond that bound: one successful run with the standard output (one byte per update) and one with another (the two blocks around the wrap in one update) |
| AesLimits.SplitMattersAtTheWrap | src/shaders/aes256_ctr.comp:67-71 | concrete failure for every key: with an IV ending in eight 0xFF, two blocks in one update come out wrong and in two updates right |
| AesLimits.KeystreamNeverRepeats | src/shaders/aes256_ctr.comp:55-114 | consecutive jobs of up to 2^64 blocks use pairwise different keystream blocks, wrap or no wrap |
| AesLimits.RunNeverReusesKeystream | src/provider/ciphers.c:64-176 | over every run with any failures, up to 2^64 blocks, the successful updates and the final call, if it has a job and the job is accepted, encrypt with pairwise different keystream blocks |
| AesLimits.RunCountersDifferExact | src/provider/ciphers.c:64-165 | the provider's counters of everything enciphered over any run, failures included, and its final call are pairwise different if and only if that is at most 2^128 blocks |
| Reuse.CountersDifferExact | src/provider/ciphers.c:114-176 | for any counter with a period: the blocks of consecutive jobs have pairwise different counters if and only if there are at most as many as the period |
| Reuse.SubmittedBlocks | src/provider/ciphers.c:64-176 | a successful run with its final call enciphers exactly one block for every block of the message, begun or whole |
| Reuse.FinalFromJobs | src/provider/ciphers.c:69-91 | a successful final call has a job exactly if bytes are pending, and delivers from that job's output |
| ChaChaStream.ChaChaEndToEnd | src/provider/ciphers.c:328-411 | streamed output equals RFC 8439 section 2.4 for every key, IV, message and split |
| ChaChaStream.ChaChaRoundTrip | src/provider/ciphers.c:328-411 | decrypting under any other split gives the message back, unconditionally |
| ChaChaStream.JobKeystream | src/provider/ciphers.c:353-375 | a job started n blocks on uses the keystream from byte 64n, because provider and shader wrap the counter alike |
| ChaChaStream.AdvanceAdds | src/provider/ciphers.c:353-356 | the counter updates add up modulo 2^32, so the advance after the flush and the one after the bulk job compose |
| ChaChaLimits.Advance32Injective | src/provider/ciphers.c:353-375 | two blocks of a stream have the same counter exactly when their indices agree modulo 2^32 |
| ChaChaLimits.RunCountersDifferExact | src/shaders/chacha20.comp:58-66 | over any run with any failures, the blocks of the successful updates and of the final call, if it has a job and the job is accepted, have pairwise different counters, and start states, if and only if they are at most 2^32 |
| ChaChaLimits.MessageCountersDifferExact | src/shaders/chacha20.comp:58-66 | for a successful run with its final call: pairwise different if and only if the message has at most 2^38 bytes |
| ChaChaLimits.KeystreamComesRound | src/shaders/chacha20.comp:58-66 | beyond 2^32 blocks two different blocks of the run get the same 64 keystream bytes |
| Stream.RunInvariant | src/provider/ciphers.c:114-176 | in every state reachable under any failures: counter = IV + blocks of successful jobs, those jobs are consecutive, at most one block is pending and a full one only after a failure, bytes taken over = bytes in jobs + pending bytes |
| Stream.UpdateEffect | src/provider/ciphers.c:114-176 | the same for one update from any state, with what was stored and which input bytes were taken |
| Retry.RetryIsSafeExactly | src/provider/ciphers.c:124-156 | repeating a failed update has the result, state and output of one successful update, for every way to fail, if and only if nothing was pending, or no block gets full, or one was full already and the input does not fill another |
| Retry.FailureKeepsStateExactly | src/provider/ciphers.c:124-156 | under the same condition, and only then, every failure leaves the context unchanged |
| Retry.RepeatEnciphers | src/provider/ciphers.c:124-165 | what a failed update and its repeat encipher together: the absorbed input twice; right exactly if nothing was absorbed |
| Retry.AByteTwice | src/provider/ciphers.c:125-137 | failing input: a byte that completes the pending block while the flush is refused; the same call again enciphers it twice |
| Retry.ABlockUnreported | src/provider/ciphers.c:134-156 | failing input: a full block flushed, then the bulk job refused; the repeat ends in the right state, but the flushed block is in the output and never reported |
| Retry.ResumeCompletes | src/provider/ciphers.c:123-175 | after any failure an update with the input not absorbed completes the call: together they store, submit and reach what one successful update does, and the stored but unreported part is one block exactly if a flush succeeded |
| Retry.ResumingIsOneCall | src/provider/ciphers.c:114-176 | the same after any number of failed attempts |
| Retry.AcceptedExactly | src/scheduler/batcher.cpp:114-117 | without failures an update succeeds if and only if its whole blocks fit the rings |
| Retry.ResumeInPlace | src/provider/ciphers.c:134-156 | resuming at the same output position: the output of one call if no flush had succeeded; otherwise the flushed block is lost and the rest stands one block early |
| Session.AesResume | src/provider/ciphers.c:114-176 | the same on context and buffers: a first attempt with any outcome and, if it fails, a resumed update |
| Session.ChaChaResume | src/provider/ciphers.c:328-387 | the same for ChaCha20 |
| Retry.FinalRepeatIsSafeExactly | src/provider/ciphers.c:80-91 | repeating a failed final call, with room and its job accepted, gives what it should have given, for every way to fail, if and only if its output had been large enough or the keystream leaves the pending bytes unchanged |
| Retry.FinalTooSmall | src/provider/ciphers.c:86-91 | failing input: five bytes pending and room for four; the repeated final call hands out the plaintext |
| Stream.WholeRunExact | src/provider/ciphers.c:64-176 | for any keystream: all output equals message xor keystream if and only if every job used the right keystream bytes |
| Stream.OutputExact | src/provider/ciphers.c:123-165 | the same for the jobs alone |
| Stream.WholeRunPlaces | src/provider/ciphers.c:64-176 | every job of a successful run starts on a block boundary of the message with IV + blocks before it; only the last one may be less than whole blocks, and then it is less than one |
| Stream.LengthConservation | src/provider/ciphers.c:123-175 | successful updates report block * floor(total/block) bytes and final delivers total mod block |
| Stream.UpdateLength | src/provider/ciphers.c:123-165 | an update stores whole blocks only and no more than it was given and had pending |
| Stream.UpdateShape | src/provider/ciphers.c:123-172 | pending and new bytes joined: a successful update from any state submits the first block if bytes were pending and it is complete, then the blocks from the next boundary to the last one, nothing else, and keeps the bytes behind |
| Stream.FinalIsCutJob | src/provider/ciphers.c:73-91 | zero padding does not show: final gives the encryption of the pending bytes alone |
| Stream.FinalExactly | src/provider/ciphers.c:69-93 | a final call succeeds if and only if nothing is pending, or its job is accepted and the output is large enough, and delivers the encryption of the pending bytes |
| Stream.SecondFinal | src/provider/ciphers.c:80-91 | a second final gives the right bytes if the first job was refused, and the plaintext if it was accepted, also when only the output was too small |
| AesProvider.AesContext.constructor | src/provider/ciphers.c:28-35 | a new context is all zeros with nothing pending |
| AesProvider.AesContext.Init | src/provider/ciphers.c:44-62 | key of 16 or 32 bytes or refusal without effect; the first bytes of key and IV are the new ones and the rest stays; pending bytes dropped |
| AesProvider.AesContext.Update | src/provider/ciphers.c:114-176 | new counter and pending bytes, result, reported length and the exact contents of the output buffer are those of the stream model, on success and on both failures; the bytes around what is written, and the key, are untouched |
| AesProvider.AesContext.Flush | src/provider/ciphers.c:123-146 | stage 1 on the context equals the stream's flush stage |
| AesProvider.AesContext.Bulk | src/provider/ciphers.c:148-172 | stages 2 and 3 equal the stream's bulk stage |
| AesProvider.AesContext.SubmitBlocks | src/provider/ciphers.c:149-165 | a job's output is in place and the counter advanced by its blocks, or nothing changed |
| AesProvider.AesContext.Absorb | src/provider/ciphers.c:125-128 | the pending bytes grow by as much input as fits the block |
| AesProvider.AesContext.Keep | src/provider/ciphers.c:168-172 | the tail of the input becomes pending |
| AesProvider.AesContext.Final | src/provider/ciphers.c:64-94 | result, output and the overwritten buffer for every outcome: nothing pending, submission failed, output too small, done |
| AesProvider.AesContext.Pad | src/provider/ciphers.c:73-76 | pending bytes followed by zeros |
| ChaChaProvider.ChaChaContext.constructor | src/provider/ciphers.c:299-304 | a new context is all zeros with nothing pending |
| ChaChaProvider.ChaChaContext.Init | src/provider/ciphers.c:308-326 | 32-byte key or refusal without effect; with n the smaller of 16 and the length given, the first n IV bytes are the new ones and the rest stays; pending bytes dropped |
| ChaChaProvider.ChaChaContext.Update | src/provider/ciphers.c:328-387 | as for AES, with 64-byte blocks |
| ChaChaProvider.ChaChaContext.Flush | src/provider/ciphers.c:338-358 | stage 1 on the context equals the stream's flush stage |
| ChaChaProvider.ChaChaContext.Bulk | src/provider/ciphers.c:360-383 | stages 2 and 3 equal the stream's bulk stage |
| ChaChaProvider.ChaChaContext.SubmitBlocks | src/provider/ciphers.c:361-376 | a job's output is in place and the counter advanced by its blocks, or nothing changed |
| ChaChaProvider.ChaChaContext.AdvanceCounter | src/provider/ciphers.c:371-375 | the little-endian word in the first four IV bytes moves by the block count modulo 2^32, the nonce stays |
| ChaChaProvider.ChaChaContext.Absorb | src/provider/ciphers.c:340-343 | the pending bytes grow by as much input as fits the block |
| ChaChaProvider.ChaChaContext.Keep | src/provider/ciphers.c:378-383 | the tail of the input becomes pending |
| ChaChaProvider.ChaChaContext.Final | src/provider/ciphers.c:389-411 | result, output and the overwritten buffer for every outcome |
| ChaChaProvider.ChaChaContext.Pad | src/provider/ciphers.c:397-400 | pending bytes followed by zeros |
| Counter.Inc128Counter | src/provider/ciphers.c:102-112 | the byte loop with its early break adds any 64-bit block count modulo 2^128, in place |
| Counter.AdvanceAdd | src/provider/ciphers.c:144-164 | advancing by a and then by b is advancing by a + b |
| Counter.AdvanceInjective | src/provider/ciphers.c:102-112 | two blocks of a stream have the same counter exactly when their indices agree modulo 2^128 |
| Counter.IncrementBytes | src/provider/ciphers.c:102-112 | one counter step on the bytes: the last byte that is not 0xFF goes up by one, those behind it become zero, the others stay |
| ShaderCounter.ShaderCounterExact | src/shaders/aes256_ctr.comp:61-71 | the shader's counter block is IV + gID modulo 2^128 if and only if low64(IV) + gID < 2^64 |
| ShaderCounter.ShaderBlockValue | src/shaders/aes256_ctr.comp:61-71 | what the block is otherwise: upper half unchanged, lower half modulo 2^64 |
| Words.WordAdd | src/shaders/aes256_ctr.comp:65-67 | the carry test: a 32-bit sum wrapped exactly when it is below an operand |
| AesCtr.EncryptInjective | src/shaders/aes256_ctr.comp:73-114 | under one key, equal keystream blocks mean equal counter blocks |
| AesCtr.JobBlockExact | src/shaders/aes256_ctr.comp:55-114 | block g of a job is the standard keystream block if and only if the lower counter half does not overflow at g |
| AesKernel.KeystreamBlock | src/shaders/aes256_ctr.comp:51-114 | one invocation up to its keystream words is the FIPS 197 section 5.1 Cipher of the counter state, for every parameter buffer, S-box and round count |
| AesKernel.MixColumnMeaning | src/shaders/aes256_ctr.comp:35-49 | packed MixColumn is the FIPS 197 column product |
| AesKernel.SubWordMeaning | src/shaders/aes256_ctr.comp:28-33 | packed SubWord substitutes the four bytes |
| AesKernel.SubShiftMeaning | src/shaders/aes256_ctr.comp:82-90 | SubWord and the four masked words are SubBytes followed by ShiftRows |
| Fips197.MixColumnIsFieldProduct | src/shaders/aes256_ctr.comp:35-49 | the shift-and-reduce MixColumn is the circulant product {02} {03} {01} {01} over GF(2^8), all four rows |
| Fips197.MixColumnInjective | src/shaders/aes256_ctr.comp:37-49 | MixColumns loses nothing |
| Fips197.CipherInjective | src/shaders/aes256_ctr.comp:73-114 | for every round-key sequence, injective S-box and round count, equal outputs mean equal inputs |
| Fips197.WindowDeterminesKey | src/scheduler/aes256_batcher.cpp:114-129 | schedules that agree on any eight consecutive words come from the same key |
| InverseCipher.DecryptUndoesEncrypt | src/shaders/aes256_ctr.comp:73-114 | the inverse cipher of FIPS 197 section 5.3, written from its own transformations with fourteen rounds, gives back every block under every key: no transformation of the cipher is missing, doubled or misplaced |
| InverseCipher.MixColumnUndone | src/shaders/aes256_ctr.comp:37-49 | the matrix {0e} {0b} {0d} {09} over GF(2^8) undoes MixColumn |
| Fips197.ExpansionBytes | src/scheduler/aes256_batcher.cpp:113-129 | every word of the schedule, byte by byte: key bytes first, then the word eight back plus the previous word, substituted at every fourth, rotated and given a power of x at every eighth |
| AesVectors.ScheduleIsPublished | src/scheduler/aes256_batcher.cpp:112-129 | all sixty words of FIPS 197 appendix A.3 |
| AesVectors.CounterModeIsPublished | src/shaders/aes256_ctr.comp:51-120 | the first block of SP 800-38A section F.5.5, through every intermediate state |
| Sbox.SBoxIsFips197 | src/scheduler/aes256_batcher.cpp:13-35 | every table entry is the affine transform of the field inverse |
| Sbox.SBoxInjective | src/scheduler/aes256_batcher.cpp:13-35 | the table is a permutation |
| KeySchedule.ExpandKey | src/scheduler/aes256_batcher.cpp:108-129 | the loop on little-endian words computes FIPS 197 section 5.2 KeyExpansion for every 32-byte key and S-box |
| KeySchedule.RconIsPowersOfX | src/scheduler/aes256_batcher.cpp:109-111 | the round constants are the powers of x, including those never used |
| AesBatcher.AES256Batcher.Submit | src/scheduler/aes256_batcher.cpp:90-179 | success, output, rings and parameter buffer after a job, from any earlier contents and any len up to the ring size, input and output possibly the same |
| AesBatcher.AES256Batcher.FillParams | src/scheduler/aes256_batcher.cpp:104-139 | counts, expanded key, IV and S-box at the offsets the shader reads; the rest of the buffer untouched |
| AesBatcher.Layout | src/shaders/aes256_ctr.comp:14-21 | the same by literal word offsets: 0, 1, 4, 64 and 68 |
| AesBatcher.AES256Batcher.RunInvocations | src/shaders/aes256_ctr.comp:51-121 | stepping the invocations in any order gives the block-by-block result |
| AesBatcher.AES256Batcher.WriteWord | src/shaders/aes256_ctr.comp:116-120 | one store of keystream xor input changes one word |
| AesBatcher.Invocation | src/shaders/aes256_ctr.comp:55-114 | the private part of an invocation holds the four words it will add |
| AesBatcher.KeystreamIsJobByte | src/shaders/aes256_ctr.comp:55-120 | with a filled parameter buffer the words added carry exactly the job's keystream bytes |
| AesBatcher.JobIsolated | src/scheduler/aes256_batcher.cpp:98-177 | the first len bytes left by the batch depend on this job's data, key and IV only, ragged tails included |
| AesBatcher.BatchFits | src/scheduler/aes256_batcher.cpp:153-158 | the padded batch stays inside the ring, and the groups cover it within 32-bit indices |
| Dispatch.DispatchDeterministic | src/shaders/aes256_ctr.comp:52-120 | every complete schedule of thread steps leaves the sequential result |
| Dispatch.EachWordWrittenOnce | src/shaders/aes256_ctr.comp:116-120 | in a complete schedule every word of the batch is written by exactly one step and no other word is written |
| Dispatch.StepKeepsInv | src/shaders/chacha20.comp:189-199 | the invariant of every step: written words are final, the others untouched |
| Dispatch.RemainingStep | src/shaders/chacha20.comp:191-199 | every step uses up one of finitely many, so a dispatch ends |
| ChaChaKernel.QuarterRound | src/shaders/chacha20.comp:27-32 | the in-place quarter round is the one of RFC 8439 section 2.2 |
| ChaChaKernel.TwentyRounds | src/shaders/chacha20.comp:72-181 | the eighty unrolled quarter rounds are ten double rounds |
| ChaChaKernel.KeystreamBlock | src/shaders/chacha20.comp:34-184 | one invocation up to its keystream words is the RFC 8439 section 2.3 block function |
| Rfc8439.QuarterUndone | src/shaders/chacha20.comp:27-32 | the quarter round has the explicit inverse, in both directions |
| Rfc8439.DoubleRoundsBijective | src/shaders/chacha20.comp:72-181 | so have n double rounds: a bijection on the sixteen-word states |
| Rfc8439.DoubleRoundIsQuarters | src/shaders/chacha20.comp:73-82 | a double round is four independent quarter rounds on the columns, then four on the diagonals |
| Rfc8439.BlockUndone | src/shaders/chacha20.comp:72-184 | for every state the inverse rounds lead back to it from the block with the state taken off again word by word: the feed-forward is there, and once |
| Rfc8439.KeystreamAt | src/shaders/chacha20.comp:61-198 | which byte of which word of which block, with which counter, a keystream byte is |
| ChaChaVectors.BlockIsPublished | src/shaders/chacha20.comp:40-184 | the block of RFC 8439 section 2.3.2, through the state after every double round |
| ChaChaVectors.KeystreamIsPublished | src/shaders/chacha20.comp:189-199 | its first bytes in keystream order |
| ChaChaBatcher.Batcher.Submit | src/scheduler/batcher.cpp:110-371 | success, output, ring offset, rings and parameter buffer after a ChaCha20 job; the offset has advanced even when the queue fails |
| ChaChaBatcher.Batcher.RunJob | src/scheduler/batcher.cpp:312-333 | the groups dispatched turn the job's range of the ring into the RFC 8439 ciphertext and touch nothing outside it |
| ChaChaBatcher.Batcher.FillParams | src/scheduler/batcher.cpp:236-247 | key words, nonce words, then the counter word, where the shader expects them |
| ChaChaBatcher.Layout | src/shaders/chacha20.comp:18-24 | the same by literal word offsets: 0, 4, 12 and 15 |
| ChaChaBatcher.Batcher.RunInvocations | src/shaders/chacha20.comp:34-200 | stepping the invocations in any order inside the bound range gives the block-by-block result |
| ChaChaBatcher.Batcher.WriteWord | src/shaders/chacha20.comp:197-198 | one store of keystream xor input changes one word of the range |
| ChaChaBatcher.KeystreamIsRfcByte | src/shaders/chacha20.comp:40-198 | with a filled parameter buffer the words added are the RFC 8439 keystream, counter wrap included |
| ChaChaBatcher.RangeExact | src/scheduler/batcher.cpp:264-271 | with a filled parameter buffer no invocation can step outside the bound range if and only if the job is a whole number of blocks |
| ChaChaBatcher.BatchFits | src/scheduler/batcher.cpp:324-330 | the groups cover the batch within 32-bit indices |
| RingAllocator.OneMoreJob | src/scheduler/batcher.cpp:128-135 | a job appended to any sequence takes the slot the offset gives it; with the batcher's invariant, its offset is the one of all jobs it was ever given |
| RingAllocator.SlotsWellPlaced | src/scheduler/batcher.cpp:128-135 | over any sequence of jobs, every accepted one lies in the ring with its own length, behind its predecessor or at the start |
| RingAllocator.ChainContiguous | src/scheduler/batcher.cpp:128-135 | between two wraps the slots are contiguous and disjoint, and their lengths add up |
| RingAllocator.OffsetIsSum | src/scheduler/batcher.cpp:294-294 | without a wrap the offset is the sum of the accepted lengths |
| RingAllocator.SlotsAligned | src/provider/ciphers.c:345-364 | the provider's whole-block jobs keep every slot on a 64-byte boundary |
| Memory.Copy | src/scheduler/aes256_batcher.cpp:99-177 | the target range holds the source range, and the bytes before and behind it are as they were |
| Memory.OverwriteSlices | src/scheduler/aes256_batcher.cpp:177-177 | what the buffer claims mean: data in the range, everything around it unchanged |
| Memory.Store | src/shaders/aes256_ctr.comp:117-120 | a word store through a bound range changes exactly its four bytes |

## Left out

- Vulkan set-up, descriptors, command buffers and shader loading: foreign calls. Queue submission and wait are one success flag per job.
- A ChaCha20 job whose wait fails after the GPU has started: the model leaves the output ring as it was; the caller sees the same.
- The result of the fence wait of the AES batcher, which the code ignores: taken to succeed.
- Cache flushes and invalidations and the V3D driver bug: memory is assumed coherent.
- OpenSSL dispatch tables and parameter getters and setters: tables of pointers and constants that no modelled code reads.
- `vc6_submit_job` and AES-128: the algorithm numbers differ between provider and scheduler, and AES-128 key expansion is an OpenSSL call. AES contexts with a 32-byte key are bound directly to the AES-256 batcher, ChaCha20 contexts to the ChaCha20 branch.
- The AES-256 branch of the shared batcher: the same loop as in the AES-256 batcher, modelled once.
- The static ring offset of the shared batcher is a field, since there is one batcher.
- The `aes256_export` tree: same shader, and its provider keeps no state between updates.
- The batcher's worker thread, mutex and pending jobs: nothing uses them. The GPU invocations are the only concurrency.
- Updates after `final`, overlapping input and output buffers, and a missing backend.
- ChaChaBatcher.Batcher.Submit: asks for a whole number of 64-byte blocks, which is all the provider submits; for other lengths the shader leaves the bound range, as RangeExact shows.
- ChaChaBatcher.Batcher.RunJob: the same, since what an access outside the bound range does is undefined.
- AesProvider.AesContext.Init: asks for an IV of at most 16 bytes, since the code copies without a bound.
- AesProvider.AesContext.Update: asks for a 32-byte key, since AES-128 is left out, and for room for the blocks that can be written, which the code does not check.
- AesProvider.AesContext.Final: asks for a 32-byte key, since AES-128 is left out.
- Counter.Inc128Counter: the block count is below 2^64, the width of `size_t`.
