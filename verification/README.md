# Verification of Pulsing's hard core

A Dafny model of the parts of Pulsing whose correctness depends on interleavings, on how bytes
happen to be cut, or on long runs. `dafny verify dfyconfig.toml` checks all of it.

| files | what they model |
|---|---|
| `TurnRegistry`, `ExecSessions`, `ExecFrames`, `ExecInvariant`, `ExecTheorems`, `ExecScenarios`, `ExecIsolation`, `ExecAccounting`, `ExecProgress`, `ExecCleanup`, `ExecManager` | turns, the exec sessions they own, cancellation, waiting for idle |
| `Utf8`, `Unicode`, `ChunkDecoder`, `RollingBuffer`, `PolledBuffer`, `StreamReader` | streaming UTF-8 decoding, the rolling output buffer, the token limit, the two-stream reader |
| `Words`, `Zerocopy`, `WireForms`, `Framing` | the zerocopy codec with its two wire forms, the worker's frames |
| `RevisionIds`, `Journal`, `JournalHistory` | the workspace revision journal |
| `CircuitBreaker`, `WatchRegistry`, `Backoff` | the circuit breaker, the watch registry, restart delays |

## How it is modelled

**Exec sessions and turns.** `ExecSessions` is a step machine: one step for each region under a
lock and each atomic operation of `exec_command`, `poll_session`, `stop_session_and_wait`,
`stop_all`, `cancel`, `cleanup_and_wait` and the guards' drop. Steps of all calls interleave
freely. Spawning, exits, timers, and a caller that drops a call's future at an await are
nondeterministic. `TurnRegistry` is the same for the registry and its waiters, with
`Notify::notify_waiters` as a generation counter: a `notified()` future is ready once the counter
moved after its creation. The classes `TurnResourceRegistry` and `UnifiedExecManager` hold the
fields of the source; their methods are the lock regions, tied to the steps.

**Text.** A Rust `String` is its UTF-8 bytes. `Utf8` follows section 4 of RFC 3629 for
well-formedness and section 3.9 of the Unicode Standard for `from_utf8_lossy`. `Unicode` defines the
encoding of character numbers by the arithmetic of section 3 of RFC 3629 and proves that both mean
the same.

**Codecs.** bincode is an arbitrary pair of functions `encode` and `decode` with
`decode(encode(h)) == h`; pickle bodies are bytes. A stream is a sequence of frames that may hold a
transport error.

**Journal.** A workspace is a map from paths to bytes. `.pulsing/history` is the map of revisions
and HEAD.

**Breaker, watches, backoff.** Clock readings, mailboxes, and the random factor are parameters.

## What was found

The model keeps what the code does. Where that is less than its comments or its purpose suggest,
the exact condition is proved.

* **Cancellation** (`unified_exec.rs:188-213`, `turn.rs:182-185`). A quiet, cancelled turn has a
  session in the table exactly when one of three events took away the last thing bound to stop it, and
  no step rescued it since: the select is first polled when the yield timer is already due and the timer
  arm is picked although the token is set; the caller drops the call after the cancellation arm won
  but before the session is taken out (`agent/loop.rs:213-222` does drop calls on cancel); or a
  canceller cannot spawn its stop task. The first needs a stalled thread: the timer is made in the
  same poll, and the yield time is at least 250 ms (`exec_output.rs:8`). Each kind of event alone can
  leave a session behind, so all three have to be ruled out (`ExecScenarios.AlwaysCleanIff`). The
  sweep a turn's task makes at its end (`session/service.rs:331-346`) removes what the first two
  leave (`ExecCleanup.CleanupClearsTurn`).
* **Output buffer** (`exec_output.rs:81-91`). A push can leave more than `max_bytes` bytes exactly
  when `max_bytes` is below 55. The 256 KiB used for sessions is far above. Polls obey no such bound:
  a limit that cuts off fewer bytes than its marker has lengthens the buffer, and polls one token
  below the estimate bring it to any length without any output. The next output cuts it back.
* **Token limit** (`exec_output.rs:97-107`). A cut result is always estimated at five or six tokens
  *above* the limit, because of the marker: the limiter ends within its limit exactly when it had
  nothing to cut. Polls cut the session's own buffer. A later cut keeps a piece of an earlier marker,
  of either kind, as if it were output exactly when it keeps more bytes than follow that marker; at
  the same limit or a smaller one it never does.
* **Flush of undecodable bytes** (`exec_output.rs:144-154`). After malformed input the flush of more
  than four bytes can take the first part of a good character with it. How the input was cut into
  reads cannot be observed exactly when every place from five bytes behind the well-formed front on
  lies between two steps of the lossy conversion. For well-formed text the flush is never reached.
* **Zerocopy single form** (`actor.rs:936-959`). A payload shorter than its header announces makes
  the slice panic; the model has this as the outcome `Panicked`. A single form cut anywhere behind
  its header runs into it (`WireForms.PrefixIsRefused`).
* **Journal ids** (`journal.rs:169-176`). "10000" sorts before "9999", so from the ten-thousandth
  checkpoint on every further one takes the id 10000: the revision becomes its own parent and is
  written over. Checkpoints are restorable whatever happens later exactly up to number 9999.
* **Breaker** (`circuit_breaker.rs:328-332`). `reset` restarts the failure count even when the
  breaker is closed already. "Closed means fewer failures than the threshold since the last success
  or entry into Closed" holds wherever no reset lies between, and in all histories exactly for a
  threshold of at most one. The configured `window_duration` is not used.
* **Backoff** (`supervision.rs:66-88`). `attempt as i32` turns attempts from 2^31 on into negative
  exponents and the delay falls below the first one; with a zero factor and a zero minimum it is not
  a number and panics. Jitter is added after the cap, so a delay at `max` can exceed it.

## Model

| member | source | states |
|---|---|---|
| `TurnRegistry.StepKeepsInv` | crates/pulsing-forge/src/turn.rs:42-128 | every register, remove, notify and waiter step keeps: a waiter waiting for the current generation after seeing entries still has an entry or a pending notification ahead of it |
| `TurnRegistry.NoLostWakeup` | crates/pulsing-forge/src/turn.rs:91-128 | in every reachable state, a waiter parked over a registry that is now empty can wake, or a releaser is between its remove and its notification |
| `TurnRegistry.CountIsTrue` | crates/pulsing-forge/src/turn.rs:91-105 | each count tells whether there are entries; idle is reported exactly after a count of none, whatever the timer does, and busy exactly by a bounded wait that saw entries and is late |
| `TurnRegistry.RunKeepsIdle` | crates/pulsing-forge/src/turn.rs:93-97 | a waiter that counted no entry reports idle or has still to report, after any steps of anybody |
| `TurnRegistry.BusyWasBusy` | crates/pulsing-forge/src/turn.rs:91-105 | over every run, a waiter that reports busy is bounded and was waiting at an instant when the registry was not empty |
| `TurnRegistry.WokenOnce` | crates/pulsing-forge/src/turn.rs:93-114 | a woken waiter notes afresh: over entries it parks again and is not woken by the same notification |
| `TurnRegistry.EmptyRegistryLetsWaiterFinish` | crates/pulsing-forge/src/turn.rs:107-115 | once the registry is empty and all releasers are through, a waiter whose timer does not fire reports idle within five steps of its own and needs nobody else |
| `TurnRegistry.TurnResourceRegistry.Register` | crates/pulsing-forge/src/turn.rs:42-59 | registration under a fresh id is the register step |
| `TurnRegistry.TurnResourceRegistry.Release` | crates/pulsing-forge/src/turn.rs:117-142 | dropping a guard is remove then notify if the entry is there, and nothing otherwise |
| `TurnRegistry.TurnResourceRegistry.ActiveCount` | crates/pulsing-forge/src/turn.rs:78-80 | the count is zero exactly for an empty registry |
| `TurnRegistry.TurnResourceRegistry.CancelAll` | crates/pulsing-forge/src/turn.rs:65-76 | every session is asked to stop exactly as often as it has entries, no other session at all |
| `ExecTheorems.StepKeepsInv` | crates/pulsing-forge/src/unified_exec.rs:135-213 | every step keeps: a session is in one place, its owner is its command's turn, guards and registry entries match one to one, live processes have an owner |
| `ExecTheorems.RunKeepsInv` | crates/pulsing-forge/src/unified_exec.rs:135-421 | the same over every interleaving |
| `ExecTheorems.InSnapshot` | crates/pulsing-forge/src/turn.rs:65-72 | a session in the table is in every snapshot of its turn's cancellers |
| `ExecTheorems.IdsAreFresh` | crates/pulsing-forge/src/unified_exec.rs:135 | in every run the next session id is that of no call and no session |
| `ExecTheorems.StepKeepsRank` | crates/pulsing-forge/src/unified_exec.rs:139-213 | once a turn is cancelled no step takes a session of it further from its release, except the three named events and a registration |
| `ExecTheorems.StepExposes` | crates/pulsing-forge/src/unified_exec.rs:139-213 | only those events leave a session of a cancelled turn in the table with no call that chose to stop, no stop task and no sweep bound to take it out |
| `ExecTheorems.ExposureEndsIff` | crates/pulsing-forge/src/unified_exec.rs:139-392 | that state ends at exactly these steps: another sweep of the turn, a stop task asked for, `stop_all`, a poll that sees the exit, the call seeing its token |
| `ExecTheorems.ExposedIff` | crates/pulsing-forge/src/unified_exec.rs:135-213 | after any interleaving a session is in that state exactly when such an event put it there and none of the rescuing steps came since |
| `ExecTheorems.LeftoversAreExposed` | crates/pulsing-forge/src/unified_exec.rs:135-213 | once a turn is cancelled and nothing of it is in flight, a session of it is in the table exactly when such an event exposed it and none of the rescuing steps came since |
| `ExecTheorems.CancellationLeavesNothingBehind` | crates/pulsing-forge/src/unified_exec.rs:135-213 | such a turn has no session in the table exactly when no session stayed exposed, however early its stop task ran |
| `ExecScenarios.AlwaysCleanIff` | crates/pulsing-forge/src/unified_exec.rs:135-213 | every run leaves cancelled turns clean exactly when late first polls, dropped calls and failing cancellers are all ruled out |
| `ExecIsolation.SnapshotTakesOwned` | crates/pulsing-forge/src/turn.rs:65-72 | a snapshot holds the cancellers of exactly the sessions some owner holds for that turn |
| `ExecIsolation.SweepsAskTheirOwn` | crates/pulsing-forge/src/turn.rs:65-76 | in every reachable state what a sweep is still going to ask for are sessions of its own turn |
| `ExecIsolation.OthersAreLeftAlone` | crates/pulsing-forge/src/turn.rs:65-76 | whatever other turns are cancelled, without `stop_all` and without a cancel or cleanup of turn u, a session of u, or of no turn, leaves the table and its process ends exactly by a poll that saw the exit |
| `ExecIsolation.TableChangesIff` | crates/pulsing-forge/src/unified_exec.rs:189-392 | a session enters the table by its own insert alone and leaves it exactly by its own stop, its stop task, a poll that saw its exit, or `stop_all` |
| `ExecIsolation.ProcessEndsIff` | crates/pulsing-forge/src/unified_exec.rs:45-73 | a process ends exactly by the termination of its session, a poll that saw its exit, or its call dropped before the insert |
| `ExecScenarios.ReachInserted` | crates/pulsing-forge/src/unified_exec.rs:139-200 | the whole cancellation, stop task included, can pass before the insert, so the token check in the select is needed |
| `ExecScenarios.LateFirstPollLeaks` | crates/pulsing-forge/src/unified_exec.rs:202-213 | a late first poll of the select alone leaves a session of a cancelled turn behind |
| `ExecScenarios.DroppedCallLeaks` | crates/pulsing-forge/src/agent/loop.rs:213-222 | a call dropped between choosing to stop and reaching the table alone leaves one behind |
| `ExecScenarios.FailedCancellerLeaks` | crates/pulsing-forge/src/unified_exec.rs:141-151 | a canceller that cannot spawn alone leaves one behind |
| `ExecCleanup.CleanupClearsTurn` | crates/pulsing-forge/src/session/service.rs:331-346 | a sweep whose snapshot is taken when no call of the turn is before its insert removes every session of the turn, exposed or not |
| `ExecAccounting.Conservation` | crates/pulsing-forge/src/unified_exec.rs:136-200 | a turn's exec entries number its calls before insert, its sessions in the table, those terminating, and those whose guard is just dropping |
| `ExecAccounting.EmptyMeansTerminated` | crates/pulsing-forge/src/unified_exec.rs:45-73 | with no exec entry left no process of the turn is alive and nobody holds a session of it |
| `ExecAccounting.IdleWasEmpty` | crates/pulsing-forge/src/turn.rs:91-115 | a waiter that reports idle was waiting at an instant when the registry was empty |
| `ExecAccounting.BusyWasBusy` | crates/pulsing-forge/src/turn.rs:91-105 | in every run of the session protocol a waiter that reports busy was waiting at an instant when its turn's registry was not empty |
| `ExecAccounting.IdleMeansTerminated` | crates/pulsing-forge/src/turn.rs:187-195 | at an instant during a wait that reports idle, every process of the turn had been terminated or dropped |
| `ExecAccounting.NoWaiterOfAnyTurnIsLost` | crates/pulsing-forge/src/turn.rs:91-128 | in every run of the session protocol, a parked waiter of an empty registry with no releaser left can wake |
| `ExecProgress.WorkNeverRises` | crates/pulsing-forge/src/unified_exec.rs:135-421 | no step of anybody takes the sessions of a cancelled turn, all together, further from their release, except the events and a registration |
| `ExecProgress.Progress` | crates/pulsing-forge/src/unified_exec.rs:135-421 | in a cancelled turn with an exec entry left and no session exposed, a step of its own calls, stop tasks, sweeps, terminations or guards is possible and lowers the work |
| `ExecProgress.CancelledTurnIsReleased` | crates/pulsing-forge/src/unified_exec.rs:135-421 | from every such state, whatever else is registered, the turn's own steps lead to a state with no exec entry left |
| `ExecProgress.CancelledTurnBecomesIdle` | crates/pulsing-forge/src/turn.rs:187-190 | and on to the waiter's report that it is idle, unless its timer fires, once the owners of other resources let go of theirs; with none of those registered, by the turn's own steps alone |
| `ExecManager.UnifiedExecManager.DrawId` | crates/pulsing-forge/src/unified_exec.rs:135 | the id is the counter, which moves past it |
| `ExecManager.UnifiedExecManager.InsertSession` | crates/pulsing-forge/src/unified_exec.rs:189-200 | the insert is the machine's insert step on the table |
| `ExecManager.UnifiedExecManager.TakeSession` | crates/pulsing-forge/src/unified_exec.rs:327-332 | taking a session is the machine's step; only one taker gets it |
| `ExecManager.UnifiedExecManager.DrainAll` | crates/pulsing-forge/src/unified_exec.rs:313-325 | the table is empty, what was in it is returned and counted |
| `ExecManager.UnifiedExecManager.PollSession` | crates/pulsing-forge/src/unified_exec.rs:334-392 | a session seen to have exited leaves the table, and the result names the id exactly when it stays; a failed wait changes nothing |
| `ExecManager.UnifiedExecManager.WriteRegion` | crates/pulsing-forge/src/unified_exec.rs:217-297 | each of the nine outcomes exactly by its cause: input is written exactly for a live terminal session with open stdin of no turn or the caller's, within the size limit; an interrupt needs only ownership |
| `ExecManager.SessionKeepsOwner` | crates/pulsing-forge/src/unified_exec.rs:235-297 | after any interleaving an id names the same turn's session or none, so the ownership check outlives its lock |
| `Unicode.CharLenIff` | crates/pulsing-forge/src/exec_output.rs:135 | a text starts with a character of n bytes exactly where its first n bytes encode a scalar value |
| `Unicode.ValidIff` | crates/pulsing-forge/src/exec_output.rs:135 | well-formed text is exactly what sequences of scalar values encode to: no surrogate, nothing above U+10FFFF, no overlong form |
| `Unicode.MaximalSubpartIsLongest` | crates/pulsing-forge/src/exec_output.rs:144-151 | where no character starts, one U+FFFD stands for the longest beginning of an encoding, or for one byte |
| `Unicode.LossyByUnits` | crates/pulsing-forge/src/exec_output.rs:144-166 | the lossy conversion of any bytes: they fall into encodings and such beginnings, the former stay, the latter become U+FFFD |
| `Unicode.UnitIsUnique` | crates/pulsing-forge/src/exec_output.rs:144-166 | there is only one way to cut a text into these |
| `Utf8.ValidUpToIsLongest` | crates/pulsing-forge/src/exec_output.rs:143 | `valid_up_to` is the length of the longest well-formed beginning |
| `Utf8.ValidUpToAppend` | crates/pulsing-forge/src/exec_output.rs:136-143 | whole characters in front move `valid_up_to` by their length |
| `Utf8.CutOfValid` | crates/pulsing-forge/src/exec_output.rs:144-150 | a cut in well-formed text leaves at most three dangling bytes |
| `Utf8.LossyAppend` | crates/pulsing-forge/src/exec_output.rs:144 | whole characters pass the lossy conversion untouched |
| `Utf8.LossyIsValid` | crates/pulsing-forge/src/exec_output.rs:144-166 | the lossy conversion of any bytes is well-formed |
| `Utf8.BoundarySplits` | crates/pulsing-forge/src/exec_output.rs:113-119 | in well-formed text an index is a character boundary exactly when the part before it is well-formed, and then so is the rest |
| `Utf8.LossySplits` | crates/pulsing-forge/src/exec_output.rs:144-154 | the lossy conversion can be cut between two of its steps |
| `Utf8.CutInsideUnitGrows` | crates/pulsing-forge/src/exec_output.rs:144-154 | cut anywhere else, the two parts convert to more bytes than the whole |
| `ChunkDecoder.Utf8ChunkDecoder.Decode` | crates/pulsing-forge/src/exec_output.rs:131-158 | a call's output and new carry are those of `Feed` |
| `ChunkDecoder.Utf8ChunkDecoder.Finish` | crates/pulsing-forge/src/exec_output.rs:161-168 | the carry is converted and nothing stays |
| `ChunkDecoder.FeedPartitions` | crates/pulsing-forge/src/exec_output.rs:131-158 | one call's segments and carry are its input in order, the carry at most four bytes |
| `ChunkDecoder.FeedCarries` | crates/pulsing-forge/src/exec_output.rs:143-155 | a call carries what follows the longest well-formed beginning, if that is at most four bytes, and nothing otherwise |
| `ChunkDecoder.CarryIsBounded` | crates/pulsing-forge/src/exec_output.rs:131-158 | after any calls on any bytes at most four are pending, and segments plus pending are everything read, in order |
| `ChunkDecoder.NoByteLostOrRepeated` | crates/pulsing-forge/src/exec_output.rs:131-168 | after `finish` the converted segments partition the input |
| `ChunkDecoder.CarryIsUnfinishedEnd` | crates/pulsing-forge/src/exec_output.rs:124-158 | the carry is exactly the unfinished end of what was read and no malformed segment was converted, while at most four bytes follow the last whole character |
| `ChunkDecoder.ChunkingNotObservableIff` | crates/pulsing-forge/src/exec_output.rs:124-168 | for any bytes, every cutting gives the lossy conversion of the whole exactly when every place more than four bytes behind the well-formed front is between two of its steps |
| `ChunkDecoder.ChunkingNotObservable` | crates/pulsing-forge/src/exec_output.rs:124-168 | so it does while at most four bytes follow the last whole character |
| `ChunkDecoder.FlushInsideUnitShows` | crates/pulsing-forge/src/exec_output.rs:146-154 | a flush at any other place puts out more than the whole converted at once |
| `ChunkDecoder.ChunkIndependence` | crates/pulsing-forge/src/exec_output.rs:124-168 | well-formed text is reproduced for every cutting, nothing is carried at the end, the flush is never taken |
| `ChunkDecoder.FlushCanSplitCharacter` | crates/pulsing-forge/src/exec_output.rs:146-154 | two cuttings of the same malformed input give different outputs |
| `RollingBuffer.OutputBuffer.Push` | crates/pulsing-forge/src/exec_output.rs:81-91 | the new text is `Pushed` of the old one |
| `RollingBuffer.OutputBuffer.TruncateToTokens` | crates/pulsing-forge/src/exec_output.rs:97-107 | the new text is `Truncated` of the old one |
| `RollingBuffer.TailAt` | crates/pulsing-forge/src/exec_output.rs:113-119 | the tail starts at the last character boundary that keeps enough |
| `RollingBuffer.TailStart` | crates/pulsing-forge/src/exec_output.rs:113-119 | the start is a boundary at or before the cut, with no boundary between |
| `RollingBuffer.TailOfValid` | crates/pulsing-forge/src/exec_output.rs:113-119 | a tail of well-formed text is well-formed and at most three bytes longer than asked |
| `RollingBuffer.PushKeepsHalf` | crates/pulsing-forge/src/exec_output.rs:81-91 | a push keeps everything while it fits, else one marker and a well-formed suffix of half the capacity to half and three bytes |
| `RollingBuffer.PushKeepsRefinement` | crates/pulsing-forge/src/exec_output.rs:81-91 | one push keeps the buffer a view of the history |
| `RollingBuffer.SnapshotRefinesHistory` | crates/pulsing-forge/src/exec_output.rs:81-95 | after any pushes the snapshot is the whole history, or one marker and a character-aligned suffix of at least half the capacity: no old marker survives |
| `RollingBuffer.CapacityHoldsIff` | crates/pulsing-forge/src/exec_output.rs:81-91 | every sequence of pushes keeps within `max_bytes` exactly when `max_bytes` is at least 55 |
| `RollingBuffer.SmallBufferOverflows` | crates/pulsing-forge/src/exec_output.rs:81-91 | below 55 one push overflows |
| `RollingBuffer.TokenKeepIs` | crates/pulsing-forge/src/exec_output.rs:97-104 | the ratio keeps 4m to 4m+2 bytes, never more than there are |
| `RollingBuffer.TokenLimitArithmetic` | crates/pulsing-forge/src/exec_output.rs:97-119 | a cut keeps a well-formed suffix of 4m to 4m+5 bytes behind the marker, and is estimated at m+5 or m+6 tokens |
| `RollingBuffer.WithinLimitIff` | crates/pulsing-forge/src/exec_output.rs:97-107 | the result is within the limit exactly when the text was, and then nothing changed |
| `RollingBuffer.OldMarkerSurvivesIff` | crates/pulsing-forge/src/exec_output.rs:97-119 | a cut keeps a piece of a marker at the front, of either kind, exactly when it keeps more bytes than follow the marker |
| `RollingBuffer.SmallerLimitDropsOldMarker` | crates/pulsing-forge/src/exec_output.rs:97-107 | after a cut, a further one at the same limit or a smaller never keeps a piece of the first marker |
| `RollingBuffer.RepeatedLimitDropsOldMarker` | crates/pulsing-forge/src/exec_output.rs:97-107 | a second cut at the same limit is inside the text kept by the first |
| `RollingBuffer.LargerLimitKeepsOldMarker` | crates/pulsing-forge/src/exec_output.rs:97-107 | an example of a larger limit that keeps one |
| `PolledBuffer.BufferShowsHistory` | crates/pulsing-forge/src/unified_exec.rs:334-360 | after any pushes and polls in any order the buffer is the whole history, or pieces of markers, the first whole, and behind them a character-aligned suffix of the history |
| `PolledBuffer.PushRestoresCapacity` | crates/pulsing-forge/src/exec_output.rs:81-91 | however often it was polled, a push of output leaves the buffer within its capacity |
| `PolledBuffer.LimitLengthensIff` | crates/pulsing-forge/src/exec_output.rs:97-107 | a limit lengthens the buffer exactly when it cuts off fewer bytes than its marker has |
| `PolledBuffer.LimitBelowEstimateLengthens` | crates/pulsing-forge/src/exec_output.rs:97-107 | a limit one token below the estimate lengthens any text by at least thirteen bytes |
| `PolledBuffer.PollsOutgrow` | crates/pulsing-forge/src/unified_exec.rs:352-356 | from any state polls alone bring the buffer to any length, so no capacity bounds it over pushes and polls |
| `PolledBuffer.OutputMarkerSurvives` | crates/pulsing-forge/src/exec_output.rs:97-107 | an example of a limit that keeps a piece of an output marker |
| `StreamReader.Emit` | crates/pulsing-forge/src/unified_exec.rs:596-607 | a decoded text reaches buffer and host alike, an empty one neither |
| `StreamReader.PushChunk` | crates/pulsing-forge/src/unified_exec.rs:588-608 | a read advances its own stream's decoder and deltas and leaves the other's |
| `StreamReader.FlushDecoder` | crates/pulsing-forge/src/unified_exec.rs:610-629 | the flush completes its stream's deltas |
| `StreamReader.ReadOnce` | crates/pulsing-forge/src/unified_exec.rs:527-573 | one read keeps the correspondence between bytes received and deltas, or closes the stream at end of file or error |
| `StreamReader.DrainStreams` | crates/pulsing-forge/src/unified_exec.rs:525-573 | the loop ends with both streams read out and each one's deltas those of its own bytes |
| `StreamReader.ReadStreams` | crates/pulsing-forge/src/unified_exec.rs:508-585 | each stream's deltas are what its own decoder makes of its own chunks, and the buffer got exactly the deltas in order |
| `StreamReader.ReceivedIs` | crates/pulsing-forge/src/unified_exec.rs:527-569 | what a stream yields are all its reads before the first that is empty or fails |
| `StreamReader.StreamTextsConcatenate` | crates/pulsing-forge/src/unified_exec.rs:588-629 | a stream's deltas concatenate to its decoder's whole output |
| `StreamReader.WellFormedStreamIsDelivered` | crates/pulsing-forge/src/unified_exec.rs:515-629 | a well-formed stream is delivered byte for byte |
| `StreamReader.DeltasAreMerge` | crates/pulsing-forge/src/unified_exec.rs:525-585 | all deltas are an order-preserving merge of the two streams' |
| `StreamReader.ReadSession` | crates/pulsing-forge/src/unified_exec.rs:508-629 | for two well-formed streams: both delivered, merged in order, and the buffer a bounded view of the merge |
| `Words.Le32RoundTrip` | crates/pulsing-py/src/actor.rs:815-818 | four little-endian bytes hold the length modulo 2^32 |
| `Words.Be32RoundTrip` | python/pulsing/isolated_worker.py:25-34 | four big-endian bytes hold any length below 2^32 |
| `Words.BigEndianKeepsOrder` | python/pulsing/isolated_worker.py:25-34 | the bytes of the big-endian form order as the numbers do |
| `Words.LittleIsBigReversed` | crates/pulsing-py/src/actor.rs:815-818 | the little-endian form has the same bytes in the other order |
| `Zerocopy.PlaceChunk` | crates/pulsing-bindings-core/src/zerocopy.rs:33-62 | one chunk goes behind what the buffers hold, in order; only bytes past the last buffer are dropped; no index leaves the buffers |
| `Zerocopy.Reassemble` | crates/pulsing-bindings-core/src/zerocopy.rs:9-77 | the loop ends with the split of the first announced bytes, or the first thing that went wrong |
| `Zerocopy.SplitIsUnique` | crates/pulsing-bindings-core/src/zerocopy.rs:13-22 | buffers of the announced lengths over the same bytes are that split and no other |
| `Zerocopy.ReassemblyIgnoresChunking` | crates/pulsing-bindings-core/src/zerocopy.rs:24-77 | for any chunks, empty, spanning and overlong included, the result depends on their concatenation alone; too few bytes are an error |
| `Zerocopy.ReassembledIff` | crates/pulsing-bindings-core/src/zerocopy.rs:24-77 | for any frames, buffers come out exactly when a beginning of the stream is all chunks and carries the bytes announced, as its split; otherwise the first frame that is no chunk decides, broken or foreign, or the end |
| `Zerocopy.ReassemblyIsNeverShort` | crates/pulsing-bindings-core/src/zerocopy.rs:24-77 | whatever the frames, a result has all buffers at full length |
| `Zerocopy.SplitOfFlatten` | crates/pulsing-py/src/actor.rs:948-956 | cutting a concatenation at its own lengths gives the parts back |
| `WireForms.SerializeSingle` | crates/pulsing-py/src/actor.rs:812-826 | the bytes written are the single form |
| `WireForms.CutBuffers` | crates/pulsing-py/src/actor.rs:947-956 | the walk yields the split, or runs out of range exactly when there are too few bytes |
| `WireForms.ParseSingle` | crates/pulsing-py/src/actor.rs:936-959 | each outcome of parsing any bytes: too short, truncated, bad header, out of range, or the descriptor |
| `WireForms.SendChunks` | crates/pulsing-py/src/actor.rs:989-1002 | a buffer is sent as its chunks, none for an empty one |
| `WireForms.EncodeStream` | crates/pulsing-py/src/actor.rs:968-1010 | the frames sent are the stream form |
| `WireForms.SingleFormParts` | crates/pulsing-py/src/actor.rs:811-826 | the single form is the header's length, the header, and the buffers, in this order |
| `WireForms.SurplusIsIgnored` | crates/pulsing-py/src/actor.rs:946-956 | bytes behind the last buffer are ignored |
| `WireForms.EncodingChoice` | crates/pulsing-py/src/actor.rs:1112-1123 | the stream form is chosen exactly for buffers of at least the threshold in all |
| `WireForms.DecodedStreamIff` | crates/pulsing-py/src/actor.rs:1127-1172 | a stream decodes exactly when it opens with a descriptor frame whose header decodes and chunks follow that carry all its bytes before anything else |
| `WireForms.ChunksAreFull` | crates/pulsing-py/src/actor.rs:989-1002 | all chunks of a buffer but the last have the full chunk size |
| `WireForms.StreamCarriesBuffers` | crates/pulsing-py/src/actor.rs:987-1004 | the chunks of all buffers carry exactly their concatenation |
| `WireForms.SingleRoundTrip` | crates/pulsing-py/src/actor.rs:812-846 | parsing the single form gives the descriptor back, metadata included |
| `WireForms.PrefixIsRefused` | crates/pulsing-py/src/actor.rs:936-959 | any prefix of a single form parses as too short, truncated, or out of range, by where it was cut, and never as a descriptor |
| `WireForms.StreamRoundTrip` | crates/pulsing-py/src/actor.rs:968-1082 | reassembling the stream form gives the descriptor back for every chunk size of at least one |
| `WireForms.EncodingIsNotObservable` | crates/pulsing-py/src/actor.rs:1112-1172 | decoding what was encoded gives the descriptor back whatever the threshold, so the choice of form is not observable |
| `Framing.StreamReader.ReadExactly` | python/pulsing/isolated_worker.py:26-28 | exactly n bytes, or an error that consumes what there was |
| `Framing.StreamReader.ReadFrame` | python/pulsing/isolated_worker.py:25-29 | the frame at the front is read and consumed, or the read comes up short |
| `Framing.StreamReader.Serve` | python/pulsing/isolated_worker.py:68-72 | the service loop sees all frames of the stream, then stops |
| `Framing.StreamWriter.WriteFrame` | python/pulsing/isolated_worker.py:32-35 | a frame is appended exactly when the length fits four bytes |
| `Framing.FramesRoundTrip` | python/pulsing/isolated_worker.py:25-35 | frames written back to back are read back, with nothing left |
| `Framing.PrefixReadsPrefix` | python/pulsing/isolated_worker.py:25-35 | any prefix of the bytes reads as a prefix of the payloads and then comes up short: never a wrong frame |
| `RevisionIds.ParseOfFormat` | crates/pulsing-workspace/src/journal.rs:169-176 | parsing a formatted id gives its number |
| `RevisionIds.FormatKeepsOrder` | crates/pulsing-workspace/src/journal.rs:75 | below 10000 string order is numeric order |
| `RevisionIds.FiveDigitsSortLow` | crates/pulsing-workspace/src/journal.rs:75 | "10000" sorts before "9999" |
| `Journal.Workspace.ListRevisions` | crates/pulsing-workspace/src/journal.rs:50-77 | all ids, each once, in ascending string order |
| `Journal.Workspace.NextRevisionId` | crates/pulsing-workspace/src/journal.rs:169-176 | one past the number of the id that sorts last, or 1 |
| `Journal.Workspace.ScanWorkspaceFiles` | crates/pulsing-workspace/src/journal.rs:178-199 | every file that is not skipped, once, and no other |
| `Journal.Workspace.CopyFiles` | crates/pulsing-workspace/src/journal.rs:99-117 | exactly the scanned files are recorded, and their copies added to what the directory holds |
| `Journal.Workspace.Checkpoint` | crates/pulsing-workspace/src/journal.rs:92-134 | the new state is `Checkpointed` of the old one and HEAD names the id |
| `Journal.Workspace.Rollback` | crates/pulsing-workspace/src/journal.rs:136-167 | the new state is `RolledBack` of the old one, or nothing changed and the error says why |
| `JournalHistory.NextIdAfter` | crates/pulsing-workspace/src/journal.rs:169-176 | after c checkpoints the next id is number c+1 up to 10000 and 10000 from then on |
| `JournalHistory.RunKeepsInv` | crates/pulsing-workspace/src/journal.rs:92-167 | after any run the ids are exactly 1 to min(c, 10000), HEAD and parents exist, recorded files have copies |
| `JournalHistory.CheckpointIsFreshIff` | crates/pulsing-workspace/src/journal.rs:92-97 | a checkpoint gets an id of its own exactly when fewer than 10000 came before |
| `JournalHistory.HistoryIsSound` | crates/pulsing-workspace/src/journal.rs:79-134 | within 10000 checkpoints HEAD and parents exist, parents are smaller, and the walk from HEAD ends |
| `JournalHistory.ParentsSmallerIff` | crates/pulsing-workspace/src/journal.rs:119-132 | every run of n checkpoints has smaller parents exactly for n up to 10000 |
| `JournalHistory.ParentLoopPastLimit` | crates/pulsing-workspace/src/journal.rs:119-132 | past the limit two checkpoints in a row make a revision its own parent |
| `JournalHistory.ParentIsHead` | crates/pulsing-workspace/src/journal.rs:93-132 | a checkpoint's revision has the HEAD it was taken from as its parent, after any later operations |
| `JournalHistory.ParentIsHeadIff` | crates/pulsing-workspace/src/journal.rs:93-132 | it has so for good exactly if it is one of the first 9999 |
| `JournalHistory.CheckpointsInARow` | crates/pulsing-workspace/src/journal.rs:93-132 | up to 10000 checkpoints in a row, whatever is edited between, form one chain of parents |
| `JournalHistory.WalkBack` | crates/pulsing-workspace/src/journal.rs:119-121 | along such a chain the walk from revision k passes k-1, k-2 and so on to 1 and then ends |
| `JournalHistory.CheckpointAfterRollback` | crates/pulsing-workspace/src/journal.rs:93-165 | a checkpoint after a rollback to r, and any edits, has parent r |
| `JournalHistory.RecordsExactly` | crates/pulsing-workspace/src/ignore.rs:4-34 | in every run no revision records anything of the journal, of git, or under a tool or build directory, and a checkpoint records every other file there is |
| `JournalHistory.RevisionStays` | crates/pulsing-workspace/src/journal.rs:92-167 | a revision numbered below 10000 is never changed again |
| `JournalHistory.RollbackRestores` | crates/pulsing-workspace/src/journal.rs:99-166 | after any later edits, checkpoints and rollbacks, rolling back gives recorded paths their bytes, leaves other paths and all revisions alone |
| `JournalHistory.RestoreHoldsIff` | crates/pulsing-workspace/src/journal.rs:99-176 | a checkpoint can be restored whatever happens later exactly when it is one of the first 9999 |
| `CircuitBreaker.CircuitBreaker.TransitionTo` | crates/pulsing-actor/src/circuit_breaker.rs:249-287 | nothing happens when the state is the same already, else the new state with its time and counters |
| `CircuitBreaker.CircuitBreaker.CheckAndUpdateState` | crates/pulsing-actor/src/circuit_breaker.rs:236-246 | the effect of a question on the breaker |
| `CircuitBreaker.CircuitBreaker.CanExecute` | crates/pulsing-actor/src/circuit_breaker.rs:152-162 | refused exactly when open with the timeout not over |
| `CircuitBreaker.CircuitBreaker.State` | crates/pulsing-actor/src/circuit_breaker.rs:165-168 | the state after the timeout was looked at |
| `CircuitBreaker.CircuitBreaker.RecordSuccess` | crates/pulsing-actor/src/circuit_breaker.rs:180-202 | a success is the success step |
| `CircuitBreaker.CircuitBreaker.RecordFailure` | crates/pulsing-actor/src/circuit_breaker.rs:205-233 | a failure is the failure step |
| `CircuitBreaker.CircuitBreaker.RecordOutcome` | crates/pulsing-actor/src/circuit_breaker.rs:171-177 | the outcome chooses the step |
| `CircuitBreaker.CircuitBreaker.Reset` | crates/pulsing-actor/src/circuit_breaker.rs:328-332 | a reset is the reset step |
| `CircuitBreaker.CircuitBreaker.ForceOpen` | crates/pulsing-actor/src/circuit_breaker.rs:335-337 | forcing open is its step |
| `BreakerHistory.TotalsAreCounts` | crates/pulsing-actor/src/circuit_breaker.rs:180-207 | the totals count all outcomes of the history |
| `BreakerHistory.LastFailureIs` | crates/pulsing-actor/src/circuit_breaker.rs:211-214 | the recorded time is that of the last failure of the history |
| `BreakerHistory.FailuresAreCounted` | crates/pulsing-actor/src/circuit_breaker.rs:180-287 | in every state the failure counter counts the failures since the last success, reset, or change but into Open |
| `BreakerHistory.SuccessesAreCounted` | crates/pulsing-actor/src/circuit_breaker.rs:180-287 | and the success counter the successes since the last failure, reset or change |
| `BreakerHistory.QuietInWindow` | crates/pulsing-actor/src/circuit_breaker.rs:180-183 | the window of a closed breaker holds no success, no reset and no change of state |
| `BreakerHistory.ClosedCountsFailures` | crates/pulsing-actor/src/circuit_breaker.rs:180-226 | while closed, the counter is the number of failures since the last success, reset or entry, below max(1, threshold) |
| `BreakerHistory.HalfOpenCountsSuccesses` | crates/pulsing-actor/src/circuit_breaker.rs:180-233 | while half open, the counter is the number of successes since the entry, below max(1, threshold), with no failure among them |
| `BreakerHistory.ChangeIsEntry` | crates/pulsing-actor/src/circuit_breaker.rs:249-259 | the recorded time is that of the call that entered the current state, whatever was called since |
| `BreakerHistory.FromClosed` | crates/pulsing-actor/src/circuit_breaker.rs:205-226 | Closed opens exactly at the max(1, threshold)th failure of the window or by force, and never half opens |
| `BreakerHistory.FromHalfOpen` | crates/pulsing-actor/src/circuit_breaker.rs:180-233 | HalfOpen closes exactly at the max(1, threshold)th success since the entry or by reset, and opens exactly at a failure or by force |
| `BreakerHistory.FromOpen` | crates/pulsing-actor/src/circuit_breaker.rs:236-246 | Open closes exactly by reset and half opens exactly at a question a timeout after the opening call |
| `BreakerHistory.OpenUntilTimeout` | crates/pulsing-actor/src/circuit_breaker.rs:152-162 | at non-decreasing times an opened breaker refuses, whatever is called, until the timeout or a reset |
| `BreakerHistory.ClosedAgainRecovered` | crates/pulsing-actor/src/circuit_breaker.rs:180-246 | without a reset every way from Open to Closed holds a question after the timeout and then the full number of successes with no failure |
| `BreakerHistory.WindowsCoincide` | crates/pulsing-actor/src/circuit_breaker.rs:180-226 | with no reset since the last success or entry, that is the window the counter counts |
| `BreakerHistory.FewFailuresSinceSuccess` | crates/pulsing-actor/src/circuit_breaker.rs:205-226 | then a closed breaker had fewer than max(1, threshold) failures since |
| `BreakerHistory.FewSinceSuccessIff` | crates/pulsing-actor/src/circuit_breaker.rs:205-332 | a configuration has this at every closed point of every history exactly when its threshold is at most one |
| `BreakerHistory.ResetForgetsFailures` | crates/pulsing-actor/src/circuit_breaker.rs:328-332 | a closed breaker with threshold two can have two failures since its start and no success: a reset lay between |
| `WatchRegistry.RepresentationIsUnique` | crates/pulsing-actor/src/watch.rs:24 | one map stands for one relation, so queries answer from the relation |
| `WatchRegistry.ActorLifecycle.Watch` | crates/pulsing-actor/src/watch.rs:38-47 | the relation gains the pair |
| `WatchRegistry.ActorLifecycle.Unwatch` | crates/pulsing-actor/src/watch.rs:50-64 | the relation loses the pair, and no empty entry stays |
| `WatchRegistry.ActorLifecycle.NotifyWatchers` | crates/pulsing-actor/src/watch.rs:166-220 | each current watcher with a sender is attempted exactly once if packing succeeds, none otherwise; the target's watchers are forgotten either way |
| `WatchRegistry.ActorLifecycle.RemoveActor` | crates/pulsing-actor/src/watch.rs:228-246 | exactly the pairs mentioning the actor go, and no empty entry stays |
| `WatchRegistry.ActorLifecycle.DropWatcher` | crates/pulsing-actor/src/watch.rs:234-241 | the actor leaves every set, and the sets that became empty are listed |
| `WatchRegistry.ActorLifecycle.Clear` | crates/pulsing-actor/src/watch.rs:251-254 | the relation is empty |
| `WatchRegistry.ActorLifecycle.WatchedCount` | crates/pulsing-actor/src/watch.rs:259-261 | the number of distinct targets of the relation |
| `WatchRegistry.ActorLifecycle.GetWatchers` | crates/pulsing-actor/src/watch.rs:264-271 | exactly the target's watchers in the relation |
| `WatchRegistry.ActorLifecycle.IsWatched` | crates/pulsing-actor/src/watch.rs:274-276 | true exactly when somebody watches the target |
| `WatchRegistry.WatchesIff` | crates/pulsing-actor/src/watch.rs:38-254 | after any operations a pair is in the relation exactly when it was watched once and nothing ended it since |
| `WatchRegistry.RemovedIsGone` | crates/pulsing-actor/src/watch.rs:228-246 | after a removal an actor is in no pair, on either side, until it watches or is watched again, and no other pair changes |
| `WatchRegistry.NoWatchersAfterStop` | crates/pulsing-actor/src/watch.rs:171-174 | after a termination, removal or clear an actor has no watcher until watched again |
| `Backoff.Duration` | crates/pulsing-actor/src/supervision.rs:66-88 | a panic exactly for attempts from 2^31 on with a zero factor and a zero minimum, else the capped product with jitter, clamped at zero |
| `Backoff.ScaledIsBase` | crates/pulsing-actor/src/supervision.rs:67-73 | for a factor of at least one the capped product is the delay the lemmas below are about |
| `Backoff.DelayGrowsByFactor` | crates/pulsing-actor/src/supervision.rs:67-73 | the delay starts at `min`, each further attempt multiplies it by the factor up to `max`, save at 2^31, and the last attempt of all leads back to the first |
| `Backoff.JitterIsProportional` | crates/pulsing-actor/src/supervision.rs:76-80 | the random factor moves the delay in proportion, by the whole jitter at minus one |
| `Backoff.BaseIsMonotone` | crates/pulsing-actor/src/supervision.rs:67-73 | below 2^31 attempts the delay before jitter never falls and never passes `max` |
| `Backoff.LateAttemptsFall` | crates/pulsing-actor/src/supervision.rs:67 | from 2^31 attempts on it is at most the first one |
| `Backoff.MonotoneEverywhereIff` | crates/pulsing-actor/src/supervision.rs:67-73 | over all 32-bit attempts it never falls exactly for a factor of one, a zero minimum, or a maximum the smallest power reaches |
| `Backoff.ReachesMaxIff` | crates/pulsing-actor/src/supervision.rs:67-73 | it settles at `max` exactly when it starts there or can grow |
| `Backoff.MaxAfterEnough` | crates/pulsing-actor/src/supervision.rs:67-73 | from a computable attempt on it is `max` |
| `Backoff.JitterStaysInBand` | crates/pulsing-actor/src/supervision.rs:76-85 | with jitter up to one the delay is within base times one plus or minus jitter and not negative |
| `Backoff.ClampFiresIff` | crates/pulsing-actor/src/supervision.rs:76-85 | the clamp can take effect exactly for a positive delay with jitter above one |
| `Backoff.JitterPassesMaxIff` | crates/pulsing-actor/src/supervision.rs:71-80 | the delay can pass `max` exactly when the top of its band does |

## Left out

- Operating system effects (spawning, killing, PTYs, sandbox arguments, signals, real time) are nondeterministic steps of the session machine.
- The PTY reader's buffer writes, which use `try_lock` and may skip a push: the buffer's history claims are for the pipe path.
- The waiters of `turn.rs` and the await points of `unified_exec.rs` are a step machine and not methods: a method would hide the interleaving.
- Dropping a whole manager (its `Drop` kills what is left), a manager gone when a canceller runs, and a registry dropped before its guards.
- `TurnRegistry.TurnResourceRegistry.Release`: remove and notify are one method here, as no other thread acts inside it; the machine has them as two steps.
- `ExecManager.UnifiedExecManager.PollSession`: the table only; the cut of the buffer is in `PolledBuffer`, and the last delta that repeats the snapshot to the host is not modelled.
- `StreamReader.ReadSession`: no poll while the streams are read; `PolledBuffer` has pushes and polls in any order.
- `ExecManager.UnifiedExecManager.WriteRegion`: writing to the child and killing it are outcomes; what the process does with them is not modelled.
- Wrap-around of counters, session ids and `usize` sums: naturals.
- `RollingBuffer.TokenKeepIs`: exact rationals in place of `f64`, so a product just below a whole number of bytes may differ by one byte in the code.
- `clamp_yield_ms`, the argument parsing of `exec_command` and the text of its results: straight-line code.
- GIL handling, raw buffer pointers, pickling, bincode's own format, and buffers that cannot be read as bytes.
- `WireForms.SingleRoundTrip`: needs a header below 2^32 bytes, as its length is cast to 32 bits.
- `WireForms.EncodeStream`: a receiver that disconnects, which ends the sender early, is not modelled.
- The `PULSING_ZEROCOPY` settings and tensor messages.
- SHA-256, timestamps, labels, JSON, directory walking, paths that are not UTF-8, a file where a directory is needed, the order of recorded paths, and revision ids given by a caller that are paths themselves.
- Breaker calls from several threads: state reads and transitions are separate lock regions, so only sequential runs are claimed.
- `Backoff.Duration`: reals in place of `f64`, so no rounding, and no delay is too large for a `Duration`.
- `handle_termination`'s logging, routing table and cluster broadcast; `RestartPolicy::should_restart`, a three-way match.
- Gossip, HTTP/2, tensor transport, load balancing, tracing, metrics, GUI and CLI.
