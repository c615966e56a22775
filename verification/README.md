# Verified model of kimojio

A Dafny model of the four cores of kimojio, a single-threaded io_uring runtime, with proofs of what they promise.
`dafny verify dfyconfig.toml` checks everything.

**JSON and Varlink.** `JsonGrammar.dfy` gives sections 2 to 7 of RFC 8259 as syntax trees with their whitespace; `JsonScan.dfy` and `JsonMachine.dfy` give the tokenizer as a function, and `Tokenizer.dfy` the object with its bitmap stack, proved to compute that function. `JsonComplete.dfy`, `JsonSound.dfy`, `JsonTheorems.dfy` and `JsonShape.dfy` prove that acceptance is the grammar, that every prefix is viable, that suspension is transparent and that tokens determine the tree; `JsonReject.dfy` and `JsonErrors.dfy` give, in terms of the grammar, which input is rejected with which error and where. `EscapeString.dfy` gives the deferred decoding and its meaning through UTF-16, `JsonTokens.dfy` that every reported string decodes, and `Varlink.dfy` the request encoder and the reply framing. Text is a sequence of bytes with a UTF-8 predicate (`Utf8.dfy`, section 3 of RFC 3629).

**Wait and wake.** `AsyncEvent.dfy` gives the wait list and the wait future; `AsyncSemaphore.dfy`, `AsyncLock.dfy` and `AsyncReaderWriterLock.dfy` the primitives built on them. Each async function is cut into the steps between its awaits. The environment may poll at any time, drop a future, cancel its wait or abort its task. A wait is *parked* while it is pending and linked, *woken* while it is pending and unlinked, and a linked entry of a completed wait is *stale*.

**Completions.** `Completion.dfy` gives the protocol of ring futures, scopes, rings, kernel and pool as steps; `CompletionInvariant.dfy` proves what every step keeps, `CompletionRuns.dfy`, `CompletionSubmissions.dfy` and `CompletionScopes.dfy` the results over all runs, and `RingFuture.dfy` holds the mutable object. The kernel answers every accepted submission once, in any order; it answers a close with `CANCELED` only after a cancel request, and then has not closed the descriptor; the descriptor of a successful open is new. A caller may close what it was handed, or give it to a close, once.

**Scheduler and containers.** `Scheduler.dfy` gives the ready queues, the task states, joining and the task table as steps, `SchedulerInvariant.dfy` what every step keeps, `SchedulerRuns.dfy`, `SchedulerHandles.dfy`, `SchedulerTable.dfy` and `SchedulerFairness.dfy` the results over runs and passes of the event loop, and `TaskState.dfy` the mutable object. `HandleTable.dfy`, `BufferPipe.dfy` and `VirtualClock.dfy` give the free-list table, the ring pipe and the timers.

In every state machine a run is any sequence of actions, and an action that its state does not allow changes nothing.

Where the code and its comments disagree, the model follows the code: `AsyncEvent::reset` wakes all waiters (kimojio/src/async_event.rs:115-120). Four expectations turned out false, and each has its exact condition and an input. A complete task is restarted from the CPU queue (`SchedulerRuns.RestartsIff`, with `BrokenContractRestarts`). A completing task with an index beyond 16 bits stops the event loop or removes the entry of another task (`SchedulerTable.CompletionRemoves`, with `IndexPanics` and `WrongEntryIsRemoved`); with fewer than 65536 live tasks it does neither (`SchedulerTable.TableIsExact`). An aborted task whose poll does not notice is never polled again (`SchedulerRuns.PendingStrandsIff` and `StuckIff`, with `AbortCanBeMissed`). A read that took the last bytes of a closed pipe and wants more waits instead of failing, until a further close, its own timeout, or a writer that had started before (`BufferPipeSystem.ShortReadStarves`, `StarvesForeverIff` and `FurtherCloseBreaks`, with `BufferPipes.ShortReadFromClosedStream`); a write that waits for room is not told of the close either (`FullStreamHoldsTheWriter`).

## Model

| member | source | states |
|---|---|---|
| `JsonTheorems.AcceptanceIsTheGrammar` | kimojio-json/src/tokenizer.rs:415-715 | an input is accepted, and reports a token trace, if and only if it is the print of a valid RFC 8259 syntax tree of nesting at most 256 whose linearization is that trace |
| `JsonTheorems.EveryPrefixIsViable` | kimojio-json/src/tokenizer.rs:390-511 | in every configuration that the loop reaches, the consumed input followed by a completion computed from state and stack alone is an accepted document that begins with the tokens reported so far, and is well-formed UTF-8 if the input is |
| `JsonTheorems.SuspendedIsReached` | kimojio-json/src/tokenizer.rs:415-488 | every configuration in which a visitor suspends is one that the loop reaches, so that the viable-prefix result covers suspended tokenizers |
| `JsonShape.TokensDetermineTree` | kimojio-json/src/tokenizer.rs:415-562 | two syntax trees report the same tokens if and only if they are equal up to whitespace |
| `JsonShape.PrintThenTokenize` | kimojio-json/src/tokenizer.rs:415-715 | printing any tree with any whitespace and tokenizing it gives the tree back, and no other |
| `JsonReject.RejectedIff` | kimojio-json/src/tokenizer.rs:415-715 | an input is rejected with an error of a kind and an offset if and only if it begins with a place of a partly built syntax tree, followed by optional whitespace, at which the tree goes wrong in the way, and at the offset, that the kind names |
| `JsonErrors.TrailingDataIff` | kimojio-json/src/tokenizer.rs:419-428 | `TrailingData` is answered at q if and only if the input before q is a JSON text that ends there and a byte other than whitespace follows |
| `JsonErrors.EndOfInputIff` | kimojio-json/src/tokenizer.rs:419-425 | `UnexpectedEof` is answered at the end of the input if and only if the input is a partly built tree that is cut off between two tokens or directly behind the minus of a number |
| `JsonErrors.DepthExceededIff` | kimojio-json/src/tokenizer.rs:360-375 | `DepthExceeded` is answered at q if and only if a bracket stands there that would open a container inside 256 others |
| `JsonErrors.RejectedPrefixIsViable` | kimojio-json/src/tokenizer.rs:415-715 | whatever the error, the input up to its offset is the beginning of a JSON text |
| `JsonErrors.FirstOffendingByte` | kimojio-json/src/tokenizer.rs:415-715 | for trailing data, a control character, a missing key or colon, a wrong number, too deep a nesting and a byte that starts no value, the answer depends only on the input up to and with the byte at the offset |
| `JsonErrors.OffsetIsExact` | kimojio-json/src/tokenizer.rs:415-715 | for these kinds the input up to the offset is the beginning of a JSON text, and with one byte more it is not |
| `JsonLexical.BodyFailsIff` | kimojio-json/src/tokenizer.rs:584-622 | a string body fails, with an error, if and only if units of the grammar are followed by the end, a control character or a backslash that starts no escape, at the offset that the error names |
| `JsonLexical.NumberFailsIff` | kimojio-json/src/tokenizer.rs:625-691 | a number fails, with an error, if and only if a digit is missing behind its minus, its point or its exponent, or follows its leading zero, at the offset that the error names |
| `JsonMachine.SuspensionIsTransparent` | kimojio-json/src/tokenizer.rs:314-328 | for every suspension pattern, repeated `drive` calls give the trace, the final state and the outcome of one uninterrupted call |
| `JsonMachine.SuspendedRunResumes` | kimojio-json/src/tokenizer.rs:408-488 | a run that was suspended and resumed is the uninterrupted run |
| `JsonMachine.SuspendsWhenAsked` | kimojio-json/src/tokenizer.rs:415-488 | a run is suspended exactly behind the first token at which the visitor asks for it |
| `JsonMachine.EndIsStable` | kimojio-json/src/tokenizer.rs:314-328 | after a failure or after completion, every further call with any visitor gives the same answer, reports nothing and moves nothing |
| `JsonMachine.DriveIsMonotone` | kimojio-json/src/tokenizer.rs:314-351 | the offset never moves back or out of the input, every error offset is at most its length, and state and stack stay consistent |
| `JsonMachine.Run` | kimojio-json/src/tokenizer.rs:415-488 | a run terminates, keeps state and stack consistent and never moves the offset back; each pass of its loop consumes at least one byte |
| `JsonComplete.DocumentIsAccepted` | kimojio-json/src/tokenizer.rs:415-715 | every valid document of nesting at most 256 is accepted with exactly its linearization |
| `JsonSound.PassPlace` | kimojio-json/src/tokenizer.rs:415-562 | each loop pass moves from a position of a partial syntax tree to a position of a partial syntax tree that has consumed exactly the bytes and reported exactly the tokens of the pass |
| `JsonScan.ScanBodySound` | kimojio-json/src/tokenizer.rs:584-622 | a scanned string body is a body of section 7 of RFC 8259 and is reported as escaped exactly if it holds an escape |
| `JsonScan.ScanBodyComplete` | kimojio-json/src/tokenizer.rs:584-622 | every body of the grammar is scanned to its closing quote |
| `JsonScan.ScanNumberSound` | kimojio-json/src/tokenizer.rs:625-691 | a scanned number is a number of section 6 of RFC 8259, and does not go on behind its end |
| `JsonScan.ScanNumberComplete` | kimojio-json/src/tokenizer.rs:625-691 | every number of the grammar that does not go on behind its end is scanned whole |
| `Bitmap.PushLevel` | kimojio-json/src/tokenizer.rs:360-387 | pushing onto the bitmap appends to the sequence of container kinds, whatever stale bits earlier pops left |
| `Bitmap.PopLevel` | kimojio-json/src/tokenizer.rs:402-406 | popping drops the last kind although no bit is written |
| `Tokenizer.Tokenizer.Drive` | kimojio-json/src/tokenizer.rs:314-328 | the mutable tokenizer computes the machine's drive, with sticky failures; `JsonTheorems.AcceptanceIsTheGrammar` and `JsonReject.RejectedIff` say what it answers |
| `Tokenizer.Tokenizer.Run` | kimojio-json/src/tokenizer.rs:415-488 | the loop computes the machine's run, also which error it ends with, and keeps the bitmap, the depth and the UTF-8 input consistent |
| `Tokenizer.Tokenizer.PassAt` | kimojio-json/src/tokenizer.rs:427-486 | the match on the grammar state computes one pass of the machine |
| `Tokenizer.Tokenizer.SkipWhitespace` | kimojio-json/src/tokenizer.rs:336-351 | moves the offset past exactly the leading whitespace |
| `Tokenizer.Tokenizer.Push` | kimojio-json/src/tokenizer.rs:360-375 | refuses level 257 and otherwise appends the container kind |
| `Tokenizer.Tokenizer.InArray` | kimojio-json/src/tokenizer.rs:378-387 | reads the innermost container kind from the bitmap |
| `Tokenizer.Tokenizer.AfterValue` | kimojio-json/src/tokenizer.rs:390-399 | the state after a value follows from the innermost container |
| `Tokenizer.Tokenizer.CloseContainer` | kimojio-json/src/tokenizer.rs:402-406 | the saturating decrement is exact |
| `Tokenizer.Tokenizer.ScanKey` | kimojio-json/src/tokenizer.rs:491-511 | a key, its colon and its report; the `str::get` fallback is dead on UTF-8 input |
| `Tokenizer.Tokenizer.ScanValue` | kimojio-json/src/tokenizer.rs:514-562 | the value branches, with the same errors |
| `Tokenizer.Tokenizer.ScanLiteral` | kimojio-json/src/tokenizer.rs:565-581 | a literal matches completely or fails at its first byte |
| `Tokenizer.Tokenizer.ScanString` | kimojio-json/src/tokenizer.rs:584-622 | the body and its escape flag; the `str::get` fallback is dead on UTF-8 input |
| `Tokenizer.Tokenizer.ScanNumber` | kimojio-json/src/tokenizer.rs:625-682 | the number's text; the `str::get` fallback is dead on UTF-8 input |
| `Tokenizer.Tokenizer.SkipDigits` | kimojio-json/src/tokenizer.rs:685-691 | the end of the digits |
| `Utf8.CharsOfEncodeAll` | kimojio-json/src/escape_string.rs:110-136 | encoding characters gives well-formed UTF-8 whose characters they are, so the final `from_utf8` succeeds |
| `Utf8.EncodeAllOfChars` | kimojio-json/src/escape_string.rs:110-136 | well-formed UTF-8 is the encoding of its characters |
| `EscapeDecode.DecodingFollowsUtf16` | kimojio-json/src/escape_string.rs:203-282 | a body whose escapes are those of the grammar decodes without error if and only if its surrogates are paired; the text is then the one whose UTF-16 form the body spells out, and otherwise the one error is `LoneSurrogate` |
| `EscapeDecode.DecodingFailsAt` | kimojio-json/src/escape_string.rs:203-282 | any well-formed text, also one that no tokenizer reports, decodes up to the first backslash that starts no escape sequence, also as the second one of a pair, or the first surrogate without its partner, with `InvalidEscape` or `LoneSurrogate` at that place; what comes before is well escaped and has the UTF-16 form of the decoded characters |
| `EscapeDecode.LoneSurrogateOffset` | kimojio-json/src/escape_string.rs:203-282 | the error stands at the first escape sequence of an unpaired surrogate, and the characters before it have the UTF-16 form of the body before it |
| `EscapeSpec.NibbleIsPosition` | kimojio-json/src/escape_string.rs:181-200 | the hexadecimal digits are 0 to 9, a to f and A to F, and the value of each is its position, in either case |
| `EscapeSpec.HexRoundTrip` | kimojio-json/src/escape_string.rs:181-200 | reading four digits gives back the number that was printed with them, each digit in either case |
| `EscapeSpec.HexIsPrinted` | kimojio-json/src/escape_string.rs:181-200 | every four digits are the print of their value |
| `EscapeSpec.SimpleEscapesAre` | kimojio-json/src/escape_string.rs:254-282 | the two-byte escapes are the eight of section 7 of RFC 8259, with the characters given there |
| `EscapeDecode.DecodingNeverGrows` | kimojio-json/src/escape_string.rs:110-136 | the decoded text is never longer than the raw body |
| `EscapeDecode.RawLengthSuffices` | kimojio-json/src/escape_string.rs:110-136 | a buffer of the raw length never gives `BufferTooSmall`, and receives the full decoding |
| `EscapeDecode.BufferLimit` | kimojio-json/src/escape_string.rs:110-136 | for a buffer of any size: if the decoded text fits, the result is that text or the error that decoding ends with; otherwise it is `BufferTooSmall`, behind the last character that fits |
| `JsonTokens.ReportedTokensDecode` | kimojio-json/src/escape_string.rs:89-282 | in every call of `drive` on well-formed UTF-8, from any consistent tokenizer, with any visitor and with any ending, each reported key and string decodes in a buffer of its length or more to the text that its UTF-16 units spell out, or fails with `LoneSurrogate` if and only if they spell out none; it is reported as escaped if and only if it holds a backslash, and otherwise decodes to itself |
| `EscapeDecode.ReportedBodyDecodes` | kimojio-json/src/escape_string.rs:89-282 | every well-formed string body of the grammar decodes to its UTF-16 meaning in a buffer of its length, never with `InvalidEscape` |
| `EscapeDecode.StepBoundary` | kimojio-json/src/escape_string.rs:175-178 | every step ends at a character boundary, so the fallback of `advance` is dead |
| `EscapeString.Unescape.Next` | kimojio-json/src/escape_string.rs:235-246 | yields the next character or the one error and is then empty |
| `EscapeString.Unescape.Step` | kimojio-json/src/escape_string.rs:254-282 | one decoding step, with the offset of the escape in its error |
| `EscapeString.Unescape.DecodeUnicodeEscape` | kimojio-json/src/escape_string.rs:203-231 | surrogate pairs are joined; both conversions to `char` succeed |
| `EscapeString.Unescape.Hex4` | kimojio-json/src/escape_string.rs:181-200 | the value of four hexadecimal digits, which is the number that they print, or an error at the current offset |
| `EscapeString.Unescape.Advance` | kimojio-json/src/escape_string.rs:175-178 | drops the bytes and moves the offset |
| `EscapeString.UnescapeInto` | kimojio-json/src/escape_string.rs:110-136 | fills the buffer with the decoded text, which is well-formed UTF-8, and reports the first error |
| `EscapeString.EqUnescaped` | kimojio-json/src/escape_string.rs:89-98 | is true if and only if decoding has no error and gives the characters of the other string |
| `VarlinkEncoding.RequestIsAccepted` | kimojio/src/resolver.rs:332-385 | for every host the request is one accepted JSON text without a zero byte, whose tokens are a call of `io.systemd.Resolve.ResolveHostname` with the one parameter `name`; its name is the host, as it stands when reported as unescaped and by decoding it when reported as escaped |
| `VarlinkEncoding.EncodeVarlinkRequest` | kimojio/src/resolver.rs:332-353 | the request's only zero byte is its last, and the rest is accepted with the tokens of that call |
| `VarlinkEncoding.EncodeJsonStringContents` | kimojio/src/resolver.rs:355-378 | appends the escaped characters to the buffer |
| `VarlinkEncoding.DecodeOfEncode` | kimojio/src/resolver.rs:355-378 | decoding what the encoder writes gives the characters back without an error |
| `VarlinkEncoding.LetterIff` | kimojio/src/resolver.rs:355-378 | a two-byte escape is written exactly for the characters that have one, with the letter that stands for the character |
| `VarlinkEncoding.UnitsText` | kimojio/src/resolver.rs:355-378 | what the encoder writes is a string body of the grammar, escaped unless every character stands for itself |
| `VarlinkEncoding.HexDigitOf` | kimojio/src/resolver.rs:380-385 | the digit is the lower-case hexadecimal digit of the given value |
| `VarlinkFraming.VarlinkConnection.ReadFrame` | kimojio/src/resolver.rs:258-302 | the result and the bytes left over are a function of the byte stream alone, however it is cut into chunks; the buffer never exceeds 65537 bytes and the two unreachable error branches are dead |
| `VarlinkFraming.VarlinkConnection.Extend` | kimojio/src/resolver.rs:284-299 | a read extends the buffer by what arrived and loses nothing |
| `VarlinkFraming.CallsReturnFrames` | kimojio/src/resolver.rs:258-302 | successive calls return given frames, in order, and leave given bytes if and only if the stream is their wire form followed by those bytes and each is at most 65536 bytes long |
| `VarlinkFraming.FirstFrame` | kimojio/src/resolver.rs:258-276 | one call returns a frame if and only if the stream begins with it and a zero byte and it is at most 65536 bytes long |
| `VarlinkFraming.FrameErrors` | kimojio/src/resolver.rs:258-302 | a call fails as too long if and only if the stream has more than 65536 bytes and no zero byte among the first 65537, and as a transport failure if and only if it ends before that without one |
| `AsyncEvents.AsyncEvent.WakeAll` | kimojio/src/async_event.rs:341-343 | wakes every waiter in the order of registration and empties the list |
| `AsyncEvents.AsyncEvent.WakeOne` | kimojio/src/async_event.rs:312-339 | wakes the first waiter, if any |
| `AsyncEvents.AsyncEvent.SetWakeN` | kimojio/src/async_event.rs:104-113 | sets the event and wakes exactly the first `count` waiters, or all |
| `AsyncEvents.AsyncEvent.SetWakeOne` | kimojio/src/async_event.rs:88-90 | sets the event and wakes the first waiter |
| `AsyncEvents.AsyncEvent.Set` | kimojio/src/async_event.rs:67-70 | sets the event and wakes every waiter |
| `AsyncEvents.AsyncEvent.Reset` | kimojio/src/async_event.rs:117-120 | resets the event and wakes every waiter, although its comment says otherwise |
| `AsyncEvents.AsyncEvent.Register` | kimojio/src/async_event.rs:345-353 | links a waiter that is not linked, at the end |
| `AsyncEvents.AsyncEvent.Unregister` | kimojio/src/async_event.rs:355-365 | unlinks a waiter |
| `AsyncEvents.WaitFuture.Poll` | kimojio/src/async_event.rs:440-501 | cancellation, abort, completion that leaves the entry linked, and registration, in this order |
| `AsyncEvents.WaitFuture.UnregisterCanceledWait` | kimojio/src/async_event.rs:425-434 | unlinks a wait that still has its source and passes a notification on |
| `AsyncEvents.WaitFuture.Drop` | kimojio/src/async_event.rs:510-514 | a dropped wait is unlinked and passes a notification on |
| `SemaphoreSystem.NoLostWake` | kimojio/src/async_semaphore.rs:54-70 | over every run with spurious polls, drops, cancels and aborts: the event is set if and only if a token is available; a token and a parked waiter imply a woken, unpolled waiter; tokens are conserved |
| `SemaphoreSystem.PollAnswers` | kimojio/src/async_semaphore.rs:54-64 | over every run a poll of `acquire` answers `Canceled` if and only if its wait was canceled since it began; otherwise it takes a token if one is left and stays pending if not, except that an aborted task panics unless its first poll finds a token |
| `SemaphoreSystem.CanceledIff` | kimojio/src/async_event.rs:440-447 | over every run a future counts as canceled if and only if it was canceled since it began to wait |
| `SemaphoreSystem.FirstComeFirstServed` | kimojio/src/async_event.rs:312-365 | no step lets a waiter overtake another |
| `SemaphoreSystem.ReleaseWakesFirst` | kimojio/src/async_semaphore.rs:67-70 | a token that comes back wakes the first waiter and nobody else |
| `SemaphoreSystem.Run` | kimojio/src/async_semaphore.rs:54-70 | every reachable state satisfies the invariant, in particular tokens + stale entries <= woken waiters while a waiter is parked |
| `SemaphoreSystem.StepKeepsInv` | kimojio/src/async_semaphore.rs:54-70 | every step of every future and of the environment keeps the invariant |
| `SemaphoreSystem.Settle` | kimojio/src/async_semaphore.rs:54-70 | polls of woken futures in any order end, and then every token is taken or nobody waits |
| `AsyncSemaphores.AsyncSemaphore.PollAcquire` | kimojio/src/async_semaphore.rs:54-64 | one poll of `acquire`, whose wait loop never goes round twice |
| `AsyncSemaphores.AsyncSemaphore.DropAcquire` | kimojio/src/async_semaphore.rs:54-64 | dropping a pending `acquire` |
| `AsyncSemaphores.AsyncSemaphore.Release` | kimojio/src/async_semaphore.rs:67-70 | adds a token and wakes one waiter |
| `AsyncSemaphores.AsyncSemaphore.constructor` | kimojio/src/async_semaphore.rs:41-50 | the event is set exactly if there are tokens |
| `LockSystem.MutualExclusion` | kimojio/src/async_lock.rs:52-97 | over every run: at most one guard is live, exactly while the event is unset, and no wake is lost |
| `LockSystem.Run` | kimojio/src/async_lock.rs:52-97 | every reachable state satisfies the lock's invariant |
| `LockSystem.StepKeepsInv` | kimojio/src/async_lock.rs:52-134 | every step, with deadlines, cancellation and aborts, keeps the invariant |
| `LockSystem.TimeoutMeansHeld` | kimojio/src/async_lock.rs:64-78 | a deadline is reported as missed only when it has passed and somebody holds the lock |
| `LockSystem.PollAnswers` | kimojio/src/async_lock.rs:52-97 | over every run a poll of `lock` answers `Canceled` if and only if its wait was canceled since it began; otherwise it takes the lock if nobody holds it and stays pending if somebody does, except that an aborted task panics unless its first poll finds the lock free; `try_lock` takes exactly a free lock |
| `LockSystem.DeadlineAnswers` | kimojio/src/async_lock.rs:64-78 | over every run a poll of `lock_with_deadline` takes the lock if and only if nobody holds it and neither the wait that it polls nor the sleep was stopped before, and reports a timeout if and only if somebody holds the lock when the sleep has ended for good |
| `LockSystem.CanceledIff` | kimojio/src/async_event.rs:440-447 | over every run a future counts as canceled if and only if it was canceled since it began to wait |
| `LockSystem.FirstComeFirstServed` | kimojio/src/async_event.rs:312-365 | no step lets a waiter overtake another |
| `LockSystem.ReleaseWakesFirst` | kimojio/src/async_lock.rs:130-134 | a dropped guard wakes the first waiter and nobody else |
| `LockSystem.Settle` | kimojio/src/async_lock.rs:91-97 | polls of woken futures in any order end, and then the lock is held or nobody waits |
| `AsyncLocks.AsyncLock.TryLock` | kimojio/src/async_lock.rs:52-59 | takes the lock exactly if it is free |
| `AsyncLocks.AsyncLock.PollLock` | kimojio/src/async_lock.rs:91-97 | one poll of `lock` |
| `AsyncLocks.AsyncLock.PollWithDeadline` | kimojio/src/async_lock.rs:64-78 | one poll of `lock_with_deadline`, with both orders of the `select!` branches and a sleep that ends early |
| `AsyncLocks.AsyncLock.StartWithDeadline` | kimojio/src/async_event.rs:152-182 | its first poll looks at the event and at the clock before it waits |
| `AsyncLocks.AsyncLock.DropGuard` | kimojio/src/async_lock.rs:130-134 | frees the lock and wakes one waiter |
| `RwLockSystem.GuardsExclude` | kimojio/src/async_reader_writer_lock.rs:58-97 | over every run: the live guards agree with `readers` and `writer` and never conflict |
| `RwLockSystem.NoLostWake` | kimojio/src/async_reader_writer_lock.rs:58-183 | over every run: a free lock with a parked waiter has a woken writer; a parked reader beside readers implies a pending writer; a free lock with nobody woken has nobody waiting |
| `RwLockSystem.PollAnswers` | kimojio/src/async_reader_writer_lock.rs:58-171 | over every run a poll of `lock_read`, `lock_write` or an upgrade answers `Canceled` if and only if its wait was canceled since it began; otherwise it ends in a guard if the lock can be held in its mode and stays pending if not, except that an aborted task panics unless its first poll can take the lock |
| `RwLockSystem.CanceledIff` | kimojio/src/async_event.rs:440-447 | over every run a future counts as canceled if and only if it was canceled since it began to wait |
| `RwLockSystem.FirstComeFirstServed` | kimojio/src/async_event.rs:312-365 | no step lets a waiter overtake another of its kind |
| `RwLockSystem.ReleaseWakes` | kimojio/src/async_reader_writer_lock.rs:127-183 | a writer that lets go wakes the first waiting writer and nobody else, or all readers if no writer waits; the last reader wakes all writers, and the others nobody |
| `RwLockSystem.PendingWriterWakesReaders` | kimojio/src/async_reader_writer_lock.rs:58-75 | that pending writer wakes every reader when it takes the lock, is dropped, is canceled or panics |
| `RwLockSystem.Run` | kimojio/src/async_reader_writer_lock.rs:58-183 | every reachable state satisfies the invariant |
| `RwLockSystem.StepKeepsInv` | kimojio/src/async_reader_writer_lock.rs:58-183 | every step of readers, writers, guards, upgrades and the environment keeps the invariant |
| `RwLockSystem.Settle` | kimojio/src/async_reader_writer_lock.rs:58-183 | polls of woken futures in any order end, and then a guard is live or nobody waits |
| `AsyncReaderWriterLocks.AsyncReaderWriterLock.PollWrite` | kimojio/src/async_reader_writer_lock.rs:58-75 | one poll of `lock_write` with its cancel guard; the assertion of validity holds |
| `AsyncReaderWriterLocks.AsyncReaderWriterLock.DropWrite` | kimojio/src/async_reader_writer_lock.rs:58-75 | a dropped `lock_write` retires its wait and then wakes the readers |
| `AsyncReaderWriterLocks.AsyncReaderWriterLock.PollRead` | kimojio/src/async_reader_writer_lock.rs:81-91 | one poll of `lock_read` |
| `AsyncReaderWriterLocks.AsyncReaderWriterLock.DropRead` | kimojio/src/async_reader_writer_lock.rs:81-91 | dropping a pending `lock_read` |
| `AsyncReaderWriterLocks.AsyncReaderWriterLock.DropWriteRef` | kimojio/src/async_reader_writer_lock.rs:127-141 | hands over to one writer if any waits, and to everybody otherwise |
| `AsyncReaderWriterLocks.AsyncReaderWriterLock.DropReadRef` | kimojio/src/async_reader_writer_lock.rs:173-183 | the last reader frees the lock and wakes the writers |
| `AsyncReaderWriterLocks.AsyncReaderWriterLock.WakeReadersOnCancel` | kimojio/src/async_reader_writer_lock.rs:60-65 | wakes the readers unless a writer holds the lock |
| `CompletionRuns.CountersAreExact` | kimojio/src/runtime.rs:87-194 | over every run, between event-loop operations, each in-flight counter is the number of its ring's submissions not yet reaped, so neither subtraction from it underflows |
| `CompletionRuns.ReferencesAreCounted` | kimojio/src/task.rs:867-890 | over every run the strong count is the future's handle plus the scope entries plus one while submitted plus one while pooled; a pooled completion has no other holder |
| `CompletionRuns.ResultsFindTheirRequest` | kimojio/src/runtime.rs:118-178 | over every run whatever the kernel or the rings hold is allocated and submitted, at most once, so the two completion panics cannot happen |
| `CompletionRuns.CanceledMeansRequested` | kimojio/src/runtime.rs:144-173 | over every run a completed request reports `CANCELED` only if somebody canceled it; one stopped by its timeout reports `TIME`, and every other kernel result is reported as it is |
| `CompletionSubmissions.SubmissionsAreExact` | kimojio/src/ring_future.rs:179-231 | over every run a request submits, from its creation on: its operation, once, if it was polled; one timeout, directly behind it, if and only if it was created with one; and one request to cancel it if and only if it was canceled after that; the kernel accepts all submissions in their order |
| `CompletionSubmissions.StepRecorded` | kimojio/src/lib.rs:164-198 | every step keeps that record for every request |
| `CompletionScopes.ScopeHoldsItsRequests` | kimojio/src/ring_future.rs:80-128 | over every run a request created inside a scope stays allocated, with its kind, and can be canceled by the scope until the scope gives it back, whatever its future, the kernel and the event loop do; one created outside belongs to no scope |
| `CompletionRuns.BorrowsEndWithTheFuture` | kimojio/src/ring_future.rs:288-373 | once the future is gone, nothing that borrowed buffers or carries a descriptor is still with the kernel |
| `CompletionRuns.DescriptorsAreSettledOnce` | kimojio/src/lib.rs:149-162 | over every run, in which callers may close a descriptor they were handed or give it to a close, a descriptor is handed out at most once and closed at most once; while a living future is responsible for it it is not in a caller's hands, and otherwise it is in a caller's hands or closed, never both |
| `CompletionRuns.ClosedForGood` | kimojio/src/lib.rs:149-162 | a descriptor that has been closed is never closed, handed out or owned again |
| `CompletionRuns.CloseCloses` | kimojio/src/lib.rs:149-162 | when the future of a close returns or is dropped, its descriptor, whether it came from elsewhere or from an open, has been closed exactly once |
| `CompletionRuns.OpenHandsOutOrCloses` | kimojio/src/ring_future.rs:246-373 | the descriptor of an open goes to the caller of the poll, or is closed by the drop, never both |
| `CompletionRuns.Run` | kimojio/src/ring_future.rs:151-373 | every reachable state satisfies the protocol's invariant |
| `CompletionRuns.StepHolds` | kimojio/src/ring_future.rs:151-373 | every step of futures, scopes, the event loop and the kernel keeps the invariant |
| `CompletionRuns.HasReference` | kimojio/src/ring_future.rs:274-276 | a living future is never `Terminated`, so its poll cannot panic on that |
| `CompletionInvariant.CreateHolds` | kimojio/src/ring_future.rs:80-128 | reusing a pooled completion or allocating one keeps the invariant, also for a close of a descriptor that an open handed out |
| `CompletionInvariant.CallerClosesHolds` | kimojio/src/lib.rs:149-162 | a caller that closes what it was handed keeps the invariant |
| `CompletionInvariant.SubmitHolds` | kimojio/src/ring_future.rs:179-231 | the first poll's extra reference and its submissions are accounted for |
| `CompletionInvariant.CancelHolds` | kimojio/src/lib.rs:164-198 | a cancel request is submitted and counted once |
| `CompletionInvariant.PollReadyHolds` | kimojio/src/ring_future.rs:246-283 | finishing a request settles its descriptors and its reference |
| `CompletionInvariant.FinishDropHolds` | kimojio/src/ring_future.rs:288-373 | dropping a request settles what nobody received |
| `CompletionInvariant.ReapOneHolds` | kimojio/src/runtime.rs:119-186 | each completion finds a submitted request and takes over its reference |
| `CompletionInvariant.ReapHolds` | kimojio/src/runtime.rs:118-194 | draining the queue and then correcting the counter keeps the invariant |
| `CompletionInvariant.EnterHolds` | kimojio/src/runtime.rs:271-290 | the submissions reported by the kernel never exceed the counter |
| `CompletionInvariant.ReturnHolds` | kimojio/src/task.rs:867-879 | a completion is pooled only by its last holder |
| `Completions.TaskState.Poll` | kimojio/src/ring_future.rs:151-286 | one poll: submission of the operation with the timeout linked to it, waiting, panic on abort, or the result; the `Terminated` branch is dead |
| `Completions.TaskState.ProcessCompletions` | kimojio/src/runtime.rs:118-194 | the drain loop, with both panics dead and an exact decrement |
| `Completions.TaskState.Complete` | kimojio/src/runtime.rs:119-186 | one completion; `CANCELED` without a cancel request becomes `TIME` |
| `Completions.TaskState.SubmitAndCompleteIo` | kimojio/src/runtime.rs:233-308 | submits and reaps without losing the request of a living future |
| `Completions.TaskState.DropFuture` | kimojio/src/ring_future.rs:288-373 | when the blocking drop returns, its future's request is settled and a descriptor given to it is closed once |
| `Completions.TaskState.Cancel` | kimojio/src/lib.rs:164-198 | an idle request completes at once, a submitted one gets one request to cancel it |
| `Completions.TaskState.FinishClose` | kimojio/src/lib.rs:149-162 | closes in user space only what the kernel was kept from closing |
| `Completions.TaskState.ReturnCompletion` | kimojio/src/task.rs:867-879 | pools a completion that has one reference while there are fewer than 4096, and frees it otherwise |
| `Completions.TaskState.TakeResult` | kimojio/src/ring_future.rs:246-283 | hands the result, and a descriptor in it, to the caller |
| `Completions.TaskState.FinishPoll` | kimojio/src/ring_future.rs:246-283 | hands out the result and gives the completion back |
| `Completions.TaskState.AbandonResult` | kimojio/src/ring_future.rs:353-373 | closes a descriptor that nobody received |
| `Completions.TaskState.EndDrop` | kimojio/src/ring_future.rs:353-373 | closes a descriptor that nobody received and lets go of the completion |
| `SchedulerRuns.QueuesAndCount` | kimojio/src/task.rs:669-768 | over every run a task is at most once in the three ready queues, a ready one once, a running or suspended one never; only the current task runs; only the current task or a complete one has priority; the count is the number of incomplete tasks |
| `SchedulerTable.TableIsExact` | kimojio/src/task.rs:669-794 | over every run in which fewer than 65536 tasks are live at any moment, with the indexes that the handle table gives out, the event loop never panics, and table, stored indexes, count and incomplete tasks agree |
| `SchedulerTable.BoundedHolds` | kimojio/src/task.rs:669-794 | the same from any such state on |
| `SchedulerTable.CompletionRemoves` | kimojio/src/task.rs:780-794 | over every run, a task that is entered at index i and completes stops the event loop if and only if i is a multiple of 65536, removes its own entry if and only if i < 65536, and removes the entry of another live task if and only if i > 65536, i is no such multiple and slot i mod 65536 is in use |
| `SchedulerTable.DoneRemoves` | kimojio/src/task.rs:780-794 | a completion, also of a task whose own entry is gone, panics if and only if the stored index is zero, and otherwise removes exactly the slot that it names |
| `SchedulerTable.IndexPanics` | kimojio/src/task.rs:788 | some run reaches 65536 live tasks, and the completion of the last one stops the event loop |
| `SchedulerTable.WrongEntryIsRemoved` | kimojio/src/task.rs:677-690 | some run reaches 65537 live tasks, and the completion of the last one removes the first task, which is live, from the table |
| `SchedulerTable.StoredHolds` | kimojio/src/task.rs:669-794 | over every run each entry's task stores its index modulo 65536 and is entered once, and an entry with an index below 65536 belongs to a live task |
| `SchedulerInvariant.ReachableHolds` | kimojio/src/task.rs:669-865 | every reachable state satisfies the scheduler's invariant |
| `SchedulerInvariant.StepHolds` | kimojio/src/task.rs:669-865 | every step keeps the invariant |
| `SchedulerRuns.CompleteForever` | kimojio/src/task.rs:780-794 | a complete task stays complete in every longer run, and nothing waits for it, provided that CPU-queued tasks keep the documented yield contract |
| `SchedulerRuns.RestartsIff` | kimojio/src/task.rs:808-835 | `get_ready` restarts a complete task if and only if it takes one from the CPU queue |
| `SchedulerRuns.BrokenContractRestarts` | kimojio/src/task.rs:824-830 | from every state in which a task that is in the CPU queue completes against the contract, some continuation polls the complete task again |
| `SchedulerRuns.Reach` | kimojio/src/task.rs:796-835 | every queued task can become the next one of `get_ready` by polls that all return `Pending` |
| `SchedulerRuns.WakeMakesReady` | kimojio/src/task.rs:726-746 | a wake makes a running or suspended task ready and queued, and does nothing to aborted and complete ones |
| `SchedulerRuns.StepAppends` | kimojio/src/task.rs:695-724 | no step of a poll, and no completion, puts a task in front of a queued one; what a task with priority wakes goes to the running cohort, and everything else to the next one |
| `SchedulerRuns.WokenGoesToTheEnd` | kimojio/src/task.rs:695-746 | a task that becomes ready goes to the very end of that cohort |
| `SchedulerRuns.JoinersWakeInOrder` | kimojio/src/async_event.rs:312-343 | the suspended tasks that wait for the same task are queued in the order in which their handles were registered |
| `SchedulerRuns.AbortedJoinWakesAll` | kimojio/src/async_event.rs:452-465 | an aborted task that polls a join handle empties the list of the target and wakes all on it, in order |
| `SchedulerRuns.FirstReadyIsFirst` | kimojio/src/task.rs:695-724 | over runs, who is in the next cohort stays in front of whoever comes to it later |
| `SchedulerHandles.DroppedHandleIsForgotten` | kimojio/src/async_event.rs:355-365 | over every run a join handle that was dropped is off the list of its target, and stays off it until a handle with its key is polled |
| `SchedulerHandles.PriorityIff` | kimojio/src/operations.rs:1620-1628 | over every run the polled task has priority if and only if the last request of this poll asked for it |
| `SchedulerRuns.DoneWakes` | kimojio/src/task.rs:780-794 | a completing task empties its list of join handles, and no task that polled one of them last is left suspended; other lists keep theirs |
| `SchedulerRuns.WaiterStays` | kimojio/src/async_event.rs:341-405 | a join handle leaves the list of its target only if it is dropped or polled again, or in a step that wakes its task |
| `SchedulerRuns.JoinerIsWoken` | kimojio/src/task.rs:780-794 | over every run, if a registered join handle that is neither dropped nor polled again is no longer listed, as when its target completes, then the very step that took it off the list woke the task that had polled it last |
| `SchedulerHandles.AbortIsForGood` | kimojio/src/task.rs:842-865 | over every run a ready or suspended task that is aborted is queued once and stays aborted until it is complete; an abort does nothing to an aborted or complete task |
| `SchedulerRuns.StuckIff` | kimojio/src/runtime.rs:19-53 | a live task is aborted, in no queue and not running if and only if no continuation of the run ever polls it again |
| `SchedulerRuns.StuckForever` | kimojio/src/task.rs:726-768 | such a task stays so in every longer run |
| `SchedulerRuns.PendingStrandsIff` | kimojio/src/runtime.rs:41-53 | a poll that returns `Pending` strands its task, whatever happened during the poll, if and only if the task had been aborted when `get_ready` took it |
| `SchedulerRuns.AbortCanBeMissed` | kimojio/src/task.rs:842-848 | from every state with a suspended task some continuation strands it |
| `SchedulerFairness.PassTakesTheCohort` | kimojio/src/task.rs:796-835 | if no poll asks for high priority, every pass ends and, unless the event loop panics, takes exactly the cohort, in order, and then the head of the CPU queue as the cohort left it, if there is one, however the polls reschedule |
| `SchedulerFairness.FirstReadyFirstTaken` | kimojio/src/task.rs:796-835 | in the same pass, a task that became ready before another is taken before it, unless the event loop panics |
| `SchedulerFairness.CpuTaskIsReached` | kimojio/src/runtime.rs:422-439 | the task at position k of the CPU queue is taken in pass k, counted from zero, unless the event loop panics before |
| `SchedulerFairness.RoundsTake` | kimojio/src/runtime.rs:427-439 | the inner loop ends with an empty cohort within two rounds more than the cohort has tasks, having taken the cohort and the head of the CPU queue that was then there |
| `SchedulerFairness.IdleHasNoPriority` | kimojio/src/runtime.rs:41-46 | between polls of any reachable state only complete tasks have the priority flag, so that the two results above apply to every such state |
| `Scheduling.TaskState.ScheduleNew` | kimojio/src/task.rs:669-693 | a new task enters the table and a queue, and stores the index that the table gave it as 16 bits |
| `Scheduling.TaskState.ScheduleIoInternal` | kimojio/src/task.rs:695-724 | the end of the running cohort for a task with priority, and otherwise the end of the next one; over runs this is first ready, first taken (`SchedulerFairness.FirstReadyFirstTaken`) |
| `Scheduling.TaskState.ScheduleIo` | kimojio/src/task.rs:726-746 | only running and suspended tasks are queued |
| `Scheduling.TaskState.ScheduleCpu` | kimojio/src/task.rs:748-768 | only running and suspended tasks are queued |
| `Scheduling.TaskState.CompleteTask` | kimojio/src/task.rs:780-794 | completes a task, wakes the tasks on its joining list in order, and removes the entry at its stored index, or panics if that is zero |
| `Scheduling.TaskState.ForgetTask` | kimojio/src/task.rs:788-792 | removes the entry at an index and lowers the count; an index of zero panics |
| `Scheduling.TaskState.WakeJoining` | kimojio/src/async_event.rs:312-343 | wakes the waiting tasks in the order of registration and empties the list |
| `Scheduling.TaskState.PrepareCohort` | kimojio/src/task.rs:796-806 | the next cohort starts only when the old one is empty |
| `Scheduling.TaskState.GetReady` | kimojio/src/task.rs:808-835 | the next task and the state it is put into |
| `Scheduling.TaskState.AbortTask` | kimojio/src/task.rs:842-865 | the abort transitions; a running task is not aborted here |
| `Scheduling.TaskState.SetHighPriority` | kimojio/src/operations.rs:1620-1628 | the flag of the current task |
| `Scheduling.TaskState.PollJoin` | kimojio/src/async_event.rs:440-501 | one poll of a join handle: an aborted task wakes all that wait, a complete target registers nothing, and a listed handle gets the polling task as its waker |
| `Scheduling.TaskState.DropJoinHandle` | kimojio/src/async_event.rs:425-434 | a dropped join handle leaves the list |
| `Scheduling.TaskState.PollTask` | kimojio/src/runtime.rs:19-76 | one poll with any actions, with or without priority, its outcome and the skipped complete task |
| `Scheduling.TaskState.EndPoll` | kimojio/src/runtime.rs:41-61 | a pending task loses its priority and, if it still runs, is suspended; a ready one completes |
| `Scheduling.TaskState.PollReady` | kimojio/src/runtime.rs:427-439 | the inner loop takes and polls tasks until `get_ready` has none or the event loop panics |
| `HandleTableSpec.InsertIsSound` | kimojio/src/handle_table.rs:87-114 | a new index is not in use, and the table grows only when every slot is |
| `HandleTableSpec.RemoveIsSound` | kimojio/src/handle_table.rs:127-144 | removing a value frees its slot and keeps free and used slots apart |
| `HandleTableSpec.LastFreedIsFirst` | kimojio/src/handle_table.rs:87-144 | the index that was freed last is given out first, and inserting there gives the same table with the new value |
| `HandleTables.HandleTable.ValidIsSound` | kimojio/src/handle_table.rs:87-144 | the slots and their free list are such a table |
| `HandleTables.HandleTable.InsertFn` | kimojio/src/handle_table.rs:87-114 | a fresh index, the last freed slot first; no index exceeds the largest number of values held at once; the unreachable arm is dead |
| `HandleTables.HandleTable.Insert` | kimojio/src/handle_table.rs:82-84 | inserts a value at a fresh index |
| `HandleTables.HandleTable.Get` | kimojio/src/handle_table.rs:117-124 | the value of the map |
| `HandleTables.HandleTable.Remove` | kimojio/src/handle_table.rs:127-144 | removes from the map and puts the slot first in the free list; the unreachable arm is dead |
| `HandleTables.HandleTable.Drain` | kimojio/src/handle_table.rs:154-166 | empties the table and lists it in the order of the indexes |
| `HandleTables.HandleTable.Iter` | kimojio/src/handle_table.rs:179-189 | lists the table in the order of the indexes |
| `HandleTables.HandleTable.Clear` | kimojio/src/handle_table.rs:70-74 | empties the table |
| `HandleTables.HandleTable.Len` | kimojio/src/handle_table.rs:77-79 | the size of the map |
| `HandleTables.HandleTable.IsEmpty` | kimojio/src/handle_table.rs:147-149 | whether the map is empty |
| `HandleTables.PopChain` | kimojio/src/handle_table.rs:89-104 | taking the head of the free list leaves a free list of exactly the free slots |
| `HandleTables.PushChain` | kimojio/src/handle_table.rs:127-144 | freeing a slot puts it first in a free list of exactly the free slots |
| `BufferPipeSystem.FirstInFirstOut` | kimojio/src/buffer_pipe.rs:104-199 | over every interleaving of reads, writes, timeouts and closes, the bytes that reads took followed by the contents are the bytes that writes put in; while the stream is open each event is set if and only if its condition holds |
| `BufferPipeSystem.ReadHoldsTheNextBytes` | kimojio/src/buffer_pipe.rs:144-160 | over every run, a `read` of n bytes that succeeds holds the next n bytes written, after those of earlier reads, over however many polls |
| `BufferPipeSystem.WriteIsContiguous` | kimojio/src/buffer_pipe.rs:162-185 | over every run, the bytes of a `write` that succeeds are all in the stream, together, after those of earlier writes |
| `BufferPipeSystem.MoveWorks` | kimojio/src/buffer_pipe.rs:121-185 | on an open stream a call that has passed its wait moves at least one byte out of or into the stream, unless it is a `try_read` into an empty buffer |
| `BufferPipeSystem.MovesAreBounded` | kimojio/src/buffer_pipe.rs:121-185 | so that the calls in progress make at most two steps for each byte they still want |
| `BufferPipeSystem.CanMoveIff` | kimojio/src/buffer_pipe.rs:104-185 | on an open stream a call can go on, unless the reader waits at an empty stream and the writer at a full one |
| `BufferPipeSystem.OneOfTwoFinishes` | kimojio/src/buffer_pipe.rs:121-185 | a reader and a writer on an open stream never wait for each other: left to themselves they go on until one of them is done |
| `BufferPipeSystem.ShortReadStarves` | kimojio/src/buffer_pipe.rs:144-160 | a `read` from a closed stream waits, instead of failing, if and only if it just took the last bytes, got some and wants more |
| `BufferPipeSystem.StarvesForeverIff` | kimojio/src/buffer_pipe.rs:144-199 | unless the stream is closed once more, or the read is dropped or times out, it waits for ever if and only if no writer had passed the test for a closed stream before |
| `BufferPipeSystem.FurtherCloseBreaks` | kimojio/src/buffer_pipe.rs:194-199 | a further close makes it fail |
| `BufferPipeSystem.ReadAnswers` | kimojio/src/buffer_pipe.rs:144-160 | a `read` that is left to itself takes what it asked for if the stream holds it, closed or not; it fails if the stream is closed and empty; otherwise it takes all there is and waits for the rest |
| `BufferPipeSystem.WriteAnswers` | kimojio/src/buffer_pipe.rs:162-185 | a `write` that is left to itself fails if the stream is closed, and otherwise appends as much as fits and waits for room for the rest |
| `BufferPipeSystem.CloseWakesBoth` | kimojio/src/buffer_pipe.rs:187-199 | closing lets every call that waits go on, and keeps the contents |
| `BufferPipeSystem.FullStreamHoldsTheWriter` | kimojio/src/buffer_pipe.rs:162-199 | a `write` that waits for room keeps waiting, closed or not, until a reader takes something or the write is dropped or times out |
| `BufferPipeSystem.StepHolds` | kimojio/src/buffer_pipe.rs:121-199 | every step keeps the invariant |
| `BufferPipeSystem.PollReadIsARun` | kimojio/src/buffer_pipe.rs:144-160 | an undisturbed poll of `read` is a run of the reader's steps |
| `BufferPipeSystem.PollWriteIsARun` | kimojio/src/buffer_pipe.rs:162-185 | an undisturbed poll of `write` is a run of the writer's steps |
| `BufferPipeSpec.PollReadFacts` | kimojio/src/buffer_pipe.rs:144-160 | a poll of `read` moves the first bytes, as many as it wants and the stream holds; it fails if and only if the stream is closed and empty with its event set |
| `BufferPipeSpec.PollWriteFacts` | kimojio/src/buffer_pipe.rs:162-185 | a poll of `write` appends as much as fits, and is done if and only if that is all |
| `BufferPipes.BufferStream.TakeBytes` | kimojio/src/buffer_pipe.rs:128-141 | the reader's critical section on the ring takes from the front of the contents |
| `BufferPipes.BufferStream.PutBytes` | kimojio/src/buffer_pipe.rs:171-181 | the writer's critical section on the ring appends to the contents |
| `BufferPipes.BufferStream.TryRead` | kimojio/src/buffer_pipe.rs:121-142 | fails on a closed stream without its event, waits, or moves once |
| `BufferPipes.BufferStream.PollReadInto` | kimojio/src/buffer_pipe.rs:149-159 | any poll of `read`, also one that goes on after waiting |
| `BufferPipes.BufferStream.Read` | kimojio/src/buffer_pipe.rs:144-160 | the first poll of `read`, with its test for a closed stream |
| `BufferPipes.BufferStream.PollWriteFrom` | kimojio/src/buffer_pipe.rs:167-184 | any poll of `write`, which does not test for a closed stream again |
| `BufferPipes.BufferStream.Write` | kimojio/src/buffer_pipe.rs:162-185 | the first poll of `write`, with its test for a closed stream |
| `BufferPipes.ShortReadFromClosedStream` | kimojio/src/buffer_pipe.rs:144-160 | a closed stream with one byte left blocks a read of two |
| `BufferPipes.BufferStream.UpdateEvents` | kimojio/src/buffer_pipe.rs:104-119 | `available` is set if and only if the ring is not empty, `not_full` if and only if it is not full |
| `BufferPipes.BufferStream.Close` | kimojio/src/buffer_pipe.rs:187-199 | closing sets both events and keeps the contents |
| `BufferPipes.WindowDrop` | kimojio/src/buffer_pipe.rs:130-137 | removing from the front of the ring is removing from the front of its contents |
| `BufferPipes.WindowAppend` | kimojio/src/buffer_pipe.rs:172-178 | adding behind the contents, around the end of the ring, is appending |
| `VirtualClockSystem.TimersBelongToSleeps` | kimojio/src/virtual_clock.rs:139-189 | over every run every queued deadline is in the future and every timer belongs to exactly one incomplete sleep |
| `VirtualClockSystem.NoSleepIsLost` | kimojio/src/virtual_clock.rs:139-344 | over every run, a polled sleep that is not complete has, until it is due, exactly one timer, with the waker of its latest poll; once it is due, that waker has been called since that poll |
| `VirtualClockSystem.ReadyIff` | kimojio/src/virtual_clock.rs:285-315 | over every run, a poll of a sleep is ready if and only if the sleep is due and an earlier poll of it was made when it was due |
| `VirtualClockSystem.FiredIsWoken` | kimojio/src/virtual_clock.rs:139-157 | an advance calls the waker of the latest poll of every sleep that it makes due |
| `VirtualClockSystem.AdvanceReturnsDue` | kimojio/src/virtual_clock.rs:139-157 | the clock moves to the target if that is ahead and stays otherwise, and advancing returns exactly the due timers, by deadline and then by registration |
| `VirtualClockSystem.IdsCountRegistrations` | kimojio/src/virtual_clock.rs:173-182 | a registration adds one timer, whose id is above all earlier ones |
| `VirtualClockSystem.SpuriousPollChangesNothing` | kimojio/src/virtual_clock.rs:317-343 | a poll before the deadline with the waker of the last one changes nothing, so that the sleep keeps its place among equal deadlines |
| `VirtualClockSystem.Run` | kimojio/src/virtual_clock.rs:139-355 | every reachable state satisfies the clock's invariant |
| `VirtualClockSystem.StepHolds` | kimojio/src/virtual_clock.rs:139-355 | every step keeps the invariant |
| `VirtualClockSpec.DueIsPrefix` | kimojio/src/virtual_clock.rs:66-89 | in heap order the due timers come first |
| `VirtualClocks.VirtualClockState.AdvanceTo` | kimojio/src/virtual_clock.rs:139-157 | the pop loop returns the due timers and leaves the others |
| `VirtualClocks.VirtualClockState.Advance` | kimojio/src/virtual_clock.rs:123-129 | advances by a duration |
| `VirtualClocks.VirtualClockState.RegisterTimer` | kimojio/src/virtual_clock.rs:173-182 | a new timer with the next id |
| `VirtualClocks.VirtualClockState.CancelTimer` | kimojio/src/virtual_clock.rs:187-189 | removes the timer with the id |
| `VirtualClocks.VirtualSleepFuture.Poll` | kimojio/src/virtual_clock.rs:285-344 | one poll of a sleep; one that is due yields once and calls its own waker |
| `VirtualClocks.VirtualSleepFuture.Cancel` | kimojio/src/virtual_clock.rs:268-275 | takes the timer out and completes the sleep |
| `VirtualClocks.VirtualSleepFuture.Drop` | kimojio/src/virtual_clock.rs:347-355 | takes the timer out |

## Left out

- TLS (kimojio-tls and the TLS streams): the behaviour is OpenSSL's.
- The operation wrappers of kimojio/src/operations.rs, except `close` and the scope bookkeeping: they only build submissions.
- `decode_varlink_reply`: kimojio/src/resolver/varlink_reply.rs is not part of this model.
- Oneshots, channels, cancellation tokens, the task pool, prefix buffers and configuration: no modelled protocol depends on them.
- Pointer encodings, waker tables and pinning: memory-level matters. A reference count is a number beside the named holders of references.
- Real time, tracing, event descriptors, the blocking helper thread, fault injection and runtime teardown. Instants are integers, and the saturation of an extreme `advance` is not modelled.
- The widths of counters: tokens, readers, timer ids and statistics are unbounded; the 16-bit task index is modelled.
- The linked lists of waits, the ready deques and the timer heap are sequences; the heap is the order in which it gives up its timers.
- `retain_incomplete`: the order in which a scope gives back its completions; each single return is a step of the protocol.
- Completions.TaskState.DropFuture: says what holds when the blocking loop ends; that it ends depends on the kernel, whose rounds are a parameter.
- VarlinkFraming.VarlinkConnection.ReadFrame: after a failed read the buffer keeps its padding; the caller discards the connection, and nothing is claimed about it.
- AsyncLocks.AsyncLock.PollWithDeadline: the sleep is an input, and the deadline-free variant behaves like `PollLock` on the same wait.
- BufferPipes.BufferStream.TakeBytes: the state lock around the critical section is represented by the section being one step, for one reader and one writer; the pair of streams of a `BufferPipe` is not an entity of its own.
- SchedulerFairness.PassTakesTheCohort: polls that ask for high priority are excluded, as what they wake extends the running cohort without a bound.
- Scheduling.TaskState.PollReady: makes at most `limit` rounds, because polls with high priority can keep the loop going for ever; `SchedulerFairness.RoundsTake` gives the limit that suffices without them.
- Scheduling.TaskState.CompleteTask: the list of completed tasks, which only delays their destruction, is not modelled.
- Scheduling.TaskState.PollJoin: the cancellation of a wait by a scope is not part of the join handles here; `AsyncEvents.WaitFuture.Poll` has it.
- Disabling and enabling the virtual clock again, and dropping a resolver future in the middle of a read.
