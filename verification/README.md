# Verified models of the g-track firmware

g-track is a motorcycle tracker built on ChibiOS. This project models the parts of its firmware in which
threads, interrupts and in-place buffers have to fit together, and proves what they keep over whole runs:

- **Modem driver** (`Sim8xx*.dfy`, `ResultCodes.dfy`, `CStrings.dfy`): any number of client threads, the
  reader thread and the guard timer. `Sim8xxProtocol` is the step system, one step for each critical section
  or stretch of private code; its history component only records. `Sim8xxSafety` proves the invariants of all
  reachable states and what follows from them, `Sim8xxLiveness` that every call returns under a fair
  scheduler, and `Sim8xxFairRuns` that fairness rules out no run. `Sim8xxAnswers`, `Sim8xxAnswerable` and
  `Sim8xxArrivals` say which calls get an answer, when they still can, and what the bytes that arrive decide;
  `Sim8xxResumption` says that the reader listens again after a call. `Sim8xxDevice` is the driver object, whose methods update
  the fields and the 512-byte receive buffer in place; each critical section takes exactly one step of the step
  system, and `Execute`, `IsConnected` and `PressPowerKey` are the calls put together from these, with arbitrary
  steps of all other parties in between (`Sim8xxCalls`). When a call blocks at the end of the steps it is given,
  the step it waits for is taken, so that every call ends.
- **Result codes** (`ResultCodes.dfy`): the parser, in place on a `char` buffer, against a declarative
  definition of the final line of a response. The names are the verbose DCE responses of section 5.7 of
  ITU-T V.250, with the addition of PROCEEDING.
- **Directory listing** (`DirectoryWalk.dfy`): the recursive walk with one path buffer and one static file
  record for all levels, against a pure walk that stops at the first fault, which in turn is compared with a
  complete traversal that only notes the faults.
- **IRQ storm** (`IrqStorm*.dfy`, `StormSweep.dfy`): the chain of workers and mailboxes for every length and
  every capacity, and the test that sweeps over interrupt intervals on such a chain. A worker's post and its
  write of the flag are two steps.
- **Tracker** (`Debounce.dfy`, `SystemRun.dfy`): debouncer, bounded mailbox, system thread and GPS thread in
  one step system.

The kernel is not modelled beyond what the code relies on: a suspend call that times out clears its thread
reference in the same step, a resume call clears the reference and readies the thread in one step, and
setting a timer that is still armed restarts it. `chMtxUnlockS(&rxlock)` and the parking of the reader are
one step, because both happen in the critical section at `sim8xxReaderThread.c:115-120`. A message of the
storm chain carries only its direction in the code; the number it has here makes order and loss expressible.

Findings that differ from what one might expect of the code:

- The first two characters of a response are skipped without a look at them (`sim8xx.c:114-115`). A text of
  exactly one character in front of the result line therefore hides it; `RoundTrip` gives both cases.
- `sync` is not a binary semaphore. `TokenConservation` gives the exact number of tokens and the exact
  condition for a single one; `ToggleMintsToken` is a run with two.
- A command the modem answers in time may still time out, in three ways:
  - The reader saves or is parked while the call has still to wait, because a frame completed before the writer
    suspended. Then the call can only time out (`EarlyFrameDoomsCall`): one unsolicited RING costs the next
    command its answer (`UnsolicitedFrameCostsAnswer`). It costs this one only: a reader that is parked when the
    call tests it is resumed, whatever the outcome (`ReaderIsResumed`, `UnaskedFrameCostsOneCall`).
  - The reader listens, but a byte is left in its buffer when the answer begins to come. What the check sees is
    the buffer together with what has arrived (`BytesDecide`); behind a buffer without NULs an answer that comes
    whole and alone is accepted if and only if the buffer did not hold exactly one byte
    (`AnswerAcceptedExactly`). `StrayByteSpoilsAnswer` is a command whose whole answer is refused that way.
  - The reader listens to bytes that nothing can complete. A NUL byte behind anything but a final result does
    this for good: every call that waits from then on times out (`DeafHappens`, `NulSilencesDriver`).

  `AnswerableExactly` and `AnsweredIfPossible` are the exact condition for an answer to be possible at all, for
  some continuation; whether a given text gets through is what `BytesDecide` and `CallReturnsWhatArrived` say.
  A buffer that is full without a NUL counts as one that nothing can complete; there the theorems say nothing
  about the code, which writes past the end of the buffer (`sim8xxReaderThread.c:106`).
- The flag of the storm test can mislead. A worker posts at `irq_storm.c:127` and writes the flag at 128-129
  outside any critical section; when the flag is cleared at 232 in between, it is set again although no post has
  been refused since (`FlagCanMislead`, `FlagMisleadsExactly`), and the sweep reports its first interval
  (`FalseAlarm`).
- The tracker never parks: ignition-off is never the first event, and riding has no way out (`OnlyRides`,
  `RidingIsFinal`).

## Model

| member | source | states |
|---|---|---|
| `ResultCodes.GetStatus` | software/source/sim8xx/sim8xx.c:103-143 | on every terminated buffer the in-place parser reports the code of the final line, and the buffer is unchanged on every way out |
| `ResultCodes.FindCrlf` | software/source/sim8xx/sim8xx.c:114 | the scan finds the first line break from a position on, or there is none |
| `ResultCodes.Lookup` | software/source/sim8xx/sim8xx.c:119-138 | the comparison chain finds the code with that very name, and fails only if no code has it |
| `ResultCodes.ScanStep` | software/source/sim8xx/sim8xx.c:111-115 | a turn of the scan loop on the cut string either finds the next line break of the response or stands at its last line |
| `ResultCodes.LineFound` | software/source/sim8xx/sim8xx.c:113-119 | the text at the stopping point equals a name if and only if the whole response ends with that line |
| `ResultCodes.ClassifyIsLine` | software/source/sim8xx/sim8xx.c:119-138 | what is reported is a final line of the string; nothing is reported only if no code's line ends the string |
| `ResultCodes.OneLine` | software/source/sim8xx/sim8xx.c:113-138 | two final lines of one string are the same line |
| `ResultCodes.ClassifyExactly` | software/source/sim8xx/sim8xx.c:103-143 | a code is reported for exactly the strings that end with its line |
| `ResultCodes.RoundTrip` | software/source/sim8xx/sim8xx.c:103-143 | text, line break, name, line break gives the code back for every text but those of one character, for which it gives nothing |
| `ResultCodes.EndsWithLineMeans` | software/source/sim8xx/sim8xx.c:108-115 | a string ends with a line if and only if it is some text of at least two characters, line break, name, line break, or any two characters, name, line break |
| `ResultCodes.ClassifyByText` | software/source/sim8xx/sim8xx.c:119-138 | each of the nine codes is reported for exactly the strings that end with its text, written out |
| `ResultCodes.RoundTripTexts` | software/source/sim8xx/sim8xx.c:103-143 | the round trip of the nine codes with their texts written out |
| `ResultCodes.StaleBytes` | software/source/sim8xx/sim8xx.c:113-115 | behind bytes left in the buffer an answer is seen for what it is, unless there is exactly one such byte |
| `Sim8xxDevice.Sim8xxDriver.constructor` | software/source/sim8xx/sim8xx.c:44-54 | the object starts in an initial state of the step system |
| `Sim8xxDevice.Sim8xxDriver.CopyBuffer` | software/source/sim8xx/sim8xx.c:86 | the command's response becomes the string in the receive buffer |
| `Sim8xxDevice.Sim8xxDriver.ParseResponse` | software/source/sim8xx/sim8xx.c:86-87 | the parser gives the same status on the copy as on the receive buffer, and leaves the buffer alone |
| `Sim8xxDevice.Sim8xxDriver.ReadResponse` | software/source/sim8xx/sim8xx.c:86-87 | the client picks up response and status under the buffer mutex |
| `Sim8xxDevice.Sim8xxDriver.WakeReader` | software/source/sim8xx/sim8xx.c:95-97 | a reader seen by the unlocked test is still there, and is resumed |
| `Sim8xxDevice.Sim8xxDriver.ReaderClear` | software/source/sim8xx/sim8xxReaderThread.c:94-95 | the buffer is zeroed in place |
| `Sim8xxDevice.Sim8xxDriver.ReaderCheck` | software/source/sim8xx/sim8xxReaderThread.c:49-51 | the parser runs on the receive buffer and decides whether the frame is complete |
| `Sim8xxDevice.Sim8xxDriver.ReaderStore` | software/source/sim8xx/sim8xxReaderThread.c:103-107 | a received byte is appended in place, as long as it leaves room for the terminator |
| `Sim8xxDevice.Sim8xxDriver.Perform` | software/source/sim8xx/sim8xxReaderThread.c:49-121 | every step of every party is taken in place by one of the object's critical sections |
| `Sim8xxDevice.Sim8xxDriver.AwaitLock` | software/source/sim8xx/sim8xx.c:74 | the wait for the driver mutex ends, because whoever holds it gets on |
| `Sim8xxDevice.Sim8xxDriver.AwaitRelease` | software/source/sim8xx/sim8xx.c:75-85 | the waits for a token and for the buffer mutex end, because reader or timer release them |
| `Sim8xxDevice.Sim8xxDriver.Others` | software/source/sim8xx/sim8xxReaderThread.c:49-121 | between two steps of a call the other parties take just those of the given steps that can be taken, in their order |
| `Sim8xxDevice.Sim8xxDriver.Wait` | software/source/sim8xx/sim8xx.c:79-80 | the wait ends with a frame if the others' steps hand one over, and only else with the timeout |
| `Sim8xxDevice.Sim8xxDriver.Ask` | software/source/sim8xx/sim8xx.c:74-80 | the others' steps given, and those a blocked call waits for, lead to the wait, with the request sent once the token is taken; the wait ends with one frame handed over to this client in it, or with none and a timeout |
| `Sim8xxDevice.Sim8xxDriver.TestAndResume` | software/source/sim8xx/sim8xx.c:94-98 | the unlocked test of the reader reference, and the resumption of a reader seen, with others' steps in between |
| `Sim8xxDevice.Sim8xxDriver.Execute` | software/source/sim8xx/sim8xx.c:73-101 | the call runs through its own steps and the given steps of the others; it returns a frame if and only if the others' steps in its wait hand one over, with the string of this frame and a recognised code that is its final line, and a timeout with the response untouched otherwise; an answer that comes whole in the wait, behind anything but a single byte, makes it return its code; a reader found parked is resumed |
| `Sim8xxDevice.Sim8xxDriver.IsConnected` | software/source/sim8xx/sim8xx.c:145-176 | by the same account, the result is true exactly when a frame handed over in this call's wait ends with the line OK, in particular when OK comes whole; a reader found parked is resumed |
| `Sim8xxDevice.Sim8xxDriver.PressPowerKey` | software/source/sim8xx/sim8xx.c:178-186 | a power toggle returns, is counted, and takes no frame from anybody |
| `Sim8xxCalls.OthersTakeAll` | software/source/sim8xx/sim8xxReaderThread.c:49-121 | of the steps given to the others between two steps of a call each is taken that can be taken, in order |
| `Sim8xxCalls.PathTaken` | software/source/sim8xx/sim8xxReaderThread.c:49-121 | any path of the others' steps is taken to its end |
| `Sim8xxCalls.AnswerWakes` | software/source/sim8xx/sim8xxReaderThread.c:97-111 | an answer that comes whole in a wait, behind anything but a single byte, wakes the client and is in the buffer then |
| `Sim8xxCalls.LeavingResumes` | software/source/sim8xx/sim8xx.c:94-101 | a reader that the call finds parked listens again when the call has returned, or has completed another frame, whatever the call's outcome |
| `Sim8xxCalls.StepKept` | software/source/sim8xx/sim8xx.c:73-101 | what other parties' steps leave to a call: its position, its buffer once a frame is due, and no hand-over but the one that wakes it |
| `Sim8xxCalls.HandedOverIsResponse` | software/source/sim8xx/sim8xx.c:84-88 | the frame handed to a call is the last one completed, and the buffer holds it |
| `Sim8xxSafety.StepInv` | software/source/sim8xx/sim8xx.c:73-186 | every step of every party keeps all invariants of the driver |
| `Sim8xxSafety.TokenConservation` | software/source/sim8xx/sim8xx.c:75-92 | in every reachable state semaphore, writer, reader and timer hold one token plus the toggles plus the frames nobody waited for minus the restarts of an armed guard, and never none; the count is one exactly when these cancel out |
| `Sim8xxSafety.ToggleMintsToken` | software/source/sim8xx/sim8xx.c:178-186 | a run in which the semaphore holds two tokens |
| `Sim8xxSafety.NoLostWakeup` | software/source/sim8xx/sim8xxReaderThread.c:92-120 | a client blocked on the empty semaphore has the guard armed or the reader about to arm it; one blocked on the buffer has the reader about to park |
| `Sim8xxSafety.ReferenceFreeBeforeSuspend` | software/source/sim8xx/sim8xx.c:79-82 | no thread suspends on a reference that is taken |
| `Sim8xxSafety.ReaderTestStable` | software/source/sim8xx/sim8xx.c:94-98 | what the unlocked test saw stays true until the tester's own resume, which finds the reader parked |
| `Sim8xxSafety.FrameGoesToWriter` | software/source/sim8xx/sim8xxReaderThread.c:49-61 | a completed frame wakes the holder of the driver mutex if it is suspended, and otherwise changes no client and adds a token |
| `Sim8xxSafety.ExactlyOnceHandOff` | software/source/sim8xx/sim8xx.c:79-98 | wake-ups and hand-offs pair off in order and once each, each with a frame of its own in stream order; every wait has exactly one end; every request sent has one wait |
| `Sim8xxSafety.AnswersArePickups` | software/source/sim8xx/sim8xx.c:84-101 | the answers returned by calls are the responses picked up, in order, up to the one in flight |
| `Sim8xxSafety.BufferHoldsFrame` | software/source/sim8xx/sim8xxReaderThread.c:97-120 | until the reader is resumed the buffer holds the last completed frame, a final result |
| `Sim8xxSafety.ResponseIsFrame` | software/source/sim8xx/sim8xx.c:84-88 | a woken client reads while the reader is parked, gets the frame that woke it, and its own request was the last one sent |
| `Sim8xxSafety.CallsEndWell` | software/source/sim8xx/sim8xx.c:73-101 | a finished call has a recognised code that is the final line of its response, or a timeout, and never an invalid status; sim8xxIsConnected is true only on OK |
| `Sim8xxSafety.FramesPartitionStream` | software/source/sim8xx/sim8xxReaderThread.c:92-113 | the bytes received are the completed frames and the unfinished one; a frame is a final result that none of the earlier checks of it saw |
| `Sim8xxSafety.EventsAndChecks` | software/source/sim8xx/sim8xxReaderThread.c:97-111 | bytes are taken from the channel only on an event that says so, and the next event is waited for only after a check |
| `Sim8xxSafety.CleanRun` | software/source/sim8xx/sim8xxReaderThread.c:115-119 | with no toggle and no unexpected frame there is one token, no guard is overwritten, and a request goes out only with the reader neither parked nor about to park, and every answered command's guard expired |
| `Sim8xxLiveness.HelpfulEnabled` | software/source/sim8xx/sim8xx.c:73-101 | whoever holds the driver, the step it is waiting for can be taken |
| `Sim8xxLiveness.HelpfulProgress` | software/source/sim8xx/sim8xx.c:73-101 | that step brings the release of the driver closer by a fixed measure |
| `Sim8xxLiveness.Harmless` | software/source/sim8xx/sim8xxReaderThread.c:92-121 | no other step of anybody undoes progress or takes the awaited step away |
| `Sim8xxLiveness.EveryCallReturns` | software/source/sim8xx/sim8xx.c:73-101 | under weak fairness every call that holds the driver returns with a valid outcome |
| `Sim8xxLiveness.EveryCallMadeReturns` | software/source/sim8xx/sim8xx.c:145-186 | with a mutex that passes nobody over for ever every call made returns with a valid outcome |
| `Sim8xxFairRuns.EveryRunExtends` | software/source/sim8xx/sim8xx.c:73-186 | the fairness assumptions, those on the reader included, rule out nothing: every finite run is the beginning of a fair behaviour |
| `Sim8xxAnswers.FateKept` | software/source/sim8xx/sim8xx.c:79-100 | once a call is bound to be answered, or to time out, no step of anybody changes that, nor the answer |
| `Sim8xxAnswers.FateComesTrue` | software/source/sim8xx/sim8xx.c:79-101 | under weak fairness such a call returns just that |
| `Sim8xxAnswers.EarlyFrameDoomsCall` | software/source/sim8xx/sim8xx.c:74-82 | a call that has still to wait while the reader saves or is parked returns a timeout |
| `Sim8xxAnswers.UnsolicitedFrameCostsAnswer` | software/source/sim8xx/sim8xxReaderThread.c:49-61 | after a frame that completes with no call inside, the first call to enter and wait returns a timeout, power toggles in between or not |
| `Sim8xxAnswers.AnsweredExactly` | software/source/sim8xx/sim8xx.c:79-92 | a suspended call returns an answer if and only if a frame completes in its wait, and then the string and the code of this frame, and a timeout otherwise |
| `Sim8xxAnswerable.AnswerableExactly` | software/source/sim8xx/sim8xxReaderThread.c:92-119 | a call that has still to wait can get an answer if and only if the reader neither saves nor is parked, and the bytes it has can still be completed, which plain text with room for a line always can |
| `Sim8xxAnswerable.AnsweredIfPossible` | software/source/sim8xx/sim8xxReaderThread.c:92-119 | with that condition some fair behaviour answers the call, without it none does |
| `Sim8xxAnswerable.HopelessCallTimesOut` | software/source/sim8xx/sim8xx.c:89-92 | without it the call returns a timeout in every fair behaviour |
| `Sim8xxAnswerable.NulCompletable` | software/source/sim8xx/sim8xx.c:104 | bytes with a NUL among them are complete already, or can never be completed |
| `Sim8xxAnswerable.DeafForGood` | software/source/sim8xx/sim8xxReaderThread.c:97-111 | a reader whose bytes cannot be completed never completes a frame again |
| `Sim8xxAnswerable.EarlyFrameHappens` | software/source/sim8xx/sim8xx.c:77-82 | a writer can be suspended while a complete frame waits to be taken |
| `Sim8xxAnswerable.SomeCallTimesOut` | software/source/sim8xx/sim8xx.c:89-92 | some fair behaviour has such a command, which times out |
| `Sim8xxAnswerable.SomeCallIsAnswered` | software/source/sim8xx/sim8xx.c:84-88 | some fair behaviour has a command that is answered |
| `Sim8xxArrivals.BytesDecide` | software/source/sim8xx/sim8xxReaderThread.c:97-111 | a check in a call's wait accepts if and only if the bytes in the buffer at any earlier moment of the wait, with those that have arrived since, end with a final result, whoever steps in between |
| `Sim8xxArrivals.CallReturnsWhatArrived` | software/source/sim8xx/sim8xx.c:79-88 | a frame completed in the wait is just these bytes, and the call returns their string and code |
| `Sim8xxArrivals.AnswerAcceptedExactly` | software/source/sim8xx/sim8xxReaderThread.c:97-111 | behind a buffer without NULs an answer that comes whole and alone within the wait is accepted by the next check if and only if the buffer did not hold exactly one byte |
| `Sim8xxArrivals.StrayByteSpoilsAnswer` | software/source/sim8xx/sim8xxReaderThread.c:97-111 | a waiting command, a reader able to answer, and a whole answer of any code that is refused because of one stray byte |
| `Sim8xxArrivals.DeafHappens` | software/source/sim8xx/sim8xxReaderThread.c:103-107 | a single NUL byte makes the reader deaf |
| `Sim8xxArrivals.NulSilencesDriver` | software/source/sim8xx/sim8xxReaderThread.c:97-111 | once a NUL has come and what is before it is no final result, every call that has still to wait, then or later, returns a timeout |
| `Sim8xxResumption.ReaderIsResumed` | software/source/sim8xx/sim8xx.c:94-101 | under weak fairness a call that leaves with the reader parked returns, and by then the reader is neither saving nor parked, or has completed another frame |
| `Sim8xxResumption.ReaderListensAgain` | software/source/sim8xx/sim8xxReaderThread.c:92-119 | after such a call the reader gets back to its input loop with an empty buffer |
| `Sim8xxResumption.FrameCostsOneCall` | software/source/sim8xx/sim8xx.c:167-175 | when the call that a frame has cost has returned, with no further frame completed, some fair behaviour answers the next call |
| `Sim8xxResumption.UnaskedFrameCostsOneCall` | software/source/sim8xx/sim8xx.c:167-175 | a run with one frame that nobody asked for, one command that times out, and a next command that some fair behaviour answers |
| `DirectoryWalk.TreeCommand.OpenDir` | software/source/Sdcard.c:70 | opening whatever path the buffer spells at that moment |
| `DirectoryWalk.TreeCommand.ReadDir` | software/source/Sdcard.c:73 | reading overwrites the shared record; an empty name marks the end |
| `DirectoryWalk.TreeCommand.AppendName` | software/source/Sdcard.c:78-79 | the buffer spells the child's path |
| `DirectoryWalk.TreeCommand.CutPath` | software/source/Sdcard.c:81 | the buffer spells the parent's path again |
| `DirectoryWalk.TreeCommand.ScanEntry` | software/source/Sdcard.c:74-87 | the loop body deals with one entry as the pure walk does |
| `DirectoryWalk.TreeCommand.ScanFiles` | software/source/Sdcard.c:63-91 | output and result are those of the pure walk, and the buffer spells what it spelled on entry, whatever fails at whatever depth; on success the lines are those of all files below the start, each once and in directory order, otherwise the beginning of these; it succeeds if and only if nothing below is faulty |
| `DirectoryWalk.TreeCommand.ListTree` | software/source/Sdcard.c:147-148 | the shell command lists from the root |
| `DirectoryWalk.WalkCutsTrace` | software/source/Sdcard.c:70-90 | the walk prints what the complete traversal meets before its first fault, and returns that fault |
| `DirectoryWalk.ListingSound` | software/source/Sdcard.c:73-87 | every line of the complete listing is the full path of a file below the start |
| `DirectoryWalk.ListingComplete` | software/source/Sdcard.c:73-87 | every file below the start has its line |
| `DirectoryWalk.SuccessPrintsAllFiles` | software/source/Sdcard.c:63-91 | a walk that succeeds has printed exactly the files below the start |
| `DirectoryWalk.WalkPrintsInOrder` | software/source/Sdcard.c:70-90 | a successful walk prints the full path of each visible file once, in directory order; one that fails prints the beginning of this |
| `DirectoryWalk.LinesSpelledOut` | software/source/Sdcard.c:75-87 | a line is printed if and only if it is directory, separator, name, line break of a visible file below the start |
| `DirectoryWalk.LineTellsFile` | software/source/Sdcard.c:87 | different files have different lines |
| `DirectoryWalk.SuccessExactly` | software/source/Sdcard.c:70-90 | the walk succeeds if and only if every directory below the start can be opened and read to its end, and otherwise returns the code of one that cannot |
| `DirectoryWalk.FailurePrintsPrefix` | software/source/Sdcard.c:70-90 | a walk that fails has printed a prefix of the complete listing and returns the first fault unchanged |
| `IrqStorm.ExitsAtEnds` | software/ChibiOS/testhal/common/irq_storm.c:118-124 | the unsigned wrap sends messages out exactly at the two ends of the chain |
| `IrqStorm.StepChange` | software/ChibiOS/testhal/common/irq_storm.c:95-167 | every step, the late write of the flag included, leaves the stream of a direction as it is, extends it at the end, or takes one refused message out of it |
| `IrqStormRuns.NoOvertaking` | software/ChibiOS/testhal/common/irq_storm.c:95-138 | the messages of a direction leave in the order of injection, before everything still inside |
| `IrqStormRuns.MessagesConserved` | software/ChibiOS/testhal/common/irq_storm.c:118-167 | of each direction every injected message has left, is inside or was refused, exactly one of these, and the counts add up |
| `IrqStormRuns.RefusedExactly` | software/ChibiOS/testhal/common/irq_storm.c:124-166 | a message is refused exactly when the mailbox of its neighbour, or at its entrance, holds as many messages as it can |
| `IrqStormRuns.FlagExplained` | software/ChibiOS/testhal/common/irq_storm.c:127-129 | the flag is set exactly when a post refused since the clear has had its write, or a write pending at the clear has landed since; refusals and pending writes add up |
| `IrqStormRuns.SaturatedMeansRefused` | software/ChibiOS/testhal/common/irq_storm.c:127-129 | the flag says exactly that a post was refused since the clear when no worker was between post and write at the clear and none is now; each half needs one of the two |
| `IrqStormRuns.FlagMisleadsExactly` | software/ChibiOS/testhal/common/irq_storm.c:127-129 | the states in which flag and refusals disagree, in both directions |
| `IrqStormRuns.FlagCanMislead` | software/ChibiOS/testhal/common/irq_storm.c:127-232 | both kinds of disagreement are reached by two workers with mailboxes of one message |
| `IrqStormDrain.ForwardLightens` | software/ChibiOS/testhal/common/irq_storm.c:118-137 | sending on reduces the remaining work whether the post succeeds, is refused or the message leaves |
| `IrqStormDrain.SomeWorkerCanAct` | software/ChibiOS/testhal/common/irq_storm.c:95-138 | a worker can act if and only if a message is anywhere in the chain or a flag unwritten: full neighbours never block each other |
| `IrqStormDrain.ChainDrains` | software/ChibiOS/testhal/common/irq_storm.c:260-261 | without injection the workers stop after a bounded number of steps, with the chain empty |
| `IrqStormChain.StormChain.constructor` | software/ChibiOS/testhal/common/irq_storm.c:190-197 | mailboxes and flag start in an initial state |
| `IrqStormChain.StormChain.PostMessage` | software/ChibiOS/testhal/common/irq_storm.c:127 | a post without waiting stores the message, or refuses it |
| `IrqStormChain.StormChain.Storm` | software/ChibiOS/testhal/common/irq_storm.c:240-248 | workers and interrupts act on the shared objects in any order given |
| `IrqStormChain.StormTakesAll` | software/ChibiOS/testhal/common/irq_storm.c:239-248 | of the steps of a storm each is taken that can be taken, in order |
| `IrqStormChain.SweptIsStorm` | software/ChibiOS/testhal/common/irq_storm.c:237-248 | the end of an interval comes after the storms of all intervals up to it |
| `IrqStormChain.StormChain.Iteration` | software/ChibiOS/testhal/common/irq_storm.c:232-259 | the chain ends where the sweep stops; the threshold is the first interval at whose end its flag is found set, or 0, and is the start or a tenth below one that left the flag clear; the counts are the posts refused by the end of each interval; no false alarm if no write was pending at the clear; until then at most one refusal for each worker has gone unnoticed |
| `IrqStormChain.StormChain.Pause` | software/ChibiOS/testhal/common/irq_storm.c:260-261 | a long enough pause leaves the chain empty and no write pending |
| `IrqStormChain.StormChain.Test` | software/ChibiOS/testhal/common/irq_storm.c:228-265 | every threshold is that of its own iteration's sweep, which starts where the pause before has brought the chain to rest; the worst case is the largest threshold; with such pauses a threshold stands for a refused post, and 0 for at most one refusal for each worker |
| `IrqStormChain.FalseAlarm` | software/ChibiOS/testhal/common/irq_storm.c:127-258 | a write pending at the clear makes the sweep report its first interval, whatever it is, with no post refused |
| `IrqStormChain.SweepOn` | software/ChibiOS/testhal/common/irq_storm.c:237-258 | behind an interval that has not saturated the chain the sweep goes on with the next one |
| `StormSweep.IntervalsShrink` | software/ChibiOS/testhal/common/irq_storm.c:237 | every interval is between 2 and the start, and at least a tenth shorter than the one before |
| `StormSweep.IntervalsComplete` | software/ChibiOS/testhal/common/irq_storm.c:237 | the intervals begin with the start and end with 2, and each is the one before less a tenth, rounded up: none is skipped |
| `StormSweep.SweepNumbers` | software/ChibiOS/testhal/common/irq_storm.c:237 | the test begins with 2000, 1800, 1620 |
| `StormSweep.ThresholdIsFirst` | software/ChibiOS/testhal/common/irq_storm.c:250-258 | the threshold is the first saturating interval, or 0 when none saturates |
| `Debounce.Debouncer.Check` | software/source/BoardMonitorThread.c:45-67 | after every sample the counter is what is missing of ten high samples in a row, and the signal is on exactly at the tenth high sample of a row, off exactly at a low one behind ten high ones |
| `Debounce.TenthSample` | software/source/BoardMonitorThread.c:45-67 | the same for all histories |
| `Debounce.EdgesAlternate` | software/source/BoardMonitorThread.c:45-67 | signals alternate, beginning with on, and end with on exactly during a row of at least ten |
| `Debounce.CyclesTakeTime` | software/source/BoardMonitorThread.c:45-67 | a pair of signals takes at least eleven samples, and the row at the end its own |
| `Debounce.OnsAreRare` | software/source/BoardMonitorThread.c:45-67 | n samples hold at most (n + 1) / 11 on signals |
| `SystemRun.StepInv` | software/source/SystemThread.c:58-130 | samples, posts, drops, fetches and polls keep the invariants of the tracker |
| `SystemRun.OnlyRides` | software/source/SystemThread.c:58-93 | for all samples and all drops the first event fetched is ignition-on, only the initial and the riding state are reached, the GPS reader is started at most once and never stopped |
| `SystemRun.RidingIsFinal` | software/source/SystemThread.c:85-88 | once riding, no event has any further effect |
| `SystemRun.CommandNotShared` | software/source/GpsReaderThread.c:46 | the static command is never in use by two threads |
| `SystemRun.StepsInOrder` | software/source/SystemThread.c:46-65 | GPS is powered on only after a probe of the modem was answered, and riding begins only after a power-on that succeeded |
| `SystemRun.PostedExactly` | software/source/BoardMonitorThread.c:77-93 | a signal is posted, and dropped exactly when the mailbox holds ten events |
| `SystemRun.EventsInOrder` | software/source/SystemThread.c:104-107 | events are handled in the order in which they were posted |
| `SystemRun.GpsPollsCounted` | software/source/GpsReaderThread.c:57-64 | once riding the timer stays armed, and the GPS thread has had or has due one turn for the start and one for each expiry; before the start it has none |
| `SystemRun.OperationTakesAll` | software/source/SystemThread.c:104-129 | in operation each step is taken that can be taken, in order |
| `SystemRun.NeverStops` | software/source/SystemThread.c:67-72 | no step of the way to parking can ever be taken |
| `SystemRun.Tracker.constructor` | software/source/SystemThread.c:132-136 | mailbox, semaphore and timer start empty and unarmed |
| `SystemRun.Tracker.TimerEvent` | software/source/BoardMonitorThread.c:73-112 | both debouncers take their sample, and ignition signals are posted unless the mailbox is full |
| `SystemRun.Tracker.GpsBeginPoll` | software/source/GpsReaderThread.c:198-202 | when the GPS thread begins to use the static command, the system thread does not |
| `SystemRun.Tracker.Operate` | software/source/SystemThread.c:104-129 | in operation the steps of all parties that can be taken are taken, and under any of them the tracker is initialising or riding, its first event was ignition-on, the command is not shared, and riding is final |

## Left out

- Kernel, hardware abstraction layer and file system internals: they are reduced to the atomic steps named above and to a finite file system that may fail at any open or read.
- Sim8xxDevice.Sim8xxDriver.ReaderStore: does not model a frame of 512 bytes or more, because the code writes past the buffer without a check; a byte is received only while the terminating NUL still has room. Frames with NUL bytes are covered.
- DirectoryWalk.TreeCommand.AppendName: does not model a path longer than the buffer, because the code writes past its end without a check.
- DirectoryWalk.TreeCommand.ScanEntry: does not model a path longer than the buffer, for the same reason.
- DirectoryWalk.TreeCommand.ScanFiles: does not model a path longer than the buffer; `Fits` demands room for the path of every directory that is walked, and for nothing else.
- DirectoryWalk.TreeCommand.ListTree: does not model a path longer than the buffer, for the same reason.
- IrqStormChain.StormChain.Pause: does not model the length of the pause, because time is not modelled; 20 ms may be too short for a chain to come to rest.
- Whether a response belongs to its request: after a timeout a late answer may wake the next call, and the code cannot tell.
- Time: timeouts and the expiry of timers may come at any moment; priorities, baud rate and queue overflow of the serial driver are not modelled.
- Fairness between clients: `EveryCallMadeReturns` assumes that the mutex passes nobody over for ever, which a scheduler with client threads of different priorities need not provide.
- `sim8xxStart`, the serial setup and the save of frames to the log file: input and output without shared state.
- Termination of `connectModem`, `disconnectModem`, `gpsPowerOn` and `gpsPowerOff`: they repeat until the modem answers, so each of their turns is a step of its own.
- `GpsReaderStop`, `gpsPowerOff` and `disconnectModem`: they are steps of the tracker's step system, but have no method of their own because `OnlyRides` shows that they are never reached.
- Building and parsing of the GNSS commands, the dashboard and the logs: `AtCgnsinf.h` and `AtCgnspwr.h` are not part of this model.
- The visual feedback counter and the delays of the storm workers, and the cleanup after the storm test: the workers may wait for a message for ever, so the cleanup need not end.
- Event delivery in the peripheral manager, the USB shell, board configuration and the date functions: thin wrappers, constants, or compiled out.
