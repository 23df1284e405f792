# Verification of the EPICS diode

A sender reads EPICS process variables (PVs), decides which to send, and writes them into a one-way
byte stream; a receiver parses the stream and republishes them. Both sides rest on a patched Channel
Access (CA) client and server. This project models that code in Dafny and proves what it promises:

* **The schedule** (`Ring`, `SizeOrder`, `Windows`, `Waiting`, `Circular`, `PrioritySender`). The list of PVs as a
  ring seen from its current index; where changed PVs go in it; what every run of cycles keeps; how long a PV can
  wait; which byte budgets starve nobody. The class with the arrays and the index arithmetic refines that
  specification.
* **The pool threads** (`Slices`, `Completeness`, `Sending`, `Barrier`, `Wakeups`). Who sends which PVs, and
  with which records; the barrier of a counter and an event as a state machine over all interleavings, its safety,
  and exactly when a round can still complete.
* **The wire** (`Bytes`, `Records`, `Layouts`, `DiodeParser`, `Incremental`, `RoundTrip`, `Resynchronisation`,
  `Transport`, `HexSizes`, `RequestBody`). The record format, the parser that runs again after every piece, chunked
  bodies (section 4.1 of RFC 7230) and bodies of announced length (section 3.3.2 of RFC 7230).
* **The receiver** (`NameSearch`, `ReceiverStore`, `Delivery`, `Replication`, `Connections`, `ServingEnds`, `Commuting`,
  `DiodeReceiver`). The name table and its cache, the memory with its shadow copy and change flags, the service
  of a request, and any interleaving of the threads that serve several connections at once.
* **End to end** (`WorkSplit`, `Placement`, `Callbacks`, `EpicsSubscriber`, `EndToEnd`, `LargeValues`,
  `Rounds`, `Diode`). From the callbacks of the subscriber over its threads' memories, the snapshot and a thread's
  share of it to the receiver's memory; values in several records or of another size; whole rounds in any
  interleaving; and how old what the receiver holds can be.
* **Channel Access** (`ChannelLists`, `ListRuns`, `Notices`, `TcpCircuit`, `CaProtocol`, `Framing`, `Responses`,
  `ResponseReader`, `Requests`, `ServerFraming`, `RequestCodec`, `RequestBytes`, `PutNotify`,
  `PutProgress`, `CasPutNotify`, `ServerChannels`, `ServiceProgress`, `CasClient`, over the lists of `Queues`). The
  client's channel lists and outstanding I/O, reading responses and requests cut anywhere, the request encoder, put
  notifies, and the server's channel states.

What a loop or an object of the source does in place is a method here, proved equal to a function of the
old state; what the source promises is proved of those functions, over all inputs and all runs.
Concurrent code is a state machine whose runs are all interleavings.

`dafny verify dfyconfig.toml` checks the whole project.

Where the code does not keep what one would expect of it, the condition under which it does is proved to
be exact:

* The scheduler starves nobody exactly when, at every index it passes in its first N cycles, the next two
  PVs fit the byte budget together (`Waiting.NobodyStarvesExactlyWhen`): the budget loop takes one PV back
  when it stops. Otherwise it falls silent for good within N cycles (`Waiting.FallsSilent`). Which indices it
  passes depends on the sizes and the budget alone; pairs it never meets may be larger
  (`Waiting.WhatTheWalkSees`).
* With two or more pool threads the sender can stop for good (`Wakeups.CanStopExactlyWhen`): a thread that
  counts itself resets the event for one that has not woken yet. A round completes exactly when no thread
  has missed the event.
* A share is written completely, in every order of its PVs, exactly when none of them is larger than a record
  may be (`Completeness.CompleteExactlyWhen`): a request's quota counts records, not PVs.
* The subscriber's ranges are disjoint exactly when quotient and remainder together reach the number of
  threads (`WorkSplit.DisjointExactlyWhen`); every connected PV ends at its own place, in every order in which the
  threads may run, exactly when none of them is in two ranges (`Placement.EveryOrderExactlyWhen`).
* The first record after garbage is lost exactly when its name looks like the end of one
  (`Resynchronisation.FirstAfterGarbage`). Cached answers are those of a fresh search exactly when the sender
  asks of an index, once it was found, only for names at the same place
  (`NameSearch.CacheIsStaleExactlyWhen`).
* A record that passes the receiver's test of bounds stays in its PV's value exactly when size plus offset
  does not wrap (`ReceiverStore.StaysExactlyWhen`); the bytes of one that wraps land wholly behind the buffer
  exactly when its first does (`ReceiverStore.StraysBeyond`). The receiver keeps its shadow copy and flags right
  exactly when no such byte changes the value of another PV (`ReceiverStore.StepKeepsTrack`). What is sent as
  PrioritySender sends it never strays.
* When a reply with an invalid native type is accepted, the channel changes lists before the type is checked.
  That channel is then in a list of connected channels although its user was told nothing, and users, lists and
  outstanding I/O agree at every point of a run exactly when no such reply is accepted
  (`Notices.EveryPointExactlyWhen`). Notices and count stay right at that step (`Notices.BadReplyBreaks`); the
  notices stop alternating exactly when a later step tells the user a disconnect it was not connected for, or
  repeats a notice otherwise (`Notices.NoticesExactlyWhen`; `ChannelLists.SomeUserIsMisled` is a run that gets
  there).
* The announced size of a request is right except exactly where a timestamp makes it wrap
  (`RequestCodec.DecodesExactlyWhen`); the server takes every plain write to carry a timestamp
  (`RequestCodec.TimestampSeenExactlyWhen`), and reads that of a short text from behind the longest text
  (`RequestCodec.StampReadRightExactlyWhen`).

## Model

| member | source | states |
|---|---|---|
| `Ring.Swap` | Source/Components/Interfaces/PrioritySender/PrioritySender.cpp:91-93 | swapping two places exchanges exactly those two |
| `Ring.Rotate` | Source/Components/Interfaces/PrioritySender/PrioritySender.cpp:84 | the list as seen from the current index, going round |
| `Ring.TakeIn` | Source/Components/Interfaces/PrioritySender/PrioritySender.cpp:87-109 | taking a flagged PV into the window permutes the list; where it ends, SizeOrder.TakenInBySize says |
| `Ring.BubbleInside` | Source/Components/Interfaces/PrioritySender/PrioritySender.cpp:96-108 | the move down by size changes nothing outside the window and keeps who is in it, also when the window is longer than the ring |
| `Ring.OneFlagged` | Source/Components/Interfaces/PrioritySender/PrioritySender.cpp:87-110 | a flagged PV enters the window, nobody leaves it, and PVs still ahead stay ahead or enter it |
| `Ring.SortPassPermutes` | Source/Components/Interfaces/PrioritySender/PrioritySender.cpp:80-112 | a sorted pass leaves a permutation and grows the window by at most one per PV looked at |
| `Ring.SortPassWindow` | Source/Components/Interfaces/PrioritySender/PrioritySender.cpp:80-112 | after a sorted pass every flagged and every pending PV is in the grown window, even when it wraps around the ring |
| `Ring.WindowShrinks` | Source/Components/Interfaces/PrioritySender/PrioritySender.cpp:145-150 | what the dispatch leaves of the window is the shrunken window of the advanced index |
| `Ring.ReorderedKeeps` | Source/Components/Interfaces/PrioritySender/PrioritySender.cpp:77-119 | the prepare step keeps a permutation with every pending PV in the window, whether or not it sorts |
| `Ring.CycleKeeps` | Source/Components/Interfaces/PrioritySender/PrioritySender.cpp:60-211 | one whole cycle, with any flags and any resets by reconnecting threads, keeps the permutation and every pending PV in the window |
| `SizeOrder.BubbleGoesDown` | Source/Components/Interfaces/PrioritySender/PrioritySender.cpp:96-108 | the move by size takes a PV down past sizes that are all larger than its own, up to one that is not or the start of the window; the PVs it passed move up one, in order, all others stay |
| `SizeOrder.TakenInBySize` | Source/Components/Interfaces/PrioritySender/PrioritySender.cpp:87-110 | a flagged PV ends in the window where the size it was found with puts it, also when the window is longer than the ring; the PVs it passed move up one, in order, and the one at the window's end goes where it came from |
| `SizeOrder.FromEmptyWindow` | Source/Components/Interfaces/PrioritySender/PrioritySender.cpp:80-112 | a pass that begins with an empty window ends with exactly the flagged PVs in it, and counts them |
| `SizeOrder.GoesByItsOwnSize` | Source/Components/Interfaces/PrioritySender/PrioritySender.cpp:87-110 | three PVs for which it matters at which position the size is looked up |
| `SizeOrder.OnlyChangedAreSent` | Source/Components/Interfaces/PrioritySender/PrioritySender.cpp:114-127 | a sender that sends only changes dispatches only flagged PVs in a sorted cycle that begins with an empty window |
| `Windows.WindowStaysShort` | Source/Components/Interfaces/PrioritySender/PrioritySender.cpp:156-162 | after every cycle the window leaves room for a whole cycle's PVs |
| `Windows.CyclesAreCounted` | Source/Components/Interfaces/PrioritySender/PrioritySender.cpp:114-127 | undisturbed cycles are counted one by one up to numberOfChunks, and all of them are first-in-first-out |
| `Windows.ReconnectStartsOver` | Source/Components/Interfaces/PrioritySender/PrioritySender.cpp:129-165 | after a cycle in which a pool thread reconnected, the next cycles are first-in-first-out again, one fewer than numberOfChunks at least |
| `Windows.ThenChangesGoFirst` | Source/Components/Interfaces/PrioritySender/PrioritySender.cpp:74-112 | the next cycle sorts: from an empty window every flagged PV stands before every other one |
| `Windows.WindowEmpties` | Source/Components/Interfaces/PrioritySender/PrioritySender.cpp:145-150 | while nothing changes the window loses as many PVs a cycle as are sent, and its PVs are dispatched in their order |
| `Waiting.Fresh` | Source/Components/Interfaces/PrioritySender/PrioritySender.cpp:415-418 | the schedule after SetDataSource is a permutation with nothing pending |
| `Waiting.After` | Source/Components/Interfaces/PrioritySender/PrioritySender.cpp:60-211 | every run of cycles keeps the permutation and every pending PV in the window |
| `Waiting.SteadySends` | Source/Components/Interfaces/PrioritySender/PrioritySender.cpp:133-155 | while each cycle sends at least q PVs in order, the leading PVs of the ring are dispatched in turn |
| `Waiting.BudgetFull` | Source/Components/Interfaces/PrioritySender/PrioritySender.cpp:129-143 | the byte budget cuts nothing exactly when the PVs asked for fit it together |
| `Waiting.BudgetKept` | Source/Components/Interfaces/PrioritySender/PrioritySender.cpp:129-143 | what is dispatched fits the budget, by position; a cut gives up the first PV that does not fit and the one before it |
| `Waiting.BudgetStalls` | Source/Components/Interfaces/PrioritySender/PrioritySender.cpp:133-143 | nothing is dispatched exactly when the first PV, or the first two where two are asked for, are over the budget |
| `Waiting.ChunksSendAll` | Source/Components/Interfaces/PrioritySender/PrioritySender.cpp:114-127 | any numberOfChunks first-in-first-out cycles in a row dispatch every PV, if the budget cuts none |
| `Waiting.SettledIsFifo` | Source/Components/Interfaces/PrioritySender/PrioritySender.cpp:155-162 | past the reset count every cycle is first-in-first-out, since the send counter is never set back |
| `Waiting.NobodyWaitsLong` | Source/Components/Interfaces/PrioritySender/PrioritySender.cpp:74-205 | in any run every PV is dispatched within any resetCounter + numberOfChunks + 1 consecutive cycles, whatever the flags and reconnections, if the budget cuts none |
| `Waiting.StalledForever` | Source/Components/Interfaces/PrioritySender/PrioritySender.cpp:133-143 | a schedule whose next pair is over the budget never dispatches anything again |
| `Waiting.RunWalks` | Source/Components/Interfaces/PrioritySender/PrioritySender.cpp:133-177 | the index walks the list as the sizes and the budget alone decide, in every run |
| `Waiting.FallsSilent` | Source/Components/Interfaces/PrioritySender/PrioritySender.cpp:133-177 | if the next pair is over the budget at an index of that walk, then in every run nothing at all is dispatched once as many cycles as PVs are over |
| `Waiting.NobodyStarvesExactlyWhen` | Source/Components/Interfaces/PrioritySender/PrioritySender.cpp:133-177 | from SetDataSource on, in every run and whatever came before, every PV is dispatched within resetCounter + N + 1 cycles, exactly when the next pair fits the budget at every index the walk reaches in its first N cycles |
| `Waiting.WhatTheWalkSees` | Source/Components/Interfaces/PrioritySender/PrioritySender.cpp:133-143 | sizes whose neighbours do not all fit and nobody starves; sizes where the sender falls silent after its first cycle |
| `Circular.TurnIsRemainder` | Source/Components/Interfaces/PrioritySender/PrioritySender.cpp:82 | going round the ring is the remainder the code takes |
| `Circular.RotateSwap` | Source/Components/Interfaces/PrioritySender/PrioritySender.cpp:90-93 | a swap at indices modulo the length is a swap of positions counted from the current index |
| `Circular.TurnBefore` | Source/Components/Interfaces/PrioritySender/PrioritySender.cpp:97-98 | the previous index, computed without going below zero, is the position before |
| `PrioritySending.PrioritySender.constructor` | Source/Components/Interfaces/PrioritySender/PrioritySender.cpp:406-423 | the chunk count is the quotient rounded up, and the list is the PVs in order |
| `PrioritySending.PrioritySender.PushForward` | Source/Components/Interfaces/PrioritySender/PrioritySender.cpp:96-108 | the in-place loop does what the specification of the move by size says |
| `PrioritySending.PrioritySender.TakeChanged` | Source/Components/Interfaces/PrioritySender/PrioritySender.cpp:87-110 | a flagged PV ends where the size at the position it was found puts it, as SizeOrder.TakenIn says of the list before and after |
| `PrioritySending.PrioritySender.SortChanged` | Source/Components/Interfaces/PrioritySender/PrioritySender.cpp:78-112 | the in-place loop over the list is the sorted pass, each PV going down by the size at the position it was found; from an empty window the flagged PVs end first, and are counted |
| `PrioritySending.PrioritySender.CheckBandwidth` | Source/Components/Interfaces/PrioritySender/PrioritySender.cpp:129-143 | the loop computes the number of PVs the byte budget allows |
| `PrioritySending.PrioritySender.Prepare` | Source/Components/Interfaces/PrioritySender/PrioritySender.cpp:69-165 | the first half of a cycle, with its caps, window and resets, is the specified one |
| `PrioritySending.PrioritySender.Dispatch` | Source/Components/Interfaces/PrioritySender/PrioritySender.cpp:168-183 | the copies the threads get address exactly the PVs dispatched, and the index moves past them |
| `PrioritySending.PrioritySender.CycleOnce` | Source/Components/Interfaces/PrioritySender/PrioritySender.cpp:60-211 | a whole cycle of the object is one step of the specified run |
| `PrioritySending.PrioritySender.ClaimShare` | Source/Components/Interfaces/PrioritySender/PrioritySender.cpp:566-576 | a thread claims at the cursor the claims before it left, and moves it on by its quota |
| `Slices.ClaimsFit` | Source/Components/Interfaces/PrioritySender/PrioritySender.cpp:566-576 | claims by different threads never run past what was dispatched, and by all of them are exactly that many |
| `Slices.CursorMoves` | Source/Components/Interfaces/PrioritySender/PrioritySender.cpp:571-575 | the cursor after a claim is the dispatched index plus all claims so far, going round |
| `Slices.SharesAreTheDispatched` | Source/Components/Interfaces/PrioritySender/PrioritySender.cpp:566-576 | for every claim order, the shares one after the other are exactly the dispatched PVs |
| `Slices.SharesDisjoint` | Source/Components/Interfaces/PrioritySender/PrioritySender.cpp:566-576 | no PV is in the shares of two threads, even when not all have claimed |
| `Slices.RequestCompletes` | Source/Components/Interfaces/PrioritySender/PrioritySender.cpp:622-698 | a request whose PVs each fit one record covers the share to its end with a complete record for each connected PV |
| `Slices.OneRecordEach` | Source/Components/Interfaces/PrioritySender/PrioritySender.cpp:581-699 | with maxVarSize at least every size, a thread writes one request with exactly one complete record per connected PV, in order |
| `Completeness.SomeByteIsLost` | Source/Components/Interfaces/PrioritySender/PrioritySender.cpp:629-689 | when the PVs that need several records come last, the quota is filled before all their bytes are written |
| `Completeness.CompleteExactlyWhen` | Source/Components/Interfaces/PrioritySender/PrioritySender.cpp:629-689 | the share of any distinct PVs is written completely in whatever order they come exactly when maxVarSize is at least the size of each |
| `Sending.RequestInside` | Source/Components/Interfaces/PrioritySender/PrioritySender.cpp:629-678 | every record written is of a connected PV and lies inside its value |
| `Sending.WriteFragments` | Source/Components/Interfaces/PrioritySender/PrioritySender.cpp:629-684 | the innermost loop writes the specified records of one PV, or part of them when a write fails, and terminates, for every offset carried over and every maxVarSize |
| `Sending.WriteRequest` | Source/Components/Interfaces/PrioritySender/PrioritySender.cpp:622-698 | the loop over the PVs of a request writes the specified request, or part of it when a write fails, and makes progress |
| `Sending.SendVariables` | Source/Components/Interfaces/PrioritySender/PrioritySender.cpp:579-733 | the outer loop writes the specified requests of the claimed share and terminates; when a write fails it ends with the requests written until then and a part of that one |
| `Sending.ClaimedShare` | Source/Components/Interfaces/PrioritySender/PrioritySender.cpp:571-576 | what a thread finds in the circular list from the cursor is the share of its turn |
| `Barrier.StepKeeps` | Source/Components/Interfaces/PrioritySender/PrioritySender.cpp:53-211 | every step of the loop or a thread keeps: the counter counts the threads of this round, nobody moves while the copies are written, claims are in turn |
| `Barrier.BarrierIsSafe` | Source/Components/Interfaces/PrioritySender/PrioritySender.cpp:63-67 | in every interleaving the event is posted only with the counter at zero and all threads blocked, no thread counts twice in a round, and nobody sends while the copies are written |
| `Barrier.SharesAreExact` | Source/Components/Interfaces/PrioritySender/PrioritySender.cpp:566-576 | in every interleaving a thread about to claim finds its share at the shared cursor; the shares claimed in a round are disjoint parts of the dispatched PVs, and all of them once every thread has claimed |
| `Barrier.RoundDispatches` | Source/Components/Interfaces/PrioritySender/PrioritySender.cpp:168-183 | once every thread is counted the next five steps are the loop's: they let the threads go with copies of that round, the index and number of PVs the loop had when it copied them, and nobody moves meanwhile |
| `Barrier.CopiesAreDated` | Source/Components/Interfaces/PrioritySender/PrioritySender.cpp:168-183 | in every interleaving each of the four copies is of the present round exactly from the step on that writes it, and of an earlier round before |
| `Wakeups.LostForever` | Source/Components/Interfaces/PrioritySender/PrioritySender.cpp:492-496 | a thread that missed the event stays blocked for ever and nothing more is dispatched |
| `Wakeups.RoundCompletesExactlyWhen` | Source/Components/Interfaces/PrioritySender/PrioritySender.cpp:491-516 | from any reachable state the loop can dispatch again exactly when no thread has missed the event |
| `Wakeups.CanStopExactlyWhen` | Source/Components/Interfaces/PrioritySender/PrioritySender.cpp:450-453 | the sender can stop for good exactly when it has more than one pool thread: a thread that counts itself resets the event for one that has not woken yet |
| `Bytes.Le32RoundTrip` | Source/Components/Interfaces/DiodeReceiver/DiodeReceiver.cpp:1000-1012 | the words of a record survive the host's byte order |
| `Records.Encode` | Source/Components/Interfaces/PrioritySender/PrioritySender.cpp:645-678 | a record takes name, value and 27 bytes |
| `Layouts.RecordLayout` | Source/Components/Interfaces/PrioritySender/PrioritySender.cpp:633-678 | each byte of a record by its position: quotes, colon and space round the name, index, type, size and offset with the least significant byte first, value, timestamp, line feed and carriage return |
| `DiodeParser.SkipToQuote` | Source/Components/Interfaces/DiodeReceiver/DiodeReceiver.cpp:892-905 | dropping up to a quote leaves a suffix of the payload |
| `DiodeParser.Resync` | Source/Components/Interfaces/DiodeReceiver/DiodeReceiver.cpp:892-935 | resynchronising leaves a suffix of the payload |
| `DiodeParser.FindName` | Source/Components/Interfaces/DiodeReceiver/DiodeReceiver.cpp:937-977 | the name scan leaves a suffix of the payload, with the end pattern where it says |
| `DiodeParser.LookupNameCuts` | Source/Components/Interfaces/DiodeReceiver/DiodeReceiver.cpp:989-998 | the name looked up ends at the first dot or zero |
| `DiodeParser.Step` | Source/Components/Interfaces/DiodeReceiver/DiodeReceiver.cpp:880-1128 | a step that consumes leaves less, and resolves only indices below the receiver's count |
| `DiodeParser.StepLeavesSuffix` | Source/Components/Interfaces/DiodeReceiver/DiodeReceiver.cpp:880-1128 | on arbitrary bytes a step leaves a suffix of the payload, strictly shorter when it consumes a record |
| `DiodeParser.LoopLeavesSuffix` | Source/Components/Interfaces/DiodeReceiver/DiodeReceiver.cpp:588-631 | on arbitrary bytes the consume loop ends and leaves a suffix of the payload |
| `RoundTrip.StepOnRecord` | Source/Components/Interfaces/DiodeReceiver/DiodeReceiver.cpp:983-1128 | a whole record at the head of any payload is consumed exactly, with its index, type, offset, value and timestamp |
| `RoundTrip.StepOnAnyRecord` | Source/Components/Interfaces/DiodeReceiver/DiodeReceiver.cpp:937-1128 | what becomes of any record whose name has no quote: more than 64 bytes of name are skipped, an index or size the receiver does not have empties the payload, any other record is consumed, under its name up to the first dot |
| `RoundTrip.StepOnPart` | Source/Components/Interfaces/DiodeReceiver/DiodeReceiver.cpp:998-1075 | part of a record is left untouched |
| `RoundTrip.ConsumesWhatWasSent` | Source/Components/Interfaces/DiodeReceiver/DiodeReceiver.cpp:588-631 | draining the bytes of any records consumes exactly those records, in order |
| `RoundTrip.ReceivesWhatWasSent` | Source/Components/Interfaces/DiodeReceiver/DiodeReceiver.cpp:580-640 | for any cut of the bytes into pieces, the records consumed after each are exactly those complete so far, and at the end all of them |
| `Incremental.WholeIsMaximal` | Source/Components/Interfaces/DiodeReceiver/DiodeReceiver.cpp:588-631 | the count of complete records in a prefix is right: the next one is not complete in it |
| `Incremental.RunPrefix` | Source/Components/Interfaces/DiodeReceiver/DiodeReceiver.cpp:580-640 | for any step that recognises the records, after every piece exactly the complete ones are consumed and the beginning of the next is kept |
| `Resynchronisation.OverreadIsHarmless` | Source/Components/Interfaces/DiodeReceiver/DiodeReceiver.cpp:1000-1012 | the byte beyond the payload that the header check lets the parser read decides nothing |
| `Resynchronisation.GarbageChangesNothing` | Source/Components/Interfaces/DiodeReceiver/DiodeReceiver.cpp:892-935 | quote-free garbage before well-formed records changes none of them, for any cut |
| `Resynchronisation.FirstAfterGarbage` | Source/Components/Interfaces/DiodeReceiver/DiodeReceiver.cpp:906-935 | the first record after garbage is received exactly when its name does not look like the end of one |
| `NameSearch.SortIsSortedPermutation` | Source/Components/Interfaces/DiodeReceiver/DiodeReceiver.cpp:400-414 | the insertion sort leaves the names sorted and the same names |
| `NameSearch.BuildTable` | Source/Components/Interfaces/DiodeReceiver/DiodeReceiver.cpp:389-418 | the table is built in place by that sort |
| `NameSearch.FindIsExact` | Source/Components/Interfaces/DiodeReceiver/DiodeReceiver.cpp:755-799 | the search succeeds exactly when the name is in the table, at an index that holds it |
| `NameSearch.GetLocalVariableIndex` | Source/Components/Interfaces/DiodeReceiver/DiodeReceiver.cpp:755-799 | the loop with its two ranges terminates, never looks outside the table, and is that search |
| `NameSearch.CacheIsTransparent` | Source/Components/Interfaces/DiodeReceiver/DiodeReceiver.cpp:1041-1075 | with a sender that keeps its numbering every cached answer is the answer of a fresh search, and a missing name is never cached |
| `NameSearch.CacheIsStaleExactlyWhen` | Source/Components/Interfaces/DiodeReceiver/DiodeReceiver.cpp:1051-1066 | over any run of lookups, from any cache, every answer is that of a fresh search exactly when the names asked of a known index are found there, and an index once found is asked only for names found at the same place |
| `ReceiverStore.RegionsInOrder` | Source/Components/Interfaces/DiodeReceiver/DiodeReceiver.cpp:457-462 | the regions of the PVs follow each other inside the buffer |
| `ReceiverStore.RegionsTile` | Source/Components/Interfaces/DiodeReceiver/DiodeReceiver.cpp:457-462 | every byte of the buffer is in exactly one PV's region |
| `ReceiverStore.FittingRecordIsStored` | Source/Components/Interfaces/DiodeReceiver/DiodeReceiver.cpp:1087-1103 | a record in bounds replaces exactly its bytes of the value, and the timestamp |
| `ReceiverStore.AcceptsExactlyWhen` | Source/Components/Interfaces/DiodeReceiver/DiodeReceiver.cpp:1066-1069 | a record is copied exactly when its size plus offset, in 32 bits, is at most the PV's size, which is not zero |
| `ReceiverStore.UpdateLeaves` | Source/Components/Interfaces/DiodeReceiver/DiodeReceiver.cpp:1087-1115 | in every case what an update leaves of its PV: the record's bytes and timestamp if it is accepted; what the conversion makes of it, with the timestamp kept, if it is not, begins the value and has one of eleven types; the value as it was otherwise; shadow copy and flag follow that value |
| `ReceiverStore.StaysExactlyWhen` | Source/Components/Interfaces/DiodeReceiver/DiodeReceiver.cpp:1066-1069 | all bytes of a record that passes the bounds test are copied into its PV's value exactly when size plus offset is below 2^32 |
| `ReceiverStore.SomeRecordStrays` | Source/Components/Interfaces/DiodeReceiver/DiodeReceiver.cpp:1068-1068 | there is a record the format carries whose bounds wrap and that passes the test |
| `ReceiverStore.StraysBeyond` | Source/Components/Interfaces/DiodeReceiver/DiodeReceiver.cpp:1090-1097 | the bytes of a record that wraps land at the PV's offset plus the record's and on: wholly behind the buffer exactly when that is at its end or later, which is always so while buffer and record together have at most 4 GB |
| `ReceiverStore.SomeRecordReaches` | Source/Components/Interfaces/DiodeReceiver/DiodeReceiver.cpp:1090-1097 | in a larger buffer there is such a record that overwrites the value of another PV |
| `ReceiverStore.OthersUntouched` | Source/Components/Interfaces/DiodeReceiver/DiodeReceiver.cpp:1087-1115 | an update whose record does not reach back into the buffer leaves every other PV's value, timestamp, shadow copy and flag untouched |
| `ReceiverStore.StepKeepsTrack` | Source/Components/Interfaces/DiodeReceiver/DiodeReceiver.cpp:1104-1115 | an update or a snapshot keeps the shadow copy equal to the memory on value bytes, a flag set exactly on a change, and an unflagged PV equal to the last snapshot, exactly when no byte of a record that wraps lands in the value of another PV and differs from the one there |
| `ReceiverStore.MirrorFollows` | Source/Components/Interfaces/DiodeReceiver/DiodeReceiver.cpp:720-737 | over any run of updates and snapshots a reader that takes only the flagged values holds all values of the last snapshot |
| `ReceiverStore.NoUpdateLost` | Source/Components/Interfaces/DiodeReceiver/DiodeReceiver.cpp:720-737 | from the start, over any run, such a reader holds every value of the memory after the next snapshot |
| `ReceiverStore.StartsTracked` | Source/Components/Interfaces/DiodeReceiver/DiodeReceiver.cpp:470-481 | the cleared buffers start that way |
| `Delivery.ConsumeFollows` | Source/Components/Interfaces/DiodeReceiver/DiodeReceiver.cpp:588-631 | the consume loop stores exactly the records it consumes, each where a search for its name leads |
| `Delivery.ServeFollows` | Source/Components/Interfaces/DiodeReceiver/DiodeReceiver.cpp:580-640 | the same after every piece of the body |
| `Delivery.StraysExactlyWhen` | Source/Components/Interfaces/DiodeReceiver/DiodeReceiver.cpp:1087-1103 | whatever the records, no byte is copied outside the value of the PV it is for exactly when none that passes the test wraps |
| `Connections.EveryInterleaving` | Source/Components/Interfaces/DiodeReceiver/DiodeReceiver.cpp:1041-1128 | connections served by threads of their own, each with its payload and all with one store and cache: in every interleaving of their steps what is stored are, connection by connection and in order, the records of its stream, each where a search for its name leads, and cached answers stay right |
| `ServingEnds.EveryScheduleEnds` | Source/Components/Interfaces/DiodeReceiver/DiodeReceiver.cpp:592-625 | serving several connections ends in every interleaving: no schedule is longer than four steps for each byte and piece still to come |
| `ServingEnds.CanBeDone` | Source/Components/Interfaces/DiodeReceiver/DiodeReceiver.cpp:592-625 | and from every state it can go on until all connections are done |
| `ServingEnds.RunRemembers` | Source/Components/Interfaces/DiodeReceiver/DiodeReceiver.cpp:1041-1075 | in every interleaving an index whose lookup has led to a PV is in the cache from then on |
| `Commuting.UpdatesCommute` | Source/Components/Interfaces/DiodeReceiver/DiodeReceiver.cpp:1087-1115 | updates of two PVs, neither of which reaches back into the buffer, leave memory, shadow copy and flags the same in either order |
| `Commuting.OrderDoesNotMatter` | Source/Components/Interfaces/DiodeReceiver/DiodeReceiver.cpp:1087-1115 | storing records for different PVs comes to the same in every order |
| `Commuting.InterleavingIsInTurn` | Source/Components/Interfaces/DiodeReceiver/DiodeReceiver.cpp:1041-1128 | connections whose records are for different PVs: every interleaving leaves the store that serving them one after the other leaves |
| `Replication.CutDoesNotMatter` | Source/Components/Interfaces/DiodeReceiver/DiodeReceiver.cpp:580-640 | the store after a transfer is a function of the records alone, whatever the cut and whatever was cached |
| `Replication.DiodeReplicates` | Source/Components/Interfaces/DiodeReceiver/DiodeReceiver.cpp:548-645 | after any cut of the records' bytes the receiver holds exactly the values and timestamps sent, and is otherwise unchanged |
| `Replication.ChunkedRequestReplicates` | Source/Components/Interfaces/DiodeReceiver/DiodeReceiver.cpp:801-878 | the same for any chunks and any spelling of their sizes, and the service takes exactly the body off the socket |
| `Replication.CountedRequestReplicates` | Source/Components/Interfaces/DiodeReceiver/DiodeReceiver.cpp:576-640 | the same for a body of announced length |
| `EndToEnd.ShareReachesReceiver` | Source/Components/Interfaces/PrioritySender/PrioritySender.cpp:579-699 | what a thread writes for its share is one request, after which the receiver holds for each connected PV of the share the value and timestamp of the sender's copy |
| `LargeValues.PartsMakeTheValue` | Source/Components/Interfaces/PrioritySender/PrioritySender.cpp:629-684 | a value that takes several records is held as the sender copied it, with its timestamp, once they are stored, if the request had room for all of them |
| `LargeValues.LargerIsConverted` | Source/Components/Interfaces/DiodeReceiver/DiodeReceiver.cpp:1098-1106 | a value larger than the receiver's PV is converted from the type the sender gives it, and its timestamp is not taken |
| `Rounds.RoundReachesReceiver` | Source/Components/Interfaces/PrioritySender/PrioritySender.cpp:566-699 | when every thread claims its share and its request is served, then whatever the order of the claims, however the requests are cut, and in every interleaving of the receiver's threads, the receiver holds every connected PV dispatched as the sender's copy has it, and the rest is as before |
| `Rounds.DispatchedArrives` | Source/Components/Interfaces/DiodeReceiver/DiodeReceiver.cpp:548-645 | over several rounds, in every interleaving, a PV dispatched in one of them is held as one of the copies has it |
| `Rounds.EveryPvArrives` | Source/Components/Interfaces/PrioritySender/PrioritySender.cpp:74-205 | when the budget cuts no cycle, in every round every thread claims its share and writes its request, and all requests are served, in whatever interleaving within a round and across rounds, the receiver holds of every connected PV a value and timestamp copied within the last resetCounter + numberOfChunks + 1 cycles |
| `EndToEnd.SnapshotHolds` | Source/Components/Interfaces/EpicsParserAndSubscriber/EpicsParserAndSubscriber.cpp:434-448 | what is sent of a PV from the snapshot is what the thread that owns it keeps for it |
| `EndToEnd.SnapshotIsSendable` | Source/Components/Interfaces/EpicsParserAndSubscriber/EpicsParserAndSubscriber.cpp:505-511 | every PV with a value lies with its timestamp inside the snapshot |
| `Transport.ChunkedExactlyWhen` | Source/Components/Interfaces/DiodeReceiver/DiodeReceiver.cpp:801-878 | a chunked body is read to its end exactly when it is spelled in size lines, data and line ends; HexSizes says which lines are which sizes |
| `Transport.ChunksComeThrough` | Source/Components/Interfaces/DiodeReceiver/DiodeReceiver.cpp:801-878 | any chunks come through with their data, in order, and nothing after them is touched |
| `Transport.UnclosedIsNotParsed` | Source/Components/Interfaces/DiodeReceiver/DiodeReceiver.cpp:592-625 | of a body that breaks off the parser sees the chunks before, each with its closing line, and no part of the one whose bytes or closing line are missing |
| `HexSizes.SizesAreReadBack` | Source/Components/Interfaces/DiodeReceiver/DiodeReceiver.cpp:823-832 | every size below 2^32 is read back from its hexadecimal digits, in either case and with any zeros in front |
| `HexSizes.PlacesCount` | Source/Components/Interfaces/DiodeReceiver/DiodeReceiver.cpp:823-832 | digits in front count sixteen times as much for each place behind them |
| `HexSizes.WrittenChunksComeThrough` | Source/Components/Interfaces/DiodeReceiver/DiodeReceiver.cpp:801-878 | a body in chunks whose sizes are written out so comes through: the pieces are the chunks, and nothing behind them is taken |
| `Transport.CountedExactlyWhen` | Source/Components/Interfaces/DiodeReceiver/DiodeReceiver.cpp:576-587 | a body of announced length is read to its end exactly when that many bytes come |
| `Transport.CountedComesThrough` | Source/Components/Interfaces/DiodeReceiver/DiodeReceiver.cpp:576-587 | a body of announced length comes through whole, in pieces of at most 32 bytes, and nothing after it is touched |
| `RequestBody.ReadNewChunk` | Source/Components/Interfaces/DiodeReceiver/DiodeReceiver.cpp:801-878 | the reader appends exactly the next chunk to the payload, of the size its hexadecimal line says, or fails as specified |
| `RequestBody.ReadBytes` | Source/Components/Interfaces/DiodeReceiver/DiodeReceiver.cpp:836-860 | the read loop takes exactly the bytes announced, over any number of short reads |
| `DiodeReceiver.Layout` | Source/Components/Interfaces/DiodeReceiver/DiodeReceiver.cpp:457-462 | the loop lays out the regions as specified |
| `DiodeReceiver.Synchronise` | Source/Components/Interfaces/DiodeReceiver/DiodeReceiver.cpp:892-935 | the loop that shifts the payload to the next usable quote is the specified resynchronisation |
| `DiodeReceiver.ScanName` | Source/Components/Interfaces/DiodeReceiver/DiodeReceiver.cpp:937-977 | the loop that looks for the end of the name is the specified scan |
| `DiodeReceiver.Server.Snapshot` | Source/Components/Interfaces/DiodeReceiver/DiodeReceiver.cpp:720-737 | the snapshot copies the memory and the flags, and clears the flags |
| `DiodeReceiver.Server.ReadVarNameAndIndex` | Source/Components/Interfaces/DiodeReceiver/DiodeReceiver.cpp:880-1039 | the scan loops over the payload are the specified parser step up to the name |
| `DiodeReceiver.Server.GetLocalIndex` | Source/Components/Interfaces/DiodeReceiver/DiodeReceiver.cpp:1041-1075 | the lookup through the cache is the specified one |
| `DiodeReceiver.Server.StoreRecord` | Source/Components/Interfaces/DiodeReceiver/DiodeReceiver.cpp:1077-1128 | a record's value and timestamp, shadow copy and flag are as specified, and as ReceiverStore.LeftBy says in every case, conversion included |
| `DiodeReceiver.Server.ConsumeRecords` | Source/Components/Interfaces/DiodeReceiver/DiodeReceiver.cpp:588-631 | the consume loop terminates and is the specified one |
| `DiodeReceiver.Server.ClientService` | Source/Components/Interfaces/DiodeReceiver/DiodeReceiver.cpp:548-645 | the service of a request is the specified one over the pieces read |
| `WorkSplit.RangesCover` | Source/Components/Interfaces/EpicsParserAndSubscriber/EpicsParserAndSubscriber.cpp:394-401 | the threads' ranges cover all PVs |
| `WorkSplit.DisjointExactlyWhen` | Source/Components/Interfaces/EpicsParserAndSubscriber/EpicsParserAndSubscriber.cpp:394-401 | two or more threads share no PV exactly when quotient and remainder together reach the number of threads |
| `WorkSplit.OwnerIsTheOnlyOne` | Source/Components/Interfaces/DiodeReceiver/DiodeReceiver.cpp:104-112 | then the owner of PV i is the thread min(i / q, threads - 1) and no other has it |
| `WorkSplit.OffsetFits` | Source/Components/Interfaces/EpicsParserAndSubscriber/EpicsParserAndSubscriber.cpp:484-512 | the offsets a thread gives stay inside the memory it allocates, although unconnected PVs count only in the size |
| `WorkSplit.AddressesItsOwn` | Source/Components/Interfaces/EpicsParserAndSubscriber/EpicsParserAndSubscriber.cpp:546-560 | after the remap a connected PV's offset addresses its own value and timestamp in the concatenated snapshot, within bounds |
| `WorkSplit.RegionsDisjoint` | Source/Components/Interfaces/EpicsParserAndSubscriber/EpicsParserAndSubscriber.cpp:546-560 | the regions of different connected PVs do not overlap |
| `EpicsSubscriber.Subscriber.ThreadRange` | Source/Components/Interfaces/EpicsParserAndSubscriber/EpicsParserAndSubscriber.cpp:394-401 | the range of a thread, inside the PVs |
| `EpicsSubscriber.Subscriber.FillMemorySizes` | Source/Components/Interfaces/EpicsParserAndSubscriber/EpicsParserAndSubscriber.cpp:477-515 | a thread sizes and clears its memory and gives each of its PVs its offset and its pointers for value and timestamp, and touches no other's |
| `EpicsSubscriber.Subscriber.Remap` | Source/Components/Interfaces/EpicsParserAndSubscriber/EpicsParserAndSubscriber.cpp:547-560 | the nested loops add exactly the memories of the threads before the owner |
| `EpicsSubscriber.Subscriber.Initialise` | Source/Components/Interfaces/EpicsParserAndSubscriber/EpicsParserAndSubscriber.cpp:376-432 | in whatever order the threads run, every PV has the pointers the last thread over it gave it, into room of its own, and its offset is behind the memories before its owner; when the ranges are disjoint pointer and offset are the owner's |
| `EpicsSubscriber.Subscriber.GetValueCallback` | Source/Components/Interfaces/EpicsParserAndSubscriber/EpicsParserAndSubscriber.cpp:43-50 | an arriving value is copied to where the PV's pointer leads, in bounds, and the PV is flagged |
| `EpicsSubscriber.Subscriber.GetTimeoutCallback` | Source/Components/Interfaces/EpicsParserAndSubscriber/EpicsParserAndSubscriber.cpp:52-59 | an arriving timestamp is copied to where the PV's second pointer leads, behind its value, and raises no flag |
| `Callbacks.LaidOutWell` | Source/Components/Interfaces/EpicsParserAndSubscriber/EpicsParserAndSubscriber.cpp:503-512 | wherever the threads placed them, connected PVs have room for value and timestamp and do not overlap, even where two ranges do |
| `Callbacks.ValueLands` | Source/Components/Interfaces/EpicsParserAndSubscriber/EpicsParserAndSubscriber.cpp:43-50 | a callback changes the value or timestamp of its PV and of no other |
| `Callbacks.HoldsTheLast` | Source/Components/Interfaces/EpicsParserAndSubscriber/EpicsParserAndSubscriber.cpp:43-59 | over any run of callbacks every connected PV has the value and the timestamp reported last |
| `Placement.RightExactlyWhen` | Source/Components/Interfaces/EpicsParserAndSubscriber/EpicsParserAndSubscriber.cpp:546-560 | a connected PV's remapped offset is the place its pointer leads to exactly when that pointer is into the memory of its owner |
| `Placement.EveryOrderExactlyWhen` | Source/Components/Interfaces/EpicsParserAndSubscriber/EpicsParserAndSubscriber.cpp:546-560 | every connected PV's offset is right, in every order in which the threads may run, exactly when none of them is in the ranges of two threads |
| `Placement.SplitIsRightExactlyWhen` | Source/Components/Interfaces/EpicsParserAndSubscriber/EpicsParserAndSubscriber.cpp:394-401 | with two or more threads and the last PV connected that is exactly when quotient and remainder together reach the number of threads |
| `Diode.SnapshotShows` | Source/Components/Interfaces/EpicsParserAndSubscriber/EpicsParserAndSubscriber.cpp:434-448 | what the sender finds of a PV in a snapshot is what its callbacks find at its pointers |
| `Diode.RoundCarriesReported` | Source/Components/Interfaces/PrioritySender/PrioritySender.cpp:566-699 | a round served in any interleaving leaves the receiver with the value and timestamp reported last, before the snapshot, of every connected PV dispatched |
| `Diode.EveryReportArrives` | Source/Components/Interfaces/PrioritySender/PrioritySender.cpp:60-211 | from the callbacks to the receiver: under the conditions of EveryPvArrives, and with disjoint ranges, the receiver holds of every connected PV the value and timestamp reported last before one of the last resetCounter + numberOfChunks + 1 snapshots |
| `EpicsSubscriber.Subscriber.Synchronise` | Source/Components/Interfaces/EpicsParserAndSubscriber/EpicsParserAndSubscriber.cpp:434-448 | the snapshot is the concatenation of the threads' memories and the flags, which are cleared |
| `ChannelLists.LeaveKeepsLists` | EpicsDiodeChanges/tcpiiu.cpp:1949-1985 | a channel leaves exactly its own list |
| `ChannelLists.UninstallKeepsPlaces` | EpicsDiodeChanges/tcpiiu.cpp:1949-1985 | the total is right after uninstalling exactly when the channel was in a list |
| `ChannelLists.MoveFirstKeepsPlaces` | EpicsDiodeChanges/tcpiiu.cpp:114-163 | a move of the send thread or of a circuit that stops or resumes responding keeps the lists exact and the total |
| `ChannelLists.ConnectingKeepsPlaces` | EpicsDiodeChanges/tcpiiu.cpp:1925-1947 | a connect reply keeps the lists exact, also when the channel's type is not valid |
| `ChannelLists.GoneKeepsPlaces` | EpicsDiodeChanges/tcpiiu.cpp:1773-1834 | a disconnect empties all seven lists and leaves no channel in one |
| `ChannelLists.StepKeepsPlaces` | EpicsDiodeChanges/tcpiiu.cpp:1909-1985 | after every step each installed channel is in exactly one list, the one it names, and the total is the sum of the lengths |
| `ChannelLists.OneMoreNotice` | EpicsDiodeChanges/oldChannelNotify.cpp:81-119 | one more notice keeps the alternation exactly when it tells the user something new |
| `ChannelLists.CallbackTells` | EpicsDiodeChanges/oldChannelNotify.cpp:222-239 | a callback change moves the outstanding I/O of a channel that is not connected, and of no other |
| `ChannelLists.DestroyTells` | EpicsDiodeChanges/oldChannelNotify.cpp:67-79 | destroying a channel gives back its outstanding I/O exactly if it was owed |
| `ChannelLists.DrainedTells` | EpicsDiodeChanges/tcpiiu.cpp:1799-1830 | going through a list on disconnect tells exactly the channels that had been told of a connection |
| `ChannelLists.StepTellsExactlyWhen` | EpicsDiodeChanges/nciu.cpp:116-160 | a step leaves every channel connected exactly as its list says, notices alternating, and the outstanding I/O right, exactly when it did not accept a reply with an invalid native type; after one that did only the agreement with the list fails |
| `ChannelLists.EveryRun` | EpicsDiodeChanges/oldChannelNotify.cpp:46-119 | in every run the lists and the total are exact; unless a reply threw, notices strictly alternate, connected means in a subscription or connected list, and the outstanding I/O is the channels with no callback that are not connected |
| `ListRuns.OneKindOfServer` | EpicsDiodeChanges/tcpiiu.cpp:114-139 | with newer servers no channel is ever connected but by their reply, and with older ones none waits for one |
| `ListRuns.ConnectsInThree` | EpicsDiodeChanges/tcpiiu.cpp:114-151 | a channel at the head of the create list is connected in three steps and its user told once; an older server need not reply |
| `ListRuns.OlderServersGoByTheInstalledType` | EpicsDiodeChanges/tcpiiu.cpp:1909-1923 | the step that connects an older server's channel without a reply throws exactly when the type it was installed with is not valid, and otherwise tells its user |
| `Notices.BadReplyBreaks` | EpicsDiodeChanges/nciu.cpp:116-160 | such a reply tells nobody anything: the count stays right and all notices alternate, but that one channel is in a list of channels whose users were told of a connection |
| `Notices.EveryPointExactlyWhen` | EpicsDiodeChanges/nciu.cpp:116-160 | from the empty circuit on, lists, notices and count agree at every point of a run exactly when no step of it accepts such a reply |
| `Notices.StepNotices` | EpicsDiodeChanges/oldChannelNotify.cpp:81-119 | a step keeps the notices alternating exactly when it tells no user what it was told last: of a disconnect it was not connected for, or of a connect twice |
| `Notices.NoticesExactlyWhen` | EpicsDiodeChanges/oldChannelNotify.cpp:81-119 | from the empty circuit on, all channels' notices alternate at every point of a run exactly when no step repeats one |
| `ChannelLists.GoneIs` | EpicsDiodeChanges/tcpiiu.cpp:1773-1834 | when the circuit goes a channel is told exactly if its list says it was connected, and leaves it |
| `ChannelLists.BadTypeMisleads` | EpicsDiodeChanges/nciu.cpp:122-124 | after such a reply, from every state, the step that disconnects all tells a disconnect without a connect |
| `ChannelLists.SomeUserIsMisled` | EpicsDiodeChanges/nciu.cpp:122-124 | a run from the empty circuit that gets there |
| `TcpCircuit.Circuit.NotifyConnect` | EpicsDiodeChanges/oldChannelNotify.cpp:81-99 | the notification sets the flags, tells the user or gives back the outstanding I/O |
| `TcpCircuit.Circuit.NotifyDisconnect` | EpicsDiodeChanges/oldChannelNotify.cpp:101-119 | the same for a disconnect |
| `TcpCircuit.Circuit.ChangeConnectionEvent` | EpicsDiodeChanges/oldChannelNotify.cpp:222-239 | the nested tests are the specified change of the count |
| `TcpCircuit.Circuit.CreateChannel` | EpicsDiodeChanges/oldChannelNotify.cpp:46-61 | a new channel without a callback adds one outstanding I/O |
| `TcpCircuit.Circuit.DestroyChannel` | EpicsDiodeChanges/nciu.cpp:78-97 | destruction uninstalls the channel and settles its outstanding I/O |
| `TcpCircuit.Circuit.InstallChannel` | EpicsDiodeChanges/tcpiiu.cpp:1909-1923 | installing is the specified step |
| `TcpCircuit.Circuit.UninstallChan` | EpicsDiodeChanges/tcpiiu.cpp:1949-1985 | the switch over the lists, and the total that goes down in every case, are the specified step |
| `TcpCircuit.Circuit.ConnectNotify` | EpicsDiodeChanges/tcpiiu.cpp:1925-1947 | a reply is expected exactly in the two awaiting lists, and moves the channel then |
| `TcpCircuit.Circuit.Connect` | EpicsDiodeChanges/nciu.cpp:116-160 | an invalid native type throws before anything is recorded |
| `TcpCircuit.Circuit.SendCreates` | EpicsDiodeChanges/tcpiiu.cpp:114-139 | the loop moves channels from the front, in order, and leaves none unless labor is pending |
| `TcpCircuit.Circuit.SendSubscriptions` | EpicsDiodeChanges/tcpiiu.cpp:141-151 | the same for the channels waiting to subscribe |
| `TcpCircuit.Circuit.SendUpdates` | EpicsDiodeChanges/tcpiiu.cpp:153-163 | the same for the channels waiting to update |
| `ListRuns.LoopIsRun` | EpicsDiodeChanges/tcpiiu.cpp:114-163 | a loop that moves some channels is the step of the lists that moves one, taken that many times |
| `TcpCircuit.Circuit.UnresponsiveCircuitNotify` | EpicsDiodeChanges/tcpiiu.cpp:893-935 | the first notification moves and tells every connected channel, a second one does nothing |
| `TcpCircuit.Circuit.ResponsiveCircuitNotify` | EpicsDiodeChanges/tcpiiu.cpp:855-871 | the first answer after that moves and tells them all back, a second one does nothing |
| `TcpCircuit.Circuit.DisconnectAllChannels` | EpicsDiodeChanges/tcpiiu.cpp:1773-1834 | the seven loops are the specified disconnect |
| `Framing.CutIndependent` | EpicsDiodeChanges/tcpiiu.cpp:1144-1253 | for any machine that takes whole messages, where it ends does not depend on how the bytes were cut |
| `CaProtocol.FindHeader` | EpicsDiodeChanges/camessage.c:2551-2581 | a header is found only when all of it is there |
| `CaProtocol.HeaderStays` | EpicsDiodeChanges/camessage.c:2551-2581 | a header found stays the same whatever follows |
| `CaProtocol.HeaderComesBack` | EpicsDiodeChanges/camessage.c:2558-2581 | a header written in short or extended form comes back field by field |
| `Layouts.MessageLayout` | EpicsDiodeChanges/camessage.c:2551-2581 | each number of a header by its position, most significant byte first, in the short and the long form, and the body behind it |
| `CaProtocol.FindsEncoded` | EpicsDiodeChanges/camessage.c:2558-2581 | so does the body, of exactly the announced size |
| `Responses.ReadingIsStable` | EpicsDiodeChanges/tcpiiu.cpp:1144-1253 | the client takes a response for what it is, whatever follows it |
| `Responses.ExecutesWhatWasWritten` | EpicsDiodeChanges/tcpiiu.cpp:1138-1253 | for any cut of the stream the client executes exactly the responses written whose body fits the larger buffer, in order, each with its own header and body, under either header, until one is not accepted; what that leaves is the fold of the client's responses over them |
| `Responses.ExecutesExactlyTheFitting` | EpicsDiodeChanges/tcpiiu.cpp:1199-1247 | the same of a list of responses, whichever are accepted |
| `Responses.SkipsTheOversized` | EpicsDiodeChanges/tcpiiu.cpp:1199-1247 | exactly the responses whose body fits the larger buffer are executed, the others skipped by exactly their length |
| `Responses.LargeExactlyWhen` | EpicsDiodeChanges/tcpiiu.cpp:1199-1215 | the large body buffer replaces the small one exactly when one of the responses needs it and fits it |
| `Responses.MisalignedEnds` | EpicsDiodeChanges/tcpiiu.cpp:1189-1197 | a response whose size is no multiple of 8 is not executed, and neither is anything after it: the circuit goes down with what came before executed, for any cut |
| `ResponseReading.Reader.FetchHeader` | EpicsDiodeChanges/tcpiiu.cpp:1149-1171 | the two parts of a header are fetched across calls as far as the queue goes |
| `ResponseReading.Reader.FetchBody` | EpicsDiodeChanges/tcpiiu.cpp:1215-1246 | a body is taken, or thrown away, as far as the queue goes and never further than it is long |
| `ResponseReading.Reader.ProcessIncoming` | EpicsDiodeChanges/tcpiiu.cpp:1138-1253 | the loop with its state across calls ends where the specified machine settles |
| `ResponseReading.Reader.Receive` | EpicsDiodeChanges/tcpiiu.cpp:1138-1253 | a receive is the machine serving one more piece |
| `ResponseReading.Reader.ReceiveAll` | EpicsDiodeChanges/tcpiiu.cpp:460-526 | the receive loop over any pieces is the machine serving them, until one cannot be processed |
| `Requests.ServingIsStable` | EpicsDiodeChanges/camessage.c:2545-2659 | the server takes a request for what it is, whatever follows it |
| `Requests.DispatchesWhatWasWritten` | EpicsDiodeChanges/camessage.c:2545-2659 | for any cut of the stream the log grows by exactly the requests written whose header and body fit the buffer as it has grown by then, in order, until one is refused; handler and version are the fold of the handlers over exactly those, each with its own header and body |
| `Requests.DispatchesExactlyTheFitting` | EpicsDiodeChanges/camessage.c:2585-2659 | the same of a list of requests, whichever are refused |
| `Requests.MisalignedEnds` | EpicsDiodeChanges/camessage.c:2583-2594 | a request whose size is no multiple of 8 is not dispatched, and neither is anything after it: the client is dropped with what came before dispatched, for any cut |
| `ServerFraming.Client.Drain` | EpicsDiodeChanges/camessage.c:2530-2541 | an oversized message is thrown away by exactly its size across calls |
| `ServerFraming.Client.StartDraining` | EpicsDiodeChanges/camessage.c:2602-2617 | the size is at least the bytes left, so the count to drain is not negative, and the position does not pass the count |
| `ServerFraming.Client.OneMessage` | EpicsDiodeChanges/camessage.c:2545-2658 | one turn of the loop takes the specified request, waits, or refuses |
| `ServerFraming.Client.Camessage` | EpicsDiodeChanges/camessage.c:2521-2662 | the call ends where the specified machine settles, which Requests.DispatchesWhatWasWritten says what dispatches, the position never past the count, with room to receive more |
| `ServerFraming.Client.Receive` | EpicsDiodeChanges/camessage.c:2521-2662 | a call that appends what was received, and compacts afterwards, is the machine serving one more piece |
| `ServerFraming.Client.ReceiveAll` | EpicsDiodeChanges/camessage.c:2521-2662 | over any receives, each of no more than there is room for, the server is the machine serving those pieces, and what it has not taken is left |
| `RequestCodec.SizeIsBounded` | EpicsDiodeChanges/comQueSend.cpp:369-384 | the size of an accepted request's values fits 32 bits with room for padding |
| `RequestCodec.ValuesComeBack` | EpicsDiodeChanges/comQueSend.cpp:330-412 | the server's conversion of the payload gives the values of the caller back |
| `RequestBytes.KnownExactlyWhen` | EpicsDiodeChanges/comQueSend.cpp:330-345 | a request is refused as of a bad type exactly when its type is none of 0 to 6, 35 and 36 |
| `RequestBytes.AcceptedExactlyWhen` | EpicsDiodeChanges/comQueSend.cpp:346-385 | otherwise it is accepted exactly when a single text ends within 40 bytes, and the bytes of several values leave room for eight more and two values |
| `RequestBytes.HeaderIsShortWhenItCan` | EpicsDiodeChanges/comQueSend.cpp:296-325 | a request has the extended header exactly when the short one cannot say its size or its number of values |
| `RequestBytes.ValuesInNetworkOrder` | EpicsDiodeChanges/comQueSend.cpp:132-150 | for each type with its size written out, byte k of value j is pushed as byte size - 1 - k of it, at its place behind the header |
| `RequestBytes.TextsAsTheyAre` | EpicsDiodeChanges/comQueSend.cpp:344-358 | texts are pushed as they are: one up to its end, several with 40 bytes each |
| `RequestBytes.StampAndPadding` | EpicsDiodeChanges/comQueSend.cpp:396-410 | behind the values come the timestamp, from the next group of eight of the caller's memory, and zeros to a whole group |
| `RequestCodec.DecodesExactlyWhen` | EpicsDiodeChanges/comQueSend.cpp:281-328 | an accepted request comes out of the server's decoder as it went in, header and values, with a payload of the announced size, a multiple of eight; except exactly when a timestamp makes the announced size wrap |
| `RequestCodec.SomeWriteWraps` | EpicsDiodeChanges/comQueSend.cpp:287-289 | the encoder accepts a request whose announced size wraps |
| `RequestCodec.SwappedTwice` | EpicsDiodeChanges/comQueSend.cpp:112-135 | values put in network order and read from it come back |
| `RequestCodec.TimestampSeenExactlyWhen` | EpicsDiodeChanges/camessage.c:819-826 | the server's test for a timestamp is right exactly when there is one and the values are one text or fill whole groups of eight bytes |
| `RequestCodec.StampReadRightExactlyWhen` | EpicsDiodeChanges/camessage.c:819-876 | the timestamp is read where it was written exactly unless the values are a text of less than 40 bytes, and inside the payload exactly unless they are one of at most 32 |
| `RequestCodec.ComQueSend.InsertRequestHeader` | EpicsDiodeChanges/comQueSend.cpp:281-328 | the header is pushed in the form its size and count need, or refused |
| `RequestCodec.ComQueSend.InsertPayload` | EpicsDiodeChanges/comQueSend.cpp:396-410 | values, timestamp and padding are pushed in that order |
| `RequestCodec.ComQueSend.InsertRequestWithPayLoad` | EpicsDiodeChanges/comQueSend.cpp:330-412 | the whole request is pushed as specified, or refused |
| `PutNotify.StepKeeps` | EpicsDiodeChanges/camessage.c:1461-1565 | every step of the request task, the database and the event task keeps the queue, the flags and the account of requests |
| `PutNotify.EveryRequestAnsweredOnce` | EpicsDiodeChanges/camessage.c:1801-1896 | in every interleaving a queued notify is busy and marked, no double callback is found, every accepted request is answered once or still pending, and accepted minus answered is the number of busy notifies |
| `PutNotify.NoneRefusedWithoutTimeout` | EpicsDiodeChanges/camessage.c:1806-1845 | in every interleaving a request waits for the channel's busy notify, and none is refused unless such a wait timed out |
| `PutNotify.TimeoutRefusesTheOld` | EpicsDiodeChanges/camessage.c:1812-1843 | when one does and the channel stays busy, the request that held it is answered, the notify is free and off the queue, and the new request goes on |
| `PutNotify.AnsweredInOrder` | EpicsDiodeChanges/camessage.c:1461-1565 | as long as no wait times out, in every interleaving requests are answered in the order the database completed them; those not answered yet are the last it completed |
| `PutProgress.RunKeepsBacked` | EpicsDiodeChanges/camessage.c:1806-1896 | in every interleaving a busy notify that is not queued is with the database or in the hands of the request task |
| `PutProgress.CanAnswerAll` | EpicsDiodeChanges/camessage.c:1461-1896 | from every such state, without a new request and without a timeout, the tasks can reach an end at which every accepted request is answered, and the one in hand is accepted and answered too |
| `PutProgress.NeverBlocked` | EpicsDiodeChanges/camessage.c:1801-1896 | so they can at every point of every interleaving, and then a request for any channel can be answered like those before |
| `CasPutNotify.Notifies.WriteNotifyDone` | EpicsDiodeChanges/camessage.c:1461-1494 | the callback queues the notify as specified, and the branch for a second call back of the same put is never taken |
| `CasPutNotify.Notifies.WriteNotifyReply` | EpicsDiodeChanges/camessage.c:1500-1565 | the loop answers the requests of all queued notifies, in the order the database was done with them, and leaves the queue empty |
| `CasPutNotify.Notifies.TakeBack` | EpicsDiodeChanges/camessage.c:1822-1843 | after a timeout a notify that is still busy is taken off the queue if it is there, and its request is answered exactly then |
| `ServerChannels.StepKeeps` | EpicsDiodeChanges/camessage.c:1153-1173 | every step keeps the channels in the lists their states say, one create response each, and the rights told |
| `ServerChannels.EveryRun` | EpicsDiodeChanges/camessage.c:1576-1606 | in every interleaving, with the lock free, a channel is in the list its state says, is answered at most once, and once in service with no report to come has told its client its rights |
| `ServerChannels.ClearKeeps` | EpicsDiodeChanges/camessage.c:2069-2091 | a channel to be cleared is past its zeroed state, so the strange-state branch is not taken, and ends shut down and in neither list |
| `ServiceProgress.CanServeAll` | EpicsDiodeChanges/camessage.c:1137-1173 | from every state, access security active or not, the request task, the callbacks and the event task can bring every channel that was not cleared into service, answered once and with its rights told |
| `ServiceProgress.NewChannelIsServed` | EpicsDiodeChanges/camessage.c:1290-1455 | so a channel created in any state can be, with the rights it has then, and its callback is registered exactly when access security is active |
| `ServiceProgress.ChangeIsTold` | EpicsDiodeChanges/camessage.c:1576-1606 | after a change of rights the client can be told the new ones |
| `ServiceProgress.GoneForGood` | EpicsDiodeChanges/camessage.c:2061-2091 | a channel that was cleared stays as it is in every run: in no list, told nothing, and unknown to access security |
| `CasClient.Channels.CreateChannel` | EpicsDiodeChanges/camessage.c:1123-1126 | a new channel awaits its response in the plain list |
| `CasClient.Channels.AccessRightsCB` | EpicsDiodeChanges/camessage.c:1153-1173 | a changed right moves the channel to the pending list, with the state that says so, and leaves it if it is there already |
| `CasClient.Channels.SendAllUpdateAS` | EpicsDiodeChanges/camessage.c:1576-1606 | every pending channel is told in order and goes back into service, the corrupt-state branch is never taken, and none is left pending |
| `CasClient.Channels.ClearChannel` | EpicsDiodeChanges/camessage.c:2069-2091 | clearing takes the channel off the list it is in and shuts it down; the strange-state branch is never reached |

## Left out

- Sockets, HTTP headers, keep-alive, replies, connecting and retrying, sleeps and cycle times: calls into libraries. HttpChunkedStream and the MARTe2 stream classes are not part of this model; a stream is its bytes.
- XML tokenising and configuration: the model starts from a list of names and from the numbers configured. PrioritySender.cpp:370-372 leaves SendOnlyChanged at zero for every configuration; the model allows both values, and `Waiting.NobodyStarvesExactlyWhen` is stated for zero.
- Sizes and offsets are mathematical integers where the code adds 32-bit words of one configuration; the wraps of a received record's bounds (`ReceiverStore.Sum32`) and of an announced request size (`RequestCodec.AnnouncedSize`) are modelled, that of a CA message size within 24 bytes of 2^32 is not. Of a record that wraps, what lands in the buffer is followed; what lands behind it is memory the model does not have.
- StringHelper::Compare is any total order of names; TypeConvert is any function of the PV's value that keeps its size.
- A chunk size line the library cannot convert gives whatever number the fallback parameter says; when a size line holds nothing but line ends, DiodeReceiver.cpp:818-820 goes on to look at the byte before it, and the model stops there.
- Copies within the payload buffer that overlap are treated as shifts.
- Several receiver threads putting values: only the first snapshots, the others read the copies without a lock.
- What a timestamp means: the value and the timestamp callbacks are separate, and the CA patch reads the timestamp from the aligned end of the values.
- `Sending.SendVariables`: a record is one write, which may fail after any of its bytes, where the code has eight in a row that are skipped after one fails. Its bytes come from a function of the copied memory, since the source writes them without a branch.
- `PrioritySending.PrioritySender.CycleOnce`: takes the preparation and the dispatch as one step; between them only pool threads move, which Barrier models. The diagnostics and the copied memory are not fields of the object.
- `Barrier.BarrierIsSafe`: quit stays zero; stopping is not modelled. A failed thread counts itself when it closes its connection and again after it has reconnected, as in the code, without having sent.
- `EpicsSubscriber.Subscriber.Initialise`: runs the threads one after the other, in any order; two threads that fill a PV of both their ranges at the same time are not interleaved, and callbacks begin when all are done. With fewer PVs than threads the remap divides by zero, which the requirement excludes. Allocation does not fail.
- `Rounds.EveryPvArrives`: a thread keeps one connection, so its requests are served in the order it sends them; a round in which a thread fails is not covered, since its share is then not sent. In `Connections` reading the cache, searching and entering what was found, storing a record and taking a piece are one step each; the receiver's own snapshots, which only clear the flags, are not among the steps.
- `Diode.EveryReportArrives`: the snapshot of a round is taken before its copies are made, and reports that come in between are part of a later one. Which of the last snapshots it was is not said: a receiver thread may be behind the others.
- `ServerFraming.Client.ReceiveAll`: camsgtask.c, which calls recv, is not part of this model; the loop takes what there is room for and ends when a call refuses.
- `Wakeups.RoundCompletesExactlyWhen`: the event is taken to be level-triggered, so a thread that waits when it is posted and has not run yet misses it if it is reset before; EventSem is not part of this model.
- Put notifies: the database calls back at most once for each put it was given; dbNotify is not part of this model.
- `ChannelLists.EveryRun`: cac.cpp and udpiiu.cpp are not part of this model; that a channel is connected when its reply was expected, and that a channel taken off a circuit loses its type and its list, is taken from the calls in tcpiiu.cpp and nciu.cpp. Service shutdown (tcpiiu.cpp:1836-1907) is left out. A run may mix the moves of several notifications; each loop of the objects is a run of moves (`ListRuns.LoopIsRun`), without callbacks that change the lists while it goes on.
- Outstanding I/O is one count: the sequence number of ca_client_context, which is not part of this model, is taken to stay the same.
- `ResponseReading.Reader.ProcessIncoming`: allocating the large buffer does not fail; flush requests on the way out are left out.
- `ServerFraming.Client.Camessage`: TCP only; the buffer keeps or grows its capacity when asked to expand. An error the server sends for an oversized message is left out.
- `RequestCodec.ValueBytes`: a type without a copy routine is refused as a bad type whatever its count; the code may refuse a very large count of it as out of bounds first, or after pushing a header that the caller takes back.
- comBuf and the send queue's buffers are a byte sequence.
- Put notifies: a request the server refuses before it marks the notify busy is left out, and so is clearing a channel with a put notify outstanding.
- `ServerChannels.EveryRun`: clients of version 4.4 and later only, whose channels are created by the claim request; event subscriptions are left out.
- Stop and quit sequences, destructors, diagnostics, CPU masks, recGbl.c, the startup programs and the tests of components that are not in the repository.
