# A verified model of golang-ccb

golang-ccb is a connection broker. Two of its parts carry the weight, and this project models both.

**The filesystem byte pipe (`transport/fstun`).** A reliable, ordered, full-duplex byte pipe carried by
append-only segment files in a shared directory. Each direction is a log of frames; the writer rolls to a
new segment with a ROLL frame and unlinks a segment once the peer has acknowledged it; acknowledgements
travel in the opposite direction's log; a sliding window holds the writer back. The model is a step system
of two endpoints. Every section the source runs under one lock is one step, so the interleavings are those
of the writing, reading, receiving and maintenance goroutines on both sides, with every schedule of partial
visibility. The checksum is a parameter: every result holds for every function from bytes to 32 bits.

**The broker.** Registration with reconnect records and their persistence, the proxy rendezvous, and
recursive routing through a tree of brokers.

What is proved, over every run unless it says otherwise:

- What Read returns is a prefix of what the other side's Write accepted (`Pipes.Delivery`), and the reader
  never meets a frame it cannot accept, however the bytes become visible (`Pipes.ReaderNeverFails`).
- Flow-control counters stay ordered and never wrap (`Pipes.FlowInOrder`, `Pipes.AcksAreRunningMaximum`), and
  the backlog on disk is bounded (`Pipes.BoundedBacklog`).
- Unlinked segments are a prefix, and every byte in them has been returned (`Pipes.ReapSafety`).
- *Everything sent can still be delivered* is **false** of the code. A segment that a control frame made roll
  records no slack, so it can be unlinked while the reader is still in it or before it. `Scenes.StrandedRun`
  is a run that does so after the handshake, with a one-byte payload and two heartbeats, on either kind of
  filesystem; `Reach.StrandedForever` shows that no later segment is ever read. The exact conditions:
  `Drain.DeliverableIff` says where the reader must stand; `Drain.ReachKnownIff` what the writer must have
  seen acknowledged to be sure of it; and `Drain.ReapSafeIff` which segments can be reaped as soon as their
  recorded end is acknowledged: those that a DATA frame made roll and, on a local filesystem only, those that
  hold a DATA frame. `Reach.DeliverableInEveryRun` and `Reach.SafeRollDelivers` carry them to every run.
- *Flow control never deadlocks* is therefore **false** as well. A blocked sender always has something to wait
  for (`Pipes.BlockedHasCause`), but it may be data that can never be taken. `Unblock.UnblockIff` says exactly
  when some run gives a blocked sender of a healthy pipe room again: the peer's reader is within reach of its
  log; its own reader is within reach of the peer's, or holds an acknowledgement that gives it room; and the
  two are not wedged, each about to reap with a late acknowledgement before it can read on, so that whichever
  does so first puts the other out of reach. `Crossed.CrossedDeadlock` is a run to such a wedge, with both ends
  healthy and within reach of each other. Room is all this is about: a reader that is cut off sees no frame any
  more, so its end fails with the idle timeout and falls silent, the other end follows, and a waiting Write
  returns an error.
- When the acceptor closes its end, its whole subtree is removed. `Removal.RemovalLosesIff` says exactly when
  what it wrote can still be taken. The initiator's Close has no such effect.
- Bytes that no writer wrote fail the pipe exactly when they cannot be a frame (`Frames.CorruptIff`,
  `SegLog.TryDecodeIff`, `SegFiles.SegReader.Next`, `Faults.FailsIff`), and for good (`Faults.FailureStays`).
- Segments are rolled only when full (`Pipes.RollsOnlyWhenFull`).
- The batching reconnect store refines the simple one (`Store.RefinesReference`), times cut to the second
  (`Store.ReloadsReference`).
- A target gets its id and cookie back exactly when no sweep dropped its record (`Reconnect.SameIdIff`), and
  no one else gets them without the cookie (`Reconnect.NoCookieNoId`).
- Ids never repeat and cookies never change within a process (`Registry.FreshIdIsNew`, `Registry.RunKeeps`);
  after a crash ids never repeat exactly under the condition of `Registry.CrashRepeatsIff`.
- *A clean restart lets the same reconnects succeed* is **false** of the code, because the store is told outside
  the lock: in `Persist.ExitCrossesSweep` the call of a handler's exit, late by more than the time records are
  kept, arrives after that of the sweep that dropped the record, and a reconnect succeeds after the restart
  that the running broker would refuse. It holds throughout a run if and only if no sweep drops an id for which
  a Put is outstanding (`Persist.RestartIff`); `Persist.CleanRestart` carries it through the close and the
  reload. That whole records are equal, times included, has its own exact condition (`Persist.InStepIff`).
- *A connected target stays registered* is **false** of the code: `Registry.OverlapUnregisters` is a run,
  `Registry.RegisteredIff` the exact condition.
- Spliced pairs form a one-to-one matching with equal connect ids (`Rendezvous.Matching`), and
  `Meetings.SplicedIff` says which events of a run put a pair there. A nested contact reaches exactly the
  registrant it was stamped on (`Routing.ContactReachesItsRegistrant`).

## Layout

| file | content |
|---|---|
| `Bytes.dfy`, `Seqs.dfy`, `Text.dfy`, `Options.dfy` | big-endian integers; concatenation; decimal numbers and words; optional values |
| `Frames.dfy` | the wire format and its codec |
| `SegLog.dfy` | one direction's log: writer, reader, and what each step keeps |
| `Endpoints.dfy` | one end: the connection's fields, its goroutines, and their atomic sections |
| `PipeInv.dfy`, `Pipes.dfy` | the two-endpoint invariant and the results about every run |
| `Calls.dfy`, `Faults.dfy` | what each call of an end comes to, in every run; failure and closing, and that they last |
| `Drain.dfy`, `Reach.dfy` | when a reader can still take everything: of one log, and over runs |
| `Progress.dfy`, `Wedge.dfy`, `Unblock.dfy` | what an end can do alone; two ends that hold each other up; exactly when a blocked sender can be unblocked |
| `Removal.dfy` | what the removal of a subtree loses |
| `Scenes.dfy`, `Crossed.dfy` | the run that strands a reader; the run that ends in a deadlock of both ends |
| `SegFiles.dfy`, `Connection.dfy` | the writer, reader and connection as objects, tied to the functions above |
| `Store.dfy`, `Registry.dfy` | the reconnect stores; registration and reconnection |
| `Reconnect.dfy`, `Persist.dfy` | who keeps its id, and for how long; the store behind the table and restarts |
| `Rendezvous.dfy`, `Meetings.dfy` | the proxy rendezvous; which requester and target a run splices |
| `Routing.dfy` | nested contacts and routes |
| `Listener.dfy` | the acceptor that engages and removes tunnels |

Where the documentation and the code disagree, the model follows the code: each side uses its own window and
acknowledgement threshold (docs/TRANSPORTS.md section 4.4 speaks of a minimum of both); a checksum mismatch
on a fully present frame is fatal at once (section 4.2 waits for a later valid frame); and a FIN triggers no
acknowledgement (section 4.5 says it does).

## Model

| member | source | states |
|---|---|---|
| Bytes.GetPut | transport/fstun/params.go:8-32 | a number that fits the width survives encoding and decoding |
| Bytes.PutGet | transport/fstun/params.go:8-32 | every byte string of the width is the encoding of the number it decodes to |
| Bytes.BigEndian | transport/fstun/params.go:8-32 | the first of n bytes is the most significant: it has weight 256 to the n - 1 |
| Bytes.PutUintAt | transport/fstun/frame.go:88-90 | filling in place writes the big-endian bytes and changes nothing around them |
| Frames.FillHeader | transport/fstun/frame.go:85-90 | the header array filled field by field is the 22-byte header |
| Frames.AppendTo | transport/fstun/frame.go:84-101 | the encoder extends the buffer by exactly header, payload and checksum |
| Frames.Layout | transport/fstun/frame.go:84-101 | every field of an encoded frame lies at its own offset, and the checksum covers exactly the header and the payload |
| Frames.DecodePrefix | transport/fstun/frame.go:111-141 | any cut of a stream that starts with a frame decodes to that frame once whole, as incomplete before, never as corrupt |
| Frames.DecodeExact | transport/fstun/frame.go:84-141 | decoding yields a frame if and only if the bytes used are that frame's encoding and the frame is in range |
| Frames.CorruptIff | transport/fstun/frame.go:111-141 | a buffer is refused as corrupt if and only if its length field exceeds 1 MiB, or the whole frame it announces is there and no frame is encoded there; it is incomplete if and only if it is shorter than the frame it announces |
| Frames.DecodeAllPrefix | transport/fstun/frame.go:103-141 | a stream of frames cut at any byte decodes to exactly the frames whole before the cut |
| Frames.DecodeAllEncoded | transport/fstun/frame.go:103-141 | decoding the concatenation of encoded frames returns exactly those frames |
| Frames.SynExact | transport/fstun/params.go:50-69 | a SYN payload decodes to parameters if and only if it is their encoding and they fit their fields |
| Endpoints.Resolve | transport/fstun/config.go:109-134 | positive settings are kept, the frame size at most 1 MiB; the defaults are 128 MiB, 8 MiB and 256 KiB; the filesystem is the one set, or else the one detected |
| SegLog.AppendIff | transport/fstun/seglog.go:68-136 | a frame is added to the current segment if it keeps it within the roll size; otherwise, and only then, the segment is closed with a ROLL naming the next one, which starts with the frame, and the end is recorded |
| SegLog.AppendKeeps | transport/fstun/seglog.go:68-136 | a log stays frames in order, one final ROLL per closed segment, segments within the roll size but for a single frame, each closed only by a frame that would have exceeded it, and recorded ends that count the DATA up to and including the frame that caused each roll |
| SegLog.SegmentsFill | transport/fstun/seglog.go:76-80 | frames that fit the roll size are in one segment; otherwise every two segments hold more than the roll size between them |
| SegLog.ReapKeeps | transport/fstun/seglog.go:138-153 | reaping removes a prefix of the closed segments, exactly those whose recorded end is covered, and keeps the log |
| SegLog.AppendKeepsReader | transport/fstun/seglog.go:68-96 | the reader's position and carry-over stay exact through every append and roll |
| SegLog.FillKeeps | transport/fstun/seglog.go:253-285 | reading any further visible part keeps: encodings of the frames taken, then the carry-over, are the bytes read |
| SegLog.TryDecodeIff | transport/fstun/seglog.go:222-237 | on any bytes: a decode fails if and only if they are corrupt or start with a ROLL that is not four bytes; it returns a frame if and only if that frame is encoded at their front and is no ROLL, and drops exactly its bytes |
| SegLog.TryDecodeRefines | transport/fstun/seglog.go:222-246 | one decode takes exactly the next frame appended, or follows the segment's ROLL after its last byte, or waits; never fails |
| PipeInv.EmitKeeps | transport/fstun/conn.go:214-228 | emitting a control frame, or DATA within the window, keeps the two-endpoint invariant |
| PipeInv.WriteWaitKeeps | transport/fstun/conn.go:232-264 | the room granted to Write keeps the invariant: using it cannot overrun the window |
| PipeInv.WriteChunkKeeps | transport/fstun/conn.go:141-162 | one DATA frame of a Write keeps the invariant, or is refused once the send side is closed |
| PipeInv.ReadSomeKeeps | transport/fstun/conn.go:105-115 | a Read of buffered bytes moves them from taken to returned in order |
| PipeInv.AckCheckKeeps | transport/fstun/conn.go:267-277 | the decision whether to acknowledge keeps what is unacknowledged below a quarter of the window |
| PipeInv.AckEmitKeeps | transport/fstun/conn.go:279-280 | an emitted ACK never exceeds what Read has returned, even when two goroutines' ACKs cross |
| PipeInv.AckRecordKeeps | transport/fstun/conn.go:280-286 | the recorded acknowledgement never exceeds the ACK frames in the log |
| PipeInv.ControlEmitKeeps | transport/fstun/conn.go:164-177 | heartbeats and the FIN of Close keep the invariant |
| PipeInv.RecvDecodeKeeps | transport/fstun/conn.go:291-341 | taking and dispatching the peer's next frame keeps the invariant and never fails the pipe |
| PipeInv.DispatchKeeps | transport/fstun/conn.go:335-367 | dispatch of any frame kind keeps the invariant |
| PipeInv.RecvReapKeeps | transport/fstun/conn.go:342-351 | reaping with a recorded acknowledgement keeps the invariant |
| PipeInv.ActKeeps | transport/fstun/conn.go:105-408 | every step of every goroutine of either end keeps the invariant |
| PipeInv.Ordering | transport/fstun/conn.go:45-58 | acknowledged is at most returned, and returned with buffered is a prefix of written |
| Pipes.RunOk | transport/fstun/dial.go:37-79 | the invariant holds after every run from the point where both SYNs are written |
| Pipes.Delivery | transport/fstun/conn.go:105-162 | end-to-end delivery in both directions after every run: no loss, duplication or reordering |
| Pipes.FlowInOrder | transport/fstun/conn.go:214-264 | acknowledged, returned, taken, sent in that order, at most a window apart, and the receive buffer within the sender's window |
| Pipes.FramesNumbered | transport/fstun/conn.go:214-228 | the k-th frame of a direction carries number k and the DATA total before it |
| Pipes.AcksAreRunningMaximum | transport/fstun/conn.go:342-348 | the acknowledgement acted on is the highest taken in any order, and no unsigned subtraction wraps |
| Pipes.ReaderNeverFails | transport/fstun/seglog.go:207-247 | under every schedule of visibility, rolls and reaps the reader takes the frames in order and never fails |
| Pipes.EofAfterAllData | transport/fstun/conn.go:116-124 | Read reports end-of-file only after a FIN, with every byte sent before any FIN taken already returned |
| Pipes.BlockedHasCause | transport/fstun/conn.go:230-287 | a blocked sender has data not yet returned, or an ACK coming, or a receiver whose next tick acknowledges; no tick is needed when a quarter of the receiver's window is at most the sender's, its Read is through with its own acknowledgement and its send side is open |
| Pipes.TickAcknowledges | transport/fstun/conn.go:384-408 | the tick of a receiver that has returned everything puts an ACK for all of it in its log |
| Pipes.ReapSafety | transport/fstun/seglog.go:121-153 | unlinked segments are a prefix, all their bytes have been returned, and the reader has left each one whose roll a DATA frame caused |
| Pipes.BoundedBacklog | transport/fstun/conn.go:342-351 | DATA on disk stays within a window, a segment and a frame, or two windows between recording an ACK and reaping with it |
| Pipes.SegmentsClosedWell | transport/fstun/seglog.go:76-136 | the bytes of every closed segment decode to at least one ordinary frame and one final ROLL naming the next index, within a size bound |
| Pipes.RollsOnlyWhenFull | transport/fstun/seglog.go:76 | after every run, in both directions: each closed segment would have exceeded the segment size with the frame that opened the next, so frames that fit one segment are in one and the number of segments is bounded by the bytes written |
| Faults.DecodeFailsIff | transport/fstun/conn.go:305-320 | whatever bytes the directory holds, the receive loop fails if and only if the carry-over is corrupt, starts with a bad ROLL, or with an ERROR frame |
| Faults.FailsIff | transport/fstun/conn.go:369-395 | an end is failed after a step if and only if it was before, the idle timeout struck, or the receive loop met one of these |
| Faults.FailureStays | transport/fstun/conn.go:369-382 | over every run of any two ends, a failed end stays failed |
| Faults.FailedWritesNothing | transport/fstun/conn.go:232-250 | over every run of any two ends, a failed end accepts no more data |
| Faults.ClosesIff | transport/fstun/conn.go:164-177 | the send side is closed after a step if and only if it was before or the step is Close closing it, which its FIN precedes |
| Faults.ClosedAppendsNothing | transport/fstun/conn.go:164-177 | after every run, an end that has closed its send side appends no frame of any type in any continuation |
| Calls.AcknowledgesIff | transport/fstun/conn.go:267-277 | after every run, a Read acknowledges all it has returned if and only if that is a quarter of the window past the last acknowledgement, and the tick if and only if more has been read than acknowledged |
| Calls.GrantsIff | transport/fstun/conn.go:232-250 | after every run, Write is granted exactly the window less what is outstanding, if and only if the end is healthy, open and has any |
| Calls.SendsWhole | transport/fstun/conn.go:148-159 | after every run, any chunk within the room and the frame limit goes out whole as one DATA frame, numbered next |
| Calls.ReturnsFront | transport/fstun/conn.go:105-115 | a Read takes any number of bytes from the front of the buffer and loses none |
| Calls.SynIsFirst | transport/fstun/dial.go:46-52 | after every run, the first frame of a direction is a SYN that decodes to that end's parameters |
| Calls.FinIsSeen | transport/fstun/conn.go:116-124 | after every run, a peer that has taken all that a closed end appended has seen its FIN, and Read returns end-of-file once its buffer is empty |
| Drain.DeliverableIff | transport/fstun/seglog.go:211-298 | every frame appended can still be taken if and only if the reader is at the first linked segment, past it, or holds the one before it with its ROLL in reach |
| Drain.ReachKnownIff | transport/fstun/seglog.go:138-153 | every reader that may have caused an acknowledgement is within reach if and only if it exceeds the DATA before the first linked segment or, on a local filesystem, before the last unlinked one |
| Drain.ReapSafeIff | transport/fstun/seglog.go:76-80 | reaping up to a segment once its recorded end is acknowledged leaves every possible reader within reach if and only if a DATA frame made it roll or, on a local filesystem, it holds one |
| Reach.DeliverableInEveryRun | transport/fstun/seglog.go:138-153 | after every run, in both directions: everything can still be taken if and only if the reader is within reach; the sender's last acknowledgement guarantees it if and only if it covers the unlinked segments, and then it holds |
| Reach.SafeRollDelivers | transport/fstun/seglog.go:76-80 | after every run, for either end: everything can still be taken when nothing is unlinked, or a DATA frame made the last unlinked segment roll, or locally that segment holds one |
| Reach.StrandedForever | transport/fstun/seglog.go:213-217 | a reader of either end out of reach, on either filesystem, stays so, takes no frame of a linked segment and returns no byte of one, whatever either side does |
| Progress.DrainEnd | transport/fstun/conn.go:291-333 | from every state of the invariant the receive loop of an end within reach, run alone, takes every frame appended and changes nothing else but what receiving changes |
| Progress.AckAll | transport/fstun/conn.go:384-408 | a healthy end, wherever its goroutines are, can return all it has buffered and acknowledge all it has returned |
| Progress.BlockedForever | transport/fstun/conn.go:230-264 | a sender blocked by a reader out of reach has no room in any continuation |
| Wedge.WedgedForever | transport/fstun/conn.go:342-351 | a sender tied to its peer by two late acknowledgements is blocked in every continuation, whatever either end does |
| Wedge.EmptyHanded | transport/fstun/seglog.go:253-285 | a sender out of reach of the acknowledgements, with none in hand that gives it room, is blocked in every continuation |
| Unblock.FindRun | transport/fstun/conn.go:230-264 | from every state of the invariant with both readers within reach and no wedge, some run unblocks the sender |
| Unblock.UnblockIff | transport/fstun/conn.go:230-264 | after every run, for either end: a blocked sender of a healthy pipe can be unblocked if and only if the peer's reader is within reach, its own is or holds an acknowledgement that gives it room, and the two are not wedged |
| Removal.RemovalLosesIff | transport/fstun/listen.go:219-228 | after every run, once the subtree is removed: the other end can still take all that was sent to it if and only if it has taken it, or holds the last segment open and, on a network filesystem, has read all of it |
| Scenes.StrandedRun | transport/fstun/seglog.go:76-80 | a run that strands the reader of a healthy pipe: DATA, then two heartbeats that roll, reaped while the reader is in the second segment |
| Crossed.CrossedDeadlock | transport/fstun/conn.go:342-351 | a run to a state with both ends healthy, within reach and blocked, from which no run gives either of them room |
| SegFiles.SegWriter.constructor | transport/fstun/seglog.go:44-63 | a new writer has one empty segment |
| SegFiles.SegWriter.Append | transport/fstun/seglog.go:68-96 | the object's new state is the append of the log model, and it moves to the next segment if and only if the current one is not empty and the frame would take it past the roll size; a closed writer changes nothing |
| SegFiles.SegWriter.Roll | transport/fstun/seglog.go:121-136 | the object's new state is the roll of the log model |
| SegFiles.SegWriter.Reap | transport/fstun/seglog.go:140-153 | the loop over closed segments unlinks and keeps exactly what the log model says |
| SegFiles.SegReader.Open | transport/fstun/seglog.go:213-220 | a visible, linked segment is opened at offset zero; otherwise nothing changes |
| SegFiles.SegReader.Fill | transport/fstun/seglog.go:253-285 | what has become visible past the offset is carried over; an unlinked segment is lost on a network filesystem |
| SegFiles.SegReader.TakeBuffered | transport/fstun/seglog.go:222-237 | one decode of the carry-over, ROLL included, is the model's decode step, and fails if and only if the carry-over is unusable |
| SegFiles.SegReader.Next | transport/fstun/seglog.go:211-247 | on any directory: the loop fails if and only if the carry-over it stops at is unusable, and otherwise returns exactly the frame at its front, if any. On a log a writer appended to, it returns the next frame appended or waits, never fails, and returns it within three looks when everything is visible and the reader is within reach |
| Connection.FsConn.constructor | transport/fstun/dial.go:39-79 | a connection starts with its SYN as frame 0 and sequence number 1 |
| Connection.FsConn.Emit | transport/fstun/conn.go:214-228 | the object's new state is the emit step; refused frames change nothing |
| Connection.FsConn.SendWindow | transport/fstun/conn.go:232-250 | the 64-bit arithmetic gives the window less what is outstanding |
| Connection.FsConn.Write | transport/fstun/conn.go:141-162 | the bytes accepted are a prefix of the argument, appended in order in frames within the limit and the window; it stops early only on a failure or close, whenever it comes, or a window still full when the waits are over; bytes that fit the open window are sent in as few frames as the frame limit allows |
| Connection.FsConn.WriteFrame | transport/fstun/conn.go:148-159 | one DATA frame takes exactly the front of what is left, as much as the room and the frame limit allow, and nothing once the send side is closed |
| Connection.FsConn.WriteOnce | transport/fstun/conn.go:143-159 | one pass writes a frame that is the rest, as long as a frame may be, or fills the window; or it waits, or ends the call for a failure, a close or a full window |
| Connection.FsConn.Read | transport/fstun/conn.go:105-125 | buffered bytes first, then the failure, then end-of-file; what is returned leaves the buffer and is counted, and acknowledged when due |
| Connection.FsConn.MaybeAck | transport/fstun/conn.go:267-277 | an ACK for all consumed bytes exactly when a quarter of the window is unacknowledged |
| Connection.FsConn.SendAck | transport/fstun/conn.go:279-287 | an accepted ACK is recorded, a refused one is not |
| Connection.FsConn.Dispatch | transport/fstun/conn.go:335-367 | DATA is buffered, an ACK raises the acknowledgement to its value and reaps, a FIN marks end-of-file, an ERROR fails the pipe, and any other frame changes nothing; the connection stays valid if and only if an ACK does not exceed what was sent |
| Connection.FsConn.Tick | transport/fstun/conn.go:389-406 | an idle pipe fails; otherwise everything consumed is acknowledged and a heartbeat follows |
| Connection.FsConn.Close | transport/fstun/conn.go:164-177 | once: FIN is emitted, the send side, the writer and the reader are closed, and every later emit is refused |
| Store.MemoryStore.Load | reconnect.go:45-51 | every record, each once |
| Store.Untouched | reconnect.go:53-54 | an id that no operation names keeps its record, or stays without |
| Store.LastOneDecides | reconnect.go:53-54 | the last operation that names an id decides whether it has a record, and which |
| Store.RunStatements | sqlitestore.go:189-216 | in any order of the map, the statements all succeed exactly when none fails, and then write the batch over the table |
| Store.SqliteStore.Commit | sqlitestore.go:178-220 | the table takes the whole batch or stays as it was |
| Store.SqliteStore.Tick | sqlitestore.go:158-160 | a tick commits and starts a new batch |
| Store.SqliteStore.Close | sqlitestore.go:161-173 | closing drains the queue into the batch and commits it |
| Store.SqliteStore.Load | sqlitestore.go:90-121 | every row that unseals, each once |
| Store.CoalescingIsExact | sqlitestore.go:153-157 | the last operation per id, applied all at once, equals applying all operations one by one |
| Store.DrainedCoalesced | sqlitestore.go:161-171 | draining at close continues the batch as if each operation had been received |
| Store.LoadedWritten | sqlitestore.go:90-121 | loading a table with a batch written over it gives the records with the batch applied, each with its cookie, address and name and with the start of the second its time falls in |
| Store.RefinesReference | sqlitestore.go:146-176 | after any run of operations and flushes, with any failures, loading gives the reference store after exactly the operations of committed batches |
| Store.FailedFlushForgets | sqlitestore.go:178-220 | after a failed flush the store goes on as if the operations since the flush before had never been made |
| Store.CloseLeavesReference | sqlitestore.go:138-176 | without failures, wherever the ticks fall, closing leaves the records of the reference store |
| Store.ReloadsReference | sqlitestore.go:90-216 | after a close without failures the next start loads the ids of the reference store, each with its cookie, address and name, and with a whole second that its time is at most one second past |
| Registry.RegisterKeeps | server.go:502-537 | a registration keeps the tables consistent and no id's cookie changes |
| Registry.RemoveKeeps | server.go:614-625 | a handler's exit keeps the tables consistent, an outstanding call that shares its record included |
| Registry.SweepKeeps | server.go:635-650 | a sweep, in any order, keeps the tables consistent |
| Registry.RunKeeps | server.go:502-660 | over every run targets are among the records with equal cookies, ids are at most nextID, and the history only grows |
| Registry.FreshIdIsNew | server.go:518-527 | a fresh id was never issued or loaded in this process; a reclaimed one keeps its cookie |
| Registry.RegisterIff | server.go:508-536 | a registration gives an id issued before if and only if the one presented is in the table, the cookie presented is not empty and is the one issued for it, and the address matches unless any is allowed; what it leaves in each table |
| Reconnect.SameIdIff | server.go:502-537 | in every run, a target that registers again from the same address with the id and cookie it was handed gets both back if and only if no sweep dropped its record in between |
| Reconnect.NoCookieNoId | server.go:508-521 | in every run, a request without the cookie issued for an id is not given that id and leaves its target alone |
| Reconnect.SweepIff | server.go:635-650 | a sweep removes a record if and only if its target is not connected and it was last touched before the cutoff, and changes no other |
| Reconnect.LastsAfterExit | server.go:614-625 | an exit takes its id from the targets and stamps its record, which stays in the table over every run whose sweeps do not reach past that time |
| Reconnect.TargetsAreServed | server.go:528-616 | in every run, an id is among the targets only while the handler that last registered it is serving it |
| Persist.EndsAlikeIff | server.go:537-541 | for any likeness of records: however the outstanding store calls are ordered the store ends up like the table, if and only if each of them says what the table says now and the store does wherever none is outstanding |
| Persist.InStepIff | server.go:537-656 | the store ends up with the very records of the table throughout a run if and only if no registration, exit or sweep changes an id while an outstanding call for that id, not sharing the record, says something else |
| Persist.ReconnectsIff | server.go:502-656 | from any state: the store lets the same reconnects succeed as the table throughout a run, however the outstanding calls are ordered, if and only if no sweep drops an id for which a Put is outstanding |
| Persist.RestartIff | server.go:385-408 | the same from the start of every run, on any records with cookies |
| Persist.CleanRestart | server.go:385-408 | when no sweep dropped an id whose Put was outstanding and all calls were made, after a clean close and reload exactly the same reconnects succeed, with the same ids and cookies |
| Persist.ExitCrossesSweep | server.go:614-656 | a run with one handler in which its exit and a sweep cross: after a clean restart a reconnect succeeds that would have been refused |
| Registry.CrashRepeatsIff | server.go:401-405 | after a crash ids never repeat if and only if the highest issued id is at most the highest persisted one plus 100, with one persisted, or none was issued |
| Registry.RegisteredIff | server.go:614-616 | every connected target stays registered throughout a run if and only if no handler exits while another serves the same id |
| Registry.DisplacedIff | server.go:508-527 | every connected handler stays the one registered under its id if and only if no registration reclaims an id still being served |
| Registry.OverlapUnregisters | server.go:614-616 | a run in which the old handler's exit removes the new handler's entry |
| Registry.Broker.constructor | server.go:385-408 | loading indexes the records by id, moves nextID past the highest id plus 100, and starts in a consistent state |
| Registry.Broker.Register | server.go:502-537 | the id given was issued before if and only if the request proves it, and is then the one presented, with its cookie; otherwise it is above every id issued, with the fresh cookie; the new state is the registration step |
| Registry.Broker.RemoveTarget | server.go:614-625 | the object's new state is the exit step; the invariant is kept |
| Registry.Broker.SweepReconnects | server.go:635-650 | the object's new state is the sweep step over exactly the stale ids; the invariant is kept |
| Registry.Broker.TellStore | server.go:627-656 | the object's new state is the goroutine's next store call; the invariant is kept |
| Registry.IndexRecords | server.go:393-400 | the loop indexes by id and finds the highest id |
| Registry.FindStale | server.go:639-646 | the loop finds exactly the records not connected and older than the cutoff |
| Registry.DropAll | server.go:647-649 | the loop removes exactly the listed ids |
| Rendezvous.RunKeeps | proxy.go:53-131 | over every run the table of sessions, their mailboxes and the spliced pairs stay consistent |
| Rendezvous.Matching | proxy.go:53-131 | spliced pairs match requesters and targets one to one with equal connect ids, and a connect id names at most one open session |
| Meetings.SplicedIff | proxy.go:53-131 | a run splices a requester with a target if and only if, in this order, the requester opened a session, the target presented its connect id while it was registered, was the first of those that did to be handed over, and the session spliced |
| Meetings.DeliveredIsSpliced | proxy.go:101-125 | after every run, handing over a target that found a waiting session with an empty channel enables its splice, which adds exactly that requester with that target |
| Meetings.FullMailboxRefuses | proxy.go:216-220 | after every run, handing a target to a session that holds one changes nothing |
| Meetings.MeetingSucceeds | proxy.go:53-131 | from every state of every run a new requester and a new target with a free connect id can be spliced |
| Rendezvous.OnlyOwnEndUnregisters | proxy.go:64-74 | a session's entry goes exactly when that session ends: no duplicate request, other session or reverse-connect removes or replaces it |
| Rendezvous.Broker.Request | proxy.go:54-69 | registers a session under a free connect id, reports a duplicate otherwise |
| Rendezvous.Broker.LookUp | proxy.go:205-212 | the session registered under the connect id is found, or the reverse-connect refused |
| Rendezvous.Broker.Deliver | proxy.go:216-220 | the target goes into the channel of the session found, over by now or not, and a waiting session can then splice it; a full channel is left as it is |
| Rendezvous.Broker.TakeTarget | proxy.go:101-125 | the waiting handler splices the target its channel holds |
| Rendezvous.Broker.End | proxy.go:70-74 | leaving removes the entry and keeps the tables consistent |
| Text.ParseOfFormat | server.go:670-676 | a 64-bit number survives formatting and parsing |
| Text.ParseExact | server.go:670-676 | exactly the decimal form of a number below 2 to the 64, with any number of leading zeros, is read as that number |
| Text.FieldsOfJoin | proxy.go:190-196 | splitting words joined by spaces gives the words back |
| Routing.StampedNests | server.go:440-445 | the contact stamped through nested brokers is the outer address followed by every id on the path |
| Routing.ContactsDistinct | server.go:440-445 | no two registrants of a tree carry the same contact |
| Routing.TailShrinks | proxy.go:190-196 | splitting off the head leaves exactly the other words, so every relay shortens the route by one |
| Routing.RelayFollows | proxy.go:155-186 | a relayed request reaches a registrant with its route used up if and only if the route names the path to it |
| Routing.AskFollowsPath | request.go:51-76 | for all texts, a request reaches a registrant with its route used up if and only if its ids name the path to it, one relay per further id |
| Routing.AskLeaves | request.go:51-76 | for all texts, a request ends at a daemon that is handed more route if and only if the ids before that part of the route name the path to it |
| Routing.ContactReachesItsRegistrant | proxy.go:155-196 | asking along a registrant's contact reaches exactly that registrant, and no other carries that contact |
| Routing.StrictId | server.go:662-676 | an id text with anything but digits within surrounding spaces is refused |
| Routing.ParseIdIff | server.go:670-676 | an id text is read as a number if and only if it is blanks, a text read as that number, and blanks |
| Listener.OneWorkerPerId | transport/fstun/listen.go:133-228 | at most one accept in progress or live pipe per conn-id, and the engaged ids are exactly theirs |
| Listener.RemovedOnlyWhenOver | transport/fstun/listen.go:216-294 | a subtree goes exactly when its own pipe ends, a sweep finds it unengaged and idle since the cutoff, or its initiator cleans up after a failed dial |
| Listener.EngagedIff | transport/fstun/listen.go:133-228 | a tunnel is engaged exactly by a scan or the start-up pass that sees its SYN, with one accept, and let go exactly when that fails or its removal is through |
| Listener.MarkerGoneIff | transport/fstun/listen.go:133-294 | a marker goes exactly when a scan finds its tunnel engaged or its SYN visible, a sweep finds it unengaged and older than the cutoff, its pipe ends, or its dial fails |
| Listener.Watcher.ScanInbox | transport/fstun/listen.go:133-161 | one scan engages every marker whose SYN is visible, drops the markers of known tunnels and leaves the others |
| Listener.Watcher.AgeSweep | transport/fstun/listen.go:236-294 | one sweep drops exactly the unengaged markers before the cutoff and the unengaged subtrees not active after it |
| Listener.DropOld | transport/fstun/listen.go:242-293 | the loop drops exactly the unengaged entries idle since the given time |

## Left out

- Endpoints.CountersFit: a step that would wrap a 64-bit frame or byte count, or the 32-bit segment index, is not taken, because the code gives no guarantee past that point.
- PipeInv.EmitKeeps: covers appends that succeed, because emit advances its counters before the write and the code gives no guarantee after a failed one.
- Faults.FailureStays: after unusable bytes or an ERROR frame the source's receive loop ends; here it may go on, which only adds runs.
- SegFiles.SegReader.Fill: a reopen fails only for an unlinked segment; a transient failure would make the reader start the segment again with its carry-over kept.
- SegFiles.SegReader.Next: the directory does not change during one call; the step system covers changes between any two of its steps.
- Connection.FsConn.Write: what happens during its waits and between a window check and the emit is a parameter, and a deadline is that parameter running out.
- Connection.FsConn.Close: waiting for the receive loop before the reader is closed is not modelled.
- Store.SqliteStore.Enqueue: the bound of the queue and an operation racing with Close are not modelled.
- Registry.Broker.TellStore: a registration's call copies the record it shares with the table in one step; the source does so without the lock.
- Routing.AskLeaves: what a daemon does with a route it cannot follow is its own affair; the broker splices whatever connects back.
- Real time, deadlines, poll backoff, fsync policy and the doorbell: they only decide when bytes become visible, which is arbitrary here.
- The handshake's timeout and version check: they end the pipe before any data.
- Standard-mode requests and result delivery: one request table and one channel each, without a property that spans operations.
- The carriers over yamux and WebSocket, the outbound proxy, authorization and the command line: wiring around libraries that are not part of this model.
- Control messages are records and contacts are split by their ids; CEDAR streams, ClassAds and address parsing are not part of this model.
- Encryption of stored rows is any pair of functions where unsealing undoes sealing; JSON is part of it.
