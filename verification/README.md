# A verified model of chaos

This project models, in Dafny 4.11, the core of the `chaos` network library and two pieces of
the game server built on it, and proves what they do in every run:

- **The byte buffer** (`Ring*.dfy`, `Buffer.dfy`). `chaos::Buffer` is a cyclic list of 4096-byte
  nodes with a read and a write iterator, a cursor and a fill count per node, and uint32
  arithmetic. `Buffer.dfy` has the class over node objects; the `Ring` files have the same state
  as a value and the theory: the buffer is a byte queue exactly under a condition that can be
  read off the ring before a write (`AppendsIff`, `RunQueues`), rounds of one fill and draining
  reads meet it by themselves (`RoundsReturn`), runs of writes and reads meet it exactly if each
  write fits an unread node (`StreamOrderlyIff`), and accounts hold in every state.
- **The event loop** (`Dispatch.dfy`, `DispatchRuns.dfy`, `Delivery.dfy`, `EventCentre.dfy`).
  Registration, cancellation, the two lists of raw pointers, each event's queue of occurrences, the
  owning map and the kernel's interest, as a state machine with an inductive invariant over whole
  runs; and exactly which reports reach which handlers.
- **The connection** (`Links.dfy`, `OutputRuns.dfy`, `Connecter.dfy`). Output is neither lost nor
  left without write interest in the kernel, in every run of loop and connection together, and
  reaches the wire in order.
- **Timers** (`Heap.dfy`, `Timers.dfy`, `TimerRuns.dfy`, `TimerExpired.dfy`, `TimerDispatch.dfy`,
  `TimerWaits.dfy`, `Timer.dfy`, `TimerIds.dfy`). The array heap, the launch loop that changes keys
  inside the heap, expired entries in it, timers in the dispatch loop, the poller's timeout, and the
  bitmap of ids. The heap is the
  template in src/common/template/MinHeap.h, with its hole-based sifting and its preference for
  the right child on ties; the table cites where `Timer` uses it.
- **Areas of interest** (`Aoi.dfy`, `AoiViews.dfy`, `AoiRuns.dfy`, `AoiTold.dfy`, `AoiPlaces.dfy`,
  `AoiManager.dfy`). The grid index, the views that entities are told, and the places in them.
- **Framing** (`Package.dfy`). Two-byte length frames as a stream code.

Each imperative part is a class whose methods are proved against functions on values (`Abs()`),
and the theorems are about runs of those functions. A method's contract therefore fixes its
whole new state, and what that state is worth is said by the lemmas beside it.

Where the code does not do what its comments or names promise, the model follows the code, and
the exact condition under which the promise holds is a theorem:

- Writes go to `buffer + useSize`, which is the end of the data only if the node's read cursor
  is at its start (Buffer.cpp:197, 229); the copying write never advances its source
  (Buffer.cpp:197); and `MoveWritePos` leaves nodes that are not full (Buffer.cpp:254). Hence
  the iff lemmas `AppendsIff`, `FillAppendsIff`, `WriteAppendsIff` and the examples
  `OverwritesUnread`, `FillsOutOfOrder`, `RepeatsPrefix`.
- A buffer that has grown to 2^20 nodes and been emptied counts no room and refuses every write
  (`ReservesIff`). With exactly 2^32 bytes stored the counter reads 0 (`FullForEver`).
- A CANCEL queued behind an occurrence that is not dispatched is never reached
  (`IterationFate`, `StuckForever`), and a deleted event keeps its CANCEL (`RegisterSafeIff`).
- A try-again answer from the socket discards all pending output (`AgainDiscards`), and a second
  registration may leave output without interest (`AttachKeepsIff`, `StepTracksIff`).
- A cancelled timer expires in the heap. An expired entry hides what is pushed below it
  (`AddedFiresIff`), and a pop that meets one may leave a later timer above an earlier one
  (`PopOrdersIff`, `PopHides`), so that a launch misses due timers. What it misses, and while
  what holds it misses no more, is in `LaunchInOrderIff`, `LaunchMisses` and `RunInOrder`;
  `LaunchTakes` and `LaunchFiresTaken` hold of every heap.
- A due loop timer with timeout 0 may keep the loop going (`EndsIff`). The poller's timeout is
  cast to `int` (`WaitsForFront`).
- A cancelled timer that is still due is listed twice, and its second entry outlives its place in
  the map (`CancelBeforeLaunchIff`, `SafeIff`); one that cancels itself in its handler loses its
  CANCEL and stays in the map (`HandlerFate`, `LostForever`).
- `ReleaseTimerID` of a multiple of 8 clears the bit of another id (`ReleaseKeepsIff`).
- Cell indices are rounded up, so positions past the lower edge of the last piece have no cell
  (`IdxExistsIff`); the neighbourhood is the cell and the one before it on each axis, not the 27
  cells of the comment (AOIManager.cpp:154), save at one corner (`NearAroundIff`). Who enters is
  told of nobody (`EnterSeesIff`), and who moves is not told what comes into view, and may be
  told of itself (`MoverSeesIff`). Entering twice, and leaving or moving while absent, are
  accepted (`NextIndexedIff`, `NextViewedIff`).
- Message lengths are cut to 16 bits (`RoundTripIff`), and `Unpack` may return more than the room
  although it was enough (`Unpack`).

To verify: `dafny verify dfyconfig.toml`, or
`dafny verify --resource-limit 2000000 --verification-time-limit 0 *.dfy`.

## Model

| member | source | states |
|---|---|---|
| `Ring.SumBounds` | src/common/net/Buffer.h:102 | In every accounted state with at most 2^20 nodes the uint32 left size never exceeds the real room, and equals it unless the ring has all 2^20 nodes and counts nothing; the counter is the real sum unless that is 2^32 |
| `Ring.ContentsLength` | src/common/net/Buffer.h:58 | What a reader sees is as many bytes as the nodes hold |
| `Ring.DrainCounts` | src/common/net/Buffer.cpp:144-162 | A read of what is stored ends within one lap of the ring, although some nodes may give nothing, and exactly the requested bytes leave the counter and the nodes |
| `Ring.DrainTakes` | src/common/net/Buffer.cpp:144-162 | What remains after a read is what followed the bytes read, across nodes and cursor resets |
| `Ring.MoveReadTakes` | src/common/net/Buffer.cpp:132-163 | MoveReadPos cuts the request to what is stored and drops exactly that many bytes from the front; accounts and cursor discipline are kept |
| `RingWrite.GrownLaid` | src/common/net/Buffer.cpp:241-256 | Laying bytes into free tails and then raising the fill counts is the same as appending to the nodes one after the other |
| `RingWrite.CommitOneKeeps` | src/common/net/Buffer.cpp:247-254 | One iteration of MoveWritePos keeps the counter equal to the sum of the nodes in uint32, also where the sums wrap |
| `RingWrite.CommitCounts` | src/common/net/Buffer.cpp:241-256 | MoveWritePos ends within a lap, although it leaves nodes that are not full, and counts every byte of the request |
| `RingWrite.CommitGrows` | src/common/net/Buffer.cpp:241-256 | Each node grows by exactly the bytes that fit it, in ring order from the write node |
| `RingWrite.LendsOnce` | src/common/net/Buffer.cpp:225-235 | No node is lent twice, every segment is a free tail, segments follow ring order, and with enough segments they cover the request |
| `RingWrite.ReadvLays` | src/common/net/Buffer.cpp:209-238 | Bytes that the kernel puts into the lent segments, each filled before the next, land in the free tails in ring order |
| `RingWrite.PutCopies` | src/common/net/Buffer.cpp:185-201 | The copying write ends within a lap and fills the nodes one after the other with the stream that its source pointer, which never advances, yields |
| `RingAppend.AppendsInOrder` | src/common/net/Buffer.cpp:166-256 | Bytes that land on an arc of full nodes, one node with its cursor at the start, and empty nodes, with room before the read node, are seen after all that was stored |
| `RingAppend.AppendsIff` | src/common/net/Buffer.cpp:166-256 | Every run of bytes of a given length that lands next is appended if and only if the arc from the write node up to the read node is ready and has room |
| `RingQueue.Unwraps` | src/common/net/Buffer.cpp:292-299 | What an expansion moves to the new node is exactly the wrapped part of the data |
| `RingQueue.ExpandCounts` | src/common/net/Buffer.cpp:260-309 | Expansion adds one node and no bytes, in every branch, and keeps the accounts |
| `RingQueue.ExpandKeepsContents` | src/common/net/Buffer.cpp:260-309 | Expansion leaves the ring-order contents as they were in every branch, the unwrapping one included |
| `RingQueue.ExpandKeeps` | src/common/net/Buffer.cpp:260-309 | Expansion keeps soundness and contents together |
| `RingQueue.ReservesIff` | src/common/net/Buffer.cpp:29-40 | Reserver ends, and succeeds exactly when nothing is asked, or bytes are stored and the sum stays within 2^32, or the buffer is empty, below 2^20 nodes, and the request is at most 2^32 - 4096 |
| `RingQueue.GrowKeeps` | src/common/net/Buffer.cpp:29-40 | Reserver changes nothing a reader sees, and success means room for the request |
| `RingQueue.GrowBelowCap` | src/common/net/Buffer.cpp:29-40 | Growing an empty ring for a request that fits leaves it below 2^20 nodes |
| `RingQueue.MoveWriteCounts` | src/common/net/Buffer.cpp:241-256 | A commit counts every byte, in every accounted state |
| `RingQueue.SegmentsFit` | src/common/net/Buffer.cpp:211-235 | The lent segments together are no more than the request and the room |
| `RingQueue.FillCounts` | src/common/net/Buffer.cpp:209-256 | Lend, readv and commit count exactly the bytes received, in every accounted state |
| `RingQueue.FillLands` | src/common/net/Buffer.cpp:209-256 | MoveWritePos commits to each node exactly the bytes that readv laid there |
| `RingQueue.WriteLands` | src/common/net/Buffer.cpp:166-206 | A copying write lands, in ring order, the stream that its fixed source pointer yields |
| `RingQueue.WriteCounts` | src/common/net/Buffer.cpp:166-206 | WriteBuffer counts exactly what it says it wrote |
| `RingQueue.OneChunk` | src/common/net/Buffer.cpp:188-197 | A write that fits the first node with room lands the data itself |
| `RingQueue.ManyChunks` | src/common/net/Buffer.cpp:188-197 | A longer write repeats the beginning of the data and never reaches its last byte |
| `RingQueue.FillAppendsIff` | src/common/net/Buffer.cpp:209-256 | A fill of n bytes is appended, whatever the bytes, if and only if the grown ring is ready for them |
| `RingQueue.WriteAppendsIff` | src/common/net/Buffer.cpp:166-206 | WriteBuffer of n bytes appends them, whatever they are, if and only if the grown ring is ready and they fit the first node with room |
| `RingRuns.CopiesPrefix` | src/common/net/Buffer.cpp:43-79 | The copying read hands out the first bytes stored, across nodes |
| `RingRuns.ReadsPrefix` | src/common/net/Buffer.cpp:43-79 | A copying read of n hands out the first min(n, stored) bytes and leaves the rest |
| `RingRuns.PeekGathers` | src/common/net/Buffer.cpp:104-129 | Peeked segments visit each node at most once in ring order and hold the front of what is stored, all of the request with enough segments |
| `RingRuns.PeekThenMove` | src/common/net/Buffer.cpp:104-163 | Peeked segments hold what a copying read would hand out, and what remains after MoveReadPos of their size is the rest |
| `RingRuns.StepQueues` | src/common/net/Buffer.cpp:29-256 | One operation, its append condition met, is one operation of a byte queue |
| `RingRuns.SendQueues` | src/common/net/Buffer.cpp:166-206 | WriteBuffer that meets its append condition appends the data, or nothing if room cannot be made |
| `RingRuns.RunQueues` | src/common/net/Buffer.cpp:29-256 | Every run of fills, writes, reads and reservations whose appends meet the condition is a first-in-first-out byte queue |
| `RingRounds.RestingAppends` | src/common/net/Buffer.h:85-100 | With nothing stored the iterators coincide and every write that fits is appended |
| `RingRounds.TakesDrain` | src/common/net/Buffer.h:85-100 | Reads that ask for all that is stored leave the buffer empty with iterators together and cursors reset |
| `RingRounds.RoundReturns` | src/common/net/Event.cpp:1272-1306 | One fill of any size and reads until nothing is left hand out exactly the bytes that came in |
| `RingRounds.RoundsReturn` | src/common/net/Event.cpp:1272-1306 | Any number of such rounds hand out all bytes in order: a draining read callback needs no append condition |
| `RingRounds.OverwritesUnread` | src/common/net/Buffer.cpp:197 | Example: with one node half read, a write that fits goes over unread bytes |
| `RingRounds.HalfReadReached` | src/common/net/Buffer.cpp:132-206 | The example is reached from the empty buffer by one write and one read |
| `RingRounds.FillsOutOfOrder` | src/common/net/Buffer.cpp:254 | Example: after the write iterator has left a node that is not full, a fill is seen out of order |
| `RingRounds.PartFilledReached` | src/common/net/Buffer.cpp:209-256 | The example is reached by a reservation and one fill |
| `RingRounds.RepeatsPrefix` | src/common/net/Buffer.cpp:197 | Counterexamples of every size: a first write of more than one node repeats its beginning |
| `RingArcs.ExpandArcs` | src/common/net/Buffer.cpp:283-306 | An expansion puts an empty node right behind the write node and leaves both iterators on their nodes; or, where the read node is the write node and holds data, the new node, with the wrapped bytes, becomes the write node and everything else lies before it |
| `RingArcs.GrowArcs` | src/common/net/Buffer.cpp:29-40 | Making room puts all new nodes in that place, and leaves the rest of the ring as it was |
| `RingArcs.GrowAdds` | src/common/net/Buffer.cpp:29-40 | It adds no more nodes than the request needs, and ends, when it fails, with all 2^20 |
| `RingArcs.GrownAppendsIff` | src/common/net/Buffer.cpp:29-40 | When room has been made n bytes are appended if and only if no node was needed and the ring was ready for them; or its write arc was open and they fit the room of that and the new nodes; or the ring was split and they fit the new nodes alone |
| `RingArcs.GrowthAppends` | src/common/net/Buffer.cpp:29-40 | So growing for a request leaves an open ring, with no room in front of the write node, ready to append the whole of it |
| `RingArcs.LendsRoom` | src/common/net/Buffer.cpp:222-235 | Lending takes in turn all the room of the nodes it reaches, up to the request |
| `RingArcs.FillLends` | src/common/net/Buffer.cpp:209-238 | GetWriteBuffer adds just the nodes that the lesser of the request and cnt nodes' worth needs, and lends of it what the first cnt nodes from the write node on have room for; nothing if room cannot be made |
| `RingArcs.RefusedGrows` | src/common/net/Buffer.cpp:168-176 | A refused write has grown the ring to all its 2^20 nodes and changed nothing that a reader sees |
| `RingTrail.PutStands` | src/common/net/Buffer.cpp:185-201 | The copying loop ends on the node that got the last byte |
| `RingTrail.WriteStands` | src/common/net/Buffer.cpp:166-206 | WriteBuffer leaves the write iterator on that node, full or not |
| `RingTrail.CommitStands` | src/common/net/Buffer.cpp:241-256 | MoveWritePos ends behind the node that got the last byte, full or not |
| `RingTrail.FillStands` | src/common/net/Buffer.cpp:209-256 | A fill leaves the write iterator behind that node |
| `RingTrail.WriteTrails` | src/common/net/Buffer.cpp:166-206 | A write that is appended leaves the ring ready for the next one, with just so much less room behind the write iterator and as much as before in front of it |
| `RingTrail.FillTrails` | src/common/net/Buffer.cpp:209-256 | A fill that is appended leaves the write iterator in front of the empty nodes that are left of its arc, or on the read node with the whole ring behind it |
| `RingStreams.DrainOneArcs` | src/common/net/Buffer.cpp:150-161 | Reading takes bytes from the read node or leaves it behind, empty, and then the nodes behind the write node are those that were there and, at most, that one |
| `RingStreams.OrderlyIff` | src/common/net/Buffer.cpp:166-206 | With nothing behind the write node a write is appended if and only if it fits the node it goes to, and that node is full or nothing of it has been read |
| `RingStreams.StreamOrderlyIff` | src/common/net/Buffer.cpp:29-206 | A run of writes, reads and reservations that starts with nothing behind the write node is a byte queue if and only if each write meets that |
| `RingStreams.WritesTogether` | src/common/net/Buffer.cpp:166-206 | Any list of writes that a ready arc has room for together, each within the first node with room, is appended |
| `RingStreams.PeeksUsed` | src/common/net/Buffer.cpp:104-129 | Peeked segments cover in turn all that the nodes they reach hold, up to the request |
| `Buffers.BufferNode.constructor` | src/common/net/Buffer.cpp:266-273 | A new node: 4096 zero bytes, cursor at the start, nothing used |
| `Buffers.Buffer.constructor` | src/common/net/Buffer.cpp:5-11 | A new buffer is the empty ring |
| `Buffers.Memcpy` | src/common/net/Buffer.cpp:197 | Replaces exactly the target range |
| `Buffers.MemcpyOut` | src/common/net/Buffer.cpp:60 | Copies the source range, arbitrary bytes past its end, and touches nothing else |
| `Buffers.Buffer.GetNextWNodeIt` | src/common/net/Buffer.h:83 | Steps the write iterator round the ring |
| `Buffers.Buffer.GetNextRNodeIt` | src/common/net/Buffer.h:85-100 | Steps the read iterator round the ring, or to the write node when nothing is stored |
| `Buffers.Buffer.GiveUp` | src/common/net/Buffer.cpp:150-161 | The read node gives up bytes: node, counter, cursor and iterator as one drain step |
| `Buffers.Buffer.MoveReadPos` | src/common/net/Buffer.cpp:132-163 | The node objects end as the drained ring; in a sound ring the contents lose exactly their front |
| `Buffers.Buffer.CopyNode` | src/common/net/Buffer.cpp:57-73 | One iteration of the copying read over the node objects |
| `Buffers.Buffer.CopyAll` | src/common/net/Buffer.cpp:57-76 | The copying loop ends within a lap with the drained ring and its bytes |
| `Buffers.Buffer.ReadBuffer` | src/common/net/Buffer.cpp:43-79 | Ends in the state of MoveReadPos; in a sound ring the output holds the first bytes stored and nothing past them changes |
| `Buffers.Buffer.ReadNode` | src/common/net/Buffer.cpp:82-101 | The read node's data in place; in a sound ring a prefix of the contents |
| `Buffers.Buffer.PeekBuffer` | src/common/net/Buffer.cpp:104-129 | Segments point at the nodes' data; in a sound ring their bytes are those of a copying read |
| `Buffers.Buffer.DataSegments` | src/common/net/Buffer.cpp:112-126 | The segment loop fills one segment per node from the read node on |
| `Buffers.Buffer.LinkBefore` | src/common/net/Buffer.cpp:285-300 | The new node goes before a write node that is also the read node and holds data, and takes its wrapped bytes |
| `Buffers.Buffer.LinkAfter` | src/common/net/Buffer.cpp:301-305 | Otherwise the new node goes after the write node, which stays the write node |
| `Buffers.Buffer.MoveWrapped` | src/common/net/Buffer.cpp:292-299 | Moves the wrapped bytes and splits the fill count |
| `Buffers.Buffer.Expand` | src/common/net/Buffer.cpp:260-309 | Fails exactly at 2^20 nodes, else ends as the expanded ring; contents unchanged in a sound ring |
| `Buffers.Buffer.Reserver` | src/common/net/Buffer.cpp:29-40 | True exactly when the ring can hold the request, which then has room; contents unchanged |
| `Buffers.Buffer.PassFull` | src/common/net/Buffer.cpp:188-192 | A full write node is passed |
| `Buffers.Buffer.PutNode` | src/common/net/Buffer.cpp:187-200 | One iteration of the copying write |
| `Buffers.Buffer.PutAll` | src/common/net/Buffer.cpp:185-201 | The copying write loop ends within a lap as the written ring |
| `Buffers.Buffer.WriteBuffer` | src/common/net/Buffer.cpp:166-206 | Ends as the written ring and returns what was written; appends under the append condition |
| `Buffers.Buffer.GetWriteBuffer` | src/common/net/Buffer.cpp:209-238 | Segments are the free tails of the grown ring, no node twice; contents unchanged |
| `Buffers.Buffer.FreeTails` | src/common/net/Buffer.cpp:222-235 | The segment loop fills one segment per node from the write node on |
| `Buffers.Buffer.Readv` | src/common/net/Event.cpp:1285 | The kernel fills the segments in order and touches only the lent tails |
| `Buffers.Buffer.CommitNode` | src/common/net/Buffer.cpp:247-254 | One iteration of MoveWritePos on the node objects |
| `Buffers.Buffer.MoveWritePos` | src/common/net/Buffer.cpp:241-256 | Ends as the committed ring and keeps the accounts |
| `Buffers.Buffer.Receive` | src/common/net/Event.cpp:1283-1300 | Lend, readv and commit end as the filled ring; the received bytes are appended under the append condition |
| `Dispatch.RegisterKeeps` | src/common/net/Event.cpp:347-387 | Registering an event with an empty queue keeps the dispatch invariant; RegisterSafeIff shows that no other may be registered |
| `Dispatch.PushKeeps` | src/common/net/Event.cpp:432-447 | Pushing an I/O event keeps it: one more occurrence, one more entry |
| `Dispatch.CancelKeeps` | src/common/net/Event.cpp:390-399 | Cancelling keeps it: CANCEL is queued once and last, and the event is detached |
| `Dispatch.EnableKeeps` | src/common/net/Event.cpp:45-56 | Caring for more keeps it, the kernel's interest included |
| `Dispatch.DisableKeeps` | src/common/net/Event.cpp:45-56 | Caring for less keeps it, the kernel's interest included |
| `Dispatch.DisableAgrees` | src/common/net/Epoll.cpp:101-118 | CancelFd leaves the kernel with exactly the read and write interest that the event still has, and other descriptors alone |
| `Dispatch.RefusedUpdateIff` | src/common/net/Event.cpp:45-56 | When the kernel refuses an update, its interest still agrees if and only if the read and write part of the mask stayed the same |
| `Dispatch.RegisterInterest` | src/common/net/Epoll.cpp:73-98 | RegistFd gives the kernel exactly the event's read and write interest, and the map one more entry |
| `Dispatch.PollKeeps` | src/common/net/Poller.cpp:91-111 | A report of the poller keeps the invariant |
| `Dispatch.MergeKeeps` | src/common/net/Event.cpp:335-344 | Moving waiting to active keeps the invariant and every entry |
| `Dispatch.ListedIsOwned` | src/common/net/Event.cpp:277-296 | Every entry of the two lists and the event being handled is owned by the poller's map |
| `Dispatch.DeleteKeeps` | src/common/net/Event.cpp:402-429 | Deleting at a CANCEL keeps the invariant; the event is then in no list and, if it cared for I/O, not owned |
| `Dispatch.DeleteInterest` | src/common/net/Poller.cpp:54-64 | DelEvent takes one map entry and the descriptor's kernel interest |
| `Dispatch.SkipKeeps` | src/common/net/Event.cpp:289-290 | Skipping an entry of a detached event keeps the invariant |
| `Dispatch.ScriptKeeps` | src/common/net/Event.cpp:292 | Whatever a handler registers, cancels, pushes and updates keeps the invariant |
| `Dispatch.FinishKeeps` | src/common/net/Event.cpp:295 | PopCurEv after a handler keeps the invariant |
| `Dispatch.DispatchKeeps` | src/common/net/Event.cpp:277-296 | Dispatching an entry keeps the invariant, whatever the handler does |
| `Dispatch.StartHolds` | src/common/net/Event.cpp:157-173 | The invariant holds at start |
| `Dispatch.NextKeeps` | src/common/net/Event.cpp:233-253 | Every step of the loop and of its users keeps the invariant |
| `Dispatch.RunKeeps` | src/common/net/Event.cpp:233-253 | In every state of every run each entry is owned, no event is listed more often than things occurred to it, CANCEL comes once and last, the kernel's interest is each event's, and the event counter is the size of the map |
| `Dispatch.CancelDetaches` | src/common/net/Event.cpp:390-399 | CancelEvent detaches a registered event and queues CANCEL behind what had occurred |
| `Dispatch.StepOnGone` | src/common/net/Event.cpp:283-290 | After CancelEvent no step starts Handle on the event or changes its fields; only dispatching its CANCEL takes it from the map |
| `Dispatch.StuckForever` | src/common/net/Event.cpp:283-290 | A cancelled event whose queue does not start with CANCEL, or that cares for no I/O, is never deleted in any run |
| `Dispatch.DeadForever` | src/common/net/Event.cpp:402-429 | A deleted event is never owned or listed again, so it is deleted once |
| `DispatchRuns.PollAllKeeps` | src/common/net/Epoll.cpp:45-70 | A round of reports keeps the invariant |
| `DispatchRuns.IterationKeeps` | src/common/net/Event.cpp:233-253 | An iteration of the loop keeps the invariant and leaves the active list empty |
| `DispatchRuns.DispatchAllFate` | src/common/net/Event.cpp:273-301 | A pass over the active list deletes a cancelled event exactly when it is listed there, its queue starts with CANCEL and it cares for I/O |
| `DispatchRuns.IterationFate` | src/common/net/Event.cpp:233-301 | The next iteration deletes a cancelled event if and only if its queue starts with CANCEL and it cares for I/O; otherwise it is stuck |
| `DispatchRuns.CancelFate` | src/common/net/Event.cpp:273-399 | Cancelled between iterations, an event is deleted by the next one if and only if nothing of it was undispatched and it cares for I/O |
| `DispatchRuns.CancelInHandler` | src/common/net/Event.cpp:292-295 | Cancelled in its own handler, whatever the handler does before, as long as the event is still registered then, and after, an event keeps exactly its later occurrences before CANCEL |
| `DispatchRuns.CancelInHandlerFate` | src/common/net/Event.cpp:273-301 | It is deleted by the next iteration if and only if, when its handler cancels it, the handled entry is its last and it cares for I/O; otherwise it is stuck |
| `DispatchRuns.RegisterSafeIff` | src/common/net/Event.cpp:283-387 | Registering an event leaves every later run without an entry that lost its owner if and only if its queue is empty, that is, if it was not cancelled and deleted before |
| `Delivery.HandedIs` | src/common/net/Event.cpp:273-301 | A pass whose handlers cancel nothing calls the handlers of exactly the entries it was given, of events still in the centre, in order, each with what occurred to its event first |
| `Delivery.IterationDelivers` | src/common/net/Poller.cpp:91-111 | An iteration hands to handlers what was waiting, then what was active, then exactly those reports whose descriptor has a registered event that cares for a flag of them, in order, each with the I/O flags of its report |
| `Delivery.HandedToOne` | src/common/net/Event.cpp:273-301 | In a pass, whatever handlers do to other events, the handler of a registered event that none cancels is called for each of its entries, with what occurred to it, in order |
| `Delivery.IterationReaches` | src/common/net/Event.cpp:233-301 | So in an iteration it gets all that had occurred to it and then each report that it cares for, and nothing else |
| `Delivery.PushesThenReports` | src/common/net/Event.cpp:432-447 | With nothing listed before, it hands out what was pushed to registered events that care for it, in order, and then those reports |
| `Delivery.UpdateDelivers` | src/common/net/Event.cpp:45-56 | After an update a report reaches the event if and only if it has a flag that the event cared for or was added, or cared for and was not taken away |
| `Delivery.InertForever` | src/common/net/Event.cpp:357-371 | An event that cares for no I/O is registered and handled in no run |
| `Centre.EventCentre.RegistFd` | src/common/net/Epoll.cpp:73-98 | Sets the kernel's interest to what the event cares for, or fails and changes nothing |
| `Centre.EventCentre.CancelFd` | src/common/net/Epoll.cpp:101-118 | Reduces the kernel's interest, or removes the descriptor when none is left |
| `Centre.EventCentre.AddEvent` | src/common/net/Poller.cpp:32-51 | Inserts and registers, or fails and leaves map and interest as they were |
| `Centre.EventCentre.DelEvent` | src/common/net/Poller.cpp:54-64 | Removes the map entry and the interest |
| `Centre.EventCentre.UpdateFd` | src/common/net/Poller.cpp:67-77 | Changes the interest of known descriptors only |
| `Centre.EventCentre.RegisterEvent` | src/common/net/Event.cpp:347-387 | Returns 0 exactly when the event is unattached, cares for I/O, its descriptor is free and the kernel accepts; only then is anything changed |
| `Centre.EventCentre.PushEvent` | src/common/net/Event.cpp:432-447 | Queues the occurrence and the entry together, or nothing |
| `Centre.EventCentre.CancelEvent` | src/common/net/Event.cpp:390-399 | Pushes CANCEL, then detaches |
| `Centre.EventCentre.UpdateEvent` | src/common/net/Event.cpp:45-56 | Changes mask and kernel interest together, while attached |
| `Centre.EventCentre.PushActiveEvent` | src/common/net/Poller.cpp:91-111 | Appends to the active list what an attached owner cares for |
| `Centre.EventCentre.MakeWaittingToActive` | src/common/net/Event.cpp:335-344 | Puts the waiting entries before the active ones |
| `Centre.EventCentre.DeleteEvent` | src/common/net/Event.cpp:402-429 | Removes an event that cares for I/O and counts it off |
| `Centre.EventCentre.Handle` | src/common/net/Event.h:108 | A handler does its actions in order on the centre |
| `Centre.EventCentre.PopCurEv` | src/common/net/Event.cpp:295 | Drops the handled occurrence |
| `Centre.EventCentre.DispatchEntry` | src/common/net/Event.cpp:277-296 | One pass of the dispatch loop is one dispatch step |
| `Centre.EventCentre.ProcessActiveEvent` | src/common/net/Event.cpp:273-301 | The loop over the vector, to which handlers do not add, dispatches every entry once in order and clears the list |
| `Centre.EventCentre.Launch` | src/common/net/Epoll.cpp:45-70 | Every report reaches PushActiveEvent in order |
| `Centre.EventCentre.Iterate` | src/common/net/Event.cpp:233-253 | One iteration of EventLoop is one model iteration and keeps the invariant |
| `Links.WriteFits` | src/common/net/Buffer.cpp:166-176 | What a write stores never takes the counter past 2^32 |
| `Links.FullRefuses` | src/common/net/Buffer.cpp:263-264 | A buffer of 2^32 bytes reads as empty and accepts nothing |
| `Links.StepTracks` | src/common/net/Event.cpp:1169-1343 | Each step of a connection keeps: accepted is sent plus counted, up to 2^32, and a registered event with output cares for writing |
| `Links.FlushSettles` | src/common/net/Event.cpp:1335-1338 | After a send a registered connection waits to write exactly as long as output is left |
| `Links.FlushRestores` | src/common/net/Event.cpp:1335-1338 | In every state, also where the wish to write was lost, a send that leaves output makes a registered event wait to write, and one that leaves none ends the waiting |
| `Links.FullForEver` | src/common/net/Buffer.h:58 | With exactly 2^32 bytes stored nothing is ever sent or accepted again |
| `Links.AcceptAsksIff` | src/common/net/Event.cpp:1169-1184 | Accepting output asks to be told when the socket can take it if and only if something was stored and the event is registered |
| `Links.OffersEight` | src/common/net/Event.cpp:1319-1324 | The socket is offered what the first eight nodes from the read node on hold |
| `Links.IdleStays` | src/common/net/Event.cpp:1311-1317 | With nothing counted the write handler changes nothing, however often it is called; the wish to write of a new connection stays |
| `Links.CareElsewhere` | src/common/net/Event.cpp:1218-1254 | No move changes what the event cares for apart from I/O |
| `Links.FlushSends` | src/common/net/Event.cpp:1311-1333 | HandleWrite puts the front of what is stored on the wire and keeps the rest |
| `Links.WireInOrder` | src/common/net/Event.cpp:1169-1343 | Over runs whose writes meet the append condition, what went out followed by what is stored is what was stored followed by what was accepted |
| `Links.AgainDiscards` | src/common/net/Event.cpp:1327-1333 | A try-again answer discards all output: it keeps the books if and only if there was none |
| `Links.AttachKeepsIff` | src/common/net/Event.cpp:347-387 | A registration keeps the output invariant if and only if nothing is stored or the event wishes to write |
| `Links.FirstAttachKeeps` | src/common/net/Event.cpp:978-979 | The first registration always keeps it |
| `Links.DisableKeepsIff` | src/common/net/Event.cpp:1242-1254 | Withdrawing interest keeps it if and only if it does not take the wish to write from a registered event with output |
| `Links.StepTracksIff` | src/common/net/Event.cpp:1169-1343 | Of the moves that are possible, the allowed ones are exactly those that keep the output invariant |
| `Links.OutputKept` | src/common/net/Event.cpp:1169-1343 | In every run of allowed moves from construction no output is lost, what was taken being what was sent and what is counted if and only if not exactly 2^32 bytes are stored, and a registered event with output wishes to write |
| `Links.SecondRegistration` | src/common/net/Event.cpp:1176-1179 | How a state arises in which a registration breaks it: output accepted while detached is refused and stored |
| `OutputRuns.OwnAgrees` | src/common/net/Event.cpp:1169-1343 | What each move of a connection does to the centre does to its event what the move does to the connection |
| `OutputRuns.PerformKeeps` | src/common/net/Event.cpp:1169-1343 | A move of the connection, or an action on another event, keeps the loop invariant, the output invariant and their agreement, in handlers too |
| `OutputRuns.PerformAllKeeps` | src/common/net/Event.cpp:292 | All acts of a handler together keep them too, and are to the centre one script |
| `OutputRuns.NextKeeps` | src/common/net/Event.cpp:233-301 | Every step of the loop, reports, merging and dispatching included, keeps them, and the loop takes the steps of the dispatch model |
| `OutputRuns.RunReached` | src/common/net/Event.cpp:233-301 | Every run of loop and connection keeps them |
| `OutputRuns.OutputHasInterest` | src/common/net/Event.cpp:1311-1343 | In every run of loop and connection from the start, whatever handlers do, no output is lost, and while there is any and the connection is registered the kernel waits to write it, unless exactly 2^32 bytes are stored |
| `Connecters.Connecter.constructor` | src/common/net/Event.cpp:978-1027 | A new connection cares for reading and writing and has empty buffers |
| `Connecters.Connecter.Register` | src/common/net/Event.cpp:347-387 | Registering the event is the joint step of registering, and ends the time before the first registration |
| `Connecters.Connecter.CancelEvent` | src/common/net/Event.cpp:18-24 | Cancelling is the joint step of detaching |
| `Connecters.Connecter.EnableEvent` | src/common/net/Event.cpp:1218-1239 | Adds I/O flags to mask and interest while attached |
| `Connecters.Connecter.DisableEvent` | src/common/net/Event.cpp:1242-1254 | Removes I/O flags from mask and interest while attached |
| `Connecters.Connecter.WriteBuffer` | src/common/net/Event.cpp:1169-1184 | Stores, then enables writing; returns -1 when nothing was stored or there is no centre |
| `Connecters.Connecter.Settle` | src/common/net/Event.cpp:1335-1338 | Writing is disabled exactly when nothing is left |
| `Connecters.Connecter.Offer` | src/common/net/Event.cpp:1319-1324 | The segments offered to the socket are the nodes of the write buffer, from the read node on, at most eight |
| `Connecters.Connecter.HandleWrite` | src/common/net/Event.cpp:1311-1343 | Takes the sent bytes out and settles the interest; an error cancels, and a try-again is handed on as 2^32 - 1 |
| `Connecters.Connecter.HandleRead` | src/common/net/Event.cpp:1272-1308 | Fills the read buffer; enables reading when less came than expected or on a try-again; cancels on an error or at the end of the stream |
| `Heaps.PushAdds` | src/common/net/Timer.cpp:91 | Push adds the element and no other change of elements |
| `Heaps.PopRemoves` | src/common/net/Timer.cpp:70 | Pop removes exactly the front |
| `Heaps.PushOrders` | src/common/net/Timer.cpp:64-68 | Push keeps the heap order, whatever has expired, also below a root that is too great, if the pushed element is no less than the root |
| `Heaps.PopOrders` | src/common/net/Timer.cpp:64-70 | Pop restores the heap order, whatever the root was, of a heap without expired entries |
| `Heaps.PopOrdersIff` | src/common/net/Timer.cpp:35-70 | Pop restores the heap order, whatever the root was and whatever has expired, if and only if the last element sinks well: where it stops, the left child is not less |
| `Heaps.RootLeast` | src/common/net/Timer.h:12-24 | The front is least |
| `Heaps.Reschedules` | src/common/net/Timer.cpp:64-70 | Without expired entries, raising the front's key in place, pushing it again and popping leaves a heap of the same timers |
| `Heaps.ReschedulesIff` | src/common/net/Timer.cpp:64-70 | With expired entries too it leaves the same timers, and a heap if and only if the pop sinks well |
| `Timers.LaunchProgress` | src/common/net/Timer.cpp:30-72 | Each pass leaves fewer expired or due entries, or no more in a smaller heap, so Launch ends, expired entries or not |
| `Timers.StepTakes` | src/common/net/Timer.cpp:32-71 | A pass takes the front out of the expired or due entries and no other, expired entries or not |
| `Timers.LaunchTakes` | src/common/net/Timer.cpp:26-73 | Launch of any heap of distinct entries stops at an empty heap or a live front that is not due; what it took has left the heap, except live loop timers, whose deadlines alone have changed, to after the launch |
| `Timers.LaunchFiresTaken` | src/common/net/Timer.cpp:26-73 | It fires exactly what it took that is alive and not suspended, each once: never a timer that is gone, suspended or not due, whatever has expired |
| `Timers.LaunchDisownsTaken` | src/common/net/Timer.cpp:44-58 | The timer map loses exactly the ids of what was taken alive, suspended and without loop |
| `Timers.LaunchRekeys` | src/common/net/Event.h:505 | Each loop timer that was taken gets a reading of the clock made during the launch plus its timeout |
| `Timers.FrontLeast` | src/common/net/Timer.h:12-24 | With no expired entries the front has the least deadline |
| `Timers.LaunchAppends` | src/common/net/Timer.cpp:61 | The active list is only appended to |
| `Timers.StepGood` | src/common/net/Timer.cpp:32-71 | Without expired entries a pass keeps the heap |
| `Timers.LaunchExact` | src/common/net/Timer.cpp:26-73 | Without expired entries Launch takes exactly what is due, leaves nothing due, and leaves a heap |
| `Timers.LaunchFires` | src/common/net/Timer.cpp:26-73 | Then it fires exactly the due timers that are not suspended, each once, in order of deadline |
| `Timers.WaitsForFront` | src/common/net/Timer.cpp:115-129 | With a live front the poller waits for the front's deadline if and only if the wait survives the cast to int |
| `Timers.WaitsForEarliest` | src/common/net/Timer.cpp:115-129 | Without expired entries it waits for the earliest deadline under the same condition |
| `TimerWaits.WaitsForeverIff` | src/common/net/Timer.cpp:115-129 | In every heap the timeout is -1, for ever, if and only if the heap is empty |
| `TimerWaits.WaitsIff` | src/common/net/Timer.cpp:115-129 | The poller does not wait if and only if a launch would find its front expired or due, and it waits just until a launch does, if the wait for a live front survives the cast |
| `TimerWaits.NeverLate` | src/common/net/Timer.cpp:115-129 | In a heap in order no timer that is alive, with only live ancestors, is waited for past its deadline, whatever has expired elsewhere, under the same condition |
| `TimerWaits.PassExcess` | src/common/net/Timer.cpp:44-58 | A pass lowers the counter of timers without the map exactly when it drops a timer whose id is not in the map |
| `TimerWaits.RunExcessIff` | src/common/net/Timer.cpp:76-112 | Over every run the counter of timers stays the size of the map if and only if each deletion, by a cancellation or by a launch, finds its id in the map |
| `TimerRuns.EndsIff` | src/common/net/Timer.cpp:30-72 | In a heap in order and without expired entries: whatever the clock reads, the loop in Launch ends, within as many passes as there are entries, if and only if no due loop timer has timeout 0 |
| `TimerRuns.PassesEnd` | src/common/net/Timer.cpp:30-72 | Then as many passes as there are ready entries are the whole launch, expired entries or not |
| `TimerRuns.RisesIff` | src/common/net/Timer.h:12-24 | In a heap in order, what is less than the root rises to it if and only if nothing above its slot has expired |
| `TimerRuns.AddedFiresIff` | src/common/net/Timer.cpp:76-99 | While the heap is in order, expired entries apart, and its front alive and not due, a due timer that is added, not suspended and under a free id, is fired by the next launch if and only if every ancestor of its slot is alive |
| `TimerRuns.AddDistinctIff` | src/common/net/Timer.cpp:83-89 | Adding keeps the entries distinct if and only if the timer has no entry or is refused |
| `TimerRuns.RunDistinct` | src/common/net/Timer.cpp:26-112 | In every run, cancelled timers dying in the heap included, the entries stay distinct, so each launch is as LaunchTakes and LaunchFiresTaken say |
| `TimerRuns.DieGoodIff` | src/common/net/Timer.cpp:107 | A death leaves a heap without expired entries if and only if it is not that of an entry |
| `TimerRuns.AddGood` | src/common/net/Timer.cpp:76-99 | Adding keeps a heap without expired entries |
| `TimerRuns.RunGood` | src/common/net/Timer.cpp:26-112 | In every run in which no entry expires the heap stays one, so each launch is as LaunchExact and LaunchFires say |
| `TimerRuns.SetDecides` | src/common/net/Event.h:489-497 | In a heap without expired entries, whether a due timer is suspended decides if the next launch fires it, and whether it loops if it stays in the heap |
| `TimerExpired.HiddenBelowExpired` | src/common/net/Timer.cpp:30-43 | When the loop of Launch stops on a heap in order that holds expired entries, every entry still due has an expired ancestor |
| `TimerExpired.StepInOrderIff` | src/common/net/Timer.cpp:32-71 | A pass keeps a heap with expired entries in order if and only if its pop sinks well |
| `TimerExpired.LaunchInOrderIff` | src/common/net/Timer.cpp:26-73 | A launch keeps it in order throughout if and only if all its pops sink well |
| `TimerExpired.LaunchMisses` | src/common/net/Timer.cpp:26-73 | Then it leaves nothing due that has only live ancestors: each due timer that is not suspended is fired, unless in the end it lies below an expired entry |
| `TimerExpired.RunInOrder` | src/common/net/Timer.cpp:26-112 | In every run, cancelled timers dying in the heap included, the heap stays in order while the pops of the launches sink well |
| `TimerExpired.PopHides` | src/common/net/Timer.cpp:61-71 | Counterexample: four adds, one cancellation and one launch that fires the first timer and misses the second, which is due and has only live ancestors |
| `TimerDispatch.NextInv` | src/common/net/Event.cpp:233-253 | Timers in the dispatch loop: every step keeps that a registered timer has an empty queue outside its handler, and that a cancelled one in the map has an entry to delete it by |
| `TimerDispatch.ActSafeIff` | src/common/net/Event.cpp:390-399 | Cancelling keeps the loop safe, each entry owned by the timer map and a cancelled timer listed once, if and only if the timer is being handled, or is in the map and has no entry; other actions always do |
| `TimerDispatch.LaunchSafeIff` | src/common/net/Timer.cpp:26-73 | A launch keeps it safe if and only if what it fires is in the map and not cancelled, and what it drops from the map has no entry |
| `TimerDispatch.LaunchSafeWhenDue` | src/common/net/Timer.cpp:26-73 | Without expired entries the same in terms of what is due |
| `TimerDispatch.CancelBeforeLaunchIff` | src/common/net/Timer.cpp:26-73 | Where the launch would be safe, cancelling a registered timer that has no entry keeps it so if and only if that launch neither fires nor drops the timer |
| `TimerDispatch.DispatchSafe` | src/common/net/Event.cpp:277-296 | Dispatching an entry keeps the loop safe, whatever its handler does by careful actions |
| `TimerDispatch.RunSafe` | src/common/net/Event.cpp:233-253 | In every run of careful steps no entry of a timer outlives its place in the timer map |
| `TimerDispatch.SafeIff` | src/common/net/Event.cpp:277-296 | That is the weakest such condition: the loop is safe if and only if, in every run in which it merges and dispatches what it has and handlers do nothing, each entry is owned |
| `TimerDispatch.HandlerFate` | src/common/net/Event.cpp:292-295 | A timer whose handler cancels it is left with an empty queue, its CANCEL lost to PopCurEv; other handlers leave it registered |
| `TimerDispatch.StepOnDetached` | src/common/net/Event.cpp:283-290 | No step handles a cancelled timer or changes its queue; only dispatching its CANCEL, or a launch that drops it, takes it from the map |
| `TimerDispatch.LostForever` | src/common/net/Event.cpp:283-295 | So a timer that cancelled itself is deleted in no careful run, unless a launch drops it |
| `TimerDispatch.IterationDeletes` | src/common/net/Event.cpp:233-301 | A timer cancelled elsewhere than in its handler is deleted by the next iteration, if that is careful, whatever other handlers do |
| `TimerDispatch.ActSteps` | src/common/net/Event.cpp:347-429 | Creating, registering, changing and losing a timer are steps of TimerRuns on heap and map |
| `TimerDispatch.HandledIs` | src/common/net/Event.cpp:273-301 | A safe pass whose handlers cancel nothing calls the handlers of exactly the listed timers that are registered, in order |
| `TimerDispatch.IterationHandles` | src/common/net/Event.cpp:233-301 | So an iteration whose launch is careful handles, after what was listed before, what the launch fires and is registered, in the order of the launch |
| `TimerDispatch.RegisterHandles` | src/common/net/Event.cpp:347-387 | A timer that has just been registered is handled by the next such iteration if its launch fires it |
| `TimerObjects.MinHeap.Expand` | src/common/net/Timer.h:68 | Doubles the array, 64 places at first, and keeps the elements in order (src/common/template/MinHeap.h, lines 265-291) |
| `TimerObjects.MinHeap.ShiftUp` | src/common/net/Timer.h:68 | The hole-based rise in the array is the model's (src/common/template/MinHeap.h, lines 186-221) |
| `TimerObjects.MinHeap.Compare` | src/common/net/Timer.h:68 | The right child unless the left one is strictly less (src/common/template/MinHeap.h, lines 295-310) |
| `TimerObjects.MinHeap.SinkOne` | src/common/net/Timer.h:68 | One iteration of the sinking loop (src/common/template/MinHeap.h, lines 234-256) |
| `TimerObjects.MinHeap.ShiftDown` | src/common/net/Timer.h:68 | The hole-based fall in the array is the model's (src/common/template/MinHeap.h, lines 225-261) |
| `TimerObjects.MinHeap.Push` | src/common/net/Timer.h:68 | The array holds the pushed heap (src/common/template/MinHeap.h, lines 144-153) |
| `TimerObjects.MinHeap.Pop` | src/common/net/Timer.h:68 | The array holds the popped heap (src/common/template/MinHeap.h, lines 156-174) |
| `TimerObjects.Timer.Admit` | src/common/net/Event.cpp:1536-1544 | A new timer object becomes known with its fields |
| `TimerObjects.Timer.AddTimer` | src/common/net/Timer.cpp:76-99 | Maps and pushes a timer whose id is free, else returns -1 |
| `TimerObjects.Timer.DelTimer` | src/common/net/Timer.cpp:102-112 | Takes the id from the map; the heap entry stays |
| `TimerObjects.Timer.SetNextTime` | src/common/net/Event.h:505 | The next deadline is the clock plus the timeout |
| `TimerObjects.Timer.Reschedule` | src/common/net/Timer.cpp:64-70 | Key, push and pop on the objects are one rescheduling |
| `TimerObjects.Timer.LaunchOne` | src/common/net/Timer.cpp:32-71 | One pass on the objects is one pass of the model |
| `TimerObjects.Timer.Launch` | src/common/net/Timer.cpp:26-73 | The loop on heap, map, objects and active list ends as the model's Launch |
| `TimerObjects.Timer.GetNextTimeout` | src/common/net/Timer.cpp:115-129 | The timeout from the front timer |
| `TimerIds.CreatesLeast` | src/common/net/Timer.cpp:147-174 | CreateTimerID takes the least free id and no other; it fails exactly when all bits are set and fewer timers run than there are bits |
| `TimerIds.ReleaseClears` | src/common/net/Timer.cpp:177-194 | ReleaseTimerID clears the bit of id, but that of id + 8 when id is a multiple of 8 |
| `TimerIds.ReleaseFreesIff` | src/common/net/Timer.cpp:177-194 | Releasing frees the id if and only if it is not a multiple of 8 |
| `TimerIds.ReleaseUndoesIff` | src/common/net/Timer.cpp:147-194 | Release undoes create if and only if the id is not a multiple of 8 |
| `TimerIds.ReleaseKeepsIff` | src/common/net/Timer.cpp:177-194 | The other live ids stay taken if and only if id is not a multiple of 8 or id + 8 is not live |
| `TimerIds.RunDistinct` | src/common/net/Timer.cpp:147-194 | Over runs whose releases meet that condition a new id is never a live one |
| `TimerIds.RunExact` | src/common/net/Timer.cpp:147-194 | Over runs that release no multiple of 8 the taken ids are exactly the live ones, and one is found while no more are live than timers run |
| `TimerIds.NeverFails` | src/common/net/Timer.cpp:151-173 | By pigeonhole an id is found while no more ids are live than timers are running |
| `TimerIds.ReleaseOfEight` | src/common/net/Timer.cpp:188-189 | With 8 and 16 live, releasing 8 lets 16 be handed out again |
| `TimerIds.TimerIdTable.ClearBit` | src/common/net/Timer.cpp:161-170 | The inner loop finds the least clear bit of a byte |
| `TimerIds.TimerIdTable.CreateTimerID` | src/common/net/Timer.cpp:147-174 | The loops return the least free id and set its bit |
| `TimerIds.TimerIdTable.ReleaseTimerID` | src/common/net/Timer.cpp:177-194 | Clears bit id - 1 of the bitmap, or for a multiple of 8 the last bit of the next byte; nothing past the end |
| `Aoi.IdxExistsIff` | src/servers/gamesvr/aoi/AOIManager.cpp:241-253 | A managed coordinate's cell index exists if and only if the coordinate is not past the lower edge of the last piece |
| `Aoi.CellIff` | src/servers/gamesvr/aoi/AOIManager.cpp:241-253 | A position has the cell whose pieces it is within on each axis, by the size of each axis: past the lower edge of the piece before, up to the upper one |
| `Aoi.FitsIff` | src/servers/gamesvr/aoi/AOIManager.cpp:241-253 | The cell of a managed position exists if and only if on no axis the position is past the lower edge of the last piece |
| `Aoi.PiecesFewest` | src/servers/gamesvr/aoi/AOIManager.cpp:7-40 | Along an axis there are as few pieces as cover the range, and at least one |
| `Aoi.NearAroundIff` | src/servers/gamesvr/aoi/AOIManager.cpp:154-172 | The neighbourhood of a cell is all cells within one step per axis if and only if the cell is the last on every axis |
| `Aoi.EnterIndexed` | src/servers/gamesvr/aoi/AOIManager.cpp:48-63 | Enter keeps every present entity in exactly the cell of its location |
| `Aoi.LeaveIndexed` | src/servers/gamesvr/aoi/AOIManager.cpp:66-78 | Leave keeps every present entity in exactly the cell of its location |
| `Aoi.StepIndexed` | src/servers/gamesvr/aoi/AOIManager.cpp:91-137 | Each position of a move keeps every present entity in exactly the cell of its location |
| `Aoi.WalkIndexed` | src/servers/gamesvr/aoi/AOIManager.cpp:91-137 | A move, also one that stops part of the way, keeps the index |
| `Aoi.CrossTold` | src/servers/gamesvr/aoi/AOIManager.cpp:107-133 | A crossing tells an observer LEAVE, ENTER and MOVE exactly by the set differences and the union of the neighbourhoods |
| `Aoi.EnterViewed` | src/servers/gamesvr/aoi/AOIManager.cpp:48-63 | Enter keeps the view of every present observer right |
| `Aoi.LeaveViewed` | src/servers/gamesvr/aoi/AOIManager.cpp:66-78 | Leave keeps the view of every other present observer right |
| `Aoi.StepViewed` | src/servers/gamesvr/aoi/AOIManager.cpp:91-137 | Each position of a move keeps the view of every other present observer right |
| `Aoi.EnterSeesIff` | src/servers/gamesvr/aoi/AOIManager.cpp:48-63 | Who enters has a right view at once if and only if no neighbourhood of another contains its cell |
| `AoiViews.MoverTold` | src/servers/gamesvr/aoi/AOIManager.cpp:107-133 | An entity that crosses hears ENTER of itself exactly when its new cell is not near its old one, and MOVE |
| `AoiTold.WithinTold` | src/servers/gamesvr/aoi/AOIManager.cpp:103-104 | In a step within its cell an entity tells those near of the MOVE with its new position, itself included, and nobody else of anything |
| `AoiTold.StepTold` | src/servers/gamesvr/aoi/AOIManager.cpp:91-137 | A step tells everybody present by the cells, within a cell or across, and the mover as if it were already where it goes |
| `AoiTold.WalkTold` | src/servers/gamesvr/aoi/AOIManager.cpp:81-140 | A whole move tells everybody present of each position that is walked, one by one, and of nothing else |
| `AoiTold.MoveEnds` | src/servers/gamesvr/aoi/AOIManager.cpp:81-140 | A move ends at the last position before the first unmanaged one, changes nothing when the target is unmanaged, and arrives exactly when there is no unmanaged position |
| `AoiTold.EnterTold` | src/servers/gamesvr/aoi/AOIManager.cpp:48-63 | Who is present hears an Enter exactly if its cell is near, the newcomer included |
| `AoiTold.LeaveTold` | src/servers/gamesvr/aoi/AOIManager.cpp:66-78 | Who stays hears a Leave exactly if its cell is near, and who leaves hears nothing |
| `AoiTold.OthersStay` | src/servers/gamesvr/aoi/AOIManager.cpp:48-140 | Whoever is not present is told nothing of what others do, only who acts changes place and presence, and what is refused changes nothing |
| `AoiViews.MoverSeesIff` | src/servers/gamesvr/aoi/AOIManager.cpp:91-137 | A mover's view stays right if and only if the new cell is near the old one and the others near the one are those near the other |
| `AoiViews.WalkSteadyViewed` | src/servers/gamesvr/aoi/AOIManager.cpp:91-137 | A mover's view stays right along a way whose steps all meet that condition |
| `AoiViews.EnterAgainIndexed` | src/servers/gamesvr/aoi/AOIManager.cpp:48-63 | A second Enter keeps the index if and only if it is into the same cell |
| `AoiViews.EnterAgainIff` | src/servers/gamesvr/aoi/AOIManager.cpp:48-63 | A second Enter into the same cell keeps an observer's view right if and only if the observer does not hear it |
| `AoiViews.LeaveAbsentIndexed` | src/servers/gamesvr/aoi/AOIManager.cpp:66-78 | Leave of an entity that is not present keeps the index, and tells the neighbourhood of its location LEAVE |
| `AoiViews.LeaveAbsentIff` | src/servers/gamesvr/aoi/AOIManager.cpp:66-78 | It keeps an observer's view right if and only if the observer does not hear it |
| `AoiViews.MoveAbsentIndexed` | src/servers/gamesvr/aoi/AOIManager.cpp:91-137 | A step of an entity that is not present keeps the index if and only if it stays within its cell |
| `AoiViews.WalkAbsentIndexed` | src/servers/gamesvr/aoi/AOIManager.cpp:81-140 | A whole move of it keeps the index if and only if every position walked stays in the cell |
| `AoiViews.WalkAbsentViewed` | src/servers/gamesvr/aoi/AOIManager.cpp:81-140 | Then it keeps every view right as well |
| `AoiRuns.NextIndexedIff` | src/servers/gamesvr/aoi/AOIManager.cpp:48-140 | Of all operations whose cells exist, of present and of absent entities, exactly the legal ones keep each present entity in one cell, that of its location |
| `AoiRuns.RunIndexed` | src/servers/gamesvr/aoi/AOIManager.cpp:48-140 | In every run of legal operations each present entity is in exactly one cell, that of its location, also when a move stopped part of the way |
| `AoiRuns.NextViewedIff` | src/servers/gamesvr/aoi/AOIManager.cpp:48-215 | What somebody else does, entering twice and leaving while absent included, keeps an observer's view right if and only if it is quiet: the observer hears neither of those two |
| `AoiRuns.RunViewed` | src/servers/gamesvr/aoi/AOIManager.cpp:48-215 | Over every quiet run, the observer's own moves included, its view stays exactly the entities whose neighbourhood contains its cell, with no repeated ENTER and no unmatched LEAVE |
| `AoiRuns.RunStationary` | src/servers/gamesvr/aoi/AOIManager.cpp:48-215 | So it does while the observer stays put and the others enter only when absent and leave only when present |
| `AoiPlaces.NewcomerPlaced` | src/servers/gamesvr/aoi/AOIManager.cpp:48-63 | A newcomer that has a right view at once was told where the entities in it are |
| `AoiPlaces.RunPlaced` | src/servers/gamesvr/aoi/AOIManager.cpp:48-215 | Over every quiet run an observer with a right view was last told, in an ENTER or a MOVE, the place where each entity in it is now |
| `AoiPlaces.RunStationaryPlaced` | src/servers/gamesvr/aoi/AOIManager.cpp:48-215 | So it was while it stays put and the others keep to the discipline |
| `AoiObjects.AOIManager.constructor` | src/servers/gamesvr/aoi/AOIManager.cpp:7-40 | A grid of empty cells of the computed dimensions |
| `AoiObjects.AOIManager.Admit` | src/servers/gamesvr/aoi/AOIManager.cpp:48 | A new entity becomes known and is nowhere yet |
| `AoiObjects.AOIManager.FindAroundGrids` | src/servers/gamesvr/aoi/AOIManager.cpp:144-175 | Exactly the cells of the scene among the position's cell and the one before it, per axis |
| `AoiObjects.AOIManager.NotifyGrid` | src/servers/gamesvr/aoi/AOIManager.cpp:192-214 | Every entity of the cell gets the notice once, nobody else |
| `AoiObjects.AOIManager.NotifyGrids` | src/servers/gamesvr/aoi/AOIManager.cpp:188-215 | Every entity of the cells gets the notice once, nobody else |
| `AoiObjects.AOIManager.NotifyAroundGrids` | src/servers/gamesvr/aoi/AOIManager.cpp:178-184 | The cells around the entity's location are told |
| `AoiObjects.AOIManager.Enter` | src/servers/gamesvr/aoi/AOIManager.cpp:48-63 | Sets the location, inserts, then notifies, the newcomer included |
| `AoiObjects.AOIManager.Leave` | src/servers/gamesvr/aoi/AOIManager.cpp:66-78 | Erases, then notifies |
| `AoiObjects.AOIManager.Cross` | src/servers/gamesvr/aoi/AOIManager.cpp:107-133 | Computes the sets before moving the entity and notifies after |
| `AoiObjects.AOIManager.StepTo` | src/servers/gamesvr/aoi/AOIManager.cpp:91-137 | One position of a move on the grid objects, the location set last |
| `AoiObjects.AOIManager.Move` | src/servers/gamesvr/aoi/AOIManager.cpp:81-140 | Walks the way-finder's positions and is true exactly if all of them and the target are managed |
| `Framing.Pack` | src/common/package/Package.cpp:4-20 | Writes the header in any case and the body if there is room; returns the size needed |
| `Framing.Unpack` | src/common/package/Package.cpp:23-36 | Copies out the body the header announces and returns how far to advance, or only what it needs; the result exceeds the room exactly when the room is too small, except if and only if the room holds the body and not its header too |
| `Framing.UnpackAll` | src/common/package/Package.cpp:23-36 | Unpack called again and again with room for the longest body yields the decoded stream |
| `Framing.LowByteFirst` | src/common/package/Package.cpp:9-10 | The low byte of the length comes first |
| `Framing.CopyBytes` | src/common/package/Package.cpp:17 | Copies the range and touches nothing else |
| `Framing.DecodesOther` | src/common/package/Package.cpp:9-10 | A message of 65536 bytes or more never decodes to itself: its length is cut to 16 bits |
| `Framing.DecodeSplits` | src/common/package/Package.cpp:23-36 | A stream in two parts decodes as it would in one |
| `Framing.RoundTripIff` | src/common/package/Package.cpp:4-36 | Packing a list of messages and unpacking the stream gives the list back if and only if every message is below 65536 bytes |
| `Framing.FeedDecodes` | src/common/package/Package.cpp:23-36 | A reader that unpacks after each chunk and keeps the rest decodes the whole stream |
| `Framing.ChunksDeliver` | src/common/package/Package.cpp:4-36 | However the packed stream is cut on its way, the reader gets the messages |

## Left out

- Threads, `Mutex`, `Condition`, `ThreadPool`: each locked region is one step.
- `EventCentrePool`, wake-up event, `Listener`, IOCP and `Select`: foreign code or little state. There is one centre, so `attached` stands for the event's pointer to it, and centres are not confused.
- Sockets, `epoll_ctl`, `readv`, `writev`, clocks and way-finders: their results are parameters. Beyond registration `epoll_ctl` is taken to succeed on descriptors that are there.
- Database, logger and client wrappers: calls into libraries.
- Destructors and freeing of memory; allocation never fails.
- `Error` callbacks: the default one, which cancels, is modelled; a callback is one of the scripts a handler may run.
- Timers and I/O events in one dispatch loop: `TimerDispatch` follows the timers, on values, and `Dispatch` the I/O events. Events in `Dispatch` care for I/O and not for TIMEOUT.
- Dispatch.RunKeeps: an event whose queue is not empty is not registered; `RegisterSafeIff` shows that this is exactly needed.
- Links.OutputKept: only moves that meet `Allowed`, which `StepTracksIff` shows to be exactly needed.
- OutputRuns.OutputHasInterest: one connection is followed; other events, other connections among them, do anything that leaves its event's mask and registration to it. Its moves meet `Allowed`.
- Centre.EventCentre.UpdateFd: an update that `epoll_ctl` refuses is not a step of the runs; `RefusedUpdateIff` says when it does harm.
- Centre.EventCentre.Iterate: the launch of the timers in the same iteration is modelled apart, in `Timers`.
- Connecters.Connecter.HandleRead: the read callback, and `CallErr` with a callback set, are the user's.
- RingRuns.RunQueues: holds for runs whose appends meet `Orderly`; `FillAppendsIff` and `WriteAppendsIff` show that each single append needs it.
- RingStreams.StreamOrderlyIff: fills are not among its operations; `FillAppendsIff` has their condition and `FillTrails` where each leaves the iterators.
- Buffers.Buffer.ReadBuffer: bytes past the end of a node's memory, which the code reads when data has wrapped, are arbitrary here; which bytes they are is not modelled.
- Buffers.Buffer.Expand: iterators are indices into the list; `std::list` iterator stability is the index shift.
- TimerObjects.MinHeap.Expand: the capacity is unbounded, the cap at 2^31 - 1 entries is not modelled; unused places hold any timer instead of zeroes.
- TimerRuns.RunGood: exactness at every launch is for runs in which no entry expires; for all runs there are `RunDistinct` and `TimerExpired.RunInOrder`, with `LaunchMisses` for what a launch may miss. Deadlines do not wrap at 2^64.
- TimerRuns.EndsIff: heaps with expired entries, where a due loop timer may be hidden; `PassesEnd` holds of them too.
- TimerDispatch.RunSafe: nothing but CANCEL is pushed to a timer, as `PushEventToCentre` is protected and only sockets call it; a timer is registered with nothing in its queue and no entry in the heap, and steps are careful; `ActSafeIff`, `LaunchSafeIff` and `SafeIff` show what the careful steps are worth.
- TimerDispatch.IterationHandles: handlers that cancel are left out; `HandlerFate` and `StepOnDetached` say what a cancellation in a handler does.
- Delivery.IterationDelivers: handlers that cancel are left out; `IterationReaches` holds of any handlers, for the events that none cancels, and `DispatchAllFate` and `StepOnGone` of cancelled ones.
- TimerIds.RunDistinct: ids are unbounded, not `timer_id` wide.
- AoiRuns.RunViewed: runs of legal and quiet operations, which `NextIndexedIff`, `NextViewedIff` and, for the observer's own moves, `AoiViews.MoverSeesIff` show to be needed. Coordinates are reals, so float rounding is not modelled.
- Aoi.EnterIndexed: the entity is not present yet; `EnterAgainIndexed` and `EnterAgainIff` say what a second Enter does. In the same way `LeaveAbsentIndexed` and `WalkAbsentIndexed` go with `Aoi.LeaveIndexed` and `Aoi.WalkIndexed`.
- AoiObjects.AOIManager.Enter: positions whose cell does not exist, at which the code leaves the grid, are excluded, in `FindAroundGrids`, `Leave` and `Move` too; so are a second Enter into another cell and a move of an absent entity across cells, after which `NextIndexedIff` shows the index broken.
- Framing.Pack: null pointers, a target of fewer than two bytes, which the code overruns, and sizes within two bytes of 2^32 are excluded. Bytes are in little-endian order.
- Framing.Unpack: a source shorter than the frame that its header announces, which the code reads past, is excluded.
- `Observer`, `Single`, configuration and server start-up: little state.
