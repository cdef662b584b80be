# vlingo-wire: the socket-channel selection processor and the node identity

This project models two parts of vlingo-wire in Dafny.

**The socket-channel selection processor** (`SocketChannelSelectionProcessorActor`)
is the server-side reactor. It owns one selector and one `Context` per accepted
client socket. A context holds:

- the request buffer it borrowed from the pool;
- a FIFO queue of outbound response buffers (`writables`);
- a `writeMode` back-pressure flag;
- its closing data and consumer data;
- a sequential id.

Each poll cycle (`probeChannel`) does three things:

1. When `select` reports that the selected-key set changed, it takes the selected keys out of the set one by one.
2. It dispatches each valid key to the read path (readable first) or to the write path. An exception from the consumer's `consume` ends the cycle there, leaving the rest of the keys selected.
3. Unless that happened, it drains the processor's `writableContexts` list, writing the queue of every context on it.

The read path reads in a do-while loop until a call returns 0 or less, adding every
returned value to a running total. It then hands the flipped buffer to the
request consumer, or closes the connection. The write path writes each head
buffer until it is empty, then releases and pops it. When a write takes no
bytes, it switches write interest on and leaves that buffer at the head; the
outer loop then goes on with the same head.

Modules:

- `Buffers`: pooled byte buffers as values, plus the pool.
  - A `Window` has an acquisition id, backing bytes, a position and a limit.
  - The `ConsumerBuffer` subset type keeps `position <= limit <= capacity`.
  - The pool logs every `release()`.
- `Sockets`: stand-ins for the client `SocketChannel` and the `RequestChannelConsumer`.
  - A channel follows scripts of what each `read` and `write` call does: data, end of stream, or an exception.
  - The pure functions `ReadCall`, `ReadLoop` and `WriteCall` say what one call, and the whole read loop, do.
  - The consumer records each `consume` and `closeWith` call, and for each `consume` how many buffers the pool had released by then. Two flags make those calls throw.
- `Reactor`: the classes `Context` and `Processor`, with one method per Java method.
  - A `SelectionKey` is kept in the fields of its context: `registered` and `interestWrite`.
  - The selected-key set is a sequence of (key, ready operations) entries.
  - `select(probeTimeout)` is modelled by `AddSelected` over the keys the environment reports ready. The key loop runs only when that changed the set, as `select` returning a positive count does.
  - The selected-key set keeps its keys in the order they were added. Java's set is a hash set with its own order; the model fixes this one.
- `Nodes`: the immutable `Node` value.
  - It covers validity, leadership, `equals`, `hashCode` (in 32-bit arithmetic) and the id-only ordering.

Behaviours of the code that the model keeps and proves:

- **Every returned value counts toward the total.** The final -1 of a read pass is added to the total.
  - A single byte followed by end of stream therefore gives a total of 0. The consumer is never called for that byte (`Sockets.OneByteThenEndIsDropped`).
  - A read pass with a total of 0 or less closes the context.
- **`Context.close` is not idempotent.** An immediate end of stream closes the context twice.
  - Each time it calls `closeWith`, closes the socket and releases the request buffer again (`Sockets.ImmediateEndClosesTwice`, `Reactor.Processor.Read`).
  - When data and an end of stream arrive in one pass, the context is closed, and its buffer released, before `consume` is handed that buffer (`ReadEffect`: the consume call comes after one more release than the pool had).
- **A context can be queued more than once.** `queueWritable` adds the context to `writableContexts` every time it is called outside write mode.
- **No byte is lost on the write side.** `Pending(c)` is a context's socket wire followed by the bytes still queued on it. Every step of a probe keeps it for every context.
  - `Kept(s, r)` says the same for one write pass: a prefix of the queue was popped, the wire gained exactly the bytes that left the queue, and the popped buffers were released in queue order.
- **Each visit and each flush is stated by its effect.** A `Snapshot` is everything the read and write paths look at or change for one context: its `Own` state, its consumer's logs and flags, the pool's release log and whether the selector is open.
  - `Own` holds every field of a context and of its socket that can change, so a context whose `Own` is as it was has not been touched.
  - `ReadEffect`, `WriteEffect` and `KeyWriteEffect` relate the snapshots before and after the read path, `write(Context)` and `write(SelectionKey)`.
  - A poll cycle logs a `Visit` per selected key and a `Step` per flush, each with its context's snapshots. `Ran(log)` says the contexts went from their old states to their present ones through exactly those steps, each starting where the earlier ones left its context.
  - In every logged visit and step, the snapshot before shows the selector's state and the consumer's flags as they really are (`Faithful`), and its `Own` state is the one the earlier steps left. So the key's validity, which path `Dispatch` picks and which effect applies are the real ones.
  - `KeysVisited` states what the key part of a poll cycle did to the selected-key set and that each visit had the effect its action says. Only the consumer's logs and the pool's release log are not chained from step to step (see "## Left out").
- **The outer write loop can run forever.** It never looks at `writeMode`, so a socket that keeps taking nothing keeps it going. `Reactor.Processor.WriteQueued` bounds it with a `fuel` count of head writes.

## Model

| member | source | states |
|---|---|---|
| Reactor.Context.constructor | src/main/java/io/vlingo/wire/channel/SocketChannelSelectionProcessorActor.java:310-317 | a new context has an empty outbound queue, is not in write mode, acquires one pool buffer and takes the pre-incremented counter as its decimal id |
| Reactor.DecimalInjective | src/main/java/io/vlingo/wire/channel/SocketChannelSelectionProcessorActor.java:314 | distinct counter values render as distinct id strings |
| Reactor.Processor.IdsDistinct | src/main/java/io/vlingo/wire/channel/SocketChannelSelectionProcessorActor.java:310-317 | the contexts of one processor have the ids "1", "2", … in creation order (context i has `Decimal(i + 1)`), so they are pairwise distinct |
| Reactor.Context.WhenClosing | src/main/java/io/vlingo/wire/channel/SocketChannelSelectionProcessorActor.java:305-308 | the closing data becomes the given object |
| Reactor.Context.SetConsumerData | src/main/java/io/vlingo/wire/channel/SocketChannelSelectionProcessorActor.java:284-288 | stores the working data and returns it; afterwards `hasConsumerData` holds iff the data stored is not null |
| Reactor.Context.NextWritable | src/main/java/io/vlingo/wire/channel/SocketChannelSelectionProcessorActor.java:352-358 | peeks the queue head: empty exactly when the queue is empty, otherwise the first queued buffer |
| Reactor.Context.SetWriteMode | src/main/java/io/vlingo/wire/channel/SocketChannelSelectionProcessorActor.java:372-378 | re-registration succeeds iff the key is valid; then the write interest and `writeMode` both become `on`; otherwise neither changes |
| Reactor.Context.QueueWritable | src/main/java/io/vlingo/wire/channel/SocketChannelSelectionProcessorActor.java:360-366 | appends the buffer at the tail with the earlier ones unchanged; appends the context to `writableContexts` iff not in write mode |
| Reactor.Context.ConfirmCurrentWritable | src/main/java/io/vlingo/wire/channel/SocketChannelSelectionProcessorActor.java:338-350 | releases the buffer once, clears write mode when the key allows it, and removes exactly the queue head |
| Reactor.Context.Close | src/main/java/io/vlingo/wire/channel/SocketChannelSelectionProcessorActor.java:323-332 | calls `closeWith` with the closing data, closes the socket unless `closeWith` threw, and releases the request buffer in every case; each call does all of it again |
| Reactor.Processor.constructor | src/main/java/io/vlingo/wire/channel/SocketChannelSelectionProcessorActor.java:42-58 | a new processor has no contexts, an open selector, an empty pending-flush list and the counter at 0 |
| Reactor.Processor.Process | src/main/java/io/vlingo/wire/channel/SocketChannelSelectionProcessorActor.java:87-96 | creates the context before registering it; registration succeeds iff the socket and the selector are open |
| Reactor.Processor.RespondWith | src/main/java/io/vlingo/wire/channel/SocketChannelSelectionProcessorActor.java:77-80 | queues the buffer on the context as `queueWritable` does |
| Reactor.Processor.Abandon | src/main/java/io/vlingo/wire/channel/SocketChannelSelectionProcessorActor.java:65-68 | closes the context: one `closeWith`, one release, and the socket closed unless `closeWith` threw |
| Reactor.Processor.Stop | src/main/java/io/vlingo/wire/channel/SocketChannelSelectionProcessorActor.java:113-122 | cancels the probe timer and closes the selector |
| Reactor.Processor.Close | src/main/java/io/vlingo/wire/channel/SocketChannelSelectionProcessorActor.java:70-75 | does nothing once stopped, otherwise stops |
| Reactor.Processor.CloseContext | src/main/java/io/vlingo/wire/channel/SocketChannelSelectionProcessorActor.java:129-140 | closes the context and cancels its key |
| Sockets.ReadCall | src/main/java/io/vlingo/wire/channel/SocketChannelSelectionProcessorActor.java:198 | one read throws iff the socket is closed or faults; a buffer with no room left returns 0 at once with nothing consumed from the socket; otherwise pending bytes move into the buffer in arrival order, without loss, and -1 comes iff the socket is at end of stream |
| Sockets.ReadLoop | src/main/java/io/vlingo/wire/channel/SocketChannelSelectionProcessorActor.java:193-205 | the do-while loop: the bytes read land in the buffer in order; the total is the bytes read plus -1 when it stopped at end of stream; an exception makes the last value -1 |
| Reactor.Processor.ReadAvailable | src/main/java/io/vlingo/wire/channel/SocketChannelSelectionProcessorActor.java:189-205 | the loop on the socket yields exactly the result `ReadLoop` specifies for the cleared request buffer |
| Reactor.Processor.Read | src/main/java/io/vlingo/wire/channel/SocketChannelSelectionProcessorActor.java:181-215 | as `ReadEffect` says of the context's snapshots before and after: a closed socket only cancels the key; otherwise `consume` gets the bytes read exactly when the total is positive; the context is closed once for a final -1 and once more when nothing is consumed; when a final -1 and a positive total meet, the close and its buffer release come before `consume` is handed that buffer; the key is cancelled iff the last value was -1; the write side is untouched; it fails iff `consume` was called and threw |
| Reactor.Processor.Deliver | src/main/java/io/vlingo/wire/channel/SocketChannelSelectionProcessorActor.java:207-215 | after the loop: a last value of -1 closes the context and cancels the key; `consume` gets the flipped buffer iff the total is positive, after that close and its release when there was one (the consume call sees one more release), otherwise the context is closed again; the closings and releases number `CloseCount` |
| Sockets.PayloadIsStreamPrefix | src/main/java/io/vlingo/wire/channel/SocketChannelSelectionProcessorActor.java:196-212 | what the consumer gets is a prefix of what the peer sent, and the rest stays pending |
| Sockets.ImmediateEndClosesTwice | src/main/java/io/vlingo/wire/channel/SocketChannelSelectionProcessorActor.java:207-215 | with room in the buffer, an end of stream on the first read closes the context twice and calls no consumer |
| Sockets.OneByteThenEndIsDropped | src/main/java/io/vlingo/wire/channel/SocketChannelSelectionProcessorActor.java:197-215 | with room for at least two bytes, a single byte followed by end of stream is read but never consumed: the total is 1 + (-1) = 0 and the context is closed twice |
| Sockets.WriteCall | src/main/java/io/vlingo/wire/channel/SocketChannelSelectionProcessorActor.java:252 | one write sends a prefix of the buffer's remaining bytes and advances the position past exactly those |
| Sockets.SendLoop | src/main/java/io/vlingo/wire/channel/SocketChannelSelectionProcessorActor.java:249-256 | the inner write loop: it ends `Sent` when nothing remains, `Blocked` when a call returns less than 1 and `Failed` when a call throws; the bytes sent followed by what remains are the bytes that remained before; `Failed` only on a closed socket or a faulting script |
| Sockets.SendLoopDelivers | src/main/java/io/vlingo/wire/channel/SocketChannelSelectionProcessorActor.java:249-256 | a socket whose every call takes at least one byte, and whose script lets through all that remains, takes the whole buffer |
| Sockets.SendLoopStops | src/main/java/io/vlingo/wire/channel/SocketChannelSelectionProcessorActor.java:251-254 | a call that takes nothing blocks the loop at once with nothing sent; a closed socket or a faulting call fails it with nothing sent |
| Reactor.Processor.SendRemaining | src/main/java/io/vlingo/wire/channel/SocketChannelSelectionProcessorActor.java:249-256 | the loop on the socket does what `SendLoop` specifies: the same outcome and advanced buffer, the script used up as `SendLoop` says, and the wire extended by exactly the bytes sent, so the wire gains exactly the bytes the buffer lost; `Sent` iff nothing remains |
| Reactor.Processor.WriteHead | src/main/java/io/vlingo/wire/channel/SocketChannelSelectionProcessorActor.java:247-261 | the context's outbound state (script, wire, queue, write mode, write interest, releases) becomes `WriteHeadStep` of the old one: popped and released when sent whole; the advanced head kept and write mode switched on (for a valid key) when a call took nothing; the head and flags kept when a call threw |
| Reactor.WriteHeadKeeps | src/main/java/io/vlingo/wire/channel/SocketChannelSelectionProcessorActor.java:247-261 | a head write loses no byte: what leaves the head is on the wire, and the head is released exactly when it is popped |
| Buffers.DrainedTrans | src/main/java/io/vlingo/wire/channel/SocketChannelSelectionProcessorActor.java:241-245 | successive head writes remove a prefix of the queue, and the released ids are those of that prefix in order |
| Reactor.Processor.WriteQueued | src/main/java/io/vlingo/wire/channel/SocketChannelSelectionProcessorActor.java:241-245 | the outbound state becomes `WriteLoop` of the old one and `steps` counts its head writes; `drained` iff the queue is empty, and only running out of fuel leaves it non-empty; no byte is lost (`Kept`) |
| Reactor.WriteLoopKeeps | src/main/java/io/vlingo/wire/channel/SocketChannelSelectionProcessorActor.java:241-261 | the outer loop loses no byte: a prefix of the queue is popped, the wire gains exactly its bytes in queue order, and the popped buffers are released in queue order |
| Reactor.WriteLoopEmpties | src/main/java/io/vlingo/wire/channel/SocketChannelSelectionProcessorActor.java:241-261 | with one scripted call taking each whole buffer, the loop empties the queue with one head write per buffer and uses up one call per buffer |
| Reactor.WriteLoopDrains | src/main/java/io/vlingo/wire/channel/SocketChannelSelectionProcessorActor.java:241-261 | in that case the wire gets the whole queue and every buffer is released, in queue order |
| Reactor.ThreeResponsesDrain | src/main/java/io/vlingo/wire/channel/SocketChannelSelectionProcessorActor.java:241-261 | three queued 10-byte responses and three calls of up to 15 bytes: three head writes drain the queue, use up the script and put the three responses on the wire in order |
| Reactor.TwoCallsLeaveThirdQueued | src/main/java/io/vlingo/wire/channel/SocketChannelSelectionProcessorActor.java:241-261 | with two such calls only, the third response stays queued and write mode is switched on, although 30 bytes would fit in the two calls |
| Reactor.WriteLoopSpins | src/main/java/io/vlingo/wire/channel/SocketChannelSelectionProcessorActor.java:241-254 | a socket that takes nothing keeps the outer loop going until the fuel runs out: nothing is sent, popped or released, and write mode is on for a valid key |
| Reactor.Processor.WriteContext | src/main/java/io/vlingo/wire/channel/SocketChannelSelectionProcessorActor.java:229-239 | as `WriteEffect` says of the context's snapshots before and after: a closed socket closes the context (one `closeWith`, one release, the socket closed unless `closeWith` threw, the queue untouched); in write mode or with an empty queue nothing changes; otherwise the outbound state becomes `WriteLoop` of the old one; the read side is untouched and the pending bytes are kept |
| Reactor.Processor.WriteKey | src/main/java/io/vlingo/wire/channel/SocketChannelSelectionProcessorActor.java:218-227 | as `KeyWriteEffect` says: a closed socket only cancels the key and changes nothing else; otherwise `write(Context)` as `WriteEffect` says; the pending bytes are kept |
| Reactor.Dispatch | src/main/java/io/vlingo/wire/channel/SocketChannelSelectionProcessorActor.java:163-169 | read iff the key is valid and readable; write iff valid, not readable and writable; nothing otherwise |
| Reactor.AddSelected | src/main/java/io/vlingo/wire/channel/SocketChannelSelectionProcessorActor.java:156-157 | the keys that were selected keep their places |
| Reactor.AddOne | src/main/java/io/vlingo/wire/channel/SocketChannelSelectionProcessorActor.java:156 | a ready key is merged into its entry (its ready set grows) or appended, and is selected afterwards |
| Reactor.Merge | src/main/java/io/vlingo/wire/channel/SocketChannelSelectionProcessorActor.java:156 | an already selected key keeps its place and gains the reported operations; other entries are unchanged |
| Reactor.AddSelectedHasReady | src/main/java/io/vlingo/wire/channel/SocketChannelSelectionProcessorActor.java:156-157 | after the select step every key reported ready is in the selected-key set |
| Reactor.AddSelectedAppendsNew | src/main/java/io/vlingo/wire/channel/SocketChannelSelectionProcessorActor.java:156-157 | the entries after the old ones are keys reported ready that were not selected before |
| Reactor.AddSelectedDistinct | src/main/java/io/vlingo/wire/channel/SocketChannelSelectionProcessorActor.java:156-157 | the selected-key set never holds a key twice |
| Reactor.AddSelectedCovers | src/main/java/io/vlingo/wire/channel/SocketChannelSelectionProcessorActor.java:156-157 | each selected key's ready set includes its earlier one and everything reported for it |
| Reactor.AddSelectedAmong | src/main/java/io/vlingo/wire/channel/SocketChannelSelectionProcessorActor.java:156-157 | when the selected and the reported keys are contexts of the processor, so are the keys of the merged set |
| Reactor.AddSelectedKeysFrom | src/main/java/io/vlingo/wire/channel/SocketChannelSelectionProcessorActor.java:156-157 | the merged set holds no key that was neither selected nor reported ready |
| Reactor.Processor.TakeSelected | src/main/java/io/vlingo/wire/channel/SocketChannelSelectionProcessorActor.java:159-161 | `next()` and `remove()`: the first entry is taken out of the set |
| Reactor.Processor.VisitKey | src/main/java/io/vlingo/wire/channel/SocketChannelSelectionProcessorActor.java:160-169 | the action is `Dispatch` of the key's validity and ready set; the visit's snapshots are the context's state before and after, and they are related as `ReadEffect` says for a read, `KeyWriteEffect` for a write and by equality for a skip; it fails iff it read from an open socket, `consume` was called and threw; the pending bytes are kept |
| Reactor.Processor.VisitNext | src/main/java/io/vlingo/wire/channel/SocketChannelSelectionProcessorActor.java:159-169 | one turn of the key loop: the first entry leaves the set and is visited as `Visited` says (the path `Dispatch` chooses, and its effect on the context's snapshots); the visit is logged; a failed turn read and its consumer threw; every other context and its socket is untouched, the pending flushes are untouched, and no context's pending bytes change |
| Reactor.Processor.ProcessSelectedKeys | src/main/java/io/vlingo/wire/channel/SocketChannelSelectionProcessorActor.java:157-170 | the keys are taken in the set's order (the model's order), and visit i handled selection i as `Visited` says: `Dispatch` chose the path, and the context went from its state before the loop to the visit's after-snapshot by `ReadEffect`, `KeyWriteEffect` or nothing; each context is now in its visit's after-state (`Ran`); the set keeps only the unvisited entries, none unless `consume` threw on the last visit; the pending flushes are untouched, contexts not in the set keep their state and no pending bytes change; every visit's snapshot before shows the selector's state and the consumer flags as they are, so the validity and path are the real ones |
| Reactor.Processor.VisitSelected | src/main/java/io/vlingo/wire/channel/SocketChannelSelectionProcessorActor.java:159-170 | the loop goes on while keys are selected and stops at the first visit whose `consume` threw; it ends where `KeyLoop` says: each visit so far handled its selection, in order, and the contexts are where the visits took them; every visit's snapshot before shows the selector's state and the key's consumer flags as they are |
| Reactor.Processor.NextKey | src/main/java/io/vlingo/wire/channel/SocketChannelSelectionProcessorActor.java:159-169 | one turn in the loop's terms: the log grows by one visit that handled the next selection, the contexts are where the whole log took them, the pending flushes are untouched, and `ok` says whether the visit returned normally; the new visit's snapshot before shows the selector's state and the consumer flags as they are |
| Reactor.Processor.KeyLoopEnd | src/main/java/io/vlingo/wire/channel/SocketChannelSelectionProcessorActor.java:157-170 | the selected keys being distinct, each visit started from its context's state before the loop and the context is now in the visit's after-state; every visit but a faulted last one returned normally; no context lost pending bytes and contexts outside the set are as they were |
| Reactor.Processor.PollWritable | src/main/java/io/vlingo/wire/channel/SocketChannelSelectionProcessorActor.java:174 | `poll()` takes the head of `writableContexts` |
| Reactor.Processor.FlushNext | src/main/java/io/vlingo/wire/channel/SocketChannelSelectionProcessorActor.java:173-175 | one turn of the flush loop: the head of `writableContexts` is polled and written, its snapshots before and after related as `WriteEffect` says, and the step is logged; every other context is untouched, the selected keys are untouched and no pending bytes change |
| Reactor.Processor.FlushWritableContexts | src/main/java/io/vlingo/wire/channel/SocketChannelSelectionProcessorActor.java:173-175 | `writableContexts` is polled until empty; step i of the flush log wrote entry i of the old list as `WriteEffect` says (`Flushes`), and the contexts went through those steps one after the other (`Ran`), so a context queued twice is written twice, the second time from the state the first write left; the selected keys are untouched, contexts not on the list keep their state and no pending bytes change; every step's snapshot before shows the selector's state and the consumer flags as they are, so a closed queued context is closed as `closeWith` really behaves |
| Reactor.Processor.FlushQueued | src/main/java/io/vlingo/wire/channel/SocketChannelSelectionProcessorActor.java:173-175 | the loop goes on while contexts are queued; it ends where `FlushLoop` says with the list empty: each flush wrote its entry as `WriteEffect` says, and the contexts are where the flushes took them; every step's snapshot before shows the selector's state and the consumer flags as they are |
| Reactor.Processor.NextFlush | src/main/java/io/vlingo/wire/channel/SocketChannelSelectionProcessorActor.java:173-175 | one turn in the loop's terms: the log grows by one step that wrote the next entry as `WriteEffect` says, and the contexts are where the whole log took them; the new step's snapshot before shows the selector's state and the consumer flags as they are |
| Reactor.Processor.FlushLoopEnd | src/main/java/io/vlingo/wire/channel/SocketChannelSelectionProcessorActor.java:173-175 | at the end of the flush loop every entry of the old list was written as `WriteEffect` says, no context lost pending bytes and contexts not on the list are as they were |
| Reactor.Processor.HandleReady | src/main/java/io/vlingo/wire/channel/SocketChannelSelectionProcessorActor.java:156-170 | as `KeysVisited` says: the ready keys join the set as `AddSelected` says; when that changed nothing no key is visited; otherwise the keys are taken in the set's order and visit i handled selection i as `Visited` says (its path and its effect on the context), all of them unless `consume` threw on a read; the contexts went through those visits (`Ran`); the pending flushes are untouched, contexts in neither set keep their state and no pending bytes change; every visit's snapshot before shows the selector's state and the consumer flags as they are |
| Reactor.Processor.Probe | src/main/java/io/vlingo/wire/channel/SocketChannelSelectionProcessorActor.java:152-179 | when stopped nothing changes; a closed selector ends the cycle with nothing changed and `faulted` set; otherwise the keys are handled as `KeysVisited` says, then, unless `consume` threw, each entry of the pending-flush list is written in order as `WriteEffect` says and the list is emptied; when `consume` threw the list is left as it was; the contexts went through the visits and then the flushes (`Ran`); contexts neither selected, ready nor queued are untouched, and no context's pending bytes change; every visit's and step's snapshot before shows the selector's state and the consumer flags as they are |
| Reactor.Processor.Cycle | src/main/java/io/vlingo/wire/channel/SocketChannelSelectionProcessorActor.java:156-178 | a cycle past the selector's checks: the key part as `KeysVisited` says, then the flush part as `Flushes` says unless `consume` threw; the contexts went through the visits and then the flushes (`Ran`); contexts neither selected, ready nor queued keep their state and no pending bytes change; every visit's and step's snapshot before shows the selector's state and the consumer flags as they are |
| Reactor.Processor.FlushPhase | src/main/java/io/vlingo/wire/channel/SocketChannelSelectionProcessorActor.java:173-175 | after a key part that did not fault, the flushes write the old list in order as `WriteEffect` says, the run of the visits goes on with the flushes, and contexts neither selected, ready nor queued keep their state; every visit's and step's snapshot before shows the selector's state and the consumer flags as they are |
| Reactor.WriteEffectKeepsPending | src/main/java/io/vlingo/wire/channel/SocketChannelSelectionProcessorActor.java:229-261 | `write(Context)` loses no byte still to go out: the wire followed by the queue is the same before and after |
| Reactor.DidKeepsPending | src/main/java/io/vlingo/wire/channel/SocketChannelSelectionProcessorActor.java:160-169 | no visit loses a byte still to go out: a read leaves the wire and the queue alone, a write moves bytes from one to the other |
| Reactor.ChainedKeepsPending | src/main/java/io/vlingo/wire/channel/SocketChannelSelectionProcessorActor.java:159-175 | a run of steps each of which loses no byte still to go out leaves every context with the bytes it had |
| Reactor.Processor.RunPreserves | src/main/java/io/vlingo/wire/channel/SocketChannelSelectionProcessorActor.java:159-175 | a run of steps on the contexts of a list, none losing a byte, leaves the other contexts as they were and every context with its bytes still to go out |
| Reactor.OnceChained | src/main/java/io/vlingo/wire/channel/SocketChannelSelectionProcessorActor.java:159-170 | in a run that changes each context once, as the key loop's does, each step starts from its context's initial state and leaves its context's final state |
| Reactor.KeptCompose | src/main/java/io/vlingo/wire/channel/SocketChannelSelectionProcessorActor.java:156-175 | the key part followed by the flush part touches only the contexts touched by either, and still loses no byte |
| Nodes.With | src/main/java/io/vlingo/wire/node/Node.java:20-26 | the operational address has the operational role and port and the application address the application role and port, both on the given host; the node is valid iff its id and name are present |
| Nodes.Collected | src/main/java/io/vlingo/wire/node/Node.java:45-47 | a one-element collection holding exactly the node |
| Nodes.MissingPartOfWith | src/main/java/io/vlingo/wire/node/Node.java:49-54 | the node of no parts misses every part; a node built by `with` misses a part iff its id or its name is missing |
| Nodes.IsValid | src/main/java/io/vlingo/wire/node/Node.java:76-78 | true iff no part is missing; a valid node is never the node of no parts |
| Nodes.IsLeaderOver | src/main/java/io/vlingo/wire/node/Node.java:72-74 | true iff the node is valid and its id is greater than the given one |
| Nodes.NoNodeIsInvalid | src/main/java/io/vlingo/wire/node/Node.java:14-18 | the node with every part missing is not valid and leads over nothing |
| Nodes.LeaderIsValid | src/main/java/io/vlingo/wire/node/Node.java:49-78 | a node that leads over an id has its id and name present and is not the node of no parts |
| Nodes.Equals | src/main/java/io/vlingo/wire/node/Node.java:80-93 | true iff the other object is a node with the same four parts |
| Nodes.EqualsIsValueEquality | src/main/java/io/vlingo/wire/node/Node.java:80-93 | `equals` on a node is value equality of nodes, and it never holds for null or an object of another class |
| Nodes.EqualsIsEquivalence | src/main/java/io/vlingo/wire/node/Node.java:80-93 | `equals` is reflexive, symmetric and transitive |
| Nodes.HashCode | src/main/java/io/vlingo/wire/node/Node.java:95-98 | the hash is a 32-bit value computed from the four part hashes |
| Nodes.EqualNodesHashEqually | src/main/java/io/vlingo/wire/node/Node.java:95-98 | equal nodes have equal hash codes |
| Nodes.SwappedAddressesHashEqually | src/main/java/io/vlingo/wire/node/Node.java:95-98 | swapping the two addresses keeps the hash although the node changes (the sum is symmetric even with 32-bit wrap-around) |
| Nodes.Int32Assoc | src/main/java/io/vlingo/wire/node/Node.java:97 | 32-bit wrapped addition does not depend on the order of the addends |
| Nodes.IdCompare | src/main/java/io/vlingo/wire/node/Node.java:109-111 | the id comparison is negative, zero or positive as the first id is below, equal to or above the second |
| Nodes.CompareTo | src/main/java/io/vlingo/wire/node/Node.java:109-111 | the sign of the result follows the ids' values (negative, zero, positive as the first id is below, equal to or above the second), and equal nodes compare as 0 |
| Nodes.GreaterThan | src/main/java/io/vlingo/wire/node/Node.java:105-107 | true iff `compareTo` is positive: the comparison is by id only |
| Nodes.CompareToIsPreorder | src/main/java/io/vlingo/wire/node/Node.java:105-111 | `greaterThan` iff `compareTo` is positive; `compareTo` is antisymmetric, transitive and reflexive |
| Nodes.CompareToInconsistentWithEquals | src/main/java/io/vlingo/wire/node/Node.java:80-111 | equal nodes compare as 0, but two nodes with one id and different names compare as 0 and are not equal |

## Left out

- Java NIO is replaced by the scripted `Channel`, by the value buffers and by the key fields of `Context`. A selector's key is merged into the context it carries, since there is one selector per processor.
- `select(probeTimeout)` is replaced by its effect on the selected-key set. The keys it reports ready, with their ready operations, are an input of `Probe`. The model decides, as `select`'s count does, whether any ready set changed. The timeout and the blocking wait are not modelled.
- The reported ready operations are not checked against the key's interest set: the environment may report any operations for a registered context's key.
- The selected-key set is kept in insertion order and the key loop visits it in that order. Java's `HashSet` order is unspecified, so the model fixes one of the orders Java allows.
- Logging is not modelled. This includes the `getRemoteAddress()` call in the write path's `catch`; the model assumes it does not throw.
- The actor runtime is not modelled: `selfAs`, the scheduler, `intervalSignal` and message delivery. The stopped state is a field set from outside. `close()` calls `Stop` directly instead of sending it through the actor.
- `Selector.open()` failing in the constructor is not modelled; the selector starts open.
- The `RequestChannelConsumerProvider` is not modelled. The consumer it produces is a parameter of `Process`.
- `ResourcePool` internals are reduced to an acquisition counter and a release log.
- Buffer release and `SocketChannel.close()` never throw in the model.
- Buffers are values, so aliasing is not captured. A buffer handed to `respondWith` that its producer keeps changing is out of scope.
- Reactor.Processor.WriteQueued: the Java loop has no bound. The `fuel` parameter limits the number of head writes, so a socket that never takes bytes stops the model after `fuel` attempts, not never (`Reactor.WriteLoopSpins`). The same `fuel` is passed down by `WriteContext`, `WriteKey`, `VisitKey`, `FlushNext` and `Probe`.
- Reactor.Processor.Process: the accepted channel must not be the socket of a context the processor already has. Java gets this from `accept()` returning a new socket each time.
- Reactor.Processor.VisitNext: it may change only the visited context, its socket and its consumer, plus the pool's release log. This follows from Java, where `read` and `write` touch only the key's own context.
- Reactor.Processor.ProcessSelectedKeys: each visit's snapshot before holds the real selector state and consumer flags, and its `Own` state is chained from visit to visit (`Ran`). Its consumer's logs (`consumed`, `releasesSeen`, `closings`) and the pool's release log are stated only inside that visit's snapshots: that they were the real logs when the visit began, and that the logs at the end are those of the last visit, is not stated, because a consumer and the pool are shared by several contexts.
- Reactor.Processor.FlushWritableContexts: the same holds for the flush loop. The contexts' states are chained through the flushes, and the closings and releases of each flush are stated only in its own snapshots.
- Reactor.Processor.HandleReady: the same holds for the key part of a poll cycle, which is `ProcessSelectedKeys`.
- Reactor.Processor.Probe: the same holds for a whole poll cycle, through `Cycle` and `FlushPhase`.
- Reactor.Processor.VisitSelected, Reactor.Processor.NextKey: the same holds for the key loop and its turns, which `ProcessSelectedKeys` runs.
- Reactor.Processor.FlushQueued, Reactor.Processor.NextFlush: the same holds for the flush loop and its turns.
- Reactor.Processor.Cycle: the same holds, as for `Probe`.
- Reactor.Processor.FlushPhase: the same holds, as for `FlushWritableContexts`.
- Nodes.With: the clause about validity relies on the sentinel address `Address(NoHost, 0, NoRole)`. `Address.hasNoAddress` is not part of this model. An address built by `with` has a real role, so it is never missing here. If Java's `hasNoAddress` looked only at the host, a node built on the missing host would be missing a part, and the clause would not hold.
- Reactor.Context.SetWriteMode: a cancelled key makes re-registration fail. In Java, after the next select has deregistered the cancelled key, `register` would create a fresh key.
- Reactor.Processor.Process: the failure path rethrows `IllegalArgumentException` in Java. The model returns `ok == false` instead.
- Reactor.Processor.Probe: an exception from `select` on a closed selector ends the cycle with nothing changed and `faulted` set. The only other exception that can reach the probe's `catch` is one from `consume`.
- Reactor.Decimal: the context counter is an unbounded integer, so 32-bit overflow of `contextId` is not modelled.
- The `Id`, `Name`, `Host` and `Address` classes of `node/` are not part of this model.
  - Each part is a datatype with a distinguished "no value" constant, and a part is missing when it equals that constant.
  - An id compares by its integer value.
  - The part hash codes are given as functions.
- `Node.toString` and the `Node` accessors are not modelled.
- The other files of the repository are not part of this model: the outbound-channel provider, `ChannelPublisher` and the RSocket test.
