# Verified models of the Unix systems programming examples

This project models the protocols and in-place algorithms of the repository
and proves what they are for: three bounded buffers and the producer/consumer
program with shutdown, a thread barrier, the process ring and the shell
pipeline, the history list with its traversal keys and its reader/writer-locked
form, packet framing and the copy loops over byte streams that split, interrupt
and fail, the signal-driven asynchronous copier, bubble sort with its
interchange counter, and the programs built on `strtok`: argument arrays, word
averages and redirections.

`dafny verify dfyconfig.toml` checks everything.

## How it is built

- **Concurrent code** is a step machine. A state holds the shared variables, the
  lock owner and one program counter a thread; `StepBy` is one step of one thread
  at a lock, wait, signal, post or unlock; a run is any sequence of steps from an
  initial state, for any number of threads and with spurious wakeups. What a
  thread does to the shared variables while it holds the lock is written a second
  time as a method of a class that updates them in place (`Shared`, `SharedSum`,
  `Statics`, `Process`), proved equal to the function that the machine uses.
  Beside the invariants, `CallIsServed` and its like follow one thread through a
  run and tie what its calls do to their arguments and results; `DoneCalls` does
  so for the program with shutdown. `Threads` counts over thread tables,
  `BoundedRing` is the eight-slot ring that the three buffers share.
- **Process plumbing** (`Descriptors`, `ForkChain`, `ProcessRing`, `Pipeline`)
  gives every process its own descriptor table and interleaves parent and child
  call by call after each fork.
- **The history list** has a specification on values (`ListModel`), the heap
  implementation proved against it (`ListLib`), and the interleaving of single
  loads and stores under the read lock (`ListLibRw`).
- **Streams** (`Streams`, `Packets`, `CopyFiles`, `AsyncCopy`) meet a kernel that
  moves as many bytes as it likes, at least one, interrupts finitely often and may
  fail at any call.
- **Strings** (`Tokens`, `WordAverage`, `MakeArgv`, `Redirect`) are character
  arrays ended by a NUL that the tokenisers overwrite in place. `Tokens` follows
  section 7.24.5.8 of ISO C11. `BubbleSort` works on an integer array.

One expected property is false of the code: that the order of an input and an
output redirection makes no difference. When both name one missing file, opening
the output first creates the input. `Redirect.WhenOrderMatters` is the exact
condition and `Redirect.OrderCanMatter` an instance.

## Model

| member | source | states |
|---|---|---|
| `BoundedRing.InsertAppends` | chapter16/buffersem.c:68-69 | storing into a ring that is not full overwrites no unread item: the stored items are the old ones and the new one behind them |
| `BoundedRing.RemoveTakesOldest` | chapter16/buffersem.c:50-51 | taking from a ring that is not empty yields the oldest stored item and leaves the others in order |
| `BoundedRing.InsertQueues` | chapter16/buffercond.c:41-43 | an insert keeps "all inserted = all removed followed by the ring's contents" |
| `BoundedRing.RemoveQueues` | chapter16/buffercond.c:21-23 | a removal keeps it too, and the item removed is the first one inserted and not yet removed |
| `BoundedRing.Statics.PutIn` | chapter16/buffersem.c:68-69 | the two assignments on the static array and index are the ring's insert |
| `BoundedRing.Statics.TakeOut` | chapter16/buffersem.c:50-51 | the two assignments on the static array and index yield the front item and are the ring's removal |
| `SemBuffer.ReadyIsStable` | chapter16/buffersem.c:16-39 | the semaphores become ready once, through initialization run by one thread, and stay ready |
| `SemBuffer.NoOverwriteNoEmptyRead` | chapter16/buffersem.c:41-75 | a thread about to write has a free slot and one about to read has an item, although nothing counts the items |
| `SemBuffer.ItemsBalance` | chapter16/buffersem.c:45-72 | each step moves as much into semitems as the stepping thread gives up, writers before their post and readers after their wait included |
| `SemBuffer.SlotsBalance` | chapter16/buffersem.c:54-70 | the same for semslots |
| `SemBuffer.StepKeepsInv` | chapter16/buffersem.c:16-75 | every step of every thread keeps the lock, initialisation, counting and ring invariants |
| `SemBuffer.StepRefinesQueue` | chapter16/buffersem.c:41-75 | every step is a step of a FIFO queue of capacity eight or leaves it alone; each caller gets the item it dequeued |
| `SemBuffer.RunKeepsInv` | chapter16/buffersem.c:16-75 | the invariants hold in every state of every run of any number of threads |
| `SemBuffer.Safety` | chapter16/buffersem.c:41-75 | in every run: items leave in the order in which they came, at most eight are stored, stored items = semitems + written-not-posted + reserved-not-removed and free slots = semslots + reserved-not-written + removed-not-posted, no writer meets a full ring, no reader an empty one |
| `SemBuffer.NeverAllBlocked` | chapter16/buffersem.c:41-75 | with one producer and one consumer in a call, no run reaches a state in which nobody can go on |
| `SemBuffer.CallStarts` | chapter16/buffersem.c:41-61 | an idle thread can make any call, and the call that it is then in is the one it made |
| `SemBuffer.CallIsServed` | chapter16/buffersem.c:41-75 | in every run, when a call returns it has gone through the critical section once: a putitem has inserted exactly the item that it was called with, a getitem has removed exactly the item that it returns |
| `CondBuffer.GetTakesOldest` | chapter16/buffercond.c:15-23 | getitem waits if and only if nothing is stored; otherwise it takes the oldest item and leaves the others in order |
| `CondBuffer.PutAppends` | chapter16/buffercond.c:35-43 | putitem waits if and only if eight items are stored; otherwise the stored items are the old ones and its own behind them |
| `CondBuffer.Shared.Get` | chapter16/buffercond.c:15-23 | the same of getitem on the static array: MustWait exactly on the empty buffer, else the first stored item, the rest staying |
| `CondBuffer.Shared.Put` | chapter16/buffercond.c:35-43 | the same of putitem on the static array: MustWait exactly with eight stored, else its item is appended |
| `CondBuffer.StepKeepsWake` | chapter16/buffercond.c:11-49 | every step, a signal or a spurious wakeup included, keeps each stored item matched by a consumer due to look while any consumer sleeps, and dually for producers |
| `CondBuffer.RunKeepsInv` | chapter16/buffercond.c:11-49 | the lock, ring and wakeup invariants hold in every state of every run |
| `CondBuffer.NoLostWakeup` | chapter16/buffercond.c:11-49 | in every run, whenever the lock is free and a consumer still waits, there are no more items than woken consumers yet to recheck; dually for producers and free slots |
| `CondBuffer.FifoOrder` | chapter16/buffercond.c:11-49 | in every run the removed items are a prefix of the inserted ones and totalitems is their difference, at most eight |
| `CondBuffer.HolderCanMove` | chapter16/buffercond.c:15-48 | whoever holds the lock can always take its next step |
| `CondBuffer.NeverAllAsleep` | chapter16/buffercond.c:11-49 | with one producer and one consumer in a call, no run reaches a state in which everybody sleeps |
| `CondBuffer.CallStarts` | chapter16/buffercond.c:11-34 | an idle thread can make any call, and the call that it is then in is the one it made |
| `CondBuffer.CallIsServed` | chapter16/buffercond.c:11-49 | in every run, when a call returns it has been served once: a putitem has inserted exactly the item that it was called with, a getitem has removed exactly the item that it returns |
| `DoneBuffer.GetTakesOldest` | chapter16/bufferconddone.c:17-29 | with something stored getitem takes the oldest item, flag or not; with nothing stored it waits, or gives up once the flag is set |
| `DoneBuffer.PutAppends` | chapter16/bufferconddone.c:41-53 | once the flag is set putitem gives up; until then it waits if and only if eight items are stored, and otherwise appends its item |
| `DoneBuffer.Shared.Get` | chapter16/bufferconddone.c:17-29 | the same of getitem on the static variables; the flag is left alone |
| `DoneBuffer.Shared.Put` | chapter16/bufferconddone.c:41-53 | the same of putitem on the static variables; the flag is left alone |
| `DoneBuffer.SharedSum.Add` | chapter16/sharedsum.c:8-16 | after any calls the two totals are the number and the sum of exactly the values added; the update is the one that the consumers of the machine make |
| `DoneBuffer.SharedSum.GetCountAndSum` | chapter16/sharedsum.c:27-35 | returns the number and the sum of all values added so far |
| `DoneBuffer.ConsumerBalances` | chapter16/randconsumerdone.c:14-20 | no consumer step loses or doubles an item between the buffer and the sum |
| `DoneBuffer.StepBalances` | chapter16/bufferconddone.c:13-59 | no step of any thread does |
| `DoneBuffer.MovedKeepsTally` | chapter16/sharedsum.c:8-16 | inserted = accepted + pending, removed = count + in hand, and f summed over the removed items = sum + f of the items in hand, whoever steps |
| `DoneBuffer.MovedKeepsDrain` | chapter16/bufferconddone.c:23-26 | a consumer leaves only a buffer that is empty for good |
| `DoneBuffer.MovedKeepsLeave` | chapter16/randproducerdone.c:15-22 | a producer leaves only once the flag is set |
| `DoneBuffer.MovedKeepsAwake` | chapter16/bufferconddone.c:76-78 | after the broadcasts nobody sleeps again |
| `DoneBuffer.MainKeepsMain` | chapter16/randpcdone.c:40-67 | main's creates and joins account for every thread: after the last join all have exited |
| `DoneBuffer.StepKeepsInv` | chapter16/bufferconddone.c:13-87 | every step of every thread keeps all invariants of the program |
| `DoneBuffer.RunKeepsInv` | chapter16/randpcdone.c:40-70 | they hold in every state of every run for any number of producers and consumers |
| `DoneBuffer.TotalsAreExact` | chapter16/randpcdone.c:54-70 | in every run, as soon as all producers and consumers have exited: the flag is set if there was any; with at least one consumer the buffer is empty, the count is the number of putitem calls that returned 0 and the sum is that of f over exactly those items; without any consumer nothing was consumed and every accepted item is still stored |
| `DoneBuffer.ReportIsExact` | chapter16/randpcdone.c:58-70 | when main reports, all threads have exited and the reported totals are these |
| `DoneBuffer.ThreadDescends` | chapter16/bufferconddone.c:17-50 | once the flag is set, a step costs the stepping thread more than any item it leaves behind |
| `DoneBuffer.StepDescends` | chapter16/bufferconddone.c:13-87 | once the flag is set, every step of every thread lowers one natural-number measure and the flag stays set |
| `DoneBuffer.StuckMeansReported` | chapter16/randpcdone.c:58-67 | after shutdown only a state in which main has reported is without a possible step |
| `DoneBuffer.ShutdownCompletes` | chapter16/randpcdone.c:54-70 | once setdone has set the flag, every continuation under every schedule has bounded length and can end only with all joins complete and the totals reported |
| `DoneCalls.StepKeepsWake` | chapter16/bufferconddone.c:17-54 | until the flag is set, every step, a signal or a spurious wakeup included, keeps each stored item matched by a consumer due to look while any consumer sleeps, and dually for producers |
| `DoneCalls.NoLostWakeup` | chapter16/bufferconddone.c:13-59 | in every run, until the flag is set and whenever the lock is free: while a consumer waits there are no more items than woken consumers yet to recheck; dually for producers and free slots |
| `DoneCalls.AcceptedIsInserted` | chapter16/randproducerdone.c:15-19 | in every run, when a putitem returns 0 it has inserted exactly the item that it was called with, once |
| `DoneCalls.ProducerObeysFlag` | chapter16/randproducerdone.c:15-22 | in every run, a producer goes on to its next item only after a getdone that found the flag clear, and leaves after one only if it found the flag set |
| `DoneCalls.AddedIsRemoved` | chapter16/randconsumerdone.c:14-20 | in every run, what a consumer adds to the sum is f of exactly the item that its last getitem removed |
| `Barrier.Statics.SetLimit` | chapter13/tbarrier.c:14-18 | while no limit is set the limit becomes n and the call succeeds; afterwards it is EINVAL and nothing changes |
| `Barrier.Statics.Arrive` | chapter13/tbarrier.c:28-32 | an arrival is counted if and only if the limit is positive; otherwise it is EINVAL and nothing changes |
| `Barrier.StepKeepsInv` | chapter13/tbarrier.c:9-41 | every step keeps count = arrivals, the limit = the argument of the one initbarrier that set it, nobody past the loop before limit arrivals, and no sleeper forgotten once the barrier is open |
| `Barrier.RunKeepsInv` | chapter13/tbarrier.c:9-41 | these hold in every run of any number of calls |
| `Barrier.CallStarts` | chapter13/tbarrier.c:9-27 | any call can be made, and is started with the argument it is made with |
| `Barrier.ArgumentIsKept` | chapter13/tbarrier.c:9-20 | in every run an initbarrier works with the argument that it was called with |
| `Barrier.InitSetsLimit` | chapter13/tbarrier.c:9-20 | in every run, once an initbarrier(n) with n other than 0 has returned 0, the limit is n |
| `Barrier.LimitIsFinal` | chapter13/tbarrier.c:14-18 | in every run, once the limit is set it stays, and every initbarrier decided later gets EINVAL |
| `Barrier.LateCallsSucceed` | chapter13/tbarrier.c:28-31 | in every run, a waitbarrier that has not been refused when the barrier is initialised never is |
| `Barrier.NoEarlyReturn` | chapter13/tbarrier.c:22-41 | a waitbarrier call returns success only after some initbarrier(n) was called and n waitbarrier calls have arrived |
| `Barrier.NobodyLeftAsleep` | chapter13/tbarrier.c:33-36 | once an initbarrier(n) has returned 0 and n calls have arrived, nobody is left waiting un-woken while the lock is free |
| `Barrier.StepDescends` | chapter13/tbarrier.c:9-41 | once the barrier is open every step brings the calls closer to their end and it stays open |
| `Barrier.SomeCallMoves` | chapter13/tbarrier.c:9-41 | once the barrier is open, while some call is in progress some call can go on |
| `Barrier.EveryArrivalReturns` | chapter13/tbarrier.c:22-41 | once an initbarrier(n) has returned 0 and n calls have arrived, every continuation has bounded length and can end only when every call made has returned |
| `Descriptors.Process.Pipe` | chapter07/ring.c:18-18 | pipe adds exactly its two ends to the descriptor table |
| `Descriptors.Process.DoDup2` | chapter07/ring.c:22-23 | dup2 makes one descriptor refer to what another one does |
| `Descriptors.Process.DoClose` | chapter07/ring.c:27-27 | close removes exactly one descriptor |
| `ForkChain.StepKeepsInv` | chapter07/ring.c:31-58 | every call of every process in every interleaving keeps each table equal to the one that the process's place in the chain and in the loop body determines |
| `ForkChain.RunKeepsInv` | chapter11/executecmdpipe.c:27-44 | this holds in every state of every run |
| `ForkChain.DoneTable` | chapter11/executecmdpipe.c:27-44 | whenever a process has left the loop, however far the others are, its table differs from the first one only in standard input and output, in the way its place determines |
| `ForkChain.FinalTables` | chapter11/executecmdpipe.c:27-44 | in the end there is one process a loop value and one more, and each table differs from the first one only in standard input and output |
| `ForkChain.StepDescends` | chapter07/ring.c:31-58 | every call, fork included, lowers the work left |
| `ForkChain.ProcCanMove` | chapter07/ring.c:31-58 | a process still in the loop can always make its next call: the descriptors it uses are open |
| `ForkChain.RunsEnd` | chapter07/ring.c:31-58 | every interleaving has at most a number of calls linear in the loop bound and stops only when all processes have left the loop |
| `ProcessRing.ConnectSelf` | chapter07/ring.c:18-30 | the first five calls leave one pipe that joins standard output to standard input and nothing else changed |
| `ProcessRing.RingIsClosed` | chapter07/ring.c:18-58 | in every final state of every interleaving, for every n: n processes, n pipes; pipe x is read by one process as its standard input, written by the one before it, cyclically, as its standard output, and open nowhere else; no leftover descriptors |
| `Pipeline.CommandIsConnected` | chapter11/executecmdpipe.c:27-45 | at the exec time of each command, however far the others are, for every number of commands and every interleaving: command k reads pipe k - 1 (the first the original input) and writes pipe k (the last the original output), only the first may redirect input and only the last output, and nothing else changed |
| `Pipeline.PipelineIsConnected` | chapter11/executecmdpipe.c:27-45 | once all are executing there is one process a command, and each pipe has one reader and one writer and is open nowhere else |
| `ListModel.AccessKeepsInv` | chapter13/listlib.c:18-47 | a key handed out is not open already, and neither it nor a doubled table, whatever the new slots hold, disturbs any open traversal |
| `ListModel.GetKeepsInv` | chapter13/listlib.c:67-90 | a read on an open key delivers exactly the next item, or the end marker when it has delivered one that was last; a read on any other key fails and changes nothing |
| `ListModel.StepKeepsInv` | chapter13/listlib.c:18-99 | every call keeps: each open key has delivered a prefix of the list and its table entry is where that prefix ends |
| `ListModel.RunKeepsInv` | chapter13/listlib.c:18-99 | this holds after every sequence of calls |
| `ListModel.ItemsAreAdded` | chapter13/listlib.c:48-65 | after any calls the list holds exactly the data that were added, in order |
| `ListModel.StepKeysRight` | chapter13/listlib.c:18-99 | accessdata hands out the least free key; the end marker and freekey give a key back; freekey returns 0 exactly for a key in range; getdata and freekey leave the other entries alone |
| `ListModel.EveryCallIsRight` | chapter13/listlib.c:18-99 | in every sequence of adds, opens, reads and frees: no two open keys are the same, opening fails only while nothing was added, each open key has delivered a prefix of the data added and a read delivers the next of them, or the end marker |
| `ListModel.EndOnlyAfterLast` | chapter13/listlib.c:73-88 | the end marker comes only after a read that delivered the item that had been added last at that time |
| `ListLib.History.FindFree` | chapter13/listlib.c:33-38 | finds the first empty slot, or that there is none |
| `ListLib.History.FirstTable` | chapter13/listlib.c:25-31 | the first table holds the head and seven empty slots |
| `ListLib.History.Grow` | chapter13/listlib.c:39-44 | realloc keeps the old entries; of the new ones the first is the head and the others are arbitrary |
| `ListLib.History.AccessData` | chapter13/listlib.c:18-46 | the heap code does to list and table what accessdata does on values, and leaves the nodes alone |
| `ListLib.History.AddData` | chapter13/listlib.c:48-65 | the new node is linked behind the last one: the list is the old one with the data behind it, the table entries are as adddata leaves them |
| `ListLib.History.GetData` | chapter13/listlib.c:67-90 | following next pointers through the table entry delivers and advances as getdata does on values |
| `ListLib.History.FreeKey` | chapter13/listlib.c:92-99 | only the named entry is cleared; an out-of-range key is refused |
| `ListLibRw.OthersKeepLoaded` | chapter13/listlibrw_r.c:59-76 | between the check of its entry and its store, what a reader has loaded is not changed by any step of another thread |
| `ListLibRw.StepKeepsInv` | chapter13/listlibrw_r.c:18-95 | every load, store, lock and unlock of every thread keeps the lock, key and traversal invariants |
| `ListLibRw.StepRefines` | chapter13/listlibrw_r.c:59-76 | a step does to the list what one whole call does, or nothing |
| `ListLibRw.RunIsSequential` | chapter13/listlibrw_r.c:18-95 | every run of any number of threads does what some sequence of whole calls does, made one at a time, and every getdata_r returns what its call in that sequence returns |
| `ListLibRw.CallStarts` | chapter13/listlibrw_r.c:18-95 | a call that a client may make can be made, and is started as it is made |
| `ListLibRw.CallIsServed` | chapter13/listlibrw_r.c:18-95 | in every run, when a call returns it has been served once: a getdata_r with its own key, returning the reply that was logged; a writer with its own request, on the list as it was at one moment |
| `ListLibRw.ReadAllEntries` | chapter13/listlib.c:67-90 | reads on distinct keys, in any order, each see and advance their own entry only |
| `ListLibRw.OverlappingReadsCommute` | chapter13/listlibrw_r.c:59-76 | any number of getdata_r calls on distinct keys that overlap under the read lock leave the same table and return the same items as the same calls made one after the other in any order whatever |
| `Streams.Sink.Write` | chapter17/restart.c:91-91 | the kernel's side of write: a success moves between one byte and all, an interruption or failure none |
| `Streams.Source.Read` | chapter17/restart.c:134-134 | the kernel's side of read: a success moves at least one byte unless the stream has ended, an interruption or failure none |
| `Streams.RWrite` | chapter17/restart.c:82-99 | returns the size and has written all of it, or returns -1 and has written a proper prefix; interruptions and short writes do not show |
| `Streams.RRead` | chapter17/restart.c:63-67 | one successful read, however often it was interrupted |
| `Streams.ReadBlock` | chapter17/restart.c:125-148 | exactly the next size bytes, 0 at the end of the stream, or -1 when it ends in the middle or a read fails |
| `Packets.IntRoundTrip` | chapter17/putpacket.c:15-19 | an int comes back from its bytes, negative ones included |
| `Packets.HeaderRoundTrip` | chapter17/getpacket.c:12-23 | a header comes back from its bytes |
| `Packets.IntLayout` | chapter17/putpacket.c:15-19 | the bytes of an int are its two's complement, least significant first |
| `Packets.FrameLayout` | chapter17/putpacket.c:15-24 | what lies where on the stream: the sixteen bytes of the four fields in their order of declaration, then the payload |
| `Packets.UnframeFrame` | chapter17/getpacket.c:14-24 | whatever follows it, a framed packet of 0 to 1024 bytes is read back unchanged |
| `Packets.UnframeCut` | chapter17/getpacket.c:14-19 | a packet cut short anywhere is not read as a packet |
| `Packets.PutPacket` | chapter17/putpacket.c:6-26 | refuses lengths outside 0 to 1024 without writing; else returns 0 exactly when no write failed, the stream having grown by the frame, and otherwise by a beginning of it |
| `Packets.GetPacket` | chapter17/getpacket.c:6-25 | under every splitting and interruption returns the packet that the stream goes on with and stops behind it, or -1 if, no read having failed, there is no whole one |
| `Packets.StreamRoundTrip` | chapter17/getpacket.c:14-24 | unframing undoes framing: any sequence of packets, followed by one more cut short or by nothing, comes back unchanged and in order, and then no more |
| `Packets.WholeIsMost` | chapter17/getpacket.c:14-24 | Whole counts exactly the packets that lie wholly in front of a cut |
| `Packets.UnframePrefix` | chapter17/getpacket.c:14-24 | wherever a stream of packets is cut, exactly the packets wholly in front of the cut are unframed |
| `Packets.UnframeNext` | chapter17/getpacket.c:6-25 | reading one packet leaves the stream at the next one |
| `Packets.Receive` | chapter17/testpacket.c:17-17 | each call yields the next of the packets still to come, or -1 when there is none left |
| `Packets.Send` | chapter17/testpacket.c:18-19 | each call puts the next packet on the output, unless a write fails |
| `Packets.Relay` | chapter17/testpacket.c:7-22 | when no call fails, what has been written is exactly the framing of the whole packets that the input held |
| `Packets.SendAll` | chapter17/putpacket.c:12-25 | a sequence of putpacket calls appends the framing of all packets, or a beginning of it exactly if a write fails |
| `Packets.ReceiveAll` | chapter17/getpacket.c:14-24 | getpacket calls until -1 return a prefix of the packets that the stream holds whole, and all of them unless a read fails |
| `Packets.Transfer` | chapter17/putpacket.c:6-26 | end to end: of packets written one after the other a reader gets exactly those that have arrived whole, unchanged and in order, under every splitting, interruption and cut, then -1; all of them when all was written and has arrived; failures on either side only cost packets at the end |
| `CopyFiles.WriteBlock` | chapter04/copyfile1.c:17-26 | writes the block piece by piece and stops at an error with an exact count |
| `CopyFiles.CopyFile1` | chapter04/copyfile1.c:5-31 | whatever the transfers, interruptions and errors, the result is exactly the number of source bytes by which the destination has grown; all of them if nothing failed |
| `CopyFiles.CopyFile` | chapter04/copyfile.c:5-18 | the destination has grown by a prefix of the source; the result is at most its length, short of it by less than one block, and exact when no write failed |
| `AsyncCopy.HandlerKeepsInv` | chapter08/asyncmonitorsignal.c:13-49 | every run of the handler keeps totalbytes = offset and the output a prefix of that many input bytes, and keeps a recorded error |
| `AsyncCopy.HandlerEffect` | chapter08/asyncmonitorsignal.c:13-49 | what a run of the handler does: nothing while the read goes on; the error of the read, the write or the next read is recorded, unless one was before, and ends the copy, as does the end of the input; otherwise all that was read has been written and the next read is in progress |
| `AsyncCopy.RunKeepsInv` | chapter08/asyncmonitorsignal.c:13-96 | these hold in every run of reads completing and signals arriving |
| `AsyncCopy.CopyIsExact` | chapter08/asyncmonitorsignal.c:13-49 | in every run the output is exactly the first totalbytes input bytes while there is no error and a prefix of them after one; done without an error means that the output is the whole input |
| `AsyncCopy.FirstErrorIsKept` | chapter08/asyncmonitorsignal.c:45-49 | the first error recorded is the one reported ever after |
| `AsyncCopy.BusySignalIsIgnored` | chapter08/asyncmonitorsignal.c:16-20 | a signal that arrives while a read is in progress changes nothing |
| `AsyncCopy.Copier.constructor` | chapter08/asyncmonitorsignal.c:79-90 | initread leaves an initial state, whether or not the first read could be started, and whatever the output descriptor already holds |
| `AsyncCopy.Copier.DoSetError` | chapter08/asyncmonitorsignal.c:45-49 | seterror on the static variables |
| `AsyncCopy.Copier.ReadStart` | chapter08/asyncmonitorsignal.c:38-43 | readstart puts the next read in progress or records the error |
| `AsyncCopy.Copier.AioHandler` | chapter08/asyncmonitorsignal.c:13-36 | the handler on the static variables, over r_write, is one handler step of the machine and keeps its invariant |
| `BubbleSort.InversionsCountsPairs` | chapter02/bubblesort.c:9-14 | the inversion number is the size of the set of pairs i < j with a[i] > a[j] |
| `BubbleSort.InterchangeRemovesOne` | chapter02/bubblesort.c:9-14 | interchanging two neighbours out of order removes exactly one inversion |
| `BubbleSort.PassPermutes` | chapter02/bubblesort.c:3-17 | a pass permutes the elements, leaves those behind it alone, and makes as many interchanges as it removes inversions |
| `BubbleSort.PassSettlesOneMore` | chapter02/bubblesort.c:29-31 | after i passes the last i elements are final |
| `BubbleSort.SettledAndQuietIsSorted` | chapter02/bubblesort.c:30-31 | a pass without interchanges means that everything is sorted, so the early exit is right |
| `BubbleSort.Round` | chapter02/bubblesort.c:29-31 | what one round of the outer loop keeps and achieves |
| `BubbleSort.Sorter.OnePass` | chapter02/bubblesort.c:3-17 | the in-place pass, its counter and its flag |
| `BubbleSort.Sorter.Sort` | chapter02/bubblesort.c:27-32 | the result is a sorted permutation of the first n elements, the rest is untouched, and the counter has risen by exactly the number of inversions there were, early exit or not |
| `BubbleSort.Sorter.CountWhileSorting` | chapter02/bubblesort.c:19-32 | cleared, used for one sort and read, the counter is the number of pairs of the original array that were out of order, and 0 exactly if it was sorted |
| `Tokens.RunsAreExactly` | chapter02/makeargv.c:22-23 | the tokens found one after the other are exactly the maximal delimiter-free runs, from left to right |
| `Tokens.RunsAreLocal` | chapter02/wordaverage.c:22-29 | what is found from a position on does not depend on what was overwritten before it |
| `Tokens.RunsShift` | chapter02/makeargv.c:17-20 | the tokens of a suffix are those of the whole text, shifted |
| `Tokens.StrTokR` | chapter02/wordaverage.c:9-11 | strtok_r in place: finds the next token, overwrites the one delimiter behind it and moves the saved position |
| `Tokens.NextToken` | chapter02/makeargv.c:37-39 | however much of the text has been cut up, each call finds the next run of the original text and leaves what follows alone |
| `Tokens.TokenIsString` | chapter02/makeargv.c:37-39 | the token cut off is a string of its own, equal to the run |
| `WordAverage.WordsWithinLine` | chapter02/wordaverage.c:5-14 | the words of a line found with blanks alone are the words of the text up to the end of that line |
| `WordAverage.WordsByLine` | chapter02/wordaverage.c:25-29 | counting the words line by line counts the words of the text |
| `WordAverage.WordCount` | chapter02/wordaverage.c:5-14 | counts the blank-free runs of the line and writes nowhere but to the line |
| `WordAverage.NextLine` | chapter02/wordaverage.c:22-29 | each round counts the words of the next line of the original text, although the inner tokeniser overwrites it |
| `WordAverage.WordAverage` | chapter02/wordaverage.c:16-31 | the two counters are the number of maximal runs free of blank and newline and of maximal newline-free runs of the original text, the result their quotient, 0 when there is no line |
| `MakeArgv.CountTokens` | chapter02/makeargv.c:21-23 | the counting pass counts the maximal delimiter-free runs |
| `MakeArgv.FilledOneMore` | chapter02/makeargv.c:37-39 | one more call of the filling pass finds the next of the tokens counted and disturbs none of the earlier ones |
| `MakeArgv.FillTokens` | chapter02/makeargv.c:36-39 | the filling pass points at the same tokens that the counting pass counted |
| `MakeArgv.SuffixHasSameRuns` | chapter02/makeargv.c:17-17 | dropping leading delimiters changes no token |
| `MakeArgv.ArgvOfSuffix` | chapter02/makeargv.c:17-39 | the entries are the tokens of the string passed in, and the first points at the start of the copied block |
| `MakeArgv.StrSpn` | chapter02/makeargv.c:17-17 | the length of the leading stretch of delimiters |
| `MakeArgv.CopyString` | chapter02/makeargv.c:20-20 | strcpy: the block holds the string and its terminator |
| `MakeArgv.MakeArgv` | chapter02/makeargv.c:5-43 | -1 with nothing left allocated exactly for a null argument or a failed malloc, `*argvp` untouched in the first case and NULL in the second; else an array of the maximal delimiter-free runs in order, ended by NULL, over one block that starts at argv[0] |
| `MakeArgv.FreeMakeArgv` | chapter02/freemakeargv.c:3-9 | releases the block through argv[0], then the array, each once |
| `MakeArgv.MakeThenFree` | chapter02/argtestfree.c:16-24 | building and freeing leaves the heap as it was, without a token and after failures too |
| `Redirect.CutTwice` | chapter11/parseandredirect.c:14-18 | of two redirections the one further right can be cut off first without changing what the other one names |
| `Redirect.WhenOrderMatters` | chapter11/executeredirect.c:16-28 | with one '<' and one '>', each followed by a file name, the two orders agree on whether the command is executed, and then on arguments, streams and file contents, if and only if it is not the case that both name one missing file that can be created and is then readable, while the command has a word and there is memory |
| `Redirect.OrderDoesNotMatter` | chapter11/executeredirect.c:16-28 | outside that case the command is executed if and only if it has a word, both files can be opened and there is memory, with the same arguments, streams and files whichever redirection comes first |
| `Redirect.OrderCanMatter` | chapter11/executeredirect.c:16-28 | the case exists: `c<f>f` with f missing is executed, `c>f<f` is not |
| `Redirect.WhenFilesDiffer` | chapter11/executeredirect.c:16-28 | the two orders leave different files behind if and only if the input could not be opened beforehand and opening the output creates or truncates something |
| `Redirect.FirstTokenIs` | chapter11/parseandredirect.c:17-17 | the file name is the word behind the leading blanks and tabs, up to the next one; in a text of blanks and tabs there is none |
| `Redirect.NoRedirection` | chapter11/executeredirect.c:24-33 | a text without symbols under any flags, or with symbols whose flags are off, is executed whole with inherited streams |
| `Redirect.InputOnly` | chapter11/executeredirect.c:26-33 | with the output flag off or no '>' in the text, the part behind '<' is cut off and the file named there, if one is, becomes the input |
| `Redirect.OutputOnly` | chapter11/executeredirect.c:24-33 | with the input flag off or no '<' in the text, the part behind '>' is cut off and the file named there, if one is, is created or truncated and becomes the output |
| `Redirect.InputFirst` | chapter11/executeredirect.c:24-33 | how a command ends whose input redirection comes first, and the files it leaves, whether or not names follow the symbols: the output is opened first, and a file that this creates is there when the input is opened |
| `Redirect.OutputFirst` | chapter11/executeredirect.c:16-33 | how a command ends whose output redirection comes first, and the files it leaves, whether or not names follow the symbols: the input is opened first, and if that fails the call returns instead of exiting |
| `Redirect.NameBehind` | chapter11/parseandredirect.c:16-20 | the name that strtok cuts off behind the symbol is the first blank-free token of the text behind it, and the command keeps what was in front |
| `Redirect.CutRedirection` | chapter11/parseandredirect.c:14-20 | on the buffer: the command left and the name found are those that the text determines |
| `Redirect.StrChr` | chapter11/executeredirect.c:16-17 | the first position of the character, if it occurs |
| `Redirect.Process.ParseAndRedirectIn` | chapter11/parseandredirect.c:9-29 | the redirection is cut out of the command in place, and standard input becomes the file named, if one is named and can be opened |
| `Redirect.Process.OpenOutput` | chapter11/parseandredirect.c:43-43 | the open succeeds on a writable file, which it truncates, and on a missing one that can be created, which it creates; otherwise it changes nothing |
| `Redirect.Process.ParseAndRedirectOut` | chapter11/parseandredirect.c:31-51 | the redirection is cut out of the command in place; if it names a file that can be opened, that file is created or truncated and becomes standard output, else nothing changes |
| `Redirect.Process.ExecuteRedirect` | chapter11/executeredirect.c:11-35 | on the buffer the call ends, and leaves the files, as the text and the files before determine; when it executes, the streams are set and the argument array is that of the command left |

## Left out

Assumptions of the models:

- Mutex, condition, semaphore, read/write lock, thread, pipe, fork, dup2, close, calloc and realloc calls succeed; malloc failures are modelled in `MakeArgv` only.
- A signal on a condition variable wakes exactly one waiter if there is any; further wakeups are the spurious ones.
- Items and sums are integers and `sin` is any function `f`: only that addition is commutative matters, rounding is not modelled.
- Counters are unbounded: overflow of `count`, `totalbytes` and the like is not modelled.
- A header is four 32-bit ints, least significant byte first; padding and other byte orders are not modelled, and a packet type is any int.
- A reader's stream is given as the sequence of all bytes it will ever deliver; the other end closing it early is that sequence ending.
- aio_error on a request whose status was already retrieved reports EINVAL, so a stray signal after the last read records that error, after the copy is complete.
- Descriptors 0 and 1 are open at the start of the ring and the pipeline, and pipe hands out any two free descriptors.
- getdata is called with keys that accessdata handed out and that were not given back, or with free or out-of-range ones: a key that falls into the uninitialised part of a doubled table may do anything.
- Callers of getdata_r hold the key they use, and use a key in one call at a time; the refusal of other keys is shown for getdata only.
- `ListLibRw.OverlappingReadsCommute` counts the calls from the start of the overlap; reads begun before are part of the initial state.
- `strtok`'s static pointer is passed along as a value, and the C strings handed to makeargv are values: aliasing between them and the new block is not modelled.
- The steps of concurrent programs are on values; the classes show that each region executed under a lock, updated in place, is the function that the machine uses.
- open(2) in `Redirect` fails only because a file is missing or its mode forbids it; files are regular and change during a call only by it, and `place` stands for the resolution of names, links included.

Not modelled:

- Values of errno, error printing, exit codes, sleep and `showresults`' printing.
- getsum, getbytes, suspenduntilmaybeready and the other one-line readers.
- The timeouts and waits of restart.c, readline and readwrite: linear arithmetic or simpler loops of the same kind.
- executecmd's splitting of the line at '|', which is one call of makeargv, and its exit when there is no command.
- Sockets, name resolution, terminals, directory listing and clocks: plumbing over libraries that cannot be seen.
- The atomic logger and chapter13's other lists: simpler cases of the history list.
- Shell signal handling with siglongjmp, and the programs that the book shows as deliberate mistakes.
