# innova relay: a Dafny model of its core

The system relays a stream of integers from an Initiator node to an Echo node and
back, through a Proxy node. Non-negative integers are payload. Nine reserved
negative integers ("signs") are either handshake metadata or in-band control
(START, STOP, EXIT).

This project models the sequential rules of that relay and proves properties of them:

- the ordered reassembly buffer (`RingQueue`), which takes values in any order and
  releases them strictly in order;
- the consistency tracker (`AtomicDataController`, `DataGenerator`,
  `DummyDataController`);
- the sign constants and their wire encoding;
- the worker loops: the Initiator's `Producer`, and the `Receiver`, `Sender` and
  `Saver` workers;
- the fan-out queue (`MultiQueue`);
- the Proxy's per-connection `ConnectionHandler`, with its routing table;
- the client side of a connection: `ClientNetworkSender` and `ClientNetworkReceiver`.

Every public operation is one atomic step, with locks, compare-and-set loops and
condition waits linearised:

- A blocked `take` becomes the precondition "min is pending".
- An elapsed `poll` timeout becomes a `None` answer.
- The worker loops are step functions run over a trace of environment events. An
  event is what the connection check, the read, the poll or the send did, or an
  update another thread made in between. Each loop reports how many events it
  consumed and why it returned.
- Queues, files and sockets are sequences of integers.

Files (one module per source class or close group):

| file | modules |
|---|---|
| wrappers.dfy | `Wrappers` (`Option`, `Result`, `Outcome`) |
| protocol.dfy | `ProtocolConstants` |
| controller.dfy | `AtomicDataController`, `DataGenerator`, `DataController` |
| ring_arith.dfy | `RingArith` (slot arithmetic, capacity doubling) |
| ring_queue.dfy | `RingQueue` |
| ring_ordering.dfy | `RingOrdering` (the ordering law) |
| worker.dfy | `AbstractWorker`, `Traces` |
| producer.dfy | `Producer` |
| receiver.dfy | `Receiver` |
| sender.dfy | `Sender` |
| saver.dfy | `Saver` |
| multi_queue.dfy | `MultiQueue` |
| client_network.dfy | `ClientNetwork` |
| connection_handler.dfy | `ConnectionHandler` |

The ring buffer is a datatype `Ring(buf, bufSize, start, min, count)`. Its abstract
content is `Pending(q)`: the values `v` in `[min, min + bufSize)` whose slot
`(start + v - min) % bufSize` is present. `Valid(q)` also requires that
`count == |Pending(q)|`.

`Resize` is a method with the real doubling loop and the three array-copy loops. It
is proved equal to the functional `Grow` that `Put` uses.

## Model

| member | source | states |
|---|---|---|
| ProtocolConstants.Encode | src/main/java/ru/innova/task/common/ProtocolConstants.java:12-57 | every sign goes on the wire as an integer in the reserved negative range -9..-1 |
| ProtocolConstants.Decode | src/main/java/ru/innova/task/common/ProtocolConstants.java:12-57 | an integer decodes to a sign exactly when it lies in -9..-1, and the decoded sign encodes back to that integer |
| ProtocolConstants.DecodeEncode | src/main/java/ru/innova/task/common/ProtocolConstants.java:12-57 | every sign decodes back to itself |
| ProtocolConstants.EncodeInjective | src/main/java/ru/innova/task/common/ProtocolConstants.java:12-57 | two signs have the same wire value if and only if they are the same sign |
| ProtocolConstants.SignsAreNegative | src/main/java/ru/innova/task/common/ProtocolConstants.java:12-57 | every sign is strictly negative, so no sign collides with a payload |
| ProtocolConstants.PayloadIsNoSign | src/main/java/ru/innova/task/common/ProtocolConstants.java:12-57 | no non-negative value decodes as a sign |
| ProtocolConstants.SignClassesDisjoint | src/main/java/ru/innova/task/common/ProtocolConstants.java:12-57 | the role signs (-5, -6) differ from the direction signs (-8, -9); the control signs (-2, -3, -4) differ from NONE (-1) and from every handshake sign |
| ProtocolConstants.Classify | src/main/java/ru/innova/task/common/ProtocolConstants.java:12-57 | a wire integer is payload exactly when it is non-negative; a value classified as a sign is that sign's encoding |
| ProtocolConstants.ClassifyRoundTrip | src/main/java/ru/innova/task/common/ProtocolConstants.java:12-57 | serialising a classified integer gives the integer back |
| ProtocolConstants.PayloadsMembers | src/main/java/ru/innova/task/common/Receiver.java:69-81 | a value survives the sign filter exactly when it occurs in the stream and is non-negative |
| ProtocolConstants.PayloadsOfPayloads | src/main/java/ru/innova/task/common/Receiver.java:77-81 | a stream without negative values passes the filter unchanged |
| AtomicDataController.Initial | src/main/java/ru/innova/task/common/AtomicDataController.java:18-21 | both marks start at -1, and everything counts as saved |
| AtomicDataController.Saved | src/main/java/ru/innova/task/common/AtomicDataController.java:24-33 | `lastSaved` becomes the larger of itself and the value; `lastProduced` is untouched |
| AtomicDataController.Produced | src/main/java/ru/innova/task/common/AtomicDataController.java:36-45 | `lastProduced` becomes the larger of itself and the value; `lastSaved` is untouched |
| AtomicDataController.AreAllSaved | src/main/java/ru/innova/task/common/AtomicDataController.java:48-50 | everything counts as saved exactly when saving the last produced value again would leave `lastSaved` where it is |
| AtomicDataController.Reset | src/main/java/ru/innova/task/common/AtomicDataController.java:55-58 | both marks go back to the NONE sentinel, so everything counts as saved again |
| AtomicDataController.SavedIdempotent | src/main/java/ru/innova/task/common/AtomicDataController.java:26-28 | saving the same value twice is saving it once |
| AtomicDataController.ProducedIdempotent | src/main/java/ru/innova/task/common/AtomicDataController.java:38-40 | producing the same value twice is producing it once |
| AtomicDataController.ApplyAllIsMax | src/main/java/ru/innova/task/common/AtomicDataController.java:24-50 | under any interleaving of calls, each mark is the maximum of its start value and its own setter's arguments; neither mark decreases; `areAllSaved` compares the two maxima |
| AtomicDataController.MaxSavedIsMaximum | src/main/java/ru/innova/task/common/AtomicDataController.java:24-33 | that maximum bounds the start value and every saved value, and equals one of them |
| AtomicDataController.MarksMonotone | src/main/java/ru/innova/task/common/AtomicDataController.java:26-31 | a mark after a prefix of the calls is never above the mark after all of them |
| DataGenerator.ProduceNext | src/main/java/ru/innova/task/initiator/DataGenerator.java:18-20 | the answer is the old `lastProduced` plus one and becomes the new mark; `lastSaved` is unchanged; all is saved afterwards exactly when `lastSaved` has reached the answer |
| DataGenerator.ProduceManyCounts | src/main/java/ru/innova/task/initiator/DataGenerator.java:18-20 | `n` calls answer the next `n` integers in increasing order, and advance the mark by `n` without touching `lastSaved` |
| DataGenerator.FreshGeneratorCountsFromZero | src/main/java/ru/innova/task/initiator/DataGenerator.java:18-20 | a fresh generator answers 0, 1, ..., n-1, starting with 0 |
| DataController.Saved | src/main/java/ru/innova/task/common/DummyDataController.java:14-16 | on the no-op tracker `saved` changes nothing; on the real tracker it is the real `saved` |
| DataController.Produced | src/main/java/ru/innova/task/common/DummyDataController.java:19-21 | on the no-op tracker `produced` changes nothing; on the real tracker it is the real `produced` |
| DataController.AreAllSaved | src/main/java/ru/innova/task/common/DummyDataController.java:24-26 | the no-op tracker always answers true; the real one compares `lastSaved >= lastProduced` |
| DataController.DummyIgnoresUpdates | src/main/java/ru/innova/task/common/DummyDataController.java:14-26 | after any sequence of updates the no-op tracker is unchanged and still answers true |
| DataController.ApplyAllAtomic | src/main/java/ru/innova/task/common/AtomicDataController.java:24-45 | the real tracker seen through the shared interface behaves exactly like the real tracker |
| DataController.ApplyAllAppend | src/main/java/ru/innova/task/common/AtomicDataController.java:24-45 | replaying two runs of updates in turn is replaying their concatenation |
| DataController.GetInstance | src/main/java/ru/innova/task/common/DummyDataController.java:33-38 | the first call creates the instance and stores it; later calls answer the stored one |
| DataController.GetInstanceStable | src/main/java/ru/innova/task/common/DummyDataController.java:33-38 | two successive calls answer the same instance |
| RingArith.FitProperties | src/main/java/ru/innova/task/common/RingQueue.java:169-172 | the doubling ends above the offset, at the start capacity times a power of two, and at the least such capacity |
| RingArith.GrownCapacityProperties | src/main/java/ru/innova/task/common/RingQueue.java:169-172 | the resized capacity exceeds the offset, is at most twice it, and is the old size times `2^k` with `k >= 1` |
| RingArith.DoublingLoopStops | src/main/java/ru/innova/task/common/RingQueue.java:169-172 | with a positive capacity the doubling loop stops, at `Fit` |
| RingArith.ZeroCapacityNeverFits | src/main/java/ru/innova/task/common/RingQueue.java:169-172 | with capacity 0 the doubling loop never stops, however many rounds it gets |
| RingQueue.PosIsRemainder | src/main/java/ru/innova/task/common/RingQueue.java:118 | the slot arithmetic without `%` equals `(start + offset) % bufSize` |
| RingQueue.Create | src/main/java/ru/innova/task/common/RingQueue.java:76-87 | a fresh queue is valid with `min == firstValue`, `count == 0`, `start == 0`, every slot absent and nothing pending |
| RingQueue.CreateChecked | src/main/java/ru/innova/task/common/RingQueue.java:76-87 | construction succeeds exactly for a positive size, giving an empty valid queue |
| RingQueue.CreateDefault | src/main/java/ru/innova/task/common/RingQueue.java:57-59 | the default queue has 16 slots, first value 0, and nothing pending |
| RingQueue.Size | src/main/java/ru/innova/task/common/RingQueue.java:95-97 | `size()` is the number of pending values |
| RingQueue.IsEmpty | src/main/java/ru/innova/task/common/RingQueue.java:90-92 | `isEmpty()` as written is true exactly when something IS pending |
| RingQueue.IsEmptyIntended | src/main/java/ru/innova/task/common/RingQueue.java:90-92 | the intended `isEmpty()` is true exactly when nothing is pending |
| RingQueue.IsEmptyInverted | src/main/java/ru/innova/task/common/RingQueue.java:90-92 | the two answers disagree on every valid queue, and the as-written one says a fresh queue is not empty |
| RingQueue.MinSlot | src/main/java/ru/innova/task/common/RingQueue.java:136 | `min` is pending exactly when slot `start` is present |
| RingQueue.Grow | src/main/java/ru/innova/task/common/RingQueue.java:168-186 | the grown buffer keeps `min` and `count`, starts at slot 0, holds the old slot of each offset at that offset and absent slots beyond the old size, and its capacity exceeds the new offset and is at most twice it |
| RingQueue.GrowKeepsPending | src/main/java/ru/innova/task/common/RingQueue.java:168-186 | growing keeps the pending set and makes room for the new value's offset |
| RingQueue.MarkKeepsOthers | src/main/java/ru/innova/task/common/RingQueue.java:118-120 | marking a slot present adds exactly that value to the pending set |
| RingQueue.Prepare | src/main/java/ru/innova/task/common/RingQueue.java:115-117 | the resize check keeps the pending set, `count` and `min`, and brings the value within range |
| RingQueue.Mark | src/main/java/ru/innova/task/common/RingQueue.java:118-121 | the value becomes pending, `count` grows by one, and nothing else becomes or stops being pending |
| RingQueue.Put | src/main/java/ru/innova/task/common/RingQueue.java:106-130 | a value below `min` is rejected and a pending value is rejected as a duplicate, each leaving the queue unchanged; otherwise the pending set gains exactly the value, `count` grows by one, `min` stays, and the value's offset fits |
| RingQueue.Take | src/main/java/ru/innova/task/common/RingQueue.java:133-146 | with `min` pending, `take` answers `min`, removes it from the pending set, moves `min` up by one and `start` on modulo `bufSize`, and decrements `count` |
| RingQueue.TakeKeepsOthers | src/main/java/ru/innova/task/common/RingQueue.java:136-141 | clearing slot `start` and moving on removes exactly `min` from the pending set |
| RingQueue.Poll | src/main/java/ru/innova/task/common/RingQueue.java:149-166 | when the timeout elapses, the poll answers nothing exactly when `min` is not pending, and then the queue is unchanged; otherwise it is exactly `take` |
| RingQueue.DoubleCapacity | src/main/java/ru/innova/task/common/RingQueue.java:169-172 | the doubling loop ends at the grown capacity, which exceeds the offset |
| RingQueue.CopyUnrolled | src/main/java/ru/innova/task/common/RingQueue.java:173-182 | the copy loops put the old slot of each offset at that offset, and absent slots beyond the old size |
| RingQueue.Resize | src/main/java/ru/innova/task/common/RingQueue.java:168-186 | `resize` keeps the pending set, `min` and `count`, resets `start` to 0, and chooses a capacity above the offset and at most twice it, equal to the old size times `2^k` with `k >= 1` |
| RingOrdering.PutAllAccepts | src/main/java/ru/innova/task/common/RingQueue.java:106-130 | putting distinct values that are neither below `min` nor pending, one after another: each `put` is accepted (the returned states chain through `Put` with `Pass`), `min` stays, and the pending set gains exactly those values |
| RingOrdering.PermutationSet | src/main/java/ru/innova/task/common/RingQueue.java:14-16 | the values of a permutation of `[m, m + n)` are exactly that range |
| RingOrdering.DrainRange | src/main/java/ru/innova/task/common/RingQueue.java:149-166 | `n` polls on a queue whose pending values are exactly the next `n` release them in order and leave it empty, with `min` moved up by `n` |
| RingOrdering.OrderingLaw | src/main/java/ru/innova/task/common/RingQueue.java:14-16 | put any permutation of `[min, min + n)` into an empty queue: every `put` is accepted, as the returned chain of `Put` states shows, and `n` polls release `min, min + 1, ..., min + n - 1` and leave the queue empty |
| RingOrdering.RunReleasesInOrder | src/main/java/ru/innova/task/common/RingQueue.java:106-166 | under any interleaving of puts (accepted or rejected) and polls, the released values are consecutive integers from the first expected one, and `min` has moved past exactly those |
| AbstractWorker.NewWorker | src/main/java/ru/innova/task/common/AbstractWorker.java:40-44 | a new worker keeps its number and name and has not been asked to exit |
| AbstractWorker.ExitWork | src/main/java/ru/innova/task/common/AbstractWorker.java:52-55 | `exitWork` raises the flag and leaves the number and the name as they were |
| AbstractWorker.ExitWorkIdempotent | src/main/java/ru/innova/task/common/AbstractWorker.java:52-55 | asking twice is asking once, and a raised flag stays raised |
| AbstractWorker.NextNumber | src/main/java/ru/innova/task/common/Sender.java:21 | a constructor increments the shared counter atomically and takes the new value as its number |
| AbstractWorker.NumbersAreDistinct | src/main/java/ru/innova/task/common/Sender.java:21 | with the atomic counter, successive workers get `counter + 1, counter + 2, ...`, which are strictly increasing and so all different |
| Producer.NewProducer | src/main/java/ru/innova/task/initiator/Producer.java:35-44 | a new producer is number 1, is neither started nor exited, and has sent and logged nothing |
| Producer.SetStarted | src/main/java/ru/innova/task/initiator/Producer.java:104-112 | `setStarted` sets only the mode |
| Producer.StartWork | src/main/java/ru/innova/task/initiator/Producer.java:97-102 | START is appended exactly when generation was off, and then generation is on; if that `put` is interrupted the exception leaves before the mode is set, so nothing changes |
| Producer.StopWork | src/main/java/ru/innova/task/initiator/Producer.java:85-90 | STOP is appended exactly when generation was on, and then generation is off; if that `put` is interrupted nothing changes |
| Producer.ExitWork | src/main/java/ru/innova/task/initiator/Producer.java:115-128 | the exit flag is raised whatever the mode; EXIT is appended unless its `put` is interrupted, and then the queue is left as it was |
| Producer.Step | src/main/java/ru/innova/task/initiator/Producer.java:55-76 | an exited producer, or one whose thread has ended, finishes without producing; a stopped one waits; a started one appends the next generated value to both the queue and the log; an interrupted wait or `put` (caught at lines 72-73) ends the thread, and an interrupted `put` leaves the generator one past the log with nothing queued or logged |
| Producer.RepeatedTogglesEmitOnce | src/main/java/ru/innova/task/initiator/Producer.java:85-102 | starting twice emits one START, and stopping twice emits one STOP |
| Producer.InitialInv | src/main/java/ru/innova/task/initiator/Producer.java:35-44 | a fresh producer satisfies the invariant |
| Producer.StartKeepsInv | src/main/java/ru/innova/task/initiator/Producer.java:97-102 | `startWork` preserves the invariant |
| Producer.StopKeepsInv | src/main/java/ru/innova/task/initiator/Producer.java:85-90 | `stopWork` preserves the invariant |
| Producer.ExitKeepsInv | src/main/java/ru/innova/task/initiator/Producer.java:115-128 | `exitWork` preserves the invariant, whose exit clause is "an EXIT in the queue means the flag is up", both with and without an interrupted `put` |
| Producer.InterruptedExitSendsNothing | src/main/java/ru/innova/task/initiator/Producer.java:118-123 | an interrupted `put` of EXIT is caught, so a fresh producer is exited with no EXIT in its queue |
| Producer.StepKeepsInv | src/main/java/ru/innova/task/initiator/Producer.java:55-76 | a loop iteration, interrupted or not, preserves the invariant, whose generator clause is "the last logged value while the thread runs, at most one past it once an interrupt ended it" |
| Producer.InterruptedPutLosesValue | src/main/java/ru/innova/task/initiator/Producer.java:66-73 | after an interrupted `put` the thread has ended, the generator's mark is one past the log and is not in it, so with `lastSaved` at any logged value `areAllSaved` is false, and further iterations do nothing |
| Producer.ApplyKeepsInv | src/main/java/ru/innova/task/initiator/Producer.java:55-128 | any console call, loop iteration or save from another thread preserves the invariant |
| Producer.RunKeepsInv | src/main/java/ru/innova/task/initiator/Producer.java:55-128 | any schedule of those events preserves the invariant |
| Producer.ProducerRunInvariant | src/main/java/ru/innova/task/initiator/Producer.java:55-128 | on every run from a fresh producer, the log is 0, 1, ..., k-1; the queue's payloads are the log; START and STOP alternate from START; an odd number of them means started; no payload follows EXIT |
| Producer.LogHasNoSigns | src/main/java/ru/innova/task/initiator/Producer.java:66-69 | the log never holds a negative value |
| Receiver.Loop | src/main/java/ru/innova/task/common/Receiver.java:54-83 | the loop consumes at most the events it is given |
| Receiver.Call | src/main/java/ru/innova/task/common/Receiver.java:43-98 | a failed connect returns having read nothing, with the connection closed; an interrupted barrier likewise; otherwise the call is the loop |
| Receiver.LoopStopsAtFirstEnd | src/main/java/ru/innova/task/common/Receiver.java:54-96 | the loop consumes up to and including the first event that ends it (lost connection, end of stream, read error, failed put of a payload), or every event if none does; it returns for that event's reason; it closes the connection exactly when it returns |
| Receiver.LoopForwardsPayloads | src/main/java/ru/innova/task/common/Receiver.java:69-81 | the values put on the queue are exactly the non-negative values read before the ending event, unchanged and in arrival order |
| Receiver.CallForwardsOnlyPayloads | src/main/java/ru/innova/task/common/Receiver.java:69-81 | nothing negative and nothing unread is ever put on the queue |
| Receiver.CallAlwaysCloses | src/main/java/ru/innova/task/common/Receiver.java:90-96 | however the call returns, the connection is closed |
| Sender.NewSender | src/main/java/ru/innova/task/common/Sender.java:20-28 | a new sender has polled and sent nothing and is not exited |
| Sender.Step | src/main/java/ru/innova/task/common/Sender.java:42-63 | a lost connection ends the loop with nothing changed; an interrupted poll ends it with nothing changed; an empty poll either finishes or goes on, and finishes exactly when exit was requested and all is saved; a polled value is sent unchanged, and a failed send ends the loop; the worker never touches the tracker |
| Sender.Loop | src/main/java/ru/innova/task/common/Sender.java:42-70 | the loop consumes at most its events; it stops early only by returning, having consumed the event that ended it, and it closes the connection exactly when it returns |
| Sender.Call | src/main/java/ru/innova/task/common/Sender.java:31-72 | a failed connect returns without polling, with the connection closed; an interrupted barrier likewise; otherwise the call is the loop |
| Sender.LoopForwardsAll | src/main/java/ru/innova/task/common/Sender.java:42-77 | the worker polled exactly the values the queue handed out and sent each unchanged and in order, signs included, except a last one whose send failed; the tracker is only what other threads made of it; the connection is closed exactly when the loop returned |
| Saver.NewSaver | src/main/java/ru/innova/task/common/Saver.java:30-37 | a new saver is number 1, has logged nothing, and is not exited |
| Saver.Step | src/main/java/ru/innova/task/common/Saver.java:46-62 | a polled value is appended to the log and then reported saved; an empty poll either finishes or goes on, and finishes exactly when exit was requested and all is saved; an interrupted poll ends it silently |
| Saver.Loop | src/main/java/ru/innova/task/common/Saver.java:44-62 | the loop consumes at most its events, and stops early only by returning, having consumed the event that ended it |
| Saver.LoopSavesAll | src/main/java/ru/innova/task/common/Saver.java:44-62 | the log grows by exactly the polled values in order, and the tracker has seen exactly the saver's own `saved` calls interleaved with the other threads' updates |
| Saver.SavedMarkIsMaxOfLog | src/main/java/ru/innova/task/common/Saver.java:58 | with the real tracker and no other thread saving, `lastSaved` ends at the maximum of its start value and every logged value |
| Saver.SavedCallsAreLogged | src/main/java/ru/innova/task/common/Saver.java:55-58 | without saves from other threads, the values saved are exactly the values logged |
| MultiQueue.Create | src/main/java/ru/innova/task/common/MultiQueue.java:39-41 | the destinations keep the constructor's order |
| MultiQueue.Put | src/main/java/ru/innova/task/common/MultiQueue.java:50-54 | `put` appends the value to every destination in list order; if one destination's put throws, the destinations before it have the value, the rest do not, and the failure propagates |
| MultiQueue.PutEachAppends | src/main/java/ru/innova/task/common/MultiQueue.java:50-54 | after any run of puts, each destination has received exactly the values put, in order |
| MultiQueue.SameValuesEverywhere | src/main/java/ru/innova/task/common/MultiQueue.java:50-54 | starting from empty destinations, every destination holds the same sequence |
| MultiQueue.Other | src/main/java/ru/innova/task/common/MultiQueue.java:56-174 | every other operation fails as unsupported and changes no destination |
| ClientNetwork.Handshake | src/main/java/ru/innova/task/network/ClientNetworkSender.java:56-57 | the handshake is `[clientType, direction]` |
| ClientNetwork.SenderClient | src/main/java/ru/innova/task/network/ClientNetworkSender.java:27-31 | the sending client announces the SENDER direction and holds no socket |
| ClientNetwork.ReceiverClient | src/main/java/ru/innova/task/network/ClientNetworkReceiver.java:29-33 | the receiving client announces the RECEIVER direction and holds no socket |
| ClientNetwork.Opened | src/main/java/ru/innova/task/network/ClientNetworkSender.java:52-58 | an opened socket carries the part of the handshake written before a write threw |
| ClientNetwork.Retry | src/main/java/ru/innova/task/network/ClientNetworkSender.java:38-50 | the retry loop stops as soon as a socket is held, and otherwise fails only on an interrupted sleep; running out of attempts leaves no socket held; role and direction never change |
| ClientNetwork.Connect | src/main/java/ru/innova/task/network/ClientNetworkSender.java:35-37 | `connect` on a client that holds a socket fails as already connected |
| ClientNetwork.ConnectChecked | src/main/java/ru/innova/task/network/ClientNetworkReceiver.java:37-39 | the corrected form of `connect` (see ## Findings; the file's own `connect` has the unchecked loop) still fails as already connected when a socket is held |
| ClientNetwork.RetriesUntilConnected | src/main/java/ru/innova/task/network/ClientNetworkSender.java:38-50 | after any number of refused rounds, the first round that completes the handshake connects, with exactly the handshake on the wire |
| ClientNetwork.InterruptedSleepFails | src/main/java/ru/innova/task/network/ClientNetworkReceiver.java:44-49 | an interrupted retry sleep makes `connect` fail |
| ClientNetwork.ConnectedCarriesHandshakePrefix | src/main/java/ru/innova/task/network/ClientNetworkSender.java:38-58 | as written, a connection reported as established carries some prefix of the handshake, not necessarily all of it |
| ClientNetwork.PartialHandshakeReportedConnected | src/main/java/ru/innova/task/network/ClientNetworkSender.java:38-58 | as written, a socket whose second handshake write threw is reported connected with only `[clientType]` on the wire |
| ClientNetwork.CheckedConnectWritesHandshake | src/main/java/ru/innova/task/network/ClientNetworkReceiver.java:40-62 | in the corrected form of this `connect` (see ## Findings), a connection reported as established always carries the whole handshake |
| ClientNetwork.CheckedAgreesOnCleanAttempts | src/main/java/ru/innova/task/network/ClientNetworkReceiver.java:40-62 | where no handshake write throws, the corrected form of this `connect` (see ## Findings) and the as-written one agree |
| ConnectionHandler.MakeWorker | src/main/java/ru/innova/task/proxy/ConnectionHandler.java:69-91 | a worker is built exactly for a client role and a connector type; a receiving client gets a Sender and a sending one a Receiver; the queue is `toEcho` exactly when the Initiator sends or the Echo node receives; otherwise the server-type or connector-type error |
| ConnectionHandler.RoutingTable | src/main/java/ru/innova/task/proxy/ConnectionHandler.java:71-83 | the four valid handshakes and their wirings |
| ConnectionHandler.Call | src/main/java/ru/innova/task/proxy/ConnectionHandler.java:50-67 | an already-closed socket returns before reading; otherwise exactly two integers are read and dispatched, or a short stream or a refused handshake ends the handler; the socket is closed on every path |
| ConnectionHandler.StreamEvents | src/main/java/ru/innova/task/common/Receiver.java:60 | the events of a stream are one read per integer, then the end of the stream |
| ConnectionHandler.ReceiverForwardsStream | src/main/java/ru/innova/task/common/Receiver.java:54-87 | a Receiver on a stream puts exactly the stream's payloads on its queue, in order, and returns at the end of the stream |
| ConnectionHandler.CleanConnectWritesHandshake | src/main/java/ru/innova/task/network/ClientNetworkSender.java:38-58 | the as-written `connect`, when no handshake write was cut short, reports a connection only with the whole handshake on the wire |
| ConnectionHandler.InitiatorSenderFeedsToEcho | src/main/java/ru/innova/task/network/ClientNetworkSender.java:56-57 | an Initiator client whose as-written `connect` succeeded with no handshake write cut short is dispatched to a Receiver filling `toEcho`; that Receiver, run on the rest of the stream, puts exactly the payloads the client sends and ends at the end of the stream |
| ConnectionHandler.EchoReceiverDrainsToEcho | src/main/java/ru/innova/task/network/ClientNetworkReceiver.java:60-61 | an Echo client whose as-written `connect` succeeded with no handshake write cut short is served by a Sender draining `toEcho` |
| ConnectionHandler.EveryClientRoutedAsIntended | src/main/java/ru/innova/task/proxy/ConnectionHandler.java:57-91 | for every role and direction, a client whose as-written `connect` succeeded with no handshake write cut short lands on the intended worker and queue |
| ConnectionHandler.PartialHandshakeMisrouted | src/main/java/ru/innova/task/proxy/ConnectionHandler.java:57-89 | as written, an Initiator whose handshake stopped after the role is reported connected, and the proxy reads its first payload 0 as the connector type and refuses it |

## Left out

- Concurrency: locks, conditions, `volatile`, the compare-and-set retry loops, start barriers and thread pools. Each operation is one atomic step. A blocked `take` is the precondition "min is pending".
- Timeouts and sleeps: the 500 ms poll and the 1000 ms retry sleep. An elapsed poll is the `TimedOut` event, and a failed connect round is an `Attempt` record.
- Sockets and streams: the network workers are thin wrappers over `java.net`. A connection is a connected flag plus a sequence of integers, and big-endian framing is not modelled.
- File output in `Producer` and `Saver` is an appended sequence. Encoding, flushing, and a file that cannot be opened are not modelled.
- Logging and the Receiver's status lines for START, STOP and EXIT.
- The Receiver's `number == null` branch: `receive()` returns an `int`, so the branch cannot run. In the live code the end of the stream ends the Receiver unconditionally. The dead branch at Receiver.java lines 62-67 would wait for `exited && controller.areAllSaved()`; the model follows the live path.
- The Receiver's exit flag: the live loop never reads it, so `exitWork` has no effect on a Receiver and the model has no exit event for it.
- Unsupported `RingQueue` methods (`remove`, `poll()`, `peek`, `iterator`, ...): they only throw. `toString` does not throw: it returns the text of the raw slot array in storage order, empty slots included (RingQueue.java lines 288-291). It is a debugging aid and is not modelled.
- Console, command-line parsing, server bootstrap and the accept loop.
- Producer.ProducerRunInvariant, Producer.Step: a loop iteration is one atomic step. In the Java the exit test (Producer.java line 62) runs before the blocking `put` into the output queue (line 67). The Initiator's output queue is a `SynchronousQueue`, so a producer blocked in `put` while STOP and EXIT are issued can deliver that one payload after EXIT (`..., STOP, EXIT, k`). "No payload follows EXIT" holds only for the linearised loop.
- AbstractWorker.NextNumber, AbstractWorker.NumbersAreDistinct: they model the Sender's atomic `incrementAndGet`. The Receiver's `++counter` on a `volatile int` (Receiver.java lines 17 and 33) is not atomic, so two Receivers built on concurrent handler threads can share a number.
- RingQueue.Put: the `NullPointerException` for a null value is not modelled, because an `int` cannot be null.
- ConnectionHandler.InitiatorSenderFeedsToEcho, ConnectionHandler.EchoReceiverDrainsToEcho, ConnectionHandler.EveryClientRoutedAsIntended: they require that no handshake write was cut short. With a cut-short write the as-written client is misrouted, as `PartialHandshakeMisrouted` shows.
- Loop, Receiver.Loop, Sender.Loop, Saver.Loop: an event trace that runs out while the loop is still running ends with reason `StillRunning`. The model describes finite prefixes of a possibly endless run.
- RingQueue.Create: requires `initialSize > 0`, because the Java constructor with 0 leads to a resize that never ends. `CreateChecked` and `ZeroCapacityNeverFits` state this.
- RingQueue.Put, DataGenerator.ProduceNext: integers are unbounded. The 32-bit overflow of `produceNext` at `Integer.MAX_VALUE`, of `value - min` and of `bufSize * 2` is not modelled.
- Sender.Step, Receiver.Loop: the concrete queues' own put failures are events (`PutFailed` of a payload, `sendOk == false`), not the queues' code.

## Findings

| source | as written | input that shows it | evidently intended | confidence | as-written member | corrected member |
|---|---|---|---|---|---|---|
| src/main/java/ru/innova/task/common/RingQueue.java:90-92 | `isEmpty()` returns `count > 0` | a fresh queue answers `false` | `count == 0` | high (not executed) | RingQueue.IsEmptyInverted | RingQueue.IsEmptyIntended |
| src/main/java/ru/innova/task/common/RingQueue.java:169-172 | the constructor accepts size 0, and the doubling loop then multiplies 0 | `new RingQueue(0)` then `put(0)`: `0 * 2 <= 0` forever | reject a non-positive size | high (not executed) | RingArith.ZeroCapacityNeverFits | RingQueue.CreateChecked |
| src/main/java/ru/innova/task/network/ClientNetworkSender.java:38-58 | a handshake write that throws leaves the opened socket in place, so the retry loop stops and `connect` returns normally | one attempt that opens the socket and throws on the second `writeInt`: connected with only `[-5]` written | close the socket on a failed handshake and retry | medium (not executed) | ClientNetwork.PartialHandshakeReportedConnected | ClientNetwork.CheckedConnectWritesHandshake |
