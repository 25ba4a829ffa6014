# A model of TinyWebLib, with proofs

TinyWebLib is a reactor-style network library: event loops over epoll, TCP connections with
input and output buffers, timers over one timerfd, an HTTP request parser and response printer,
a double-buffered asynchronous logger, and two small pools. This project models the protocols
and algorithms of its core and proves what they promise.

Where the library changes objects step by step, the model is a class with the same fields, and
each method is proved against a function on values; what the library promises is then proved
about those functions over whole runs. Where several threads take part (loops, back end and
front ends of the logger, pools), the unit of a run is a critical section or one action outside
a lock, and a run is any list of such steps, that is, any interleaving. Answers of the kernel
(readv, write, epoll, timerfd, clocks, `fopen`) are inputs ranging over everything they may be.

| files | what they model |
|---|---|
| `Common`, `Strings`, `Decimal` | what components share; byte strings, the search for CRLF; decimal text |
| `NetBuffer` | the network buffer in place over an array, as a byte queue with a space bound |
| `OutputPath`, `OutputEffects`, `HalfClose`, `SendOrder` | write-or-queue, draining, deferred half-close; what each operation puts on the wire and calls back; which calls of shutdown() wait for queued messages; the order of messages |
| `AsWritten`, `TcpConnection` | the two places that hand over the wrong bytes; the connection object over two real buffers, as meant and as written |
| `Lifecycle`, `LifecycleMoves` | server, connections, channels and loops together: accept, UP, DOWN, erasure, removal, destruction; then exactly what moves a connection, and in which order events and functors run |
| `EventLoop` | one loop's functor queue and eventfd with any number of other threads |
| `Poller` | channels, the epoll poller's map and the kernel's interest set |
| `TimerSpec`, `TimerReads`, `Clock`, `TimerQueue` | timers, the sorted set, the timerfd; what one whole handleRead does; then the queue object with its timers on the heap |
| `HttpParsing`, `HttpLines`, `HttpContext` | the incremental request parser as a function; which lines it takes and what it stores of them; then the request and context objects |
| `HttpFraming`, `HttpResponse` | the response printer and a Content-Length reader (section 6 of RFC 9112); then the response object |
| `LogSpec`, `LogRuns`, `LogFile`, `AsyncLogging`, `LogStream` | the logger's buffers, its rounds and what a stop leaves behind, the rolling file, the logger object; the fixed buffer and in-place integer formatting |
| `PoolSpec`, `PoolGrowth`, `PoolWaiters`, `ConnectionPool`, `ThreadPool` | the two pools, how far the first really grows, and its waiting clients |

## Where the code departs from its evident intent

- `send(Buffer*)` (src/net/TcpConnection.cpp:77) and `handleWrite` (src/net/TcpConnection.cpp:221)
  hand `beginWrite()` to the kernel, although the unread bytes begin at `beginRead()`, as
  `Buffer::writeFd` has it (src/net/Buffer.cpp:94). `OutputPath` takes the bytes from
  `beginRead()`. `AsWritten` and two methods of the connection object model the code as it
  stands: the numbers of bytes are right (`CountsSurvive`, `DrainCountsSurvive`), the bytes are
  right exactly for the calls that `SendBufferRightIff` and `HandleWriteRightIff` name, those
  that have no bytes to move or come from another thread, and `WrongByteOnTheWire` is a
  reachable failure of each.
- A half-close can overtake a message that another thread has queued, or is about to queue
  having found the connection connected: `ForeignSendOvertaken` has a run of each kind, and
  `ShutdownWaitsIff` says exactly which calls of shutdown() make sure that none is left behind.
  Between its own test of the state and what follows, the loop thread too can be overtaken by a
  shutdown() of another thread; the runs include that. With all callers on the loop thread
  `DeferredHalfClose` holds without condition.
- A functor that the owner thread queues before `loop()` is not announced
  (src/net/EventLoop.cpp:132). `StuckIffQueuedSilentlyBefore`: entering the loop with work that
  nobody has announced or is about to announce is the only way to sleep on queued work.
- One event can close a connection twice if the kernel reports a hang-up with urgent data and no
  readable data (src/net/Channel.cpp:61-71); `ClosesOnceIff` is exact, and `Lifecycle` excludes
  that mask.
- `formatInteger` prints nothing for 0 (src/log/LogStream.cpp:22), see `FormatIntRoundTrip`; it
  negates negative values, so the smallest value of a type is excluded.
- The Content-Length line goes through a 32-byte scratch buffer; `LengthLineWholeIff` gives the
  bound, 10^13 bytes.
- `currentSize_` is raised twice for each connection made (src/mysql/ConnectionPool.cpp:80 with
  :25 and :51); see `CounterIsExactIff` and `ProducesIff`. The most connections that ever live
  are max(minSize_, (maxSize_ + 1) / 2), see `CeilingIsExact` and `NeverGrowsIff`.
- Returning a connection does not notify (src/mysql/ConnectionPool.cpp:97-101): a waiting client
  can sleep until its timeout while a connection is idle, see `StrandsIff`,
  `StrandedUntilWoken` and `ClientIsStranded`.
- The log back end does not drain when it stops (src/log/AsyncLogging.cpp:114):
  `LeftBehindAtStop` says which lines are then in no file and when there are none, and
  `LineLeftBehind` is a run. A line that does not fit an empty buffer is dropped, see
  `DroppedIffTooLong`. The back end passes `false` as the flush interval of its file, so 0
  seconds (src/log/AsyncLogging.cpp:54).
- A log file rolls at most once in a second (src/log/LogFile.cpp:55). So the open file outgrows
  the roll size exactly when it is filled again within the second it was opened in
  (`WithinSizeIff`); `SameSecondNeverRolls` is the extreme case.
- `HttpContext::reset` keeps the receive time (src/http/HttpContext.h:31-36).

## Model

| member | source | states |
|---|---|---|
| `Lifecycle.ConnectionScript` | src/net/TcpServer.cpp:94-119 | over every interleaving of base loop, I/O loops and other threads, a connection goes through UP, DOWN, erasure and removal at most once each and in this order, and that alone determines its state, poller index, map entry and interest |
| `Lifecycle.DestroyedOnlyWhenDone` | src/net/TcpConnection.cpp:184-193 | connectDestroyed runs only after UP, DOWN and erasure, with no event interest, outside dispatch and with no event pending for it on any loop; so the assert of Channel::remove holds and its kConnected branch is dead |
| `Lifecycle.DispatchIsSafe` | src/net/EventLoop.cpp:93-98 | every pointer between poll and dispatch stays registered and alive, and the connection being handled stays alive and known to the poller until its event ends |
| `Lifecycle.DestructionIsLast` | src/net/TcpServer.cpp:94-119 | a registered connection always has a strong owner, and destruction comes only after the whole script, when it has left its poller |
| `Lifecycle.LiveIsOwned` | src/net/TcpServer.cpp:111-119 | until it is removed from its loop, a connection is held by the map, a queued functor or a stack guard |
| `Lifecycle.RegisteredFdsDiffer` | src/net/Channel.cpp:30-34 | no two registered channels share a descriptor, on whichever loops they are |
| `Lifecycle.QuiescentMeansSettled` | src/net/TcpServer.cpp:105-119 | once all loops poll with empty queues, each connection is either up and in the map, or completely torn down and destroyed or free to be: nothing leaks |
| `Lifecycle.WholeLifeHappens` | src/net/TcpConnection.cpp:174-257 | some run takes a connection from accept to destruction, so the statements above are not empty |
| `Lifecycle.NextFunctorFits` | src/net/TcpServer.cpp:101-118 | each lifecycle functor about to run finds its connection at exactly the point of the script it belongs to, on the right loop |
| `Lifecycle.StepKeeps` | src/net/EventLoop.cpp:80-191 | each of the fifteen kinds of step keeps the whole invariant, including one token for each lifecycle functor that is owed |
| `LifecycleMoves.MilestonesAreDue` | src/net/TcpConnection.cpp:174-257 | in every reachable state a step brings each connection exactly the milestone due: UP, DOWN, erasure or removal for the step that calls for it, and none otherwise |
| `LifecycleMoves.EofCloses` | src/net/TcpConnection.cpp:195-213 | a read event takes an up connection DOWN, disconnected and without interest, iff the mask has readable or urgent data and read finds the end; otherwise the connection is unchanged |
| `LifecycleMoves.HangupCloses` | src/net/Channel.cpp:61-63 | the same for a hang-up, iff there is nothing to read |
| `LifecycleMoves.EventCloses` | src/net/Channel.cpp:57-71 | from the report of the poller to the end of the read callback, when an event closes its connection |
| `LifecycleMoves.DisconnectingIffShutdown` | src/net/TcpConnection.cpp:156-163 | kDisconnecting is entered by shutdown() of a connected connection and by nothing else |
| `LifecycleMoves.WriteInterestMoves` | src/net/TcpConnection.cpp:140-153 | write interest comes with a send that blocks and goes when the pending bytes have drained or the connection goes DOWN, and nothing else touches it |
| `LifecycleMoves.AcceptMakes` | src/net/TcpServer.cpp:89-101 | an accepted connection is in the map and alive, with its loop and descriptor, UP at once iff its loop is the base loop |
| `LifecycleMoves.EventsInOrder` | src/net/EventLoop.cpp:86-98 | every reported event is dispatched, in order, with its own mask |
| `LifecycleMoves.EventsGoOn` | src/net/Channel.cpp:57-76 | within an event the close, read and write callbacks follow each other for the same connection and mask until the event ends |
| `LifecycleMoves.FunctorsInOrder` | src/net/EventLoop.cpp:113-191 | over every interleaving, a loop runs its functors in the order queued, and each step queues exactly what the source queues |
| `LifecycleMoves.LifeEndsByDestruction` | src/net/TcpServer.cpp:111-119 | a connection is alive until its destruction and never again |
| `OutputPath.OutputConserved` | src/net/TcpConnection.cpp:93-154 | over every run, also when a push of another thread lands after a shutdown or a close, wire bytes followed by queued bytes are the accepted messages in order; every message let through is accepted, refused, queued, on its way to the queue or just being sent, once; write interest is on iff bytes are queued while not disconnected |
| `OutputPath.HalfCloseIsClean` | src/net/TcpConnection.cpp:165-172 | a half-close on a connection that is not disconnected finds nothing pending and all accepted bytes on the wire |
| `HalfClose.ShutdownWaitsIff` | src/net/TcpConnection.cpp:55-172 | for a reachable connected connection, no half-close after this call of shutdown() will ever leave behind a message that send() let through, in any continuation, iff no send() of another thread is between its test and its push and moreover no message is queued, or the call is from another thread, no bytes are pending or about to be, the loop thread is not about to test the state after a drain, and at most the last queued message has bytes |
| `HalfClose.ShutdownLeavesBehind` | src/net/TcpConnection.cpp:226-237 | for every other call, a continuation that leaves one behind |
| `HalfClose.WaitsKeeps` | src/net/TcpConnection.cpp:55-172 | every operation after such a call, the landing of a push included, keeps what makes the half-close wait |
| `OutputPath.DeferredHalfClose` | src/net/TcpConnection.cpp:156-172 | for loop-thread callers: at most one half-close; a pending one has bytes still to drain, or the loop thread has just drained them; nothing is sent, accepted or written after it |
| `OutputPath.ForeignSendOvertaken` | src/net/TcpConnection.cpp:55-172 | concrete runs in which a half-close overtakes a message of another thread, one in the queue and one not yet pushed |
| `OutputPath.HalvesMakeWhole` | src/net/TcpConnection.cpp:55-69 | the steps a run splits send() and handleWrite into, at their tests of the state, make up the whole when nothing comes between |
| `AsWritten.SendBufferRightIff` | src/net/TcpConnection.cpp:71-86 | send(Buffer*) as written commits the right bytes, whatever memory holds and the kernel answers, iff it is called on another thread, on a connection that is not connected, or with a buffer without unread bytes |
| `AsWritten.HandleWriteRightIff` | src/net/TcpConnection.cpp:215-246 | handleWrite as written puts the right bytes on the wire, whatever memory holds and the kernel answers, iff write interest is off or the output buffer is empty |
| `AsWritten.WrongByteOnTheWire` | src/net/TcpConnection.cpp:71-154 | at a reachable connection on a blocked socket, where the call writes nothing, either error alone sends a wrong byte later |
| `AsWritten.CountsSurvive` | src/net/TcpConnection.cpp:71-154 | the numbers of bytes written and queued, the state, the interest and the callbacks are as meant |
| `AsWritten.DrainCountsSurvive` | src/net/TcpConnection.cpp:215-246 | the same for handleWrite, with the output buffer and the half-closes |
| `SendOrder.SentInOrder` | src/net/TcpConnection.cpp:55-154 | for loop-thread callers the accepted messages are the sent ones without the refused ones, in order, but for one just being sent; with none refused, wire and output buffer are all of them, in order |
| `OutputPath.SendInLoopKeeps` | src/net/TcpConnection.cpp:93-154 | sendInLoop adds the message to the accepted or to the refused ones, keeps conservation and the interest rule, and touches nothing else |
| `OutputEffects.SendMovesBytes` | src/net/TcpConnection.cpp:108-154 | sendInLoop writes at once what the kernel takes iff nothing is pending; wire and output grow by the message together |
| `OutputEffects.RefusedIff` | src/net/TcpConnection.cpp:99-136 | a message is given up, whole, iff the connection is disconnected or its direct write finds the peer gone |
| `OutputEffects.SendCompletesIff` | src/net/TcpConnection.cpp:111-123 | sendInLoop queues the write-complete callback iff it is wanted and the whole message has gone to the wire at once |
| `OutputEffects.SendHighWaterIff` | src/net/TcpConnection.cpp:139-148 | the high-water callback is queued, with the new number of pending bytes, iff it is wanted and that number goes from below the mark to the mark or above |
| `OutputEffects.SentIff` | src/net/TcpConnection.cpp:55-69 | send() lets a message through iff the connection is connected |
| `OutputEffects.DrainEffect` | src/net/TcpConnection.cpp:215-232 | a write-ready event moves what the kernel takes from the front of the output to the wire, and queues the write-complete callback iff it is wanted and the last pending bytes have gone |
| `OutputEffects.CutsIff` | src/net/TcpConnection.cpp:156-237 | an operation half-closes, once, iff write interest is off and it is shutdown() on the loop of a connected connection, a queued shutdown, or the test after a drain of one that is shut down |
| `OutputEffects.HalfCloseIsOwed` | src/net/TcpConnection.cpp:156-237 | over every run, a connection in kDisconnecting has half-closed, or has bytes to drain, or a half-close queued or about to be: none is forgotten, whichever thread asked |
| `OutputEffects.CallbacksMade` | src/net/TcpConnection.cpp:174-257 | the connection and message callbacks of each operation, and what it adds to the input |
| `OutputEffects.InputAndLife` | src/net/TcpConnection.cpp:174-257 | over every run, the input buffer holds all that was received, in order; UP is the first callback and the only one; nothing but the close callback follows DOWN; a connection reads iff it is up, and has no interest once it is down |
| `OutputPath.StepKeeps` | src/net/TcpConnection.cpp:55-257 | every operation, a late push included, keeps conservation, the interest rule, the accounting of messages and the cleanness of every half-close |
| `TcpConnections.TcpConnection.SendInLoop` | src/net/TcpConnection.cpp:93-154 | the object over real buffers does what the value-level step does, field by field |
| `TcpConnections.TcpConnection.Send` | src/net/TcpConnection.cpp:55-69 | sends at once on the loop thread; on another one lets the message through to its push; ignores it unless connected |
| `TcpConnections.TcpConnection.LandSend` | src/net/TcpConnection.cpp:65-66 | the push, in whatever state the connection is by then |
| `TcpConnections.TcpConnection.SendBuffer` | src/net/TcpConnection.cpp:71-86 | as meant: sends exactly the unread bytes of the caller's buffer and empties it |
| `TcpConnections.TcpConnection.SendBufferAsWritten` | src/net/TcpConnection.cpp:71-86 | as written, over a real array: on the loop thread sends as many bytes from beginWrite() on, and empties the buffer |
| `TcpConnections.TcpConnection.ShutdownInLoop` | src/net/TcpConnection.cpp:165-172 | half-closes iff write interest is off |
| `TcpConnections.TcpConnection.Shutdown` | src/net/TcpConnection.cpp:156-163 | takes a connected connection to kDisconnecting, once, and half-closes on the loop; on another thread its push is still to come |
| `TcpConnections.TcpConnection.LandShutdown` | src/net/TcpConnection.cpp:161 | the push |
| `TcpConnections.TcpConnection.HandleWrite` | src/net/TcpConnection.cpp:215-246 | as meant: drains what the kernel takes from the front; interest, completion callback and a deferred half-close follow when empty |
| `TcpConnections.TcpConnection.HandleWriteAsWritten` | src/net/TcpConnection.cpp:215-246 | as written, over a real array: the kernel gets the bytes from beginWrite() on, and as many unread ones are dropped |
| `TcpConnections.TcpConnection.HandleRead` | src/net/TcpConnection.cpp:195-213 | appends what was read, closes at end of file, changes nothing on an error |
| `TcpConnections.TcpConnection.HandleClose` | src/net/TcpConnection.cpp:248-257 | disconnected, no interest, DOWN and then the close callback; the output stays as it is |
| `TcpConnections.TcpConnection.ConnectEstablished` | src/net/TcpConnection.cpp:174-182 | connected, reading, UP |
| `TcpConnections.TcpConnection.ConnectDestroyed` | src/net/TcpConnection.cpp:184-193 | a connected connection goes DOWN, any other stays as it is |
| `EventLoops.NoLostWakeup` | src/net/EventLoop.cpp:104-136 | entered with other threads anywhere in their calls, a loop thread at poll with work queued or quit_ set finds the eventfd readable, or some thread has yet to write it |
| `EventLoops.StuckIffQueuedSilentlyBefore` | src/net/EventLoop.cpp:80-136 | no run can leave the loop asleep on queued work iff loop() is entered with an empty queue, a written eventfd or a thread about to write it |
| `EventLoops.FifoExactlyOnce` | src/net/EventLoop.cpp:176-191 | in every state, functors executed, the rest of the batch and the queue make up everything queued, in order |
| `EventLoops.WakeupDelivers` | src/net/EventLoop.cpp:86-100 | from poll with the eventfd readable, one iteration of the loop alone executes everything queued so far, in order, and leaves the eventfd read |
| `EventLoops.WakeupsAreExact` | src/net/EventLoop.cpp:126-158 | over every run, the eventfd is written for a functor queued by the loop thread iff functors are being executed, and once for each call of another thread; a read takes all of it |
| `EventLoops.EndsIffQuit` | src/net/EventLoop.cpp:80-111 | over every run, quit_ is set iff quit() has been called, by whichever thread; the loop ends only then, and its next test ends it iff that is so |
| `EventLoops.QuitEnds` | src/net/EventLoop.cpp:86-111 | once quit() has been called, one iteration of the loop alone from a poll with the eventfd readable executes everything queued and ends the loop |
| `EventLoops.StepKeeps` | src/net/EventLoop.cpp:80-191 | every step of loop and other threads keeps order and the commitment to wake |
| `EventLoops.EventLoop.QueueInLoop` | src/net/EventLoop.cpp:126-136 | pushes, and raises the eventfd iff the caller is another thread or functors are being executed; in a callback it is the two steps of the machine |
| `EventLoops.EventLoop.Quit` | src/net/EventLoop.cpp:104-111 | sets quit_, and raises the eventfd iff the caller is another thread |
| `EventLoops.EventLoop.DoPendingFunctors` | src/net/EventLoop.cpp:176-191 | a run of the machine that executes exactly the swapped-out batch in order, leaves exactly what was queued meanwhile, in order, and raises the eventfd once for each |
| `Poller.ClosesOnceIff` | src/net/Channel.cpp:57-76 | one event closes its connection at most once, whatever the read finds, iff the mask is not hang-up with urgent data and no readable data |
| `Poller.CallsAreExact` | src/net/Channel.cpp:57-76 | each of the four callbacks is made iff its condition on the mask holds, once, and in the order close, error, read, write |
| `Poller.Channel.HandleEventWithGuard` | src/net/Channel.cpp:57-76 | the callbacks made for a mask, in order |
| `Poller.Channel.EnableReading` | src/net/Channel.h:48 | adds read interest and keeps the agreement of channel, map and kernel set, with no rejected epoll_ctl |
| `Poller.Channel.DisableReading` | src/net/Channel.h:49 | removes read interest and keeps the agreement |
| `Poller.Channel.EnableWriting` | src/net/Channel.h:50 | adds write interest and keeps the agreement |
| `Poller.Channel.DisableWriting` | src/net/Channel.h:51 | removes write interest and keeps the agreement |
| `Poller.Channel.DisableAll` | src/net/Channel.h:52 | removes all interest and keeps the agreement |
| `Poller.Channel.Remove` | src/net/Channel.cpp:40-43 | a channel without interest leaves the poller |
| `Poller.EPollPoller.AgreementIsExact` | src/net/poller/EpollPoller.cpp:61-121 | kAdded iff the kernel maps the fd to this channel with its mask; kDeleted iff in the map only; kNew iff in neither |
| `Poller.EPollPoller.UpdateChannel` | src/net/poller/EpollPoller.cpp:61-87 | from a state that agrees but for this channel's new mask, agreement is restored; ADD finds the fd absent, MOD and DEL present; the asserts hold |
| `Poller.EPollPoller.RemoveChannel` | src/net/poller/EpollPoller.cpp:104-121 | the channel is in neither the map nor the kernel set afterwards, the others are untouched |
| `Poller.EPollPoller.FillActiveChannels` | src/net/poller/EpollPoller.cpp:89-102 | the active list is, in order, the distinct registered channels of the reported descriptors with their masks |
| `NetBuffer.Buffer.Append` | src/net/Buffer.cpp:51-55 | the bytes join the end of the queue; the space bound max(8 + initial size, 2 * peak + 8) is kept |
| `NetBuffer.Buffer.MakeSpace` | src/net/Buffer.cpp:104-117 | grows or moves in place without changing the unread bytes, and then there is room; its asserts hold |
| `NetBuffer.Buffer.CopyDown` | src/net/Buffer.cpp:112 | the copying loop over two ranges that may overlap moves every byte unharmed |
| `NetBuffer.Buffer.EnsureWritableBytes` | src/net/Buffer.cpp:40-45 | room for len bytes, same unread bytes |
| `NetBuffer.Buffer.Retrieve` | src/net/Buffer.cpp:13-20 | drops exactly the first len unread bytes |
| `NetBuffer.Buffer.RetrieveAsString` | src/net/Buffer.cpp:23-28 | returns and drops exactly the first len unread bytes |
| `NetBuffer.Buffer.RetrieveAllAsString` | src/net/Buffer.cpp:30-32 | returns and drops everything |
| `NetBuffer.Buffer.RetrieveUntil` | src/net/Buffer.cpp:34-38 | drops the unread bytes up to a position among them |
| `NetBuffer.Buffer.ReadFd` | src/net/Buffer.cpp:62-89 | whatever readv delivers over the two areas joins the end of the queue; errors change nothing |
| `NetBuffer.Buffer.WriteFd` | src/net/Buffer.cpp:92-101 | what the kernel took followed by what is left is what was unread |
| `NetBuffer.Buffer.FindCRLF` | src/net/Buffer.cpp:57-60 | the first CRLF pair of the unread bytes, and none only if there is none |
| `TimerSpec.LiveIsQueued` | src/time/TimerQueue.cpp:166-200 | keys are expirations, live timers are exactly those in the set and the unfinished batch, the set is sorted |
| `TimerSpec.BatchIsTheDue` | src/time/TimerQueue.cpp:132-144 | over every run, the entries taken out of the set are exactly those with expiration at or before now, in nondecreasing order, and the rest stays |
| `TimerReads.BatchIsRun` | src/time/TimerQueue.cpp:146-164 | from the reading of the timerfd to the end of the callbacks, with any timers added meanwhile, the callbacks made are those of exactly the timers due, once each, in order of expiration |
| `TimerReads.ReadServes` | src/time/TimerQueue.cpp:146-184 | a whole handleRead calls back exactly the timers due, restarts or deletes exactly those, leaves the others as they were, and has the timers its callbacks added |
| `TimerSpec.CallbacksAreDue` | src/time/TimerQueue.cpp:146-184 | over every run, each callback made was due; a one-shot has at most one and is gone after its batch; a repeating timer runs no earlier than one interval after its previous restart |
| `TimerSpec.ArmedInTime` | src/time/TimerQueue.cpp:78-126 | over every run, outside handleRead a non-empty queue has a deadline of exactly the later of the earliest expiration and 100 microseconds after arming |
| `TimerSpec.AddArmsIff` | src/time/TimerQueue.cpp:78-93 | a new timer arms the timerfd iff it expires strictly before all others, and then for exactly its expiration or 100 microseconds ahead |
| `TimerSpec.DisarmedWhenEmpty` | src/time/TimerQueue.cpp:146-184 | over every run, with no timer in the set the timerfd is not armed |
| `TimerSpec.StepKeeps` | src/time/TimerQueue.cpp:78-200 | every step, with timers added from outside or by callbacks, keeps the four parts of the invariant |
| `TimerQueues.TimespecIsExact` | src/time/TimerQueue.cpp:108-117 | the timespec is normalised, never zero, and stands for exactly the time left, but no less than 100 microseconds |
| `TimerQueues.InsertPairEntries` | src/time/TimerQueue.cpp:198 | insertion among heap timers adds exactly one pair and is the insertion of the model |
| `TimerSpec.InsertSorted` | src/time/TimerQueue.cpp:198 | insertion keeps the set sorted by key and then by timer |
| `TimerQueues.Timer.Restart` | src/time/Timer.cpp:3-15 | the new expiration is now plus the interval for a repeating timer |
| `TimerQueues.TimerQueue.Insert` | src/time/TimerQueue.cpp:187-200 | inserts under the timer's expiration and tells whether the minimum changed |
| `TimerQueues.TimerQueue.AddTimerInLoop` | src/time/TimerQueue.cpp:78-93 | the heap-level step of adding a timer, re-arming only for a new minimum |
| `TimerQueues.TimerQueue.GetExpired` | src/time/TimerQueue.cpp:132-144 | the batch is the prefix before lower_bound, the rest stays in the set |
| `TimerQueues.TimerQueue.Reset` | src/time/TimerQueue.cpp:166-184 | restarts and deletions of the whole batch and the final arming are a run of the model |
| `TimerQueues.TimerQueue.HandleRead` | src/time/TimerQueue.cpp:146-164 | for any clock readings and any timers each callback adds: the steps are a reading, one callback for each timer due followed by its own additions, one reset for each and the arming; the log grows by exactly the callbacks of the timers due, and those timers are restarted or gone |
| `TimerQueues.TimerQueue.AddTimers` | src/time/TimerQueue.cpp:67-93 | each timer asked for enters the queue, in order |
| `HttpParsing.CuttingDoesNotMatter` | src/http/HttpContext.cpp:35-73 | from any settled context, any cutting of the input into chunks gives the same state, request, leftover and verdict as all at once, but for the receive time |
| `HttpParsing.FedIsSettled` | src/http/HttpContext.cpp:35-73 | whatever a settled context is fed leaves it settled, so the cutting result holds at every point of a stream |
| `HttpParsing.ChunkingDoesNotMatter` | src/http/HttpContext.h:19-22 | the cutting result for a new context |
| `HttpParsing.ParseMore` | src/http/HttpContext.cpp:35-73 | from any state, parsing a and then b in one context is parsing a followed by b, also after a failed request line |
| `HttpParsing.RequestRoundTrip` | src/http/HttpContext.cpp:4-73 | a printed request followed by anything parses to exactly that request and leaves exactly what followed, for any order of header lines (sections 2.1, 3 and 5 of RFC 9112) |
| `HttpParsing.PipelinedRoundTrip` | src/http/HttpContext.cpp:35-73 | of two printed requests in a row, each parse takes exactly its own off the front |
| `HttpParsing.RequestLineRoundTrip` | src/http/HttpContext.cpp:4-33 | a printed request line is accepted and gives back verb, path, query and version |
| `HttpParsing.HeaderRoundTrip` | src/http/HttpRequest.h:87-101 | a trimmed header line gives back field and value |
| `HttpParsing.HeadersRoundTrip` | src/http/HttpContext.cpp:53-68 | header lines in any order are all read, the blank line ends the request, the bytes behind it stay unread |
| `HttpLines.AcceptedIff` | src/http/HttpContext.cpp:4-33 | a request line is accepted iff it is one of five methods, a target without spaces and one of two versions, each one space apart |
| `HttpLines.RefusedIff` | src/http/HttpContext.cpp:35-73 | over any bytes, parseRequest fails iff it expects a request line and the first terminated line is not such a line; then it consumes nothing |
| `HttpLines.RequestLineMeans` | src/http/HttpContext.cpp:4-33 | an accepted line is stored: verb, path, query from the question mark on and version; parsing goes on behind it |
| `HttpLines.HeaderLineMeans` | src/http/HttpRequest.h:87-101 | any header line with a colon is stored under the text before the first colon, with the text behind it stripped of white space at its ends |
| `HttpLines.LineWithoutColonEnds` | src/http/HttpContext.cpp:53-68 | any line without a colon ends the request, and what follows stays unread |
| `HttpContexts.HttpContext.ParseRequest` | src/http/HttpContext.cpp:35-73 | the loop over a real buffer computes the parse function, with readable bytes as the measure |
| `HttpContexts.HttpContext.ProcessRequestLine` | src/http/HttpContext.cpp:4-33 | success and the fields set so far, also on failure |
| `HttpContexts.HttpContext.Reset` | src/http/HttpContext.h:31-36 | back to the start; only the receive time survives |
| `HttpContexts.HttpRequest.SetMethod` | src/http/HttpRequest.h:23-39 | the verb of the text, and whether it is known |
| `HttpContexts.HttpRequest.AddHeader` | src/http/HttpRequest.h:87-101 | the two trimming loops compute the trimmed value |
| `HttpContexts.HttpRequest.Swap` | src/http/HttpRequest.h:119-126 | everything but the receive time changes places |
| `HttpFraming.StreamRoundTrip` | src/http/HttpResponse.cpp:7-29 | any concatenation of printed keep-alive responses is split back by a Content-Length reader into status, reason, fields and body (section 6 of RFC 9112) |
| `HttpFraming.StreamInjective` | src/http/HttpResponse.cpp:7-29 | responses that print the same stream are the same messages |
| `HttpFraming.ResponseRoundTrip` | src/http/HttpResponse.cpp:7-29 | one printed response is read back exactly, whatever follows it |
| `HttpFraming.LengthLineWholeIff` | src/http/HttpResponse.cpp:17-18 | the Content-Length line survives the scratch buffer iff the body is shorter than 10^13 bytes |
| `HttpFraming.BodyLengthRoundTrip` | src/http/HttpResponse.cpp:17-26 | the fields of a printed response give exactly one body length, the right one |
| `HttpFraming.StatusLineRoundTrip` | src/http/HttpResponse.cpp:10-13 | the status line of any printable response gives back status and reason |
| `HttpFraming.CloseRoundTrip` | src/http/HttpResponse.cpp:7-29 | a close response is read back too: status, reason, Connection: close and the other fields, and the rest of the stream as its body, of whatever length |
| `HttpResponses.HttpResponse.AppendToBuffer` | src/http/HttpResponse.cpp:7-29 | the pieces appended to a real buffer are the printed response, each header once, in some order |
| `LogSpec.NothingLost` | src/log/AsyncLogging.cpp:23-113 | under any interleaving, lines in files, buffers being written, full buffers and the current one are the accepted lines in order, and so are their bytes; no line is split |
| `LogSpec.BackendAssertsHold` | src/log/AsyncLogging.cpp:61-113 | all asserts of the back end hold on every iteration, because a null spare means a full buffer is queued |
| `LogSpec.DroppedIffTooLong` | src/log/AsyncLogging.cpp:23-47 | over every run the accepted lines are exactly the appended ones shorter than a buffer, in order, and the dropped ones are the others |
| `LogRuns.LeftBehindAtStop` | src/log/AsyncLogging.cpp:61-115 | at the top of the loop, the accepted lines in no file are exactly the lines shorter than a buffer appended since the last critical section of the back end; a stop loses nothing iff there is none |
| `LogRuns.HeldSinceSwap` | src/log/AsyncLogging.cpp:23-81 | in every state, the full buffers and the current one hold exactly those lines, in order |
| `LogRuns.LineLeftBehind` | src/log/AsyncLogging.cpp:61-115 | a run of one round that stops with an accepted line in no file |
| `LogRuns.RunStepsLines` | src/log/AsyncLogging.cpp:61-113 | the lines appended in the course of the rounds are those of the rounds, in order |
| `AsyncLoggings.AsyncLogging.Append` | src/log/AsyncLogging.cpp:23-47 | the front end's critical section is the model's step, on bytes |
| `AsyncLoggings.AsyncLogging.constructor` | src/log/AsyncLogging.cpp:51-59 | three empty buffers and an open file, of flush interval 0 and checked every 1024 appends |
| `AsyncLoggings.AsyncLogging.TakeBuffers` | src/log/AsyncLogging.cpp:67-81 | the back end's critical section is the model's swap, and its moves never read a null pointer |
| `AsyncLoggings.AsyncLogging.WriteOne` | src/log/AsyncLogging.cpp:85-88 | a buffer lands whole in one file, which then rolls exactly as the log file decides at these readings |
| `AsyncLoggings.AsyncLogging.Refill` | src/log/AsyncLogging.cpp:90-111 | written buffers refill both spares, empty, and nothing is left to write |
| `AsyncLoggings.AsyncLogging.ThreadFunc` | src/log/AsyncLogging.cpp:51-115 | for any front-end activity and clock, the run has exactly the steps of the rounds: their lines, a swap, the write of every buffer and the recycling of each, in order; all asserts hold |
| `AsyncLoggings.AsyncLogging.OneRound` | src/log/AsyncLogging.cpp:61-113 | one round adds exactly its steps to the run |
| `AsyncLoggings.AsyncLogging.AllBytesAccountedFor` | src/log/AsyncLogging.cpp:61-115 | at the top of the loop the file bytes, full buffers and current buffer are the accepted bytes in order, and all that is written is flushed |
| `LogFiles.AppendIsWhole` | src/log/LogFile.cpp:21-42 | data lands whole at the end of the open file, and a new file starts under exactly the stated condition |
| `LogFiles.RollingConserves` | src/log/LogFile.cpp:21-63 | the files together hold all appended data in order, whatever the clock does |
| `LogFiles.WithinSizeIff` | src/log/LogFile.cpp:21-63 | the open file is within the roll size after every append iff each append that overfills it finds the clock past the last roll |
| `LogFiles.FilesStaySmall` | src/log/LogFile.cpp:21-63 | under that condition no file exceeds the roll size by more than one append |
| `LogFiles.SameSecondNeverRolls` | src/log/LogFile.cpp:55-62 | while the clock stays at the second of the last roll, the open file takes everything |
| `LogFiles.CheckedFileIsOfToday` | src/log/LogFile.cpp:30-41 | an append that checks the time leaves a file of the day of one of its two readings, just opened or flushed within the interval |
| `LogFiles.FlushesIff` | src/log/LogFile.cpp:21-42 | after an append, exactly which bytes have been flushed and what the counter is: everything is flushed iff the time is looked at, the day has not changed and the last flush is too long ago |
| `LogFiles.SamePeriodIff` | src/log/LogFile.cpp:50-53 | two readings have the same period iff they are of the same day |
| `LogFiles.LogFile.AppendInLock` | src/log/LogFile.cpp:21-42 | the object's step: write, then roll, check or count |
| `LogFiles.LogFile.RollFile` | src/log/LogFile.cpp:50-63 | a new file iff the clock is past the last roll |
| `Decimal.FormatIntRoundTrip` | src/log/LogStream.cpp:8-37 | the text of v is read back as v iff v is not zero, never with a leading zero |
| `LogStreams.LogStream.FormatInteger` | src/log/LogStream.cpp:8-37 | digit loop, sign and in-place reverse append exactly the decimal text, keep the earlier contents, and stay within the 48 bytes checked |
| `LogStreams.WriteDigits` | src/log/LogStream.cpp:22-27 | the loop writes the digits, least significant first, and nothing else |
| `LogStreams.ReverseRange` | src/log/LogStream.cpp:33 | swapping from both ends reverses exactly the range |
| `LogStreams.FixedBuffer.Append` | src/base/FixedBuffer.h:22-27 | appends whole or not at all, leaving at least one byte free |
| `LogStreams.FixedBuffer.Reset` | src/base/FixedBuffer.h:39 | empties the buffer |
| `PoolSpec.PoolIsSound` | src/mysql/ConnectionPool.cpp:43-105 | each connection is idle at one place or lent, never both; there are never more than maxSize_; the idle queue is sorted by last activity |
| `PoolSpec.CounterIsExactIff` | src/mysql/ConnectionPool.cpp:75-81 | currentSize_ is live plus ever created, so it is the live count iff none was created |
| `PoolSpec.ProducesIff` | src/mysql/ConnectionPool.cpp:43-55 | the producer makes a connection iff lent plus ever created is below maxSize_ |
| `PoolSpec.PoolNeverGrows` | src/mysql/ConnectionPool.cpp:43-73 | with maxSize_ at most twice minSize_ no connection is ever made after the constructor's, and none is deleted |
| `PoolSpec.OldestFirst` | src/mysql/ConnectionPool.cpp:57-105 | over every run, a client gets, and the recycler deletes, a connection no other has been idle longer than; the recycler only one over age, with more than minSize_ idle |
| `PoolSpec.NewestLast` | src/mysql/ConnectionPool.cpp:75-101 | over every run, a connection that is made at the start or comes back joins the end of the queue with the present time, and none there was active later |
| `PoolGrowth.CeilingIsExact` | src/mysql/ConnectionPool.cpp:23-81 | over every interleaving at most max(minSize_, (maxSize_ + 1) / 2) connections live at once, and some run reaches that |
| `PoolGrowth.NeverGrowsIff` | src/mysql/ConnectionPool.cpp:43-55 | no run grows the pool beyond minSize_ iff maxSize_ is at most twice minSize_ |
| `PoolWaiters.StrandsIff` | src/mysql/ConnectionPool.cpp:83-105 | over every run, the one thing that leaves clients asleep beside an idle connection is the return of a connection, and it does so iff some sleep and none is awake |
| `PoolWaiters.StrandedUntilWoken` | src/mysql/ConnectionPool.cpp:83-105 | if at least one connection is kept, they sleep on until one times out or wakes spuriously or a new client arrives, whatever the producer, the recycler and returning clients do |
| `PoolWaiters.ClientIsStranded` | src/mysql/ConnectionPool.cpp:83-105 | it happens in a pool of one connection |
| `ConnectionPools.ConnectionPool.constructor` | src/mysql/ConnectionPool.cpp:15-31 | minSize_ idle connections, each counted twice, by a run of the model |
| `ConnectionPools.ConnectionPool.AddConnection` | src/mysql/ConnectionPool.cpp:75-81 | a new connection joins the end of the queue and is counted once |
| `ConnectionPools.ConnectionPool.ProduceConnection` | src/mysql/ConnectionPool.cpp:49-53 | the producer's section is the model's step |
| `ConnectionPools.ConnectionPool.RecycleConnection` | src/mysql/ConnectionPool.cpp:57-73 | what it deletes are the connections at the front, each idle for at least the time allowed, never leaving fewer than minSize_; and afterwards at most minSize_ are idle or none is over age, although it stops at the first fresh one |
| `ConnectionPools.ConnectionPool.GetConnection` | src/mysql/ConnectionPool.cpp:83-105 | the longest-idle connection moves from the queue to the client |
| `ConnectionPools.ConnectionPool.GiveBack` | src/mysql/ConnectionPool.cpp:97-101 | a lent connection returns to the end of the queue with a fresh time |
| `ThreadPools.WorkConserved` | src/base/ThreadPool.cpp:56-97 | tasks taken followed by the queue are the tasks added, in order |
| `ThreadPools.NoLostNotification` | src/base/ThreadPool.cpp:76-97 | while running, a worker left waiting implies as many woken workers as queued tasks, and a woken one takes the front task |
| `ThreadPools.StoppedPoolEnds` | src/base/ThreadPool.cpp:42-48 | after stop no worker is in a wait, and together they take at most one more task each |
| `ThreadPools.TakenTasksAreRun` | src/base/ThreadPool.cpp:76-97 | over every interleaving, each task has been run as often as it was taken, but for workers still at it |
| `ThreadPools.WorkersStay` | src/base/ThreadPool.cpp:76-97 | the pool runs until stop() is called, and no worker leaves before that |
| `ThreadPools.WorkerMoves` | src/base/ThreadPool.cpp:42-97 | what starts a wait, ends it, gives a worker a task or lets it go |
| `ThreadPools.ThreadPool.AddTask` | src/base/ThreadPool.cpp:56-72 | runs the task at once without workers, otherwise queues it and wakes one waiting worker if there is one |
| `ThreadPools.ThreadPool.Stop` | src/base/ThreadPool.cpp:42-48 | clears running_ and wakes every waiting worker |
| `ThreadPools.ThreadPool.LookAtQueue` | src/base/ThreadPool.cpp:83-93 | waits, leaves or takes the front task, by queue and running_ |
| `ThreadPools.ThreadPool.FinishTask` | src/base/ThreadPool.cpp:95-97 | the worker has run the task it took and is back at its test |

## Left out

- System calls (sockets, epoll, eventfd, timerfd, clocks, files, the MySQL client): their results are inputs over the documented ranges; log writes are complete, as src/log/FileUtil.cpp:25-30 drops the rest of a short write.
- Sockets, acceptor, addresses, event loop threads and their pool, `MysqlConn`: thin wrappers; the I/O loop of a connection is arbitrary and fixed.
- Destructors and teardown of a whole server, loop, timer queue or pool: they race with queued functors.
- `loop()` clearing `quit_` (src/net/EventLoop.cpp:83): statements about wakeups begin when its while loop is entered.
- The check and set in `shutdown` (src/net/TcpConnection.cpp:158-160) are one step, without a change of state in between; the push that follows is a step of its own. The test of `send` on another thread and its push are separate steps, and so are, on the loop thread, the tests of `send` and `handleWrite` and what they decide.
- Functors bound to a raw `this` (src/net/TcpConnection.cpp:66 and :161): callers are taken to hold a reference until such a functor has run. A reference of user code only delays the destruction step in `Lifecycle`.
- `Lifecycle`, `EventLoops` (other threads), `ThreadPools` and `LogSpec` are state machines on values: update in place inside one critical section is modelled by the classes next to them, not for `TcpServer` and the map of connections, which are values in `Lifecycle`.
- The logger's buffers are held by `unique_ptr` and are values in `AsyncLogging`: moving the pointer moves the value, null is `None`. The array underneath is modelled in `LogStream` only.
- AsyncLoggings.AsyncLogging.Refill: which allocation a spare buffer reuses is not captured, only that there is one, that it is empty, and that enough written buffers are at hand.
- The functions of `LogFile` take the readings of time() as inputs; file names, which derive from them, are left out.
- HttpContexts.HttpContext.ParseRequest: requires a state other than kGotAll, in which the loop of the source would not end.
- `HttpServer` makes a new context for each message (src/http/HttpServer.cpp:39), so that a request split over two reads is not resumed there; the incremental statements are about `HttpContext`.
- LogStreams.LogStream.FormatInteger: the smallest value of a signed type is excluded, as its negation is not representable.
- Integer widths elsewhere (int64 microseconds, `int` sizes and counters, `size_t`) are unbounded; no statement is about wrap-around.
- Timer intervals are taken as truncated to whole microseconds; arithmetic on `double` and its formatting are left out.
- The address of a timer stands for its place among timers with equal expiration; addresses are not reused in the model, so a deleted timer is never confused with a new one.
- `addTimer` from other threads goes through the functor queue; the model begins where addTimerInLoop runs.
- Poller: masks are read and write interest; the error bits the kernel always reports are inputs to dispatch only. `Channel::tie` is part of `Lifecycle`.
- ConnectionPools.ConnectionPool.GetConnection: begins when a wait has ended with a non-empty queue; waiting, notification and timeouts are in `PoolWaiters`, without the producer's own wait on the same condition variable.
- TcpConnections.TcpConnection.SendBuffer: takes the bytes from beginRead(), where the source passes beginWrite(); SendBufferAsWritten is the code as it stands.
- TcpConnections.TcpConnection.HandleWrite: likewise; HandleWriteAsWritten is the code as it stands. What lies behind the array in memory is an arbitrary string.
- ThreadPools: exceptions from tasks, the thread-initialisation callback and null tasks.
- The static pool's `currentSize_` starts at 0, as its storage is static.
- Close responses carry no Content-Length, so a stream can hold only one, at its end (`HttpFraming.CloseRoundTrip`); splitting a stream is about keep-alive responses.
- Date and time text, log macros, `HttpServer` callbacks, examples and the copies of headers under include/.
