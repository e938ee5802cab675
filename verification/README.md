# A verified model of libcadence's stateful parts

This project models the parts of libcadence that have state machines or data structures of their
own, and proves what they keep over every run. asio's queue, the kernel and the terminal driver are
the environment: their steps are events that may happen in any order their contracts allow.

Every stateful part has the same shape. A state, its events, an `Enabled` predicate and a `Step`
function say what can happen; `Run` is any finite sequence of enabled steps. A class beside it has
the fields of the C++ object, and each of its methods is proved to change them by exactly one step.
The main results are lemmas about `Run`, so they hold for every interleaving.

| files | part |
|---|---|
| Options, Sequences, Cursors, Base16 | optional values, byte buffers with a position, Base16 (RFC 4648, section 8) |
| Echo, EchoServer, EchoTransport, EchoSession | the echo session, any number of them on one loop, the `Session` object |
| PipeProtocol, PipeSafety, PipeEndings, AsyncPipe | the asynchronous pipe: post, kernel transfer, completion, cancel, close |
| StreamSockets | full transfers of Unix-domain and TCP sockets |
| AcceptLoop, EventCounter | the accept loop and the eventfd event |
| ServerRun | the whole example server: the accept loop starting echo sessions, until a signal stops both |
| Registrations, PollSelector, EpollTable, EpollSelector | the two selector back ends over one table |
| Ownership, OwnershipSafety, DuplexOwnership, Handles | who owns which descriptor: `File`, `BufferedFile`, `Duplex`, `Pipe`, `SharedMemory` |
| ServiceText, ServiceMessages, MessageForms, MessagePrinter, TestListener, TestReport | TeamCity messages, printed and read back, and the test listener |
| Signals, SerialPort | signal handler chaining, and the termios words of a serial port |

The results to read first: `ServerRun.EveryConnectionIsEchoed`, `EchoServer.EchoIsFaithful` and
`EchoTransport.SessionIsASocketProgram`;
`PipeSafety.CursorMovedByItsShare`, `PipeSafety.ReaderSeesWriter` and `PipeEndings.FuturesAfterEnding`; the two cursor theorems
`StreamSockets.UnixCursorIsExact` and `StreamSockets.TcpCursorPassesSuccesses`;
`EpollTable.PointerDesignates` and `EpollSelector.BackEndsAgreeIffFaithful`; `PollSelector.PollAndDrain`;
`OwnershipSafety.ClosedOnceAndNoLeak` and `DuplexOwnership.OpsAreARun`; `ServiceMessages.StreamIsUniquelyDecodable` and
`TestReport.EachTestIsTold`; `Signals.DeliveryCallsEachOnce`; `SerialPort.LastRequestDecodes`.
`StreamSockets.SuccessMeansAllMoved` and most lemmas on single serial requests follow closely from
the definitions; they are there to be used by those. So do the lemmas on what a stopped loop leaves
alone, which support `EchoServer.LiveSessionsGoOnUntilTheStop`.

Contracts of the environment, taken as given: a handler of asio runs once; a composed read or write
moves its bytes in short pieces until its range is full or an error comes; closing or cancelling
ends unserved operations with an error and leaves served ones alone; a descriptor handed out by the
kernel is not open at that moment; poll(2) answers within the request plus error, hang-up and
invalid (IEEE Std 1003.1); epoll_wait reports each registered descriptor at most once and stores the
pointer given at registration; a stopped event loop runs no handler and moves no byte; an eventfd
read takes the whole counter and fails on zero; a moved-from Path is empty; shm_open refuses an empty
name.

## Where the code is narrower than it looks

With the code as it is. Most of these are proved as an exact condition, beside a lemma, named here,
with a concrete case where it bites.

- The pipe handlers and the TCP handlers advance the cursor on success only, so a TCP cursor misses
  the bytes of operations that failed after moving some; a Unix-domain cursor misses none
  (`StreamSockets.TcpCursorCanLag`).
- While an echo session waits in a read, everything it took is answered exactly until that read is
  full: between the last kernel transfer and its handler one chunk is owed (`EchoServer.LineCanBeOwed`).
- A live session can go on exactly until the event loop is stopped; what is live then stays as it is,
  which is why the example counts dangling sessions (`EchoServer.SessionCanDangle`).
- Any accept error, even while the acceptor is open, ends the accept loop without notice
  (`AcceptLoop.OneErrorSilencesAnOpenServer`). A second `startListen` is refused after a failed first
  one (`AcceptLoop.SecondStartIsRefused`) and after `stop` as well.
- poll: a slot that the kernel answers with hang-up or invalid only is handed out with no flag set,
  and no selection prevents that (`PollSelector.NoSelectionPreventsSilence`).
- epoll: removing an entry leaves the stored pointers of later ones designating their successors, and
  the two back ends agree exactly while every pointer designates its own entry
  (`EpollSelector.SecondIsLost`).
- The listener's details are the join of all failing parts, except that empty blocks at the front
  vanish together with their separators (`TestListener.LeadingSeparatorIsLost`). Durations pass
  through a 32-bit int (`TestListener.LongestDurationIsLost`).
- Serial: no branch ever clears CMSPAR, so after mark or space parity a request for even or odd
  leaves the port in space or mark (`SerialPort.EvenAfterMarkIsSpace`).
- The comment in include/cadence/io/file.hpp:171-175 says that closing twice is not allowed; the
  code of `File::close` (src/io/file.cpp:192-194) returns quietly, while `SharedMemory::close`
  throws. The model follows the code.

## Model

| member | source | states |
|---|---|---|
| `EchoServer.EchoIsFaithful` | examples/async_server.cpp:71-108 | for every interleaving of any number of sessions, with transfers split into any short pieces: what a session sent is a prefix of the encoded answers to its complete chunks, equals them while it waits in a read exactly until the read is full, and decodes to the input it answers |
| `EchoServer.CounterCountsLiveSessions` | examples/async_server.cpp:44-68 | the static session counter always equals the number of sessions that have not ended |
| `EchoServer.LiveSessionsGoOnUntilTheStop` | examples/async_server.cpp:71-99 | a session that has not ended has a step that can happen, its transfer or its handler, if and only if the loop has not been stopped |
| `EchoServer.StopFreezesTheSessions` | src/async/eventLoop.cpp:43-45 | the other half of it: after the stop no run changes a session or the counter |
| `EchoServer.SessionCanDangle` | examples/async_server.cpp:167-175 | a run of one connection and the stop that leaves its session live and counted, with no step left |
| `EchoServer.LineCanBeOwed` | examples/async_server.cpp:78-90 | a run whose read is full while the line for it is still owed |
| `EchoServer.StreamsOnlyGrow` | examples/async_server.cpp:71-99 | no step of any session takes back a byte that was received or sent |
| `EchoServer.RunKeepsLoopInv` | examples/async_server.cpp:71-117 | every run of the loop, with new connections and a stop at any point, keeps the invariant of every session and of the counter |
| `Echo.StepKeepsInv` | examples/async_server.cpp:71-99 | each step of one session keeps: whole chunks answered, then the part of the line that is out, or the part of the next chunk that is in |
| `Echo.UnderstoodAnswers` | examples/async_server.cpp:83-90 | a client that decodes line by line understands any prefix of the answers as exactly the input of its complete lines |
| `Echo.AnswerAt` | examples/async_server.cpp:83-88 | the answer to ten bytes, position by position: for each byte the symbols of its high and low half, and at the end the newline character |
| `Echo.EndsIff` | examples/async_server.cpp:71-98 | a session ends by exactly a failed transfer or a guard that sees a closed channel, waits in a write exactly after a complete read, and in a read otherwise |
| `EchoSession.SessionObject.constructor` | examples/async_server.cpp:105-108 | two buffers of 10 and 21 bytes with a cursor on each, both at the start |
| `EchoSession.SessionObject.DoRead` | examples/async_server.cpp:71-80 | ends if the channel is closed or the loop stopped, otherwise clears the writer and posts a read for all of the in-buffer |
| `EchoSession.SessionObject.OnRead` | examples/async_server.cpp:81-90 | advances over what was read, leaves its Base16 text and a newline in the out-buffer, and posts a write of all of it |
| `EchoSession.SessionObject.EncodeInto` | examples/async_server.cpp:83-85 | the loop writes through the cursor exactly the Base16 encoding of the data |
| `EchoSession.SessionObject.OnWrite` | examples/async_server.cpp:91-94 | rewinds the reader and reads again |
| `EchoSession.SessionObject.OnError` | examples/async_server.cpp:95-98 | a failed operation posts nothing any more |
| `EchoSession.OnNewConnection` | examples/async_server.cpp:112-117 | a fresh session object for each connection, after its first call of doRead |
| `EchoTransport.SessionIsASocketProgram` | examples/async_server.cpp:71-108 | along every run of the loop, the steps of a session in one direction, in order (rewind and post, each kernel transfer, each handler, a failure), are possible for a TCP or Unix-domain socket that starts with the session's buffer; it ends with exactly the bytes the session took or sent on its wire, the session's memory, and the transfer the session waits for in flight; until the session ends, its cursor is the session's and no operation has failed |
| `EchoTransport.SameStepsPossible` | src/async/tcpsocket.cpp:50-85 | a waiting session in step with its socket can store bytes, run its handler or fail if and only if the socket can |
| `EchoTransport.SameBytesPossible` | src/async/tcpsocket.cpp:69-85 | the bytes its write can move are the same in both |
| `EchoTransport.StepInStep` | examples/async_server.cpp:71-98 | every step of a session, with the uses of the socket it stands for, keeps the two in step |
| `EchoTransport.TransferHoldsTheLastBytes` | examples/async_server.cpp:79-90 | the bytes of the transfer in flight are the last ones the session took or sent |
| `ServerRun.EveryConnectionIsEchoed` | examples/async_server.cpp:71-117 | over every run of accept loop and sessions together: what went to the i-th connection handled is a prefix of the answers to what came from it and decodes to the input it answers; the counter counts the live sessions |
| `ServerRun.OneSessionPerConnection` | examples/async_server.cpp:112-117 | the sessions are exactly one for each handled connection, and those are the accepted ones in accept order but for at most one |
| `ServerRun.StopAllowsOneMoreSession` | src/asyncServer.cpp:34-37 | after stop() of the server at most one more session is ever created |
| `ServerRun.SignalStopsTheServer` | examples/async_server.cpp:167-175 | the signal closes the acceptor and gives up its accept; after it, over every run, the acceptor stays closed and nothing is posted, accepted, handled or created |
| `ServerRun.StepOfParts` | examples/async_server.cpp:112-175 | each step of the server is the step named of the accept loop, of the sessions, or of both |
| `ServerRun.SignalEndsEverything` | examples/async_server.cpp:172-174 | the signal stops the loop, so no session is created or changed after it, and the counter stays what it prints |
| `ServerRun.RunsTheAcceptLoop` | src/asyncServer.cpp:18-46 | every run of the whole server is, seen from the accept loop, one of its runs |
| `ServerRun.RunsTheSessions` | examples/async_server.cpp:71-117 | and seen from the sessions, one of theirs |
| `Base16.DecodeEncode` | examples/async_server.cpp:84-85 | decoding undoes encoding, for every byte string and every alphabet of sixteen distinct symbols |
| `Base16.EncodeDecode` | examples/async_server.cpp:84-85 | a text decodes if and only if it is an encoding, and then encodes back to itself |
| `Base16.EncodeAt` | examples/async_server.cpp:84-85 | each byte becomes two symbols, the one for its high half first |
| `Base16.RfcRoundTrip` | examples/async_server.cpp:84-85 | the alphabet of table 5 of RFC 4648 is one of those alphabets, so the round trip holds for it |
| `Cursors.Cursor.Advance` | src/async/pipe.cpp:62 | moves within the limit or refuses and stays |
| `Cursors.Cursor.Rewind` | examples/async_server.cpp:79 | starts over from the first byte |
| `PipeSafety.BytesAreConserved` | src/async/pipe.cpp:53-86 | over every run: the bytes reads placed, then those in the kernel pipe, are the bytes writes took, in order |
| `PipeSafety.CursorMovedByItsShare` | src/async/pipe.cpp:53-86 | a cursor with no operation in flight has moved by exactly its own transfers, which lie where it passed; the rest of its memory is as it was |
| `PipeSafety.ReaderSeesWriter` | src/async/pipe.cpp:53-86 | one source, one destination, with no operation in flight on either: what the reader's cursor passed, then the pipe's content, is what the writer's cursor passed |
| `PipeSafety.ValueExactlyWhenServed` | src/async/pipe.cpp:59-65 | no operation is served twice, and a future holds a value if and only if the kernel served it |
| `PipeSafety.ResolvedForGood` | src/async/pipe.cpp:53-124 | operations on record are the posts made, and a resolved future never changes |
| `PipeSafety.ClosingResolvesEverything` | src/async/pipe.cpp:116-124 | from every reachable state, close and one run of each handler left resolve every future |
| `PipeEndings.CancelEndsWhatWaits` | src/async/pipe.cpp:116-119 | cancel, in any reachable state: every operation of either direction that waited fails as cancelled, and all others, the buffers, the pipe and its openness are unchanged |
| `PipeEndings.CloseEndsWhatWaits` | src/async/pipe.cpp:121-124 | close does the same and shuts the pipe |
| `PipeEndings.FuturesAfterEnding` | src/async/pipe.cpp:58-65 | after cancel or close and each handler left, every future is resolved: with the cancellation error exactly where the operation waited, with a value where the kernel had served it, with its own error where the kernel had refused it |
| `PipeEndings.PostWaitsWhileOpen` | src/async/pipe.cpp:53-86 | a post waits for the kernel while the pipe is open, after a cancel too, and has failed on a closed one |
| `PipeEndings.RefusalReachesTheFuture` | src/async/pipe.cpp:59-60 | the error the kernel reports for an operation is the one its future gets, and no other operation changes |
| `PipeEndings.WaitingCanBeServed` | src/async/pipe.cpp:57-83 | a waiting operation can be served if and only if it is a write, is empty, or the pipe holds anything |
| `PipeSafety.SourceKeeps` | src/async/pipe.cpp:71-86 | no transfer changes the memory of a source |
| `PipeSafety.StepKeepsInv` | src/async/pipe.cpp:53-124 | posting, transfer, refusal, completion, cancel and close each keep all four invariants |
| `AsyncPipe.PipeImpl.constructor` | src/async/pipe.cpp:41-50 | a new pipe is open and empty with nothing posted |
| `AsyncPipe.PipeImpl.AsyncRead` | src/async/pipe.cpp:53-68 | posts one operation, whose range is fixed to start at the cursor now |
| `AsyncPipe.PipeImpl.AsyncWrite` | src/async/pipe.cpp:71-86 | the same for a write |
| `AsyncPipe.PipeImpl.PostOp` | src/async/asio_helper.hpp:36-44 | the range of an operation is decided when it is posted |
| `AsyncPipe.PipeImpl.OnComplete` | src/async/pipe.cpp:58-65 | on success the cursor advances by the bytes moved and the future gets a value; on error the cursor stays |
| `AsyncPipe.PipeImpl.CancelAll` | src/async/pipe.cpp:116-119 | does to the object what `PipeEndings.CancelEndsWhatWaits` says of cancel |
| `AsyncPipe.PipeImpl.CloseBoth` | src/async/pipe.cpp:121-124 | the same, and later posts fail |
| `StreamSockets.SuccessMeansAllMoved` | src/async/streamdomainsocket.cpp:84-119 | both families: a future is a success if and only if all requested bytes moved |
| `StreamSockets.UnixCursorIsExact` | src/async/streamdomainsocket.cpp:84-119 | with no operation in flight, after any mixture of successes and errors, the cursor has passed exactly the bytes that moved, and they lie there |
| `StreamSockets.TcpCursorPassesSuccesses` | src/async/tcpsocket.cpp:50-85 | with no operation in flight the cursor has passed exactly the bytes of the successful operations, and they lie there; it equals the bytes moved if and only if no operation failed after moving some |
| `StreamSockets.TcpCursorCanLag` | src/async/tcpsocket.cpp:57-58 | a run where a read moves a byte, fails, and the cursor stays |
| `StreamSockets.Channel.PostTransfer` | src/async/asio_helper.hpp:36-44 | the range starts at the cursor when the operation is posted |
| `StreamSockets.Channel.OnUnixComplete` | src/async/streamdomainsocket.cpp:90-97 | advances first, then resolves with the error if there is one |
| `StreamSockets.Channel.OnTcpComplete` | src/async/tcpsocket.cpp:56-63 | advances only if there is no error |
| `AcceptLoop.AtMostOneAccept` | src/asyncServer.cpp:18-31 | in every reachable state at most one accept is outstanding |
| `AcceptLoop.EachConnectionHandledOnce` | src/asyncServer.cpp:18-31 | the handler has got exactly the accepted connections, once each, in accept order, but for at most one still queued |
| `AcceptLoop.FirstErrorEndsTheLoop` | src/asyncServer.cpp:20-30 | a listening open server has an accept going or a connection to hand over if and only if no accept has failed |
| `AcceptLoop.OneErrorSilencesAnOpenServer` | src/asyncServer.cpp:18-31 | a run where one failed accept leaves an open server with nothing waiting or queued |
| `AcceptLoop.SecondStartIsRefused` | src/async/acceptor.cpp:33-51 | a run where opening fails first and the second startListen, which would work, is refused |
| `AcceptLoop.ClosedForGood` | src/asyncServer.cpp:34-46 | once closed, nothing is posted or accepted again, a new startListen included |
| `AcceptLoop.StopEndsAccepting` | src/asyncServer.cpp:34-37 | after stop() at most one more handler call happens and no accept is posted |
| `AcceptLoop.StopFromHandlerEndsAtOnce` | src/asyncServer.cpp:21-29 | after stop() from inside the handler there is no further call at all |
| `AcceptLoop.AsyncServer.OpenAcceptor` | src/async/acceptor.cpp:33-51 | opens at most once, also after a failure or a close |
| `AcceptLoop.AsyncServer.StartListening` | src/asyncServer.cpp:40-46 | posts the first accept only when opening worked |
| `AcceptLoop.AsyncServer.RunOne` | src/asyncServer.cpp:20-30 | one completion: handler if there is one, then the next accept while still open; nothing on error |
| `AcceptLoop.AsyncServer.StopServer` | src/async/tcpacceptor.cpp:86-88 | closing ends the accept that waits with an error |
| `EventCounter.NotifiesAreConserved` | src/async/event.cpp:31-53 | consumed by waits plus the counter is the number of successful notifies; waits never complete more often than that |
| `EventCounter.BlockedOnlyWhenAllConsumed` | src/async/event.cpp:39-53 | a posted wait can be served if and only if some notify has not been consumed: no lost wake-up |
| `EventCounter.NotifyAddsUnlessFull` | src/async/event.cpp:31-37 | a notify adds exactly one unless the counter is at its maximum, and then changes nothing |
| `EventCounter.ServedWaitTakesAll` | src/async/event.cpp:43-50 | a served wait takes the whole counter, so no other can be served until the next notify, and completes with a value |
| `EventCounter.RefusedWaitTakesNothing` | src/async/event.cpp:45-46 | a refused wait takes nothing and ends with an error |
| `EventCounter.EventImpl.NotifyOnce` | src/async/event.cpp:31-37 | adds one to the counter, or throws and changes nothing when it is full |
| `EventCounter.EventImpl.AsyncWait` | src/async/event.cpp:39-53 | posts one wait |
| `EventCounter.EventImpl.KernelRead` | src/async/event.cpp:43 | the read drains the counter into the shared buffer |
| `Registrations.TableIsWhatStands` | src/io/selector_poll.cpp:76-106 | after any run of add and remove the table is, in order, the adds whose descriptor no later remove named |
| `Registrations.WithoutKeepsOthersInOrder` | src/io/selector_poll.cpp:97-106 | filtering removes every entry of a descriptor and keeps all others, unchanged, in order |
| `Registrations.RemoveIf` | src/io/selector_poll.cpp:100-105 | in-place compaction and cutting the tail compute that filter |
| `PollSelector.FilteringKeepsAlignment` | src/io/selector_poll.cpp:97-106 | filtering both vectors one after the other keeps them aligned and is filtering the table they stand for |
| `PollSelector.ReadyIsExact` | src/io/selector_poll.cpp:160-169 | the ready slots are exactly those with non-zero revents, once each, ascending |
| `PollSelector.ReportsPerReadySlot` | src/io/selector_poll.cpp:122-143 | reports and ready slots correspond one to one, with the descriptor, flags and data of that slot |
| `PollSelector.ReportsTell` | src/io/selector_poll.cpp:122-143 | the k-th event is that of the k-th ready slot, and bit by bit: Read if and only if the kernel answered in or pri, Write out, Error err, Hup rdhup, and no other bit |
| `PollSelector.MaskRequests` | src/io/selector_poll.cpp:59-73 | a selection requests, bit by bit: in and pri for Read, out for Write, rdhup for Hup, and nothing else |
| `PollSelector.NoSelectionPreventsSilence` | src/io/selector_poll.cpp:59-73 | whatever events are selected, the kernel may answer hang-up or invalid alone, and that event carries no flag |
| `PollSelector.ReportsCarryFlagsIff` | src/io/selector_poll.cpp:122-143 | where all masks come from selections, every event handed out carries a flag if and only if no ready slot was answered with hang-up or invalid alone |
| `PollSelector.ReportsWhatWasSelected` | src/io/selector_poll.cpp:59-73 | no flag but Error comes out that was not selected, and all selected flags can |
| `PollSelector.PollSelectorImpl.AddFd` | src/io/selector_poll.cpp:59-73 | appends one registration with the translated mask |
| `PollSelector.PollSelectorImpl.AddRaw` | src/io/selector_poll.cpp:76-89 | appends one registration with the mask cut to 16 bits |
| `PollSelector.PollSelectorImpl.RemoveFd` | src/io/selector_poll.cpp:97-106 | takes out every registration of the descriptor |
| `PollSelector.PollSelectorImpl.Poll` | src/io/selector_poll.cpp:109-119 | throws the kernel's error, or returns a range that starts at the first ready slot |
| `PollSelector.PollSelectorImpl.FindFirstReady` | src/io/selector_poll.cpp:160-169 | the first ready slot from an offset on, or the number of slots |
| `PollSelector.PollSelectorImpl.GetEvent` | src/io/selector_poll.cpp:122-143 | descriptor, data and flags of one slot, the flags as `PollSelector.ReportsTell` says |
| `PollSelector.PollSelectorImpl.Advance` | src/io/selector_poll.cpp:146-156 | the next ready slot, with nothing ready in between |
| `PollSelector.Iterator.constructor` | src/io/selector.cpp:88-92 | starts at the first ready slot |
| `PollSelector.Iterator.Next` | src/io/selector.cpp:43-50 | throws at the end, otherwise moves to the next ready slot |
| `PollSelector.Drain` | src/io/selector.cpp:35-55 | walking the iterator to its end hands out exactly the reports of the ready slots in registration order, and then it stops |
| `PollSelector.PollAndDrain` | src/io/selector_poll.cpp:109-169 | poll and iterate: one report per slot the kernel answered, as many as poll(2) counted, each with its slot's descriptor, data and flags, and the table unchanged; without raw masks, all events carry a flag if and only if no slot was answered with hang-up or invalid alone |
| `EpollTable.PointerDesignates` | src/io/selector_epoll.cpp:99-136 | the shift law for any run of distinct adds and removes: a stored pointer designates the entry as many places further on as earlier entries were removed since, or nothing past the end |
| `EpollTable.ReportedAsItselfIffUnshifted` | src/io/selector_epoll.cpp:157-163 | a descriptor is reported as itself if and only if nothing before it was removed since it was added |
| `EpollTable.RemoveKeepsFaithfulIff` | src/io/selector_epoll.cpp:121-136 | a remove keeps all reports right if and only if it takes an absent descriptor or the last entry |
| `EpollTable.LastOnlyIsFaithful` | src/io/selector_epoll.cpp:99-136 | runs that only remove absent or last entries report every descriptor as itself |
| `EpollSelector.BackEndsAgreeIffFaithful` | src/io/selector_epoll.cpp:99-163 | after any run of distinct adds and any removes: both back ends hand out the same (descriptor, data) pairs, up to order, for every ready set and every order of reporting, if and only if every stored pointer designates its own entry |
| `EpollSelector.BackEndsAgree` | src/io/selector_epoll.cpp:99-163 | it is enough for that agreement that each remove takes an absent descriptor or the last entry |
| `EpollSelector.DrainsAgree` | src/io/selector_epoll.cpp:139-180 | while every stored pointer designates its own entry: after the same calls to both objects, whose masks differ, the event lists that polling and iterating return are equally long and carry the same (descriptor, data) pairs up to order |
| `EpollSelector.PollAndDrain` | src/io/selector_epoll.cpp:139-180 | poll and iterate: the first of three waits that is not interrupted throws its error or gives one event per descriptor it reports, in its order, with the flags reported and the entry behind the stored pointer; nothing results exactly from three interruptions or an empty answer; the vector is unchanged |
| `EpollSelector.Drain` | src/io/selector.cpp:35-55 | walking the iterator over the reports hands out one event for each, and then it stops |
| `EpollSelector.SecondIsLost` | src/io/selector_epoll.cpp:121-136 | a run of two adds and a remove of the first whose remaining descriptor is designated as nothing |
| `EpollSelector.RemovingEarlierEntryBreaksLaterReports` | src/io/selector_epoll.cpp:121-136 | after removing an entry, each later one that was right before is handed out as its successor, the last as nothing |
| `EpollSelector.FlagsSurviveTheRoundTrip` | src/io/selector_epoll.cpp:83-96 | the four selectable flags come back as themselves |
| `EpollSelector.TranslationsKeepBits` | src/io/selector_epoll.cpp:83-96 | in both directions the four flags keep their values, bit by bit, and no other bit comes out |
| `EpollSelector.ThreeAttempts` | src/io/selector_epoll.cpp:139-154 | of up to three waits the first that is not interrupted decides; three interruptions in a row mean nothing ready |
| `EpollSelector.EventsAreHanded` | src/io/selector_epoll.cpp:157-176 | each event carries the entry its stored pointer leads to and the flags the kernel reported |
| `EpollSelector.EPollSelectorImpl.AddFd` | src/io/selector_epoll.cpp:83-96 | registers with the translated mask |
| `EpollSelector.EPollSelectorImpl.AddRaw` | src/io/selector_epoll.cpp:99-113 | pushes the entry and registers where it now lies |
| `EpollSelector.EPollSelectorImpl.RemoveFd` | src/io/selector_epoll.cpp:121-136 | deregisters, also when absent, and compacts the vector in place without touching stored pointers |
| `EpollSelector.EPollSelectorImpl.Poll` | src/io/selector_epoll.cpp:139-154 | waits again after each of up to two interruptions; an error throws, an answer gives its range, and a third interruption gives nothing ready |
| `EpollSelector.EPollSelectorImpl.GetEvent` | src/io/selector_epoll.cpp:157-176 | follows the stored pointer and translates the flags |
| `OwnershipSafety.DistinctOwners` | src/io/file.cpp:116-131 | over every run of open, move, swap, close and destroy: live valid handles own pairwise distinct open descriptors, and every open descriptor has an owner |
| `OwnershipSafety.ClosedOnceAndNoLeak` | src/io/file.cpp:116-131 | no close misses, nothing is closed twice, and none is open when all handles are gone |
| `OwnershipSafety.NameStaysWithDescriptor` | src/io/sharedMemory.cpp:126-141 | a created name stays paired with the descriptor it was created with through all moves and swaps |
| `OwnershipSafety.UnlinkedByLastOwner` | src/io/sharedMemory.cpp:97-110 | the names unlinked are, in order, those of created segments that a destructor ended, once each; none that close() ended |
| `OwnershipSafety.OnlyCreatedAreNamed` | src/io/sharedMemory.cpp:249-286 | a created segment's descriptor and handle carry its name from the start, an opened one's carry none |
| `OwnershipSafety.DestroyUnlinksCloseDoesNot` | src/io/sharedMemory.cpp:97-110 | destroying the owner of a named descriptor unlinks that name; closing it unlinks nothing, then or when the closed handle is destroyed |
| `OwnershipSafety.StepKeepsInv` | src/io/file.cpp:116-131 | every operation of every handle type keeps ownership linear |
| `DuplexOwnership.OpIsARun` | include/cadence/io/duplex.hpp:53-89 | open, move, swap, close and destroy of a duplex or pipe are each a feasible run of File operations on its two ends with the effect the class states |
| `DuplexOwnership.OpsAreARun` | include/cadence/io/duplex.hpp:53-105 | every run of duplex and plain operations is a run of plain ones |
| `DuplexOwnership.DuplexEndsAreDistinct` | include/cadence/io/duplex.hpp:125-128 | over every such run the valid ends of duplexes are different open descriptors, within one duplex and between two |
| `DuplexOwnership.DuplexesNeverLeak` | src/io/duplex.cpp:28-34 | over every such run no close misses, nothing is closed twice, and nothing is open once all is destroyed |
| `Handles.FileHandle.Move` | src/io/file.cpp:116-122 | takes the descriptor over and leaves the source invalid |
| `Handles.FileHandle.SwapWith` | include/cadence/io/file.hpp:148-161 | exchanges descriptors; also move assignment |
| `Handles.FileHandle.CloseHandle` | src/io/file.cpp:192-204 | closes once and invalidates; does nothing when closed already |
| `Handles.FileHandle.Destroy` | src/io/file.cpp:125-131 | closes if opened |
| `Handles.BufferedFile.constructor` | src/io/platformFilesystem.cpp:53-56 | the file's descriptor is the stream's |
| `Handles.BufferedFile.SwapWith` | include/cadence/io/platformFilesystem.hpp:71-82 | exchanges stream and descriptor together; also move assignment |
| `Handles.BufferedFile.CloseHandle` | src/io/platformFilesystem.cpp:113-120 | closes the stream, and so the descriptor once, and invalidates the base |
| `Handles.BufferedFile.Destroy` | src/io/platformFilesystem.cpp:59-61 | derived then base destructor close the descriptor once |
| `Handles.DuplexHandle.constructor` | include/cadence/io/duplex.hpp:57-60 | takes both ends over |
| `Handles.DuplexHandle.FromFds` | include/cadence/io/duplex.hpp:53-55 | wraps two descriptors; the temporaries close nothing |
| `Handles.DuplexHandle.Move` | include/cadence/io/duplex.hpp:62-65 | takes both ends over and leaves the source invalid |
| `Handles.DuplexHandle.SwapWith` | include/cadence/io/duplex.hpp:73-89 | exchanges both ends; also move assignment |
| `Handles.OpenedIffCloseHasWork` | include/cadence/io/duplex.hpp:101-103 | a duplex is opened, by either end, if and only if closing it closes some descriptor; closing it again closes nothing |
| `Handles.DuplexHandle.CloseHandle` | src/io/duplex.cpp:31-34 | closes the read end, then the write end |
| `Handles.DuplexHandle.Destroy` | src/io/duplex.cpp:28 | destroys its members in reverse order |
| `Handles.CreatePipe` | src/io/pipe.cpp:34-52 | the chain of moves ends with one owner for each end and closes neither |
| `Handles.SharedMemory.Move` | src/io/sharedMemory.cpp:134-141 | takes descriptor and name over |
| `Handles.SharedMemory.SwapWith` | include/cadence/io/sharedMemory.hpp:186-202 | exchanges descriptor and name; also move assignment |
| `Handles.SharedMemory.CloseHandle` | src/io/sharedMemory.cpp:163-172 | throws when not open; otherwise closes, and the name stays behind unused |
| `Handles.SharedMemory.Destroy` | src/io/sharedMemory.cpp:97-110 | closes and unlinks if open, does nothing otherwise |
| `Handles.CreateSharedMemory` | src/io/sharedMemory.cpp:214-254 | refuses size zero and long names before any system call; otherwise the handle carries the name |
| `Handles.OpenSharedMemory` | src/io/sharedMemory.cpp:257-286 | refuses long names; the handle carries no name |
| `ServiceText.UnescapeEscape` | test/ci/teamcity_messages.cpp:67-84 | unescaping undoes escaping for every string, and escaped text is plain characters and two-character escapes only |
| `ServiceText.EscapeIsInjective` | test/ci/teamcity_messages.cpp:67-84 | different strings escape differently |
| `ServiceText.EscapeUnescape` | test/ci/teamcity_messages.cpp:67-84 | a text unescapes if and only if it is well escaped, and then escapes back to itself |
| `ServiceText.NoBareSpecials` | test/ci/teamcity_messages.cpp:73-80 | every quote, bracket, line break and bar in well-escaped text belongs to a two-character escape |
| `MessageForms.SpecialsEscapeAs` | test/ci/teamcity_messages.cpp:74-78 | the five escapes |
| `MessageForms.OthersStay` | test/ci/teamcity_messages.cpp:79 | every other character stays as it is |
| `MessageForms.EscapeConcat` | test/ci/teamcity_messages.cpp:70-81 | escaping goes character by character |
| `ServiceText.ReadMessageBack` | test/ci/teamcity_messages.cpp:86-99 | a framed message reads back as its name and properties, whatever follows it |
| `ServiceText.ReadDecimalBack` | test/ci/teamcity_messages.cpp:144-148 | a number survives decimal printing |
| `MessageForms.NoLeadingZero` | test/ci/teamcity_messages.cpp:144-148 | numbers are printed without leading zeros |
| `MessageForms.FormOfSuites` | test/ci/teamcity_messages.cpp:101-119 | the text of both suite messages, spelled out |
| `MessageForms.FormOfTestStarted` | test/ci/teamcity_messages.cpp:121-133 | the text of a test start, spelled out |
| `MessageForms.FormOfTestFinished` | test/ci/teamcity_messages.cpp:135-151 | the text of a test end, spelled out |
| `MessageForms.FormOfTestFailed` | test/ci/teamcity_messages.cpp:153-163 | the text of a failure, spelled out |
| `MessageForms.FormOfTestIgnored` | test/ci/teamcity_messages.cpp:165-174 | the text of an ignored test, spelled out |
| `MessageForms.FormOfTestOutput` | test/ci/teamcity_messages.cpp:176-185 | the text of a test's output, spelled out |
| `ServiceMessages.MessageReadsBack` | test/ci/teamcity_messages.cpp:101-185 | each kind of message reads back as the call that printed it, absent flow and negative duration as absent |
| `ServiceMessages.StreamReadsBack` | test/ci/teamcity_messages.cpp:86-185 | any sequence of printed messages reads back as exactly those calls, in order |
| `ServiceMessages.StreamIsUniquelyDecodable` | test/ci/teamcity_messages.cpp:86-185 | two sequences of calls print the same stream if and only if they are the same calls |
| `MessagePrinter.TeamcityMessages.EscapeText` | test/ci/teamcity_messages.cpp:67-84 | the loop computes the escaped text |
| `MessagePrinter.TeamcityMessages.OpenMsg` | test/ci/teamcity_messages.cpp:86-89 | starts a message |
| `MessagePrinter.TeamcityMessages.WriteProperty` | test/ci/teamcity_messages.cpp:97-99 | appends one escaped property |
| `MessagePrinter.TeamcityMessages.CloseMsg` | test/ci/teamcity_messages.cpp:91-95 | leaves the stream longer by one whole message |
| `MessagePrinter.TeamcityMessages.PrintSuiteStarted` | test/ci/teamcity_messages.cpp:101-109 | appends the text of that message and nothing else |
| `MessagePrinter.TeamcityMessages.PrintSuiteFinished` | test/ci/teamcity_messages.cpp:111-119 | appends the text of that message and nothing else |
| `MessagePrinter.TeamcityMessages.PrintTestStarted` | test/ci/teamcity_messages.cpp:121-133 | appends the text of that message, with the capture property only when asked |
| `MessagePrinter.TeamcityMessages.PrintTestFinished` | test/ci/teamcity_messages.cpp:135-151 | appends the text of that message, with a duration only when not negative |
| `MessagePrinter.TeamcityMessages.PrintTestFailed` | test/ci/teamcity_messages.cpp:153-163 | appends the text of that message and nothing else |
| `MessagePrinter.TeamcityMessages.PrintTestIgnored` | test/ci/teamcity_messages.cpp:165-174 | appends the text of that message and nothing else |
| `MessagePrinter.TeamcityMessages.PrintTestOutput` | test/ci/teamcity_messages.cpp:176-185 | appends the text of that message, as standard output or error |
| `TestListener.RunReadsBack` | test/ci/teamcity_gtest.cpp:33-83 | for any run of suites and tests the printed text reads back as a well-nested stream that tells each test's suite, name and duration, and its failure exactly if it failed |
| `TestReport.EachTestIsTold` | test/ci/teamcity_gtest.cpp:33-83 | from the text of any run a reader learns for each test, in order: its suite and name; a failure exactly if some part did not pass; as message the first non-empty summary of a failing part, or the word failed; as details the texts of the failing parts in order, each its message and, where known, its file and line; its duration |
| `TestReport.BlocksTell` | test/ci/teamcity_gtest.cpp:58-67 | the texts are those of exactly the failing parts, in order, with file and line where both are known |
| `TestReport.EveryMessageCarriesTheFlow` | test/ci/teamcity_gtest.cpp:33-83 | every message a reader finds in the text of a run carries the listener's flow identifier, and none asks for captured output |
| `TestListener.DetailsAreTheJoinIff` | test/ci/teamcity_gtest.cpp:48-68 | the details are the in-order join of the failing parts if and only if there is at most one or the first block is not empty |
| `TestListener.LeadingSeparatorIsLost` | test/ci/teamcity_gtest.cpp:58-61 | two failing parts, the first with an empty block: the separator between them is not there |
| `TestListener.DurationSurvivesIff` | test/ci/teamcity_gtest.cpp:77 | a duration survives the narrowing if and only if it is below two to the 31 |
| `TestListener.NarrowsTo32Bits` | test/ci/teamcity_gtest.cpp:77 | the narrowing of a duration keeps it modulo two to the 32, in the range of an int |
| `TestListener.LongestDurationIsLost` | test/ci/teamcity_gtest.cpp:77 | two to the 31 milliseconds become negative and are read back as unknown |
| `TestListener.Listener.OnTestEnd` | test/ci/teamcity_gtest.cpp:43-78 | prints the failure if any part failed, then the end |
| `TestListener.Listener.Accumulate` | test/ci/teamcity_gtest.cpp:46-68 | the loop yields the first non-empty summary and the joined blocks of the failing parts |
| `TestListener.Listener.OnTestCaseStart` | test/ci/teamcity_gtest.cpp:33-35 | prints the start of the suite |
| `TestListener.Listener.OnTestStart` | test/ci/teamcity_gtest.cpp:38-40 | prints the start of the test |
| `TestListener.Listener.OnTestCaseEnd` | test/ci/teamcity_gtest.cpp:81-83 | prints the end of the suite |
| `TestListener.FireRun` | test/ci/teamcity_gtest.cpp:33-83 | the listener driven through a whole run prints exactly the messages of that run |
| `Signals.ChainIsOriginalThenAttached` | src/io/signalDispatcher.cpp:64-89 | after any run of attaches a signal's chain is its original handler, once, then the attached ones in order; other chains are unchanged; the multimap stays sorted |
| `Signals.DeliveryCallsEachOnce` | src/io/signalDispatcher.cpp:43-50 | delivery calls the original handler first, if there was one, then each attached one, once, in attach order |
| `Signals.EmplaceAppends` | src/io/signalDispatcher.cpp:78-88 | inserting into the sorted multimap appends to the sequence of one key and changes no other |
| `Signals.EmplaceKeepsOrder` | src/io/signalDispatcher.cpp:36-40 | insertion keeps the multimap sorted |
| `Signals.SignalDispatcher.AttachHandler` | src/io/signalDispatcher.cpp:64-89 | installs the dispatcher, and keeps another function found there in front of the new handler |
| `Signals.SignalDispatcher.HandleSignal` | src/io/signalDispatcher.cpp:43-50 | the loop over the equal range calls exactly the signal's chain, in order |
| `SerialPort.ReconfiguringIsIdempotent` | src/io/serial.cpp:53-347 | the same request twice changes nothing the second time |
| `SerialPort.UnmanagedBitsUntouched` | src/io/serial.cpp:67-336 | bits outside the managed ones are as before |
| `SerialPort.AlwaysRaw` | src/io/serial.cpp:67-77 | any request leaves the port in raw polling mode |
| `SerialPort.FormatDecodes` | src/io/serial.cpp:79-336 | size, stop bits, flow control and a standard rate decode to the request |
| `SerialPort.RatesTakeEffect` | src/io/serial.cpp:79-243 | the rates with a case of their own set the speed, and any other leaves it |
| `SerialPort.ControlBits` | src/io/serial.cpp:67-336 | every managed bit of the control word but those of parity, by its number: exactly when it is set after a request |
| `SerialPort.ParityBits` | src/io/serial.cpp:263-291 | the same for the three parity bits |
| `SerialPort.InputBits` | src/io/serial.cpp:71-322 | every managed bit of the input word after a request, by its number: exactly when it is set |
| `SerialPort.ParityDecodesUnlessSticky` | src/io/serial.cpp:263-291 | parity decodes to the request if and only if it is not even or odd on a port with CMSPAR set |
| `SerialPort.EvenAfterMarkIsSpace` | src/io/serial.cpp:265-291 | mark, then even, decodes to space |
| `SerialPort.LastRequestDecodes` | src/io/serial.cpp:67-347 | after any run the words decode to the last request; its parity if and only if it is not even or odd after CMSPAR was set at the start or by an earlier mark or space |
| `SerialPort.Port.Reconfigure` | src/io/serial.cpp:53-347 | refuses a closed port, otherwise rewrites the words as requested |
| `SerialPort.Port.SetControl` | src/io/serial.cpp:245-336 | the steps on the control word amount to one clear and one set |
| `SerialPort.Port.SetParity` | src/io/serial.cpp:263-291 | the parity step, per case |

## Left out

- asio, libsolace and the kernel themselves: only the contracts above are used; ByteReader, ByteWriter and Base16Encoder are not part of this model, and a cursor class and the encoding of RFC 4648 stand for them.
- IPEndpoint, address parsing, Unix socket paths, datagram and UDP sockets, timers and SignalSet: thin forwarding.
- The synchronous reads and writes of sockets and pipes, and those of src/ioobject.cpp: one transfer and one advance, which the asynchronous handlers already show.
- The Unix-domain acceptor: same protocol as the TCP one; the order of its socket options is not modelled.
- Filesystem queries, glob, port listing, memory mapping, ioctl and pselect: foreign calls.
- System calls that fail halfway: ftruncate after shm_open, epoll_ctl after push_back, a close that throws in a destructor or between the two ends of a Duplex, fclose reporting an error.
- Uses outside the contracts: changing a selector while iterating it, two operations in flight on one cursor, stop() before startListen(), requests longer than what remains, swapping handles of different types, moving a listening AsyncServer or a Session in use.
- The move constructor of BufferedFile: declared in the header and defined nowhere.
- Handlers and connection callbacks that throw.
- EventLoop::reset after a stop, and the destruction of dangling sessions together with the loop.
- Zero-length requests on a closed pipe: asio completes them with success; the model ends every post on a closed pipe with an error.
- Several processes or threads: one event loop runs all handlers, and no other process writes to the pipe.
- SIG_IGN as the previous disposition (the code would call it), and dispositions changed from outside between attaches.
- The 32-bit size type of selector ranges: vectors are taken to fit it.
- The 32-bit wrap-around of the session counter.
- The speed bits of the control word and the custom-divisor ioctl: the line speed is a field of its own, and a rate without a constant leaves it as it was.
- Platforms other than Linux: the conditional branches of the serial and selector code for them.
- Grouping of digits by a locale when the printer writes numbers; skipped parts of newer GoogleTest versions.
- AsyncPipe.PipeImpl.AsyncRead: excludes a second operation in flight on the same cursor, which both handlers would advance.
- AsyncPipe.PipeImpl.AsyncWrite: the same exclusion.
- AsyncPipe.PipeImpl.PostOp: the same exclusion.
- StreamSockets.Channel.PostTransfer: excludes a second operation in flight in the same direction, since composed operations of one direction must not overlap.
- EpollSelector.DrainsAgree: holds while every stored pointer designates its own entry; `EpollSelector.BackEndsAgreeIffFaithful` says that nothing less will do.
- EpollSelector.EPollSelectorImpl.AddFd: requires room within the reserved capacity and a descriptor that is not registered; beyond the capacity the vector moves and every stored pointer dangles, and for a registered descriptor epoll_ctl fails after the push.
- EpollSelector.EPollSelectorImpl.AddRaw: the same two exclusions.
- EpollSelector.EPollSelectorImpl.GetEvent: reads whatever lies in the reserved memory; past the end of the vector C++ leaves that undefined, and the agreement results count it as nothing.
- EchoServer.EchoIsFaithful: the line equality holds in a read until the read is full, as the handler that answers has not run by then.
- SerialPort.Port.Reconfigure: the words are sets of bits, not machine integers, so widths play no part.
