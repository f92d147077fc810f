# An epoll web server and its logger, verified

This project models a small HTTP/1.1 server written in C++ (one event loop per thread, epoll, timers kept in a
heap, resumable request parsing) together with its asynchronous logger, and proves what the pieces promise.
`dafny verify dfyconfig.toml` checks everything.

The code changes state in place, so the model has two layers. Classes (`HttpData`, `EPollPoller`, `EventLoop`,
`AsyncLogging`, `FixedBuffer`, `LogFile`, `FileUtil`) carry the fields of the C++ classes and are updated by
methods that take the same steps. Each method is tied to a function on values, and the long statements, about
every run and every interleaving, are lemmas on those functions.

| files | what they hold |
|---|---|
| `SocketIo` | the read and write loops over an arbitrary schedule of partial counts, EINTR, EAGAIN and errors |
| `HttpParser`, `FieldSpacing`, `RequestText` | the resumable parser, chunking, the printed form of requests |
| `HttpResponse`, `Decimal` | answers and error pages, a reader for them, integer to text |
| `Connection`, `HttpData`, `LostAnswer`, `Pipelining`, `Refusal` | one connection: read, write, re-arm, pipelining, error pages, end to end, what is refused |
| `ClockWrap`, `Lifecycle`, `Poller`, `TaskQueue`, `EventLoop`, `ServerLoop` | deadlines, one connection as the server moves it, the maps, the kernel's interest set, the timer heap, the task queue with its eventfd, and the loop over all of them |
| `LogProtocol`, `LogBuffer`, `LogFile`, `AsyncLogging` | the double-buffered logger |

## Main results

* **Chunking.** A header section cut anywhere and resumed with any text parses as the uncut one
  (`HeadersResume`). With three repairs this lifts to every way of cutting the stream (`ChunkingRepaired`). The
  code as written agrees with the repaired one exactly on safe cuts: those at the end of a request, inside a
  header line or the blank line, or behind a malformed line. This holds for one pass (`SafeCutExact`), a buffer
  (`SafeAllExact`), a `handleRead` (`SafeReadExact`) and a sequence of deliveries (`SafeChunksExact`). A request
  with header fields that is cut behind its request line is always misread (`CutBehindRequestLine`).
* **End to end.** For every schedule of reads, partial writes, interruptions and events that ends in no error, the
  requests served are those of the stream that was heard. The bytes sent followed by the bytes kept are their
  answers exactly when no write failed after taking something, and then read back, through Content-Length, as
  exactly the requested files in order (`EndToEnd`; for pipelined well-formed requests `PipelineEndToEnd`).
* **The server serves each connection as if it were alone.** Over any number of iterations of the loop, whatever
  kernel, peers, other threads and clock do, each connection's state, mask, deadline and place in the tables are
  those of `Life`: one step per iteration, made of the event reported for its own descriptor and of the sweep, and
  of nothing else (`ServerLoop.Loop`, from `DispatchAll`, `RunArrivals` and `ExpiryPhase` through `Iterate`). No
  sweep closes a connection before a look at the clock has seen its deadline come, and none leaves one that is
  overdue at its last look; for a clock that does not go back these are the same (`OnTimeExact`). `Life`
  is `Connection.Run` over the rounds reported for it (`LifeIsRun`), so what is proved of one connection end to end
  holds of every connection the server accepts (`LivesServedRight`).
* **What is refused.** A request line is read exactly when it has two blanks (`RequestLineExact`); a header section
  exactly when every line has a colon and two more characters (`SectionExact`). A refused request leaves nothing
  served or answered and one page 400, cut where the kernel stops (`BadRequestLine`, `BadHeaderLine`); these, a
  failed read and a request that cannot be answered are the only reasons for an error (`ErrorExact`).
* **What the peer is sent.** In every run, ending in an error or not, the peer is sent what went through the
  output buffer and then, only after an error, at most two error pages, each cut where the kernel stopped taking
  it. What went through the buffer is a prefix of the answers to the requests that could be answered, unless a
  write failed half-way (`PeerIsSent`). Two pages really occur (`TwoPages`).
* **Never deaf.** After every dispatch that reaches `handleConn` on a connection without error EPOLLOUT is armed
  exactly when there is output and EPOLLIN exactly when there is none, edge-triggered (`NeverDeaf`). A hang-up without
  input and an error bit do not get there: the first empties the mask of the channel, the second changes nothing,
  and closing is left to the timer. Over every run of the whole server the kernel listens, for each registered
  connection, for exactly what it waits for (`Sound`, kept by `ServerLoop.Loop`).
* **One owner.** Between handler calls a connection is registered exactly when one live heap node owns it; every
  other node is deleted and empty; maps and interest set agree. Over every run of the loop this is kept, no
  connection is forgotten, and each is closed once, when it leaves the tables (`ServerLoop.Loop`). One dispatch
  keeps it exactly when epoll reports some bit that is tested (`EPollPoller.HandleEvents`).
* **Expiry.** The lazily deleted heap closes exactly the connections whose deadline had come at the last look at
  the clock (`HandleExpiredEvent`). The clock itself is read modulo 10^7 ms; a deadline is met exactly when it
  does not cross the end of that period (`NeverExpiresExactly`, `OnTimeExactly`), and two nodes sort by their
  real deadlines under an exact condition on the times of arming (`OrderExactly`). Put together: of nodes armed in
  the period in which the clock is read and not crossing its end, exactly those whose real time has come are
  closed (`ExpireOnTime`). A connection that was just active, or just accepted, stays until its timeout has passed
  since then (`ActiveStays`, `AcceptedStays`), five seconds when a request asked to be kept and two otherwise
  (`TimeoutExact`); a quiet one is closed by the first sweep that looks at its deadline or later (`QuietUntilDue`).
* **Tasks.** No wake-up is lost and every task runs once, in lock order, in the batch of its snapshot. The loop
  over poller and queue is a run of that protocol in which a reported wake-up is drained and listened for again,
  and in which the expiry phase queues nothing (`ServerLoop.Loop`).
* **Logger.** For every interleaving nothing accepted is lost, repeated or reordered unless the overload drop is
  taken; every buffer object is held in one place; both refills find a buffer; the final drain leaves the file
  equal to what was accepted. Whenever the writer has ended a round, all it has written is flushed
  (`PerformAll`). A step fails in exactly three ways (`FailsExactly`). An append is dropped exactly when its length
  equals the room left or is at least a whole buffer; once the room equals a message's length, messages of that
  length change nothing until another message or a swap does (`EqualRoomSticks`).

## Where the code departs from its intent

`Variant` (parser, poll) and `Copy` (logger) choose between the code as written and its intended form.

* HttpData.cpp:94-105 takes an unfinished request line for a parsed one; HttpData.cpp:323-336 ends a request
  line at a '\r' before the '\n' is there; HttpData.cpp:390 takes an empty buffer for the end of the headers.
  `Repaired` waits in all three cases, as readme.md:37-38 says. Consequences of the code as written are
  `PrematureRequest`, `CutBehindRequestLine` and `PartialAnswerIsLost`.
* HttpData.cpp:417 builds a string from a range that ends before it begins when a header line has fewer than
  three characters from its colon on. That outcome is undefined; it is kept apart as `HeaderUndefined` and ends
  the connection with an error in the model. `SpacedRequestExact` says which requests are read correctly.
* HttpData.cpp:183 compares a `size_t` with `< 0`: a fatal write goes unnoticed. `WriteConserves` gives the
  exact condition under which bytes are then sent twice, and `intact` of a connection says that it has not come.
* HttpData.cpp:252-274 writes error pages past the output buffer, in two writes whose results are not looked at:
  a page can follow half an answer, its body can follow half its header section, and there can be two.
* EPollPoller.cpp:31 (`while (false)`) never delivers an event. As written `ServerLoop.Poll` returns nothing. Parser
  and poll have a `Variant` each, so the loop also runs the parser as written.
* log/AsyncLogging.cpp:78 and log/wanju/FileUtil.cpp:165 test the list just swapped in for overload instead of
  the batch, and can then erase from a position behind the end, after accepted messages only
  (`OverloadFailureReachable`).
* log/AsyncLogging.cpp:105-112 refills the wrong spare buffer and then uses a null pointer
  (`InstalledRecycleExact`, `InstalledFailureReachable`); log/wanju/FileUtil.cpp:185-191 is right.
* log/AsyncLogging.cpp:116 and log/wanju/FileUtil.cpp:197 move the current buffer away and leave a null pointer
  that `append` uses without a test (log/AsyncLogging.cpp:27): every message that comes once the drain has begun
  fails (`FailsExactly`, `DrainEnds`), and `stop` alone leads there (`LateAppendReachable`).
* log/AsyncLogging.cpp:27 uses `>=` where log/LogStream.h:23 uses `>`; kept as written (`AppendExact`).
* log/wanju/FileUtil.cpp:43 retries with the whole length; log/FileUtil.cpp:24-41 is modelled.
* A GET of an empty file fails because `mmap` of length 0 fails (HttpData.cpp:475-483).

## Model

| member | source | states |
|---|---|---|
| SocketIo.Readn | base/Util.cpp:181-226 | the read loop appends exactly the bytes up to the first outcome that ends it; on an error or end of file it returns -1 as a size_t and keeps the bytes already read |
| SocketIo.Writen | base/Util.cpp:228-264 | the write loop sends exactly the prefix the schedule takes; the buffer loses that prefix, except after a fatal outcome, when it is left whole |
| SocketIo.ReceiveExact | base/Util.cpp:186-224 | data and interruptions are read through; what comes then ends the loop, and fails it unless it is EAGAIN |
| SocketIo.SendExact | base/Util.cpp:236-262 | everything that finds room goes out; what comes then ends the loop if bytes are left, and fails it unless it is EAGAIN |
| SocketIo.WriteConserves | base/Util.cpp:228-264 | what the peer got followed by what is kept is the old buffer if and only if no fatal outcome followed progress |
| SocketIo.FatalAfterProgressMeaning | base/Util.cpp:236-257 | that condition, read off the schedule alone, is a failing send that has already sent something |
| SocketIo.WritenBytes | base/Util.cpp:266-297 | the same loop over fixed bytes; what is not taken is forgotten |
| SocketIo.OrderlyConserves | base/Util.cpp:228-264 | on a schedule in which no fatal outcome comes directly behind bytes taken, no write of any buffer loses track |
| Decimal.Convert | log/LogStream.cpp:11-31 | the array holds the signed decimal text and its terminator, and nothing behind it changes |
| Decimal.WriteDigits | log/LogStream.cpp:16-21 | the do-while loop writes the digits of the magnitude, last one first, also for the minimum |
| Decimal.ReverseRange | log/LogStream.cpp:29 | the in-place reversal reverses the range and touches nothing else |
| Decimal.DigitStep | log/LogStream.cpp:8-20 | the truncated remainder lies in [-9, 9], indexes the right digit, and one division drops one digit |
| Decimal.RenderRoundTrip | log/LogStream.cpp:11-31 | reading the text of any integer gives it back, and a sign is there only for negative ones |
| Decimal.NumeralRoundTrip | log/LogStream.cpp:16-21 | digits only, no leading zero, same value when read |
| Decimal.CanonicalIsNumeral | log/LogStream.cpp:16-21 | the numeral is the only such text of its value |
| Decimal.NumeralLength | log/LogStream.cpp:16-21 | at most k digits if and only if the value is below 10^k |
| Decimal.SixtyFourBitFits | log/LogStream.cpp:11-31 | every 64-bit value with its terminator fits in 32 bytes |
| HttpParser.HeadersResume | HttpData.cpp:377-421 | a header section cut anywhere and resumed with any suffix parses as the uncut text; decided outcomes do not change with later text |
| HttpParser.PassResume | HttpData.cpp:88-148 | the same for a whole pass of the protocol from any waiting state |
| HttpParser.ParseAllResume | HttpData.cpp:88-171 | the same for the recursion over pipelined requests |
| HttpParser.ChunkingRepaired | HttpData.cpp:73-171 | for every way of cutting the stream, feeding the pieces finds the requests and the verdict of the whole stream, and its parser state while more can come |
| HttpParser.SafeHeadersAgree | HttpData.cpp:377-421 | as written, the header loop agrees with the waiting one if and only if the text does not stop right after a complete line |
| HttpParser.SafeCutExact | HttpData.cpp:92-130 | as written, one pass agrees with the repaired one if and only if the buffer is cut at a safe place |
| HttpParser.SafeAllExact | HttpData.cpp:92-171 | as written, a buffer is parsed as the repaired code parses it if and only if every pass finds a safe cut |
| HttpParser.SafeChunksExact | HttpData.cpp:92-171 | over a sequence of deliveries the two agree after each one if and only if every cut is safe |
| HttpParser.ChunkingAsWritten | HttpData.cpp:92-171 | as written, such deliveries find the requests of the whole stream |
| RequestText.RequestRoundTrip | HttpData.cpp:318-421 | a printed well-formed request followed by any tail is read back: method, mapped path, version, header map, and exactly the tail stays |
| HttpParser.RequestLineExact | HttpData.cpp:338-356 | a request line is read if and only if it has two blanks |
| HttpParser.RequestLineParts | HttpData.cpp:338-373 | method, target and version are found; an unknown method leaves the verb as it was, and "/" is the home page |
| HttpParser.SplitExact | HttpData.cpp:323-336 | the request line ends at the first '\r'; the character behind it is skipped and, repaired, waited for |
| HttpParser.FieldLineExact | HttpData.cpp:411-418 | a header line without colon is refused; behind the colon the first and the last character are dropped, and fewer than two are undefined |
| HttpParser.NextLineExact | HttpData.cpp:383-410 | a header line ends at the first '\n', the section at a line that is only '\r' |
| Refusal.ErrorExact | HttpData.cpp:80-146 | a turn ends in an error if and only if the read fails, the request is malformed or it cannot be answered; a page goes with each but the undefined outcome |
| Refusal.BadRequestLine | HttpData.cpp:92-101 | a complete request line without two blanks, in either variant: error, nothing served or answered, buffer empty, one page 400 as far as it goes |
| Refusal.SectionExact | HttpData.cpp:377-421 | a header section is read if and only if all lines are good, refused if and only if the first that is not has no colon, and otherwise undefined |
| Refusal.BadHeaderLine | HttpData.cpp:107-119 | a header line without colon behind good ones: error, nothing served or answered, one page 400 |
| Refusal.ShortHeaderLine | HttpData.cpp:417 | a line with a colon and too little behind it ends the connection in the model, without a page |
| Refusal.MissingFile | HttpData.cpp:454-484 | a complete request for what cannot be served: analysed, error, one page 404 |
| Refusal.FailedRead | HttpData.cpp:83-90 | a failed read: error, one page 400, nothing parsed |
| FieldSpacing.LastFieldWins | HttpData.cpp:418 | a name is known if and only if some field has it, and the last duplicate gives the value |
| FieldSpacing.LineSpacing | HttpData.cpp:411-418 | a field line is read correctly if and only if one character separates colon and value |
| FieldSpacing.MapsAgree | HttpData.cpp:411-418 | the header map read is the one meant if and only if each value that no later field replaces has exactly one blank before it |
| RequestText.SpacedRequestExact | HttpData.cpp:318-421 | a whole request with any blanks behind its colons is read as meant if and only if every field has something behind its colon and each lasting value exactly one blank before it; it is undefined if and only if some field has nothing there |
| RequestText.PipelineRoundTrip | HttpData.cpp:148-171 | pipelined requests are found one by one in order with nothing left over |
| RequestText.PipelineAnyChunking | HttpData.cpp:73-171 | repaired, the same under every cutting of the stream |
| RequestText.PrematureRequest | HttpData.cpp:377-401 | as written, a request line that arrives alone is answered at once without its headers |
| RequestText.CutBehindRequestLine | HttpData.cpp:94-130 | as written, every request with header fields cut behind its request line is misread |
| HttpResponse.AnalyseExact | HttpData.cpp:423-492 | for parsed urls the analysis succeeds if and only if the file can be served, and then appends exactly the answer; a GET of a file that cannot be read or mapped empties the buffer, other failures leave it |
| HttpResponse.HeadRoundTrip | HttpData.cpp:430-465 | a reader of the header section finds status 200, the keep-alive lines of the request, type, length and server, and stops where the section ends |
| HttpResponse.KeepAliveTold | HttpData.cpp:432-436 | the client is told that it is kept, and for 5000, if and only if its Connection field says keep-alive or Keep-Alive |
| HttpResponse.FileTypeExact | HttpData.cpp:437-446 | the type is that of everything from the first dot on, text/html without a dot |
| HttpResponse.FramingRoundTrip | HttpData.cpp:423-490 | concatenated answers decode, each with status 200, to exactly the file bodies in request order, none for HEAD |
| HttpResponse.PageRoundTrip | HttpData.cpp:252-274 | an error page that goes out whole is read with its code, its lines and the length of its body in bytes |
| Connection.TurnDecreases | HttpData.cpp:73-171 | whenever handleRead calls itself, unread bytes plus buffered bytes have decreased |
| Connection.HandleRead | HttpData.cpp:73-171 | the recursion ends for every finite stream and leaves the connection waiting for input or failed |
| Connection.NeverDeafOnce | Channel.cpp:12-44 | one dispatch leaves the connection armed or, exactly on an error, closed; exactly on a hang-up or error bit it is ignored, the first emptying its mask and the second changing nothing |
| Connection.NeverDeaf | HttpData.cpp:202-250 | after any history, a dispatch that reaches handleConn leaves EPOLLOUT armed if and only if output is left, EPOLLIN if and only if none is, and EPOLLET |
| Connection.ReadFailsExact | HttpData.cpp:83-85 | a read counts as failed if and only if readn fails or the int takes its count for negative |
| Connection.DispatchReads | Channel.cpp:23-38 | every dispatch that is not ignored reads, a writable one too, and hears at least what the kernel delivers to one readn |
| Connection.CallbacksSpend | HttpData.cpp:73-274 | however often handleRead runs in a dispatch, each byte delivered is heard once and the peer gets no more than the kernel takes |
| Connection.TimeoutExact | HttpData.cpp:211-236 | after any history, re-arming gives 5000 ms if and only if some request so far asked to be kept, else 2000 |
| Connection.PageWhole | HttpData.cpp:270-273 | a kernel that takes all it is offered gets the whole page, header section first |
| Connection.CallbacksPrepare | HttpData.cpp:73-200 | one or two handleRead calls leave a mask that handleConn can complete |
| Connection.WriteMoves | HttpData.cpp:173-200 | a write moves bytes from the buffer to the wire and changes nothing else; if it fails half-way some stay in both, and only then |
| Connection.EndToEnd | HttpData.cpp:73-250 | in every run without error, requests served are those of the stream heard; wire followed by output buffer are their answers if and only if no write failed half-way, and then read back as their files in order |
| Connection.PeerIsSent | HttpData.cpp:73-274 | in every run, as written or repaired: the peer is sent what went through the buffer, then only after an error at most two cut error pages; unless a write failed half-way the former is a prefix of the answers to the served requests that could be answered |
| Connection.TwoPages | HttpData.cpp:85-90 | a peer that is gone is sent two pages when its socket is readable and writable |
| Connection.RunOrderly | HttpData.cpp:173-200 | when no fatal outcome comes directly behind bytes taken, no write of any run fails half-way |
| Connection.NoFatalIntact | HttpData.cpp:173-200 | so also when there is no fatal outcome at all |
| Connection.EventsHonest | HttpData.cpp:202-250 | one dispatch registers a mask that fits the connection, or leaves one that does, and keeps what the peer was sent in order |
| Pipelining.PipelineEndToEnd | HttpData.cpp:73-250 | well-formed requests sent one behind the other: the first of them are served, all once they have arrived, and the bytes sent and kept decode to their files |
| Connection.RunStream | HttpData.cpp:73-250 | over any number of dispatches, the stream heard and the answers stay accounted for |
| Connection.SafeReadExact | HttpData.cpp:73-171 | as written, a handleRead ends in the state of the repaired one if and only if all its passes find safe cuts |
| Connection.WritableEventKills | HttpData.cpp:92-146 | as written, the writable event of an idle connection with output left kills it and loses the output |
| Connection.WritableEventSends | HttpData.cpp:73-200 | repaired, the same event sends on |
| LostAnswer.Answered | HttpData.cpp:73-200 | from the start, a request that fits one read leaves an idle connection with what the kernel did not take still buffered |
| LostAnswer.PartialAnswerIsLost | HttpData.cpp:73-200 | whenever an answer does not go out at once, the run as written loses the rest at the next writable event and the repaired run sends on |
| HttpServer.HttpData.ParseURL | HttpData.cpp:318-375 | in place, the request line step of the parser functions; which lines it reads and refuses is RequestLineExact |
| HttpServer.HttpData.ParseHeaders | HttpData.cpp:377-421 | the loop over the buffer equals the recursive parser |
| HttpServer.HttpData.AnalysisRequest | HttpData.cpp:423-492 | the output buffer and the keep-alive flag as the analysis function says |
| HttpServer.HttpData.HandleError | HttpData.cpp:252-274 | head and body of the page go out as far as the kernel takes each; nothing else changes |
| HttpServer.HttpData.HandleWrite | HttpData.cpp:173-200 | the new state is that of the write function; the timer is released |
| HttpServer.HttpData.ReadOnce | HttpData.cpp:73-171 | one turn of handleRead, and whether it calls itself |
| HttpServer.HttpData.HandleRead | HttpData.cpp:73-171 | the new state is that of the recursive function, the live timer node is emptied and nothing else is touched |
| HttpServer.HttpData.SeparateTimer | HttpData.cpp:307-316 | responsibility leaves the live node, an expired one is untouched, the connection is unchanged |
| HttpServer.HttpData.Reset | HttpData.cpp:277-290 | both buffers stay, protocol state starts over |
| HttpServer.HttpData.PrepareMask | HttpData.cpp:202-240 | mask and timeout as the function on values says, mask not zero |
| ClockWrap.ReadingWraps | Timer.cpp:14-16 | what is computed from a timeval is the time in ms modulo 10^7 |
| ClockWrap.ExactWithinPeriod | Timer.cpp:27-41 | within the period of arming a node that does not wrap is expired if and only if real time has reached its deadline |
| ClockWrap.NeverExpiresExactly | Timer.cpp:27-41 | a node never expires if and only if its deadline crosses the end of the period |
| ClockWrap.OnTimeExactly | Timer.cpp:27-41 | asked at its real deadline a node answers correctly if and only if it does not wrap |
| ClockWrap.OverdueLooksLive | Timer.cpp:27-41 | asked in a later period an overdue node looks live again until its residue comes round |
| ClockWrap.OrderWithinPeriod | Timer.h:30-38 | heap order agrees with real deadlines for nodes armed in one period |
| ClockWrap.OrderExactly | Timer.h:30-38 | for nodes armed in any periods, heap order agrees with real deadlines if and only if the later node sorts last anyway or first by at least the time between the periods |
| ClockWrap.OrderAcrossPeriods | Timer.h:30-38 | with one timeout, nodes of different periods sort right if and only if the residue of the later one is later |
| Poller.EPollPoller.AddChannel | EPollPoller.cpp:52-77 | maps, interest set and heap each gain exactly the one entry |
| Poller.EPollPoller.UpdateChannel | EPollPoller.cpp:80-106 | a fresh live node, and the mask in the interest set |
| Poller.EPollPoller.RemoveChannel | EPollPoller.cpp:108-124 | the descriptor leaves all three tables |
| Poller.EPollPoller.HandleClose | HttpData.cpp:291-300 | disconnected, one more close, out of all tables |
| Poller.EPollPoller.NewEvent | HttpData.cpp:302-306 | registering a new connection keeps the invariant; its deadline is that of the first timeout, its mask the default one, and no other connection changes |
| Poller.EPollPoller.OneTimer | Timer.h:12-27 | under the invariant exactly the node a registered connection points to owns it |
| Poller.EPollPoller.RunCallbacks | Channel.cpp:29-38 | the handlers take the connection from its timer; it stays registered and everything else stays in order |
| Poller.EPollPoller.HandleConn | HttpData.cpp:202-250 | re-registered with its new mask and a fresh node, or closed once and out of the interest set; invariant restored |
| Poller.EPollPoller.HandleEvents | Channel.cpp:12-44 | the invariant survives a dispatch if and only if some tested bit is set; the connection's state is that of the function on values, its new timer node has the deadline of the clock reading plus the timeout, and the kernel's interest set changes in its entry only, to the new mask, or loses it |
| Poller.EPollPoller.HandleSoundly | Channel.cpp:12-44 | a dispatch moves its own connection (state, mask, deadline, registration) as `Dispatched` says and no other; the kernel listens for what each waits for and the peers were sent only answers and error pages |
| Poller.EPollPoller.HandleConnUntested | HttpData.cpp:202-240 | without a tested bit a second live node is armed for the same connection |
| Poller.EPollPoller.Expire | Timer.cpp:21-25 | popping an expired live node closes its connection once and keeps the invariant |
| Poller.EPollPoller.HandleExpiredEvent | Timer.cpp:57-79 | each connection closed has seen its deadline come at some look, for a clock that does not go back exactly those due at the last look are closed, the others do not change, nothing due remains in the heap |
| Poller.EPollPoller.SweepOne | Timer.cpp:59-78 | one turn of the loop on a least node |
| Poller.EPollPoller.ExpireOnTime | Timer.cpp:12-79 | for nodes armed in the period of the clock and not crossing its end, the connections closed are exactly those whose real arm time plus timeout has come |
| Poller.EPollPoller.AddPlainChannel | EPollPoller.cpp:52-77 | a channel without HttpData enters the table and the interest set, and nothing else |
| ServerLoop.Poll | EPollPoller.cpp:24-50 | repaired, each descriptor listened for is reported with its first tested event and no other, the wake-up descriptor only when it is ready; as written none |
| ServerLoop.FillActiveChannels | EPollPoller.cpp:124-137 | every reported descriptor has its entry |
| ServerLoop.DispatchAll | EventLoop.cpp:88-91 | every connection goes through the dispatch of its own event and no other, a reported wake-up is drained and listened for again, other channels register again, and only reported connections can leave the tables |
| ServerLoop.ExpiryPhase | EventLoop.cpp:96-97 | the sweep closes no connection before a look has seen its deadline come, leaves none that is overdue at the last look, and changes no other; nothing due stays in the heap, the task queue is untouched and the wake-up channel registered |
| ServerLoop.Iterate | EventLoop.cpp:84-97 | one iteration moves each connection by its tick, registers each arrival with a free descriptor and nothing else, leaves nothing due in the heap, and is a run of the task protocol that begins with the poll and answers a reported wake-up |
| ServerLoop.Loop | EventLoop.cpp:79-99 | any number of iterations, whatever kernel, peers, other threads and clock do: the invariants are kept, each connection has lived through what was reported for it and the sweeps and nothing else, every old and new one is closed exactly when it is out of the tables and then once, and no wake-up is lost |
| ServerLoop.RunArrivals | EventLoop.cpp:144-147 | each arrival with a free positive descriptor is registered with a fresh connection in its first state, and nothing else changes |
| ServerLoop.AdmittedExact | HttpData.cpp:302-306 | the arrivals registered are, for each free positive descriptor, the first one |
| ServerLoop.LivesServedRight | EventLoop.cpp:79-99 | repaired, every connection accepted by the loop is served as one by itself: its requests are those of the stream heard, the peer has their answers in order, and while it is open these read back as their files |
| Lifecycle.LifeIsRun | EventLoop.cpp:79-99 | what the loop does to a connection is a run over the rounds reported for it, all of them while it is open |
| Lifecycle.ServedInOrder | HttpData.cpp:73-274 | so what holds of a connection by itself holds of it in the server |
| Lifecycle.OnTimeExact | Timer.cpp:57-79 | with a clock that does not go back, a sweep on time closes exactly the connections that are overdue at its last look |
| Lifecycle.OverdueOnTime | Timer.cpp:12-41 | a connection armed at a real time, its deadline not crossing the period, is overdue at a look if and only if its timeout has passed |
| Lifecycle.ActiveStays | HttpData.cpp:202-240 | a connection just dispatched survives a sweep if and only if its timeout, long with keep-alive, has not passed since then |
| Lifecycle.AcceptedStays | HttpData.cpp:302-306 | the same for one just accepted |
| Lifecycle.QuietUntilDue | Timer.cpp:57-79 | over any number of iterations a connection for which nothing is reported stays as it is until the first sweep that looks at its deadline or later closes it |
| TaskQueue.NoLostWakeUp | EventLoop.cpp:122-149 | in every run, a loop about to block on a non-empty queue has a ready eventfd or a producer between push and wake; that the loop's own iterations are such runs is ServerLoop.Loop |
| TaskQueue.AnsweredOnce | EventLoop.h:53-64 | a wake-up that is answered is used up: the counter is empty |
| TaskQueue.ExactlyOnceInOrder | EventLoop.cpp:122-149 | in every run, executed, batch and pending together are the tasks in lock order |
| TaskQueue.RunsOnlyItsSnapshot | EventLoop.cpp:136-149 | until the run ends, only tasks queued before the swap are executed, and at its end all of them |
| TaskQueue.ExpiryMustNotQueue | EventLoop.cpp:96-97 | a task queued in the expiry phase would be slept on |
| EventLoop.EventLoop.WakeUp | EventLoop.h:44-52 | the counter rises and the descriptor is ready |
| EventLoop.EventLoop.HandleConn | EventLoop.h:61-64 | re-arming finds what is still in the counter |
| EventLoop.EventLoop.Producers | EventLoop.cpp:122-134 | the steps of other threads, exactly those that are possible, are a run of the protocol |
| EventLoop.EventLoop.QueueInLoop | EventLoop.cpp:122-134 | a run of the protocol; on return the task is last in the queue and, inside a functor, announced |
| EventLoop.EventLoop.DoPendingFunctors | EventLoop.cpp:136-149 | a run of the protocol that executes exactly the snapshot in order; exactly what is queued meanwhile is pending afterwards |
| LogProtocol.AppendExact | log/AsyncLogging.cpp:24-47 | an append is dropped if and only if its length equals the room left or is at least a whole buffer; otherwise it ends the current buffer |
| LogProtocol.EqualRoomSticks | log/AsyncLogging.cpp:27-29 | when the room equals a message's length, any number of such messages changes nothing |
| LogProtocol.Conservation | log/AsyncLogging.cpp:60-115 | for every interleaving, file, rest of batch, waiting buffers and current buffer are the accepted messages in order; buffers stay below capacity |
| LogProtocol.FailsExactly | log/AsyncLogging.cpp:24-116 | a step fails if and only if it is an append once the drain has begun, the overload test on a batch of one or the wrong refill without a spare |
| LogProtocol.RecyclingNeverFails | log/wanju/FileUtil.cpp:138-194 | for every interleaving of the prototype both refills succeed; with the intended overload test no step fails but an append once the drain has begun |
| LogProtocol.RefillsSucceed | log/wanju/FileUtil.cpp:173-191 | both refills find a buffer after the trim and the cut to two |
| LogProtocol.InstalledRecycleExact | log/AsyncLogging.cpp:97-112 | the installed copy fails in a round if and only if its swap found the reserve buffer used up |
| LogProtocol.InstalledFailureReachable | log/AsyncLogging.cpp:97-112 | from the start, any two messages that do not fit one buffer together make it fail in the first round |
| LogProtocol.ShutdownDrains | log/AsyncLogging.cpp:116-127 | when the writer is done without overload the file is exactly what was accepted |
| LogProtocol.DrainEnds | log/AsyncLogging.cpp:116-127 | the drain reaches its end by itself, and every append that comes in it fails |
| LogProtocol.LateAppendReachable | log/AsyncLogging.cpp:116 | from the start, stop and the loop test lead to the state in which every append fails |
| LogProtocol.TrimLoses | log/AsyncLogging.cpp:78-81 | what the overload drop takes out of the stream |
| LogProtocol.OverloadFailureReachable | log/AsyncLogging.cpp:78-81 | from the start, for every message length that does not divide the buffer size, a run of accepted messages in which the overload test as written erases behind the end |
| LogBuffer.FixedBuffer.Append | log/LogStream.h:21-28 | the array gains the message, or nothing when it would fill the buffer |
| LogBuffer.Pool.Put | log/LogStream.h:21-28 | among all buffers only the one written to changes |
| LogFile.WrittenExact | log/FileUtil.cpp:24-41 | everything is written if and only if no retry with bytes left comes back with nothing |
| LogFile.ProgressNeverFails | log/FileUtil.cpp:24-41 | a file that always takes something takes everything |
| LogFile.FileUtil.Append | log/FileUtil.cpp:24-41 | the retry loop appends exactly the prefix the schedule lets through |
| LogFile.LogFile.Append | log/LogFile.cpp:25-34 | an append flushes if and only if the counter reaches flushEveryN; never that many or more are unflushed between calls |
| AsyncLogging.AsyncLogging.Append | log/wanju/FileUtil.cpp:114-136 | on buffer objects, the append step of the protocol |
| AsyncLogging.AsyncLogging.Swap | log/wanju/FileUtil.cpp:150-163 | on buffer objects, the swap step of the protocol |
| AsyncLogging.AsyncLogging.Recycle | log/wanju/FileUtil.cpp:173-193 | on buffer objects, both refills, the batch emptied, and the file flushed |
| AsyncLogging.AsyncLogging.DrainEnd | log/wanju/FileUtil.cpp:207-208 | the last list is cleared and the file flushed |
| AsyncLogging.AsyncLogging.WriteOne | log/wanju/FileUtil.cpp:169-172 | one buffer through the short-write loop |
| AsyncLogging.AsyncLogging.PlacesOwn | log/wanju/FileUtil.cpp:138-194 | no buffer object is held in two places |
| AsyncLogging.AsyncLogging.PerformAll | log/wanju/FileUtil.cpp:114-208 | any interleaving that does not fail is a run of the protocol on unaliased buffers; whenever the writer stands at the start of a round or is done, all it has written is flushed; at the end the file is what was accepted |

## Left out

- Sockets, accept loop, fcntl, signals (Acceptor.cpp, first half of base/Util.cpp): system-call plumbing; an accepted connection is an `Arrival`.
- `readn` into a fixed buffer (base/Util.cpp:137-179): only drains the eventfd; an atomic step.
- Locks, conditions, threads, latches: locked sections are atomic steps and waits may end at any time.
- Round robin over loops in EventLoopThreadPool.cpp: a counter modulo the number of loops, on which nothing here depends.
- The 4096-byte buffer that `handleError` prints its page into: both parts of either page are far shorter.
- POST bodies: the branch is empty in the code; such a connection only collects text.
- stat, open, mmap: a map from path to contents and readability, the size being that of the contents.
- Overflow of the 64-bit eventfd counter, failure of `epoll_ctl`, `epoll_wait` interrupted by a signal.
- Channel objects: a Channel and the HttpData it belongs to are one object; wake-up and accept channels have no HttpData.
- Reference counts: a connection is kept alive by the entry in `httpdatas_`, which the invariant shows to be there during its handlers; the count itself is not modelled.
- The inside of `priority_queue`: a set of nodes from which a least one is taken.
- Tasks other than `newEvent`: an executed task of the loop is a hand-over; what tasks queue while they run is arbitrary.
- The kernel's rules for masks: epoll may report any tested bit for a registered descriptor, a superset of what EPOLLET and EPOLLONESHOT allow.
- Floating-point formatting, time stamps, console output, log levels.
- AsyncLogging.AsyncLogging.Open: allocates the logger's two buffers and the writer's two spares right after the constructor, not inside it and `threadFunc`.
- AsyncLogging.AsyncLogging.PerformAll: runs with a failing step (the undefined erase of the overload test, an append on the null pointer) are excluded; which steps fail is said by FailsExactly.
