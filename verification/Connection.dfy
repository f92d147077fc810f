/**
  One connection of the server as a value, with the handlers of HttpData.cpp and the dispatch of
  Channel.cpp as functions. The last six fields are histories: bytes that went out through
  `outBuffer_`, bytes read, requests analysed, all bytes the peer was sent, what went out of each error
  page, and whether no write of `outBuffer_` has failed after taking some of it.
 */
module Connection {
  import opened Text
  import opened Wrappers
  import opened SocketIo
  import opened HttpParser
  import opened HttpResponse

  datatype Flag = EPOLLIN | EPOLLPRI | EPOLLOUT | EPOLLERR | EPOLLHUP | EPOLLRDHUP | EPOLLET | EPOLLONESHOT
  type Mask = set<Flag>

  const DEFAULT_EVENT: Mask := {EPOLLIN, EPOLLET, EPOLLONESHOT}

  datatype ConnectionState = Connected | Disconnecting | Disconnected

  datatype Conn = Conn(
    parser: Parser,
    outBuffer: string,
    error: bool,
    keepAlive: bool,
    connection: ConnectionState,
    events: Mask,
    wire: string,
    heard: string,
    served: seq<Request>,
    peer: string,
    pages: seq<string>,
    intact: bool)
  {
    /** Between handler calls a connection without error waits for input. */
    predicate Steady() { (!error && connection.Connected? ==> parser.Waiting()) && Rooted(parser.url) }
  }

  /** What the kernel will answer to the reads and writes of one handler call. */
  datatype Env = Env(input: seq<ReadOutcome>, output: seq<WriteOutcome>)
  {
    predicate OrderlyWrites() { Orderly(output) }
  }

  /** `handleWrite`. Its test of a `size_t` against 0 never holds, so a fatal write goes unnoticed. */
  function Write(c: Conn, env: Env): (Conn, Env) {
    if c.outBuffer == "" || c.error || c.connection.Disconnected? then (c, env)
    else
      var sent := Send(env.output, c.outBuffer);
      var out := if sent.failed then c.outBuffer else c.outBuffer[|sent.bytes|..];
      (c.(outBuffer := out, wire := c.wire + sent.bytes, events := if out != "" then c.events + {EPOLLOUT} else {},
          peer := c.peer + sent.bytes, intact := c.intact && !FatalAfterProgress(env.output, c.outBuffer)),
       env.(output := sent.rest))
  }

  /** `readn` into `inBuffer_`; its `size_t` result is looked at as an `int`. */
  function Fill(c: Conn, env: Env): (Conn, Env) {
    var r := Receive(env.input);
    var n := if r.failed then FAILURE else |r.bytes|;
    (c.(parser := c.parser.Plus(r.bytes), heard := c.heard + r.bytes, error := c.error || ToInt32(n) < 0),
     env.(input := r.rest))
  }

  function ReadFails(env: Env): bool {
    var r := Receive(env.input);
    ToInt32(if r.failed then FAILURE else |r.bytes|) < 0
  }

  /** A read fails when `readn` does, or when it brings so much that the `int` turns negative. */
  lemma ReadFailsExact(env: Env)
    ensures var r := Receive(env.input); ReadFails(env) <==> r.failed || |r.bytes| % 0x1_0000_0000 >= 0x8000_0000
  {}

  /** The states of the protocol from the request line to the answer. */
  function Process(v: Variant, files: Files, c: Conn): Conn {
    var (d, q) := Pass(v, c.parser);
    match d
    case NeedMore => c.(parser := q)
    case AwaitBody => c.(parser := q)
    case BadRequest => c.(parser := q, error := true)
    case Undefined => c.(parser := q, error := true)
    case Complete => Finished(c.(parser := q), Analyse(files, q.Current(), c.outBuffer))
  }

  /** The analysis of a complete request is over. */
  function Finished(c: Conn, a: Analysed): Conn {
    var r := c.parser.Current();
    c.(parser := if a.ok then c.parser.(state := StateFinish) else c.parser,
       outBuffer := a.out,
       keepAlive := c.keepAlive || (!r.verb.POST? && WantsKeepAlive(r.headers)),
       error := c.error || !a.ok,
       served := c.served + [r])
  }

  /** Sending, and what comes next: true when `handleRead` calls itself on what is left. */
  function Settle(c: Conn, env: Env): (Conn, Env, bool) {
    if c.error || !c.connection.Connected? then (c, env, false)
    else
      var (d, env') := Write(c, env);
      if d.parser.state.StateFinish? then
        var d' := d.(parser := d.parser.Reset(), error := false);
        (d', env', d'.parser.inBuffer != "")
      else (d.(events := d.events + {EPOLLIN}), env', false)
  }

  /** `handleError`: the page goes straight to the descriptor, as far as the kernel takes it. */
  function Complain(c: Conn, page: Page, env: Env): (Conn, Env) {
    var head := Send(env.output, PageHead(page));
    var body := Send(head.rest, PageBody(page));
    var cut := head.bytes + body.bytes;
    (c.(pages := c.pages + [cut], peer := c.peer + cut), env.(output := body.rest))
  }

  /** The page that goes with an error found in a pass, if there is one. */
  function Complaint(v: Variant, files: Files, c: Conn): Option<Page> {
    var (d, q) := Pass(v, c.parser);
    if d.BadRequest? then Some(BAD_REQUEST)
    else if d.Complete? && !q.verb.POST? && !Analyse(files, q.Current(), c.outBuffer).ok then Some(NOT_FOUND)
    else None
  }

  /** The page that is sent, if any. */
  function PageFor(v: Variant, files: Files, c: Conn, env: Env): Option<Page> {
    if ReadFails(env) then Some(BAD_REQUEST) else Complaint(v, files, Fill(c, env).0)
  }

  /** The reading half of `handleRead`, but for the page. */
  function Digested(v: Variant, files: Files, c: Conn, env: Env): Conn {
    var f := Fill(c, env).0;
    if ReadFails(env) then f else Process(v, files, f)
  }

  /** The reading half of `handleRead`: the body of its do-while(false). */
  function Digest(v: Variant, files: Files, c: Conn, env: Env): (Conn, Env) {
    var (f, env') := Fill(c, env);
    var page, p := PageFor(v, files, c, env), Digested(v, files, c, env);
    if page.Some? then Complain(p, page.value, env') else (p, env')
  }

  /** `handleRead` up to its recursive call. */
  function Turn(v: Variant, files: Files, c: Conn, env: Env): (Conn, Env, bool) {
    var (d, env') := Digest(v, files, c, env);
    Settle(d, env')
  }

  /** A page comes with an error and touches nothing but the descriptor. */
  lemma DigestFrame(v: Variant, files: Files, c: Conn, env: Env)
    ensures var p := Digested(v, files, c, env); var (d, env') := Digest(v, files, c, env);
      && d == p.(pages := d.pages, peer := d.peer) && env'.input == Fill(c, env).1.input
      && (!p.error ==> d == p && env' == Fill(c, env).1)
  {
    var page := PageFor(v, files, c, env);
    if page.Some? {
      PageIsError(v, files, c, env);
      ComplainFrame(Digested(v, files, c, env), page.value, Fill(c, env).1);
    }
  }

  function Work(c: Conn, env: Env): nat { Undelivered(env.input) + |c.parser.inBuffer| }

  /** A request that was answered: the protocol is at its end and has used up some of the buffer. */
  lemma ProcessEnds(v: Variant, files: Files, c: Conn)
    requires c.Steady() && c.connection.Connected? && !Process(v, files, c).error
    ensures var d := Process(v, files, c);
      if d.parser.Waiting() then d.outBuffer == c.outBuffer
      else d.parser.state.StateFinish? && d.outBuffer != "" && (d.parser.inBuffer != "" ==> |d.parser.inBuffer| < |c.parser.inBuffer|)
  {
    var (verdict, q) := Pass(v, c.parser);
    if verdict.Complete? { AnalyseExact(files, q.Current(), c.outBuffer); }
  }

  lemma ProcessKeeps(v: Variant, files: Files, c: Conn)
    requires c.Steady() && c.connection.Connected?
    ensures var d := Process(v, files, c);
      && Rooted(d.parser.url) && d.connection == c.connection && d.events == c.events
      && d.wire == c.wire && d.heard == c.heard && (c.error ==> d.error)
      && |d.parser.inBuffer| <= |c.parser.inBuffer|
      && (!d.error && !d.parser.Waiting() ==>
            d.parser.state.StateFinish? && d.outBuffer != "" && (d.parser.inBuffer != "" ==> |d.parser.inBuffer| < |c.parser.inBuffer|))
      && (!d.error && d.parser.Waiting() ==> d.outBuffer == c.outBuffer)
  {
    ProcessRooted(v, files, c);
    if !Process(v, files, c).error { ProcessEnds(v, files, c); }
  }

  lemma SettleFrame(c: Conn, env: Env)
    ensures var (d, env', again) := Settle(c, env);
      && d.connection == c.connection && d.heard == c.heard && d.served == c.served && d.pages == c.pages
      && d.error == c.error && env'.input == env.input
  {}

  lemma SettleKeeps(c: Conn, env: Env)
    requires Rooted(c.parser.url) && (!c.error && c.connection.Connected? ==> c.parser.Waiting() || c.parser.state.StateFinish?)
    ensures var (d, env', again) := Settle(c, env);
      && d.Steady() && d.heard == c.heard && d.served == c.served && env'.input == env.input
      && d.parser.inBuffer == c.parser.inBuffer && d.error == c.error
      && (again ==> c.parser.state.StateFinish? && d.parser.inBuffer != "" && !d.error)
  {
  }

  lemma FillFrame(c: Conn, env: Env)
    requires c.Steady()
    ensures var (f, env') := Fill(c, env);
      && f.Steady() && (c.error ==> f.error) && (ReadFails(env) ==> f.error)
      && f == c.(parser := f.parser, heard := f.heard, error := f.error) && Work(f, env') <= Work(c, env)
  {}

  lemma DigestKeeps(v: Variant, files: Files, c: Conn, env: Env)
    requires c.Steady()
    ensures var d := Digest(v, files, c, env).0; var f := Fill(c, env).0;
      && d.connection == c.connection && Rooted(d.parser.url)
      && (!d.error && d.connection.Connected? ==> !ReadFails(env) && (d.parser.Waiting() || d.parser.state.StateFinish?))
      && (!d.error && d.connection.Connected? && d.parser.state.StateFinish? && d.parser.inBuffer != "" ==>
            |d.parser.inBuffer| < |f.parser.inBuffer|)
  {
    var f := Fill(c, env).0;
    FillFrame(c, env);
    DigestFrame(v, files, c, env);
    ProcessRooted(v, files, f);
    if !ReadFails(env) && c.connection.Connected? { ProcessKeeps(v, files, f); }
  }

  lemma ProcessRooted(v: Variant, files: Files, c: Conn)
    requires Rooted(c.parser.url)
    ensures Rooted(Process(v, files, c).parser.url) && Process(v, files, c).connection == c.connection
  {}

  lemma TurnDecreases(v: Variant, files: Files, c: Conn, env: Env)
    requires c.Steady()
    ensures var (d, env', again) := Turn(v, files, c, env);
      && d.Steady()
      && (again ==> !d.error && Work(d, env') < Work(c, env))
  {
    var (d, env') := Digest(v, files, c, env);
    FillFrame(c, env);
    DigestFrame(v, files, c, env);
    DigestKeeps(v, files, c, env);
    SettleKeeps(d, env');
  }

  /**
    `handleRead` with its recursion over pipelined requests. It ends for every finite stream: reaching
    the end of a request with input left has used up some of it.
   */
  function HandleRead(v: Variant, files: Files, c: Conn, env: Env): (r: (Conn, Env))
    requires c.Steady()
    ensures r.0.Steady()
    decreases Work(c, env)
  {
    TurnDecreases(v, files, c, env);
    var (d, env', again) := Turn(v, files, c, env);
    if again then HandleRead(v, files, d, env') else (d, env')
  }

  datatype Outcome = Update(timeout: nat) | Close | Ignore

  /** `handleConn`: register again with a new timer, or close. */
  function HandleConn(c: Conn): (Conn, Outcome) {
    if c.error || !c.connection.Connected? then (c, Close)
    else
      var events :=
        if c.events == {} then {EPOLLIN, EPOLLET}
        else (if {EPOLLIN, EPOLLOUT} <= c.events then {EPOLLOUT} else c.events) + {EPOLLET};
      (c.(events := events), Update(if c.keepAlive then KEEP_ALIVE_TIME else EXPIRED_TIME))
  }

  predicate HangUp(revents: Mask) { EPOLLHUP in revents && EPOLLIN !in revents }
  predicate Readable(revents: Mask) { EPOLLIN in revents || EPOLLPRI in revents || EPOLLRDHUP in revents }

  /** Some bit that `handleEvents` tests. */
  predicate Tested(revents: Mask) {
    EPOLLHUP in revents || EPOLLERR in revents || Readable(revents) || EPOLLOUT in revents
  }

  /** The two callbacks of `handleEvents` that run before `handleConn`; both are `handleRead`. */
  function Callbacks(v: Variant, files: Files, c: Conn, revents: Mask, env: Env): (r: (Conn, Env))
    requires c.Steady()
    ensures r.0.Steady()
  {
    var (d, env') := if Readable(revents) then HandleRead(v, files, c, env) else (c, env);
    if EPOLLOUT in revents then HandleRead(v, files, d, env') else (d, env')
  }

  /** `Channel::handleEvents`; no close and no error callback is ever installed. */
  function HandleEvents(v: Variant, files: Files, c: Conn, revents: Mask, env: Env): (r: (Conn, Outcome))
    requires c.Steady()
    ensures r.0.Steady()
  {
    if HangUp(revents) then (c.(events := {}), Ignore)
    else if EPOLLERR in revents then (c, Ignore)
    else HandleConn(Callbacks(v, files, c, revents, env).0)
  }

  datatype Round = Round(revents: Mask, env: Env)

  /** A connection through any number of dispatches; it is gone after the first `Close`. */
  function Run(v: Variant, files: Files, c: Conn, rounds: seq<Round>): (r: Conn)
    requires c.Steady()
    ensures r.Steady()
    decreases |rounds|
  {
    if rounds == [] then c
    else
      var (d, o) := HandleEvents(v, files, c, rounds[0].revents, rounds[0].env);
      if o.Close? then d else Run(v, files, d, rounds[1..])
  }

  function Start(verb: HttpMethod): (c: Conn)
    ensures c.Steady()
  {
    Conn(Fresh(verb), "", false, false, Connected, DEFAULT_EVENT, "", "", [], "", [], true)
  }

  // ---------------------------------------------------------------- never deaf

  /** Output is waited for exactly while there is some, and otherwise input; edge-triggered. */
  predicate Armed(c: Conn) { ListensFor(c.events, c) }

  predicate ListensFor(mask: Mask, c: Conn) {
    (EPOLLOUT in mask <==> c.outBuffer != "") && (EPOLLIN in mask <==> c.outBuffer == "") && EPOLLET in mask
  }

  /** What `handleRead` leaves for `handleConn`. */
  predicate Prepared(c: Conn) {
    && c.connection.Connected?
    && (c.outBuffer != "" ==> EPOLLOUT in c.events)
    && (c.outBuffer == "" ==> EPOLLOUT !in c.events && (c.events == {} || EPOLLIN in c.events))
  }

  /** The only thing a handler needs to find. */
  predicate NoIdleOutput(c: Conn) { c.connection.Connected? && (c.outBuffer == "" ==> EPOLLOUT !in c.events) }

  lemma TurnPrepares(v: Variant, files: Files, c: Conn, env: Env)
    requires c.Steady() && NoIdleOutput(c)
    ensures var (d, env', again) := Turn(v, files, c, env);
      && (d.error ==> d.connection.Connected?)
      && (!d.error ==> NoIdleOutput(d) && (!again ==> Prepared(d)))
  {
    var (d, env') := Digest(v, files, c, env);
    FillFrame(c, env);
    DigestFrame(v, files, c, env);
    if !ReadFails(env) { ProcessKeeps(v, files, Fill(c, env).0); }
    DigestKeeps(v, files, c, env);
    if !d.error { SettlePrepares(d, env'); }
    SettleFrame(d, env');
  }

  lemma SettlePrepares(c: Conn, env: Env)
    requires c.connection.Connected? && !c.error
    requires if c.parser.state.StateFinish? then c.outBuffer != "" else NoIdleOutput(c)
    ensures var (d, env', again) := Settle(c, env); NoIdleOutput(d) && (!again ==> Prepared(d))
  {}

  lemma {:induction false} ReadPrepares(v: Variant, files: Files, c: Conn, env: Env)
    requires c.Steady() && NoIdleOutput(c)
    ensures var d := HandleRead(v, files, c, env).0;
      && d.connection.Connected? && (!d.error ==> Prepared(d))
    decreases Work(c, env)
  {
    TurnDecreases(v, files, c, env);
    TurnPrepares(v, files, c, env);
    var (d, env', again) := Turn(v, files, c, env);
    if again { ReadPrepares(v, files, d, env'); }
  }

  lemma {:induction false} ReadKeepsError(v: Variant, files: Files, c: Conn, env: Env)
    requires c.Steady() && c.error
    ensures var d := HandleRead(v, files, c, env).0; d.error && d.connection == c.connection
  {
    TurnDecreases(v, files, c, env);
    DigestedFrame(v, files, c, env);
    DigestFrame(v, files, c, env);
    ProcessRooted(v, files, Fill(c, env).0);
  }

  lemma CallbacksPrepare(v: Variant, files: Files, c: Conn, revents: Mask, env: Env)
    requires c.Steady() && NoIdleOutput(c) && !c.error && (Readable(revents) || EPOLLOUT in revents)
    ensures var d := Callbacks(v, files, c, revents, env).0;
      && d.connection.Connected? && (!d.error ==> Prepared(d))
  {
    var r := if Readable(revents) then HandleRead(v, files, c, env) else (c, env);
    if Readable(revents) { ReadPrepares(v, files, c, env); }
    if EPOLLOUT in revents {
      if r.0.error { ReadKeepsError(v, files, r.0, r.1); } else { ReadPrepares(v, files, r.0, r.1); }
    }
  }

  /**
    A dispatch that reaches `handleConn` leaves the connection armed or, exactly on an error, closed. A
    hang-up without input empties its mask, an error bit leaves it alone; nothing else happens then.
   */
  lemma NeverDeafOnce(v: Variant, files: Files, c: Conn, revents: Mask, env: Env)
    requires c.Steady() && NoIdleOutput(c) && !c.error && Tested(revents)
    ensures var (d, o) := HandleEvents(v, files, c, revents, env);
      && (o.Update? ==> !d.error && Armed(d) && NoIdleOutput(d))
      && (o.Close? <==> d.error)
      && (o.Ignore? <==> EPOLLERR in revents || (EPOLLHUP in revents && EPOLLIN !in revents))
      && (o.Ignore? ==> d == (if HangUp(revents) then c.(events := {}) else c) && NoIdleOutput(d))
  {
    if !HangUp(revents) && EPOLLERR !in revents { CallbacksPrepare(v, files, c, revents, env); }
  }

  predicate AllTested(rounds: seq<Round>) { forall i | 0 <= i < |rounds| :: Tested(rounds[i].revents) }

  lemma {:induction false} RunKeeps(v: Variant, files: Files, c: Conn, rounds: seq<Round>)
    requires c.Steady() && NoIdleOutput(c) && !c.error && AllTested(rounds)
    ensures var d := Run(v, files, c, rounds); !d.error ==> NoIdleOutput(d)
    decreases |rounds|
  {
    if rounds != [] {
      NeverDeafOnce(v, files, c, rounds[0].revents, rounds[0].env);
      var (d, o) := HandleEvents(v, files, c, rounds[0].revents, rounds[0].env);
      if !o.Close? { RunKeeps(v, files, d, rounds[1..]); }
    }
  }

  /** After any history a dispatch that reaches `handleConn` leaves a non-empty, fitting mask or closes on an error. */
  lemma NeverDeaf(v: Variant, files: Files, verb: HttpMethod, rounds: seq<Round>, last: Round)
    requires AllTested(rounds) && Tested(last.revents)
    ensures var c := Run(v, files, Start(verb), rounds);
      var (d, o) := HandleEvents(v, files, c, last.revents, last.env);
      !c.error ==>
        && (o.Close? <==> d.error) && (o.Update? ==> Armed(d))
        && (o.Ignore? <==> EPOLLERR in last.revents || (EPOLLHUP in last.revents && EPOLLIN !in last.revents))
  {
    RunKeeps(v, files, Start(verb), rounds);
    var c := Run(v, files, Start(verb), rounds);
    if !c.error { NeverDeafOnce(v, files, c, last.revents, last.env); }
  }

  // ---------------------------------------------------------------- from stream to answers

  function Next(p: Parser): Parser { if p.state.StateFinish? then p.Reset() else p }

  /** What was heard of the stream `t` is accounted for: the requests of `t` are those served and those to come. */
  predicate Stream(verb: HttpMethod, c: Conn, t: string) {
    && c.heard <= t && Next(c.parser).Waiting()
    && ParseAll(Repaired, Fresh(verb).Plus(t)) == ParseAll(Repaired, Next(c.parser).Plus(t[|c.heard|..])).After(c.served)
  }

  /**
    While no write has failed half-way, what went out and what is still to go out are the answers, in
    order; afterwards there is too much of it.
   */
  predicate Answered(files: Files, c: Conn) {
    && AllServed(files, c.served)
    && if c.intact then c.wire + c.outBuffer == Responses(files, c.served)
       else |c.wire| + |c.outBuffer| > |Responses(files, c.served)|
  }

  lemma HearMore(verb: HttpMethod, c: Conn, b: string, t: string)
    requires Stream(verb, c, t) && c.parser.Waiting() && c.heard + b <= t
    ensures Stream(verb, c.(parser := c.parser.Plus(b), heard := c.heard + b), t)
  {
    LaterText(c.heard, b, t);
    PlusPlus(c.parser, b, t[|c.heard + b|..]);
  }

  lemma LaterText(heard: string, b: string, t: string)
    requires heard + b <= t
    ensures heard <= t && t[|heard|..] == b + t[|heard + b|..]
  {}

  lemma FillStream(verb: HttpMethod, c: Conn, env: Env, t: string)
    requires Stream(verb, c, t) && c.parser.Waiting() && Fill(c, env).0.heard <= t
    ensures Stream(verb, Fill(c, env).0, t)
  {
    HearMore(verb, c, Receive(env.input).bytes, t);
  }

  lemma PassNext(p: Parser, x: string)
    requires p.Waiting()
    ensures var (d, q) := Pass(Repaired, p);
      && (d.NeedMore? || d.AwaitBody? ==> ParseAll(Repaired, p.Plus(x)) == ParseAll(Repaired, q.Plus(x)))
      && (d.Complete? ==> ParseAll(Repaired, p.Plus(x)) == ParseAll(Repaired, q.Reset().Plus(x)).After([q.Current()]))
  {
    PassResume(p, x);
    var (d, q) := Pass(Repaired, p);
    if d.Complete? {
      assert q.Plus(x).Reset() == q.Reset().Plus(x);
      if q.Plus(x).inBuffer == "" {
        assert q.inBuffer == "";
        ParseAllEmpty(p, q, x);
      } else {
        ParseAllStep(Repaired, p.Plus(x), q.Plus(x));
      }
    } else if d.NeedMore? || d.AwaitBody? {
      ParseAllSame(q.Plus(x), p.Plus(x));
      AfterNone(ParseAll(Repaired, q.Plus(x)));
    }
  }

  lemma AfterNone(r: Parsed)
    ensures r.After([]) == r
  {
    assert [] + r.requests == r.requests;
  }

  /** A step that serves `done` and leaves the parser where the rest of the stream parses on. */
  lemma StreamMoves(verb: HttpMethod, c: Conn, d: Conn, t: string, done: seq<Request>)
    requires Stream(verb, c, t) && d.heard == c.heard && Next(d.parser).Waiting() && d.served == c.served + done
    requires var x := t[|c.heard|..];
      ParseAll(Repaired, Next(c.parser).Plus(x)) == ParseAll(Repaired, Next(d.parser).Plus(x)).After(done)
    ensures Stream(verb, d, t)
  {
    AfterAfter(ParseAll(Repaired, Next(d.parser).Plus(t[|c.heard|..])), c.served, done);
  }

  lemma ProcessStream(verb: HttpMethod, files: Files, c: Conn, t: string)
    requires Stream(verb, c, t) && c.parser.Waiting() && !Process(Repaired, files, c).error
    ensures Stream(verb, Process(Repaired, files, c), t)
  {
    var x := t[|c.heard|..];
    var (d, q) := Pass(Repaired, c.parser);
    PassNext(c.parser, x);
    if d.Complete? {
      ProcessCompletes(files, c);
      StreamMoves(verb, c, Process(Repaired, files, c), t, [q.Current()]);
    } else {
      ProcessWaits(files, c);
      AfterNone(ParseAll(Repaired, q.Plus(x)));
      StreamMoves(verb, c, Process(Repaired, files, c), t, []);
    }
  }

  lemma ProcessWaits(files: Files, c: Conn)
    requires c.parser.Waiting() && !Pass(Repaired, c.parser).0.Complete? && !Process(Repaired, files, c).error
    ensures var (d, q) := Pass(Repaired, c.parser); var p := Process(Repaired, files, c);
      p.heard == c.heard && p.parser == q && Next(q) == q && q.Waiting() && p.served == c.served + []
      && (d.NeedMore? || d.AwaitBody?)
  {
    assert c.served + [] == c.served;
  }

  lemma ProcessCompletes(files: Files, c: Conn)
    requires Pass(Repaired, c.parser).0.Complete? && !Process(Repaired, files, c).error
    ensures var (d, q) := Pass(Repaired, c.parser); var p := Process(Repaired, files, c);
      p.heard == c.heard && Next(p.parser) == q.Reset() && p.served == c.served + [q.Current()]
  {}

  lemma AnswerOne(files: Files, c: Conn, d: Conn, r: Request)
    requires Answered(files, c) && Served(files, r) && d.served == c.served + [r] && d.intact == c.intact
    requires d.wire == c.wire && d.outBuffer == c.outBuffer + Response(files, r)
    ensures Answered(files, d)
  {
    ResponsesSnoc(files, c.served, r);
    Associative(c.wire, c.outBuffer, Response(files, r));
  }

  lemma ProcessAnswered(v: Variant, files: Files, c: Conn)
    requires Answered(files, c) && Rooted(c.parser.url) && c.parser.Waiting() && !Process(v, files, c).error
    ensures Answered(files, Process(v, files, c))
  {
    var (d, q) := Pass(v, c.parser);
    if d.Complete? {
      AnalyseExact(files, q.Current(), c.outBuffer);
      AnswerOne(files, c, Process(v, files, c), q.Current());
    }
  }

  /** From `c` to `d` bytes have moved from the buffer to the wire; when a write fails half-way some stay in both. */
  predicate Moves(c: Conn, d: Conn) {
    && (d.intact ==> c.intact && d.wire + d.outBuffer == c.wire + c.outBuffer)
    && |d.wire| + |d.outBuffer| >= |c.wire| + |c.outBuffer|
    && (c.intact && !d.intact ==> |d.wire| + |d.outBuffer| > |c.wire| + |c.outBuffer|)
  }

  /** Every `handleWrite` moves bytes from the buffer to the wire, nothing else. */
  lemma WriteMoves(c: Conn, env: Env)
    ensures var d := Write(c, env).0; Moves(c, d) && d.parser == c.parser && d.served == c.served && d.heard == c.heard
  {
    var sent := Send(env.output, c.outBuffer);
    FatalAfterProgressMeaning(env.output, c.outBuffer);
    if !sent.failed { assert c.wire + sent.bytes + c.outBuffer[|sent.bytes|..] == c.wire + (sent.bytes + c.outBuffer[|sent.bytes|..]); }
  }

  lemma MovesAnswered(files: Files, c: Conn, d: Conn)
    requires Answered(files, c) && Moves(c, d) && d.served == c.served
    ensures Answered(files, d)
  {}

  predicate Quiet(c: Conn) { c.parser.Waiting() && ParseAll(Repaired, c.parser).requests == [] }

  lemma SettleMoves(c: Conn, env: Env)
    ensures var (d, env', again) := Settle(c, env);
      && d.heard == c.heard && d.served == c.served && Next(d.parser) == Next(c.parser) && Moves(c, d)
      && (!again && c.parser.state.StateFinish? && !c.error && c.connection.Connected? ==> d.parser == Fresh(GET))
      && (!c.parser.state.StateFinish? ==> d.parser == c.parser)
  {
    WriteMoves(c, env);
  }

  lemma FreshQuiet(c: Conn)
    requires c.parser == Fresh(GET)
    ensures Quiet(c)
  {
    EmptyPasses();
  }

  lemma SettleStream(verb: HttpMethod, files: Files, c: Conn, env: Env, t: string)
    requires Stream(verb, c, t) && Answered(files, c) && c.connection.Connected? && !c.error
    requires c.parser.state.StateFinish? || Quiet(c)
    ensures var (d, env', again) := Settle(c, env);
      && Stream(verb, d, t) && Answered(files, d) && (!again ==> Quiet(d))
  {
    SettleMoves(c, env);
    var (d, env', again) := Settle(c, env);
    MovesAnswered(files, c, d);
    if !again && c.parser.state.StateFinish? { FreshQuiet(d); }
  }

  lemma ProcessQuiet(files: Files, c: Conn)
    requires c.parser.Waiting()
    ensures var d := Process(Repaired, files, c); !d.error ==> d.parser.state.StateFinish? || Quiet(d)
  {
    var (d, q) := Pass(Repaired, c.parser);
    PassNext(c.parser, "");
    PlusPlus(c.parser, "", "");
    PlusPlus(q, "", "");
  }

  lemma TurnStream(verb: HttpMethod, files: Files, c: Conn, env: Env, t: string)
    requires c.Steady() && !c.error && c.connection.Connected?
    requires Stream(verb, c, t) && Answered(files, c) && Fill(c, env).0.heard <= t
    ensures var (d, env', again) := Turn(Repaired, files, c, env);
      !d.error ==> Stream(verb, d, t) && Answered(files, d) && (!again ==> Quiet(d))
  {
    var (f, env') := Fill(c, env);
    DigestFrame(Repaired, files, c, env);
    FillStream(verb, c, env, t);
    if !ReadFails(env) {
      var p := Process(Repaired, files, f);
      ProcessKeeps(Repaired, files, f);
      if !p.error {
        ProcessStream(verb, files, f, t);
        ProcessAnswered(Repaired, files, f);
        ProcessQuiet(files, f);
        SettleStream(verb, files, p, env', t);
      }
    }
  }

  lemma {:induction false} ReadHears(v: Variant, files: Files, c: Conn, env: Env)
    requires c.Steady()
    ensures c.heard <= HandleRead(v, files, c, env).0.heard
    decreases Work(c, env)
  {
    TurnDecreases(v, files, c, env);
    TurnHears(v, files, c, env);
    var (d, env', again) := Turn(v, files, c, env);
    if again { ReadHears(v, files, d, env'); }
  }

  lemma DigestHears(v: Variant, files: Files, c: Conn, env: Env)
    ensures var d := Digest(v, files, c, env).0; var f := Fill(c, env).0;
      && d.connection == c.connection && d.heard == f.heard && c.heard <= d.heard
      && d.served == (if ReadFails(env) then c.served else Process(v, files, f).served) && c.served <= d.served
  {
    DigestFrame(v, files, c, env);
  }

  lemma TurnHears(v: Variant, files: Files, c: Conn, env: Env)
    requires c.Steady()
    ensures Turn(v, files, c, env).0.heard == Fill(c, env).0.heard && c.heard <= Fill(c, env).0.heard
  {
    DigestHears(v, files, c, env);
    SettleFrame(Digest(v, files, c, env).0, Digest(v, files, c, env).1);
  }

  lemma {:induction false} ReadStream(verb: HttpMethod, files: Files, c: Conn, env: Env, t: string)
    requires c.Steady() && !c.error && c.connection.Connected?
    requires Stream(verb, c, t) && Answered(files, c) && HandleRead(Repaired, files, c, env).0.heard <= t
    ensures var (d, env') := HandleRead(Repaired, files, c, env);
      !d.error ==> Stream(verb, d, t) && Answered(files, d) && Quiet(d) && d.connection.Connected?
    decreases Work(c, env)
  {
    ReadStreamStep(verb, files, c, env, t);
    var (d, env', again) := Turn(Repaired, files, c, env);
    if again { ReadStream(verb, files, d, env', t); }
  }

  lemma ReadStreamStep(verb: HttpMethod, files: Files, c: Conn, env: Env, t: string)
    requires c.Steady() && !c.error && c.connection.Connected?
    requires Stream(verb, c, t) && Answered(files, c) && HandleRead(Repaired, files, c, env).0.heard <= t
    ensures var (d, env', again) := Turn(Repaired, files, c, env); var h := HandleRead(Repaired, files, c, env);
      && d.Steady() && d.connection.Connected?
      && (!d.error ==> Stream(verb, d, t) && Answered(files, d))
      && (!d.error && !again ==> Quiet(d))
      && (again ==> !d.error && Work(d, env') < Work(c, env) && h == HandleRead(Repaired, files, d, env'))
      && (!again ==> h == (d, env'))
  {
    TurnDecreases(Repaired, files, c, env);
    TurnHears(Repaired, files, c, env);
    TurnConnected(Repaired, files, c, env);
    var (d, env', again) := Turn(Repaired, files, c, env);
    if again { ReadHears(Repaired, files, d, env'); }
    TurnStream(verb, files, c, env, t);
  }

  lemma TurnConnected(v: Variant, files: Files, c: Conn, env: Env)
    ensures Turn(v, files, c, env).0.connection == c.connection
  {
    DigestHears(v, files, c, env);
    SettleFrame(Digest(v, files, c, env).0, Digest(v, files, c, env).1);
  }

  lemma CallbacksStream(verb: HttpMethod, files: Files, c: Conn, revents: Mask, env: Env, t: string)
    requires c.Steady() && !c.error && c.connection.Connected? && Quiet(c)
    requires Stream(verb, c, t) && Answered(files, c) && Callbacks(Repaired, files, c, revents, env).0.heard <= t
    ensures var d := Callbacks(Repaired, files, c, revents, env).0;
      !d.error ==> Stream(verb, d, t) && Answered(files, d) && Quiet(d) && d.connection.Connected?
  {
    var (d, env') := if Readable(revents) then HandleRead(Repaired, files, c, env) else (c, env);
    if EPOLLOUT in revents { ReadHears(Repaired, files, d, env'); }
    if Readable(revents) { ReadStream(verb, files, c, env, t); }
    if EPOLLOUT in revents {
      if d.error { ReadKeepsError(Repaired, files, d, env'); } else { ReadStream(verb, files, d, env', t); }
    }
  }

  lemma {:induction false} RunHears(v: Variant, files: Files, c: Conn, rounds: seq<Round>)
    requires c.Steady()
    ensures c.heard <= Run(v, files, c, rounds).heard
    decreases |rounds|
  {
    if rounds != [] {
      var round := rounds[0];
      var (d, o) := HandleEvents(v, files, c, round.revents, round.env);
      CallbacksHear(v, files, c, round.revents, round.env);
      if !o.Close? { RunHears(v, files, d, rounds[1..]); }
    }
  }

  /** Every dispatch that is not ignored reads, also a writable one: it hears at least what the kernel delivers to one `readn`. */
  lemma DispatchReads(v: Variant, files: Files, c: Conn, revents: Mask, env: Env)
    requires c.Steady() && EPOLLERR !in revents && !(EPOLLHUP in revents && EPOLLIN !in revents)
    requires EPOLLIN in revents || EPOLLPRI in revents || EPOLLRDHUP in revents || EPOLLOUT in revents
    ensures c.heard + Receive(env.input).bytes <= HandleEvents(v, files, c, revents, env).0.heard
  {
    var (d, env') := HandleRead(v, files, c, env);
    ReadHearsAll(v, files, c, env);
    if Readable(revents) && EPOLLOUT in revents { ReadHears(v, files, d, env'); }
    HandleConnFrame(Callbacks(v, files, c, revents, env).0);
  }

  lemma ReadHearsAll(v: Variant, files: Files, c: Conn, env: Env)
    requires c.Steady()
    ensures c.heard + Receive(env.input).bytes <= HandleRead(v, files, c, env).0.heard
  {
    TurnDecreases(v, files, c, env);
    TurnHears(v, files, c, env);
    var (d, env', again) := Turn(v, files, c, env);
    if again { ReadHears(v, files, d, env'); }
  }

  lemma CallbacksHear(v: Variant, files: Files, c: Conn, revents: Mask, env: Env)
    requires c.Steady()
    ensures c.heard <= Callbacks(v, files, c, revents, env).0.heard
  {
    var (d, env') := if Readable(revents) then HandleRead(v, files, c, env) else (c, env);
    if Readable(revents) { ReadHears(v, files, c, env); }
    if EPOLLOUT in revents { ReadHears(v, files, d, env'); }
  }

  lemma {:induction false} RunStream(verb: HttpMethod, files: Files, c: Conn, rounds: seq<Round>, t: string)
    requires c.Steady() && !c.error && c.connection.Connected? && Quiet(c)
    requires Stream(verb, c, t) && Answered(files, c) && Run(Repaired, files, c, rounds).heard <= t
    ensures var d := Run(Repaired, files, c, rounds);
      !d.error ==> Stream(verb, d, t) && Answered(files, d) && Quiet(d)
    decreases |rounds|
  {
    if rounds != [] {
      var (revents, env) := (rounds[0].revents, rounds[0].env);
      var (d, o) := HandleEvents(Repaired, files, c, revents, env);
      if !o.Close? { RunHears(Repaired, files, d, rounds[1..]); }
      if !HangUp(revents) && EPOLLERR !in revents { CallbacksStream(verb, files, c, revents, env, t); }
      if !o.Close? { RunStream(verb, files, d, rounds[1..], t); }
    }
  }

  /**
    The whole connection, repaired: whatever the cuts of the input, the partial writes, the
    interruptions and the events, as long as no error ends it, the requests served are those of the
    stream heard. What was sent followed by what is still buffered are their answers exactly when no
    write has failed half-way, and then reads as exactly their files.
   */
  lemma EndToEnd(files: Files, verb: HttpMethod, rounds: seq<Round>)
    ensures var c := Run(Repaired, files, Start(verb), rounds);
      !c.error ==>
        && c.served == ParseAll(Repaired, Fresh(verb).Plus(c.heard)).requests
        && AllServed(files, c.served)
        && (c.intact <==> c.wire + c.outBuffer == Responses(files, c.served))
        && (c.intact ==> ReadBodies(c.wire + c.outBuffer, Verbs(c.served)) == Some(Bodies(files, c.served)))
  {
    var s, c := Start(verb), Run(Repaired, files, Start(verb), rounds);
    StartStream(verb, c.heard);
    StartQuiet(files, verb);
    RunStream(verb, files, s, rounds, c.heard);
    if !c.error {
      assert c.heard[|c.heard|..] == "";
      PlusPlus(c.parser, "", "");
      FramingRoundTrip(files, c.served);
      assert c.served + [] == c.served;
    }
  }

  // ---------------------------------------------------------------- runs that end in an error

  /** The requests that could be answered. */
  function Successes(files: Files, rs: seq<Request>): (r: seq<Request>)
    ensures AllServed(files, r)
  {
    if rs == [] then [] else (if Served(files, rs[0]) then [rs[0]] else []) + Successes(files, rs[1..])
  }

  lemma {:induction false} SuccessesSnoc(files: Files, rs: seq<Request>, r: Request)
    ensures Successes(files, rs + [r]) == Successes(files, rs) + if Served(files, r) then [r] else []
  {
    if rs == [] {
      assert rs + [r] == [r];
    } else {
      assert (rs + [r])[1..] == rs[1..] + [r];
      SuccessesSnoc(files, rs[1..], r);
    }
  }

  lemma {:induction false} SuccessesAll(files: Files, rs: seq<Request>)
    requires AllServed(files, rs)
    ensures Successes(files, rs) == rs
  {
    if rs != [] { SuccessesAll(files, rs[1..]); }
  }

  /** The peer has seen nothing but answers, in order; while there is no error, what is missing is buffered. */
  predicate OnlyAnswers(files: Files, c: Conn) {
    (c.intact ==> c.wire <= Responses(files, Successes(files, c.served))) && (!c.error ==> Answered(files, c))
  }

  lemma AnsweredIsPrefix(files: Files, c: Conn)
    requires Answered(files, c)
    ensures OnlyAnswers(files, c)
  {
    SuccessesAll(files, c.served);
  }

  lemma ServesMore(files: Files, wire: string, rs: seq<Request>, r: Request)
    requires wire <= Responses(files, Successes(files, rs))
    ensures wire <= Responses(files, Successes(files, rs + [r]))
  {
    SuccessesSnoc(files, rs, r);
    ResponsesAppend(files, Successes(files, rs), if Served(files, r) then [r] else []);
  }

  lemma ProcessFrame(v: Variant, files: Files, c: Conn)
    ensures var p := Process(v, files, c); var (d, q) := Pass(v, c.parser);
      && p.wire == c.wire && p.intact == c.intact && (c.error ==> p.error)
      && p.served == c.served + if d.Complete? then [q.Current()] else []
  {
    assert c.served + [] == c.served;
  }

  lemma ProcessOnlyAnswers(v: Variant, files: Files, c: Conn)
    requires OnlyAnswers(files, c) && c.Steady() && c.connection.Connected?
    ensures OnlyAnswers(files, Process(v, files, c))
  {
    var (d, q) := Pass(v, c.parser);
    var p := Process(v, files, c);
    ProcessFrame(v, files, c);
    if !p.error {
      ProcessAnswered(v, files, c);
      AnsweredIsPrefix(files, p);
    } else if d.Complete? && c.intact {
      ServesMore(files, c.wire, c.served, q.Current());
    } else {
      assert c.served + [] == c.served;
    }
  }

  lemma SettleOnlyAnswers(files: Files, c: Conn, env: Env)
    requires OnlyAnswers(files, c) && c.connection.Connected?
    ensures OnlyAnswers(files, Settle(c, env).0)
  {
    if !c.error {
      SettleMoves(c, env);
      MovesAnswered(files, c, Settle(c, env).0);
      AnsweredIsPrefix(files, Settle(c, env).0);
    }
  }

  /** A step that only hears or re-arms. */
  lemma SameAnswers(files: Files, c: Conn, d: Conn)
    requires OnlyAnswers(files, c) && d.wire == c.wire && d.served == c.served && d.outBuffer == c.outBuffer
    requires d.intact == c.intact && (c.error ==> d.error)
    ensures OnlyAnswers(files, d)
  {}

  lemma TurnOnlyAnswers(v: Variant, files: Files, c: Conn, env: Env)
    requires OnlyAnswers(files, c) && c.Steady() && c.connection.Connected?
    ensures OnlyAnswers(files, Turn(v, files, c, env).0)
  {
    var (d, env') := Digest(v, files, c, env);
    var f, p := Fill(c, env).0, Digested(v, files, c, env);
    FillFrame(c, env);
    DigestFrame(v, files, c, env);
    SameAnswers(files, c, f);
    if !ReadFails(env) {
      ProcessOnlyAnswers(v, files, f);
      ProcessRooted(v, files, f);
    }
    SameAnswers(files, p, d);
    SettleOnlyAnswers(files, d, env');
  }

  lemma {:induction false} ReadOnlyAnswers(v: Variant, files: Files, c: Conn, env: Env)
    requires OnlyAnswers(files, c) && c.Steady() && c.connection.Connected?
    ensures var (d, env') := HandleRead(v, files, c, env);
      OnlyAnswers(files, d) && d.connection.Connected?
    decreases Work(c, env)
  {
    TurnDecreases(v, files, c, env);
    TurnConnected(v, files, c, env);
    TurnOnlyAnswers(v, files, c, env);
    var (d, env', again) := Turn(v, files, c, env);
    if again { ReadOnlyAnswers(v, files, d, env'); }
  }

  lemma CallbacksOnlyAnswers(v: Variant, files: Files, c: Conn, revents: Mask, env: Env)
    requires OnlyAnswers(files, c) && c.Steady() && c.connection.Connected?
    ensures var d := Callbacks(v, files, c, revents, env).0; OnlyAnswers(files, d) && d.connection.Connected?
  {
    var (d, env') := if Readable(revents) then HandleRead(v, files, c, env) else (c, env);
    if Readable(revents) { ReadOnlyAnswers(v, files, c, env); }
    if EPOLLOUT in revents { ReadOnlyAnswers(v, files, d, env'); }
  }

  lemma HandleConnFrame(c: Conn)
    ensures HandleConn(c).0 == c.(events := HandleConn(c).0.events)
    ensures HandleConn(c).1 == if c.error || !c.connection.Connected? then Close else Update(if c.keepAlive then KEEP_ALIVE_TIME else EXPIRED_TIME)
  {}

  lemma WritableOnly(v: Variant, files: Files, c: Conn, env: Env)
    requires c.Steady()
    ensures HandleEvents(v, files, c, {EPOLLOUT}, env) == HandleConn(HandleRead(v, files, c, env).0)
  {
    assert Callbacks(v, files, c, {EPOLLOUT}, env) == HandleRead(v, files, c, env);
  }

  lemma ReadableAndWritable(v: Variant, files: Files, c: Conn, env: Env)
    requires c.Steady()
    ensures var (d, env') := HandleRead(v, files, c, env);
      HandleEvents(v, files, c, {EPOLLIN, EPOLLOUT}, env) == HandleConn(HandleRead(v, files, d, env').0)
  {
    var (d, env') := HandleRead(v, files, c, env);
    assert Callbacks(v, files, c, {EPOLLIN, EPOLLOUT}, env) == HandleRead(v, files, d, env');
  }

  lemma EventsOnlyAnswers(v: Variant, files: Files, c: Conn, revents: Mask, env: Env)
    requires OnlyAnswers(files, c) && c.Steady() && c.connection.Connected?
    ensures var d := HandleEvents(v, files, c, revents, env).0; OnlyAnswers(files, d) && d.connection.Connected?
  {
    var d := HandleEvents(v, files, c, revents, env).0;
    if HangUp(revents) || EPOLLERR in revents {
      SameAnswers(files, c, d);
    } else {
      CallbacksOnlyAnswers(v, files, c, revents, env);
      HandleConnFrame(Callbacks(v, files, c, revents, env).0);
      SameAnswers(files, Callbacks(v, files, c, revents, env).0, d);
    }
  }

  lemma {:induction false} RunOnlyAnswers(v: Variant, files: Files, c: Conn, rounds: seq<Round>)
    requires OnlyAnswers(files, c) && c.Steady() && c.connection.Connected?
    ensures OnlyAnswers(files, Run(v, files, c, rounds))
    decreases |rounds|
  {
    if rounds != [] {
      EventsOnlyAnswers(v, files, c, rounds[0].revents, rounds[0].env);
      var (d, o) := HandleEvents(v, files, c, rounds[0].revents, rounds[0].env);
      if !o.Close? { RunOnlyAnswers(v, files, d, rounds[1..]); }
    }
  }

  // ---------------------------------------------------------------- what the peer is sent

  ghost predicate CutOf(page: Page, s: string) {
    exists h, b :: 0 <= h <= |PageHead(page)| && 0 <= b <= |PageBody(page)| && s == PageHead(page)[..h] + PageBody(page)[..b]
  }

  /** As much of the head and of the body of an error page as the kernel took. */
  ghost predicate PageCut(s: string) { CutOf(BAD_REQUEST, s) || CutOf(NOT_FOUND, s) }

  /** The peer was sent what went through the buffer and then, after an error, at most `n` pages. */
  ghost predicate PeerSees(c: Conn, n: nat) {
    && c.peer == c.wire + Concat(c.pages)
    && |c.pages| <= n && (c.pages != [] ==> c.error)
    && AllCuts(c.pages)
  }

  ghost predicate AllCuts(pages: seq<string>) { forall i | 0 <= i < |pages| :: PageCut(pages[i]) }

  lemma CutsSnoc(pages: seq<string>, s: string)
    requires AllCuts(pages) && PageCut(s)
    ensures AllCuts(pages + [s])
  {}

  lemma ComplainCuts(c: Conn, page: Page, env: Env)
    ensures var d := Complain(c, page, env).0;
      exists s :: d == c.(pages := c.pages + [s], peer := c.peer + s) && CutOf(page, s)
  {
    var head := Send(env.output, PageHead(page));
    var body := Send(head.rest, PageBody(page));
    var h, b := |head.bytes|, |body.bytes|;
    var s := head.bytes + body.bytes;
    assert s == PageHead(page)[..h] + PageBody(page)[..b];
    assert CutOf(page, s);
    assert Complain(c, page, env).0 == c.(pages := c.pages + [s], peer := c.peer + s);
  }

  /** A kernel that takes all it is offered gets the whole page. */
  lemma PageWhole(c: Conn, page: Page, env: Env)
    requires |env.output| >= 2 && env.output[0].Took? && env.output[1].Took?
    requires env.output[0].count >= |PageHead(page)| && env.output[1].count >= |PageBody(page)|
    ensures var text := PageHead(page) + PageBody(page);
      Complain(c, page, env) == (c.(pages := c.pages + [text], peer := c.peer + text), env.(output := env.output[2..]))
  {
    var ws := env.output;
    TakenWhole(ws, PageHead(page));
    TakenWhole(ws[1..], PageBody(page));
    assert ws[1..][1..] == ws[2..];
  }

  lemma TakenWhole(ws: seq<WriteOutcome>, text: string)
    requires ws != [] && text != "" && ws[0].Took? && ws[0].count >= |text|
    ensures Send(ws, text) == Sent(text, false, ws[1..])
  {
    assert text[..|text|] + "" == text;
  }

  /** One more page at the end of an error. */
  lemma PeerPage(c: Conn, d: Conn, s: string, n: nat)
    requires PeerSees(c, n) && c.error && d == c.(pages := c.pages + [s], peer := c.peer + s) && PageCut(s)
    ensures PeerSees(d, n + 1)
  {
    ConcatSnoc(c.pages, s);
    CutsSnoc(c.pages, s);
    Associative(c.wire, Concat(c.pages), s);
  }

  lemma ComplainPeer(c: Conn, page: Page, env: Env, n: nat)
    requires PeerSees(c, n) && c.error && (page == BAD_REQUEST || page == NOT_FOUND)
    ensures PeerSees(Complain(c, page, env).0, n + 1)
  {
    ComplainCuts(c, page, env);
    var d := Complain(c, page, env).0;
    var s :| d == c.(pages := c.pages + [s], peer := c.peer + s) && CutOf(page, s);
    PeerPage(c, d, s, n);
  }

  lemma DigestedFrame(v: Variant, files: Files, c: Conn, env: Env)
    ensures var p := Digested(v, files, c, env);
      p.wire == c.wire && p.peer == c.peer && p.pages == c.pages && (c.error ==> p.error)
  {}

  lemma PageIsError(v: Variant, files: Files, c: Conn, env: Env)
    requires PageFor(v, files, c, env).Some?
    ensures Digested(v, files, c, env).error
    ensures PageFor(v, files, c, env).value == BAD_REQUEST || PageFor(v, files, c, env).value == NOT_FOUND
  {}

  /** Digesting adds no page, or one and an error. */
  lemma DigestPeer(v: Variant, files: Files, c: Conn, env: Env, n: nat)
    requires PeerSees(c, n)
    ensures var d := Digest(v, files, c, env).0; PeerSees(d, n + 1) && (!d.error ==> PeerSees(d, n))
  {
    var p := Digested(v, files, c, env);
    DigestedFrame(v, files, c, env);
    assert PeerSees(p, n);
    var page := PageFor(v, files, c, env);
    if page.Some? {
      PageIsError(v, files, c, env);
      ComplainPeer(p, page.value, Fill(c, env).1, n);
      ComplainFrame(p, page.value, Fill(c, env).1);
    }
  }

  lemma ComplainFrame(c: Conn, page: Page, env: Env)
    ensures var (d, env') := Complain(c, page, env); d == c.(pages := d.pages, peer := d.peer) && env'.input == env.input
  {}

  /** Nothing goes through the buffer once there is an error. */
  lemma SettlePeer(c: Conn, env: Env, n: nat)
    requires PeerSees(c, n)
    ensures PeerSees(Settle(c, env).0, n)
  {
    if !c.error {
      assert c.pages == [];
      assert c.wire + "" == c.wire;
      var d := Settle(c, env).0;
      assert d.wire + "" == d.wire;
    }
  }

  lemma {:induction false} ReadPeer(v: Variant, files: Files, c: Conn, env: Env, n: nat)
    requires c.Steady() && PeerSees(c, n)
    ensures var d := HandleRead(v, files, c, env).0; PeerSees(d, n + 1) && (!d.error ==> PeerSees(d, n))
    decreases Work(c, env)
  {
    TurnDecreases(v, files, c, env);
    TurnPeer(v, files, c, env, n);
    var (d, env', again) := Turn(v, files, c, env);
    if again { ReadPeer(v, files, d, env', n); }
  }

  lemma TurnPeer(v: Variant, files: Files, c: Conn, env: Env, n: nat)
    requires PeerSees(c, n)
    ensures var d := Turn(v, files, c, env).0; PeerSees(d, n + 1) && (!d.error ==> PeerSees(d, n))
  {
    var (d, env') := Digest(v, files, c, env);
    DigestPeer(v, files, c, env, n);
    SettlePeer(d, env', n + 1);
    if !d.error { SettlePeer(d, env', n); }
  }

  lemma CallbacksPeer(v: Variant, files: Files, c: Conn, revents: Mask, env: Env)
    requires c.Steady() && PeerSees(c, 0)
    ensures var d := Callbacks(v, files, c, revents, env).0; PeerSees(d, 2) && (!d.error ==> PeerSees(d, 0))
  {
    var (d, env') := if Readable(revents) then HandleRead(v, files, c, env) else (c, env);
    if Readable(revents) { ReadPeer(v, files, c, env, 0); }
    if EPOLLOUT in revents {
      ReadPeer(v, files, d, env', 1);
      if !d.error { ReadPeer(v, files, d, env', 0); }
    }
  }

  lemma EventsPeer(v: Variant, files: Files, c: Conn, revents: Mask, env: Env)
    requires c.Steady() && PeerSees(c, 0)
    ensures var d := HandleEvents(v, files, c, revents, env).0; PeerSees(d, 2) && (!d.error ==> PeerSees(d, 0))
  {
    if !HangUp(revents) && EPOLLERR !in revents {
      CallbacksPeer(v, files, c, revents, env);
      HandleConnFrame(Callbacks(v, files, c, revents, env).0);
    }
  }

  lemma {:induction false} RunPeer(v: Variant, files: Files, c: Conn, rounds: seq<Round>)
    requires c.Steady() && PeerSees(c, 0)
    ensures PeerSees(Run(v, files, c, rounds), 2)
    decreases |rounds|
  {
    if rounds != [] {
      EventsPeer(v, files, c, rounds[0].revents, rounds[0].env);
      var (d, o) := HandleEvents(v, files, c, rounds[0].revents, rounds[0].env);
      if !o.Close? { RunPeer(v, files, d, rounds[1..]); }
    }
  }

  /**
    Every run, as written or repaired, ending in an error or not: the peer is sent what went through
    the buffer and then, only after an error, at most two cut error pages. Unless a write failed
    half-way, what went through the buffer is a prefix of the answers to those of the served requests
    that could be answered.
   */
  lemma PeerIsSent(v: Variant, files: Files, verb: HttpMethod, rounds: seq<Round>)
    ensures var c := Run(v, files, Start(verb), rounds);
      && PeerSees(c, 2)
      && (c.intact ==> c.wire <= Responses(files, Successes(files, c.served)))
      && (!c.error ==> c.peer == c.wire && Answered(files, c))
  {
    RunOnlyAnswers(v, files, Start(verb), rounds);
    RunPeer(v, files, Start(verb), rounds);
    var c := Run(v, files, Start(verb), rounds);
    if !c.error { assert c.wire + "" == c.wire; }
  }

  /** A read that fails sends a page and ends the turn. */
  lemma ReadFailureComplains(v: Variant, files: Files, c: Conn, env: Env)
    requires c.Steady() && ReadFails(env)
    ensures var (d, env') := HandleRead(v, files, c, env);
      d.error && |d.pages| == |c.pages| + 1 && env'.input == Receive(env.input).rest
  {
    var (d, env') := Digest(v, files, c, env);
    DigestFrame(v, files, c, env);
    assert d.error;
  }

  lemma EofFails(rest: seq<ReadOutcome>, output: seq<WriteOutcome>)
    ensures ReadFails(Env([Eof] + rest, output)) && Receive([Eof] + rest).rest == rest
  {}

  /** Two pages really happen: the peer is gone, and the socket is readable and writable. */
  lemma TwoPages(v: Variant, files: Files, verb: HttpMethod, output: seq<WriteOutcome>)
    ensures |HandleEvents(v, files, Start(verb), {EPOLLIN, EPOLLOUT}, Env([Eof, Eof], output)).0.pages| == 2
  {
    var s, env := Start(verb), Env([Eof] + [Eof], output);
    assert [Eof, Eof] == [Eof] + [Eof];
    EofFails([Eof], output);
    ReadFailureComplains(v, files, s, env);
    var (d, env') := HandleRead(v, files, s, env);
    assert env'.input == [Eof] + [];
    EofFails([], env'.output);
    ReadFailureComplains(v, files, d, env');
    ReadableAndWritable(v, files, s, env);
    HandleConnFrame(HandleRead(v, files, d, env').0);
  }

  // ---------------------------------------------------------------- what the kernel gives and takes

  /** From `(c, env)` to `(d, env')` every byte delivered is heard once, and the peer gets no more than the kernel takes. */
  predicate Spends(c: Conn, env: Env, d: Conn, env': Env) {
    && c.heard + BytesOf(env.input) == d.heard + BytesOf(env'.input)
    && |d.peer| + Room(env'.output) <= |c.peer| + Room(env.output)
  }

  lemma SpendsOn(c: Conn, env: Env, d: Conn, env': Env, e: Conn, env'': Env)
    requires Spends(c, env, d, env') && Spends(d, env', e, env'')
    ensures Spends(c, env, e, env'')
  {}

  lemma FillSpends(c: Conn, env: Env)
    ensures var (f, env') := Fill(c, env); Spends(c, env, f, env')
  {
    ReceiveConserves(env.input);
    Associative(c.heard, Receive(env.input).bytes, BytesOf(Receive(env.input).rest));
  }

  lemma ComplainSpends(c: Conn, page: Page, env: Env)
    ensures var (d, env') := Complain(c, page, env); Spends(c, env, d, env')
  {
    SendSpends(env.output, PageHead(page));
    SendSpends(Send(env.output, PageHead(page)).rest, PageBody(page));
  }

  lemma DigestSpends(v: Variant, files: Files, c: Conn, env: Env)
    ensures var (d, env') := Digest(v, files, c, env); Spends(c, env, d, env')
  {
    var (f, env') := Fill(c, env);
    var page, p := PageFor(v, files, c, env), Digested(v, files, c, env);
    FillSpends(c, env);
    DigestedFrame(v, files, c, env);
    DigestHears(v, files, c, env);
    DigestFrame(v, files, c, env);
    assert Spends(c, env, p, env');
    if page.Some? {
      ComplainSpends(p, page.value, env');
      SpendsOn(c, env, p, env', Complain(p, page.value, env').0, Complain(p, page.value, env').1);
    }
  }

  lemma SettleSpends(c: Conn, env: Env)
    ensures var (d, env', again) := Settle(c, env); Spends(c, env, d, env')
  {
    SendSpends(env.output, c.outBuffer);
  }

  /** However often `handleRead` calls itself. */
  lemma {:induction false} ReadSpends(v: Variant, files: Files, c: Conn, env: Env)
    requires c.Steady()
    ensures var (d, env') := HandleRead(v, files, c, env); Spends(c, env, d, env')
    decreases Work(c, env)
  {
    TurnDecreases(v, files, c, env);
    var (p, env1) := Digest(v, files, c, env);
    var (d, env', again) := Turn(v, files, c, env);
    DigestSpends(v, files, c, env);
    SettleSpends(p, env1);
    SpendsOn(c, env, p, env1, d, env');
    if again {
      ReadSpends(v, files, d, env');
      var (e, env'') := HandleRead(v, files, d, env');
      SpendsOn(c, env, d, env', e, env'');
    }
  }

  /** Also when both callbacks of a dispatch run. */
  lemma CallbacksSpend(v: Variant, files: Files, c: Conn, revents: Mask, env: Env)
    requires c.Steady()
    ensures var (d, env') := Callbacks(v, files, c, revents, env); Spends(c, env, d, env')
  {
    var (d, env') := if Readable(revents) then HandleRead(v, files, c, env) else (c, env);
    if Readable(revents) { ReadSpends(v, files, c, env); }
    if EPOLLOUT in revents {
      ReadSpends(v, files, d, env');
      var (e, env'') := HandleRead(v, files, d, env');
      SpendsOn(c, env, d, env', e, env'');
    }
  }

  // ---------------------------------------------------------------- keep-alive

  /** The request asks to be kept: the condition of the code, for requests that are analysed so far. */
  predicate AsksToStay(r: Request) {
    !r.verb.POST? && "Connection" in r.headers && r.headers["Connection"] in {"keep-alive", "Keep-Alive"}
  }

  predicate KeptAlive(c: Conn) { c.keepAlive <==> exists i :: 0 <= i < |c.served| && AsksToStay(c.served[i]) }

  lemma KeptAliveOn(c: Conn, d: Conn, r: Request)
    requires KeptAlive(c) && d.served == c.served + [r] && d.keepAlive == (c.keepAlive || AsksToStay(r))
    ensures KeptAlive(d)
  {
    assert d.served[|c.served|] == r && forall i | 0 <= i < |c.served| :: d.served[i] == c.served[i];
  }

  lemma DigestKept(v: Variant, files: Files, c: Conn, env: Env)
    requires KeptAlive(c)
    ensures KeptAlive(Digest(v, files, c, env).0)
  {
    DigestFrame(v, files, c, env);
    var f := Fill(c, env).0;
    var (d, q) := Pass(v, f.parser);
    if !ReadFails(env) && d.Complete? { KeptAliveOn(f, Process(v, files, f), q.Current()); }
  }

  lemma TurnKept(v: Variant, files: Files, c: Conn, env: Env)
    requires KeptAlive(c)
    ensures KeptAlive(Turn(v, files, c, env).0)
  {
    DigestKept(v, files, c, env);
    SettleKept(Digest(v, files, c, env).0, Digest(v, files, c, env).1);
  }

  lemma SettleKept(c: Conn, env: Env)
    ensures var d := Settle(c, env).0; d.keepAlive == c.keepAlive && d.served == c.served
  {}

  lemma {:induction false} ReadKept(v: Variant, files: Files, c: Conn, env: Env)
    requires c.Steady() && KeptAlive(c)
    ensures KeptAlive(HandleRead(v, files, c, env).0)
    decreases Work(c, env)
  {
    TurnDecreases(v, files, c, env);
    TurnKept(v, files, c, env);
    var (d, env', again) := Turn(v, files, c, env);
    if again { ReadKept(v, files, d, env'); }
  }

  lemma EventsKept(v: Variant, files: Files, c: Conn, revents: Mask, env: Env)
    requires c.Steady() && KeptAlive(c)
    ensures KeptAlive(HandleEvents(v, files, c, revents, env).0)
  {
    if !HangUp(revents) && EPOLLERR !in revents {
      var (d, env') := if Readable(revents) then HandleRead(v, files, c, env) else (c, env);
      if Readable(revents) { ReadKept(v, files, c, env); }
      if EPOLLOUT in revents { ReadKept(v, files, d, env'); }
      HandleConnFrame(Callbacks(v, files, c, revents, env).0);
    }
  }

  /** After any history the long timeout is given exactly when some request so far has asked for it. */
  lemma {:induction false} RunKept(v: Variant, files: Files, c: Conn, rounds: seq<Round>)
    requires c.Steady() && KeptAlive(c)
    ensures KeptAlive(Run(v, files, c, rounds))
    decreases |rounds|
  {
    if rounds != [] {
      EventsKept(v, files, c, rounds[0].revents, rounds[0].env);
      var (d, o) := HandleEvents(v, files, c, rounds[0].revents, rounds[0].env);
      if !o.Close? { RunKept(v, files, d, rounds[1..]); }
    }
  }

  /** Two seconds, or five with keep-alive. */
  lemma TimeoutExact(v: Variant, files: Files, verb: HttpMethod, rounds: seq<Round>, last: Round)
    ensures var c := Run(v, files, Start(verb), rounds);
      var (d, o) := HandleEvents(v, files, c, last.revents, last.env);
      o.Update? ==> o.timeout == if exists i :: 0 <= i < |d.served| && AsksToStay(d.served[i]) then 5000 else 2000
  {
    RunKept(v, files, Start(verb), rounds);
    var c := Run(v, files, Start(verb), rounds);
    EventsKept(v, files, c, last.revents, last.env);
    if !HangUp(last.revents) && EPOLLERR !in last.revents { HandleConnFrame(Callbacks(v, files, c, last.revents, last.env).0); }
  }

  // ---------------------------------------------------------------- what the kernel listens for

  /** What holds of every connection between dispatches, whatever became of it. */
  ghost predicate Honest(files: Files, c: Conn) {
    OnlyAnswers(files, c) && PeerSees(c, 2) && (!c.error ==> PeerSees(c, 0))
  }

  /** One dispatch keeps it, and registers a mask that fits or leaves the one that does. */
  lemma EventsHonest(v: Variant, files: Files, c: Conn, revents: Mask, env: Env, mask: Mask)
    requires c.Steady() && NoIdleOutput(c) && !c.error && Tested(revents) && Honest(files, c) && ListensFor(mask, c)
    ensures var (d, o) := HandleEvents(v, files, c, revents, env);
      && Honest(files, d) && Honest(files, d.(connection := Disconnected))
      && (o.Update? ==> ListensFor(d.events, d))
      && (o.Ignore? ==> ListensFor(mask, d))
  {
    NeverDeafOnce(v, files, c, revents, env);
    EventsOnlyAnswers(v, files, c, revents, env);
    EventsPeer(v, files, c, revents, env);
    HonestElsewhere(files, HandleEvents(v, files, c, revents, env).0, Disconnected, c.events);
  }

  /** Neither closing nor the mask of the channel matters for it. */
  lemma HonestElsewhere(files: Files, c: Conn, s: ConnectionState, events: Mask)
    requires Honest(files, c)
    ensures Honest(files, c.(connection := s)) && Honest(files, c.(events := events))
  {
    SameAnswers(files, c, c.(connection := s));
    SameAnswers(files, c, c.(events := events));
  }

  lemma StartHonest(files: Files, verb: HttpMethod)
    ensures Honest(files, Start(verb)) && ListensFor(DEFAULT_EVENT, Start(verb))
  {}

  // ---------------------------------------------------------------- schedules that keep every write intact

  lemma SettleOrderly(c: Conn, env: Env)
    requires env.OrderlyWrites()
    ensures var (d, env', again) := Settle(c, env); env'.OrderlyWrites() && d.intact == c.intact
  {
    OrderlyConserves(env.output, c.outBuffer);
  }

  lemma ComplainOrderly(c: Conn, page: Page, env: Env)
    requires env.OrderlyWrites()
    ensures Complain(c, page, env).1.OrderlyWrites()
  {
    OrderlyConserves(env.output, PageHead(page));
    OrderlyConserves(Send(env.output, PageHead(page)).rest, PageBody(page));
  }

  lemma DigestOrderly(v: Variant, files: Files, c: Conn, env: Env)
    requires env.OrderlyWrites()
    ensures var (d, env') := Digest(v, files, c, env); env'.OrderlyWrites() && d.intact == c.intact
  {
    var (f, env') := Fill(c, env);
    var page := PageFor(v, files, c, env);
    if page.Some? { ComplainOrderly(Digested(v, files, c, env), page.value, env'); }
  }

  lemma {:induction false} ReadOrderly(v: Variant, files: Files, c: Conn, env: Env)
    requires c.Steady() && env.OrderlyWrites()
    ensures var (d, env') := HandleRead(v, files, c, env); env'.OrderlyWrites() && d.intact == c.intact
    decreases Work(c, env)
  {
    TurnDecreases(v, files, c, env);
    DigestOrderly(v, files, c, env);
    SettleOrderly(Digest(v, files, c, env).0, Digest(v, files, c, env).1);
    var (d, env', again) := Turn(v, files, c, env);
    if again { ReadOrderly(v, files, d, env'); }
  }

  lemma EventsOrderly(v: Variant, files: Files, c: Conn, revents: Mask, env: Env)
    requires c.Steady() && env.OrderlyWrites()
    ensures HandleEvents(v, files, c, revents, env).0.intact == c.intact
  {
    if !HangUp(revents) && EPOLLERR !in revents {
      var (d, env') := if Readable(revents) then HandleRead(v, files, c, env) else (c, env);
      if Readable(revents) { ReadOrderly(v, files, c, env); }
      if EPOLLOUT in revents { ReadOrderly(v, files, d, env'); }
      HandleConnFrame(Callbacks(v, files, c, revents, env).0);
    }
  }

  /** A run is intact when no fatal outcome comes directly behind bytes taken. */
  lemma {:induction false} RunOrderly(v: Variant, files: Files, c: Conn, rounds: seq<Round>)
    requires c.Steady() && forall i | 0 <= i < |rounds| :: rounds[i].env.OrderlyWrites()
    ensures Run(v, files, c, rounds).intact == c.intact
    decreases |rounds|
  {
    if rounds != [] {
      EventsOrderly(v, files, c, rounds[0].revents, rounds[0].env);
      var (d, o) := HandleEvents(v, files, c, rounds[0].revents, rounds[0].env);
      if !o.Close? { RunOrderly(v, files, d, rounds[1..]); }
    }
  }

  /** So also when there is no fatal outcome at all. */
  lemma NoFatalIntact(v: Variant, files: Files, verb: HttpMethod, rounds: seq<Round>)
    requires forall i, j | 0 <= i < |rounds| && 0 <= j < |rounds[i].env.output| :: !rounds[i].env.output[j].WriteFatal?
    ensures Run(v, files, Start(verb), rounds).intact
  {
    forall i | 0 <= i < |rounds| ensures rounds[i].env.OrderlyWrites() { NoFatalIsOrderly(rounds[i].env.output); }
    RunOrderly(v, files, Start(verb), rounds);
  }

  lemma StartStream(verb: HttpMethod, t: string)
    ensures Stream(verb, Start(verb), t)
  {
    AfterNone(ParseAll(Repaired, Fresh(verb).Plus(t)));
    assert t[0..] == t;
  }

  lemma StartQuiet(files: Files, verb: HttpMethod)
    ensures Quiet(Start(verb)) && Answered(files, Start(verb))
  {}

  // ---------------------------------------------------------------- the code as written

  /** Every pass of this `handleRead` finds the buffer cut at a safe place. */
  predicate SafeRead(files: Files, c: Conn, env: Env)
    requires c.Steady()
    decreases Work(c, env)
  {
    TurnDecreases(Repaired, files, c, env);
    var (d, env', again) := Turn(Repaired, files, c, env);
    (c.parser.Waiting() && (ReadFails(env) || SafeCut(Fill(c, env).0.parser))) && (again ==> SafeRead(files, d, env'))
  }

  lemma TurnAgree(files: Files, c: Conn, env: Env)
    requires c.Steady() && c.parser.Waiting() && (ReadFails(env) || SafeCut(Fill(c, env).0.parser))
    ensures Turn(AsWritten, files, c, env) == Turn(Repaired, files, c, env)
  {
    if !ReadFails(env) {
      var f := Fill(c, env).0;
      SafeCutExact(f.parser);
      ProcessAgree(files, f);
    }
    assert Digest(AsWritten, files, c, env) == Digest(Repaired, files, c, env);
  }

  lemma ProcessAgree(files: Files, c: Conn)
    requires Pass(AsWritten, c.parser) == Pass(Repaired, c.parser)
    ensures Process(AsWritten, files, c) == Process(Repaired, files, c)
    ensures Complaint(AsWritten, files, c) == Complaint(Repaired, files, c)
  {}

  /** Without an end of a request there is nothing to answer: the state is the parser's. */
  lemma SettleWaits(c: Conn, env: Env)
    requires !c.error && c.connection.Connected? && !c.parser.state.StateFinish?
    ensures var (d, env', again) := Settle(c, env); !again && !d.error && d.parser == c.parser && d.served == c.served
  {}

  lemma {:induction false} ReadServes(v: Variant, files: Files, c: Conn, env: Env)
    requires c.Steady()
    ensures c.served <= HandleRead(v, files, c, env).0.served
    ensures Turn(v, files, c, env).0.served <= HandleRead(v, files, c, env).0.served
    decreases Work(c, env)
  {
    TurnDecreases(v, files, c, env);
    TurnServes(v, files, c, env);
    var (d, env', again) := Turn(v, files, c, env);
    if again { ReadServes(v, files, d, env'); }
  }

  lemma TurnServes(v: Variant, files: Files, c: Conn, env: Env)
    ensures var f := Fill(c, env).0;
      Turn(v, files, c, env).0.served == if ReadFails(env) then c.served else Process(v, files, f).served
    ensures c.served <= Turn(v, files, c, env).0.served
  {
    DigestHears(v, files, c, env);
    SettleFrame(Digest(v, files, c, env).0, Digest(v, files, c, env).1);
  }

  /** The repaired turn on an unsafe cut waits. */
  lemma UnsafeRepaired(files: Files, c: Conn, env: Env)
    requires c.Steady() && !c.error && c.connection.Connected? && !ReadFails(env) && !SafeCut(Fill(c, env).0.parser)
    ensures var d := HandleRead(Repaired, files, c, env).0;
      !d.error && d.served == c.served && d.parser == Pass(Repaired, Fill(c, env).0.parser).1
  {
    var (f, env') := Fill(c, env);
    DigestFrame(Repaired, files, c, env);
    UnsafeWaits(f.parser);
    SettleWaits(Process(Repaired, files, f), env');
  }

  /** As written the same turn completes a request, fails, or leaves another parser. */
  lemma UnsafeWritten(files: Files, c: Conn, env: Env)
    requires c.Steady() && !c.error && c.connection.Connected? && !ReadFails(env)
    ensures var (d, q) := Pass(AsWritten, Fill(c, env).0.parser); var r := HandleRead(AsWritten, files, c, env).0;
      && (d.Complete? ==> r.served != c.served)
      && (d.BadRequest? || d.Undefined? ==> r.error)
      && (d.NeedMore? || d.AwaitBody? ==> r.parser == q)
  {
    var (f, env') := Fill(c, env);
    var (d, q) := Pass(AsWritten, f.parser);
    DigestFrame(AsWritten, files, c, env);
    if d.Complete? {
      TurnServes(AsWritten, files, c, env);
      ReadServes(AsWritten, files, c, env);
    } else if d.NeedMore? || d.AwaitBody? {
      SettleWaits(Process(AsWritten, files, f), env');
    }
  }

  lemma UnsafeDiffers(files: Files, c: Conn, env: Env)
    requires c.Steady() && !c.error && c.connection.Connected? && !ReadFails(env) && !SafeCut(Fill(c, env).0.parser)
    ensures HandleRead(AsWritten, files, c, env) != HandleRead(Repaired, files, c, env)
  {
    var p := Fill(c, env).0.parser;
    UnsafeWaits(p);
    SafeCutExact(p);
    UnsafeRepaired(files, c, env);
    UnsafeWritten(files, c, env);
  }

  lemma SafeReadStep(files: Files, c: Conn, env: Env)
    requires c.Steady() && c.parser.Waiting() && (ReadFails(env) || SafeCut(Fill(c, env).0.parser))
    ensures var (d, env', again) := Turn(Repaired, files, c, env);
      && d.Steady()
      && (again ==> HandleRead(AsWritten, files, c, env) == HandleRead(AsWritten, files, d, env'))
      && (again ==> HandleRead(Repaired, files, c, env) == HandleRead(Repaired, files, d, env'))
      && (!again ==> HandleRead(AsWritten, files, c, env) == HandleRead(Repaired, files, c, env))
  {
    TurnDecreases(Repaired, files, c, env);
    TurnAgree(files, c, env);
  }

  /** As written, `handleRead` does what the repaired code does exactly when all its passes find safe cuts. */
  lemma {:induction false} SafeReadExact(files: Files, c: Conn, env: Env)
    requires c.Steady() && !c.error && c.connection.Connected?
    ensures HandleRead(AsWritten, files, c, env) == HandleRead(Repaired, files, c, env) <==> SafeRead(files, c, env)
    decreases Work(c, env)
  {
    TurnDecreases(Repaired, files, c, env);
    if ReadFails(env) || SafeCut(Fill(c, env).0.parser) {
      SafeReadStep(files, c, env);
      TurnConnected(Repaired, files, c, env);
      var (d, env', again) := Turn(Repaired, files, c, env);
      if again { SafeReadExact(files, d, env'); }
    } else {
      UnsafeDiffers(files, c, env);
    }
  }

  lemma FillNothing(c: Conn, output: seq<WriteOutcome>)
    ensures Fill(c, Env([], output)) == (c, Env([], output)) && !ReadFails(Env([], output))
  {
    PlusPlus(c.parser, "", "");
    assert c.heard + "" == c.heard;
  }

  /**
    As written, a response that does not go out at once is lost: when the socket becomes writable and
    no new request has arrived, the empty buffer is taken for a request, which fails.
   */
  lemma WritableEventKills(files: Files, c: Conn, output: seq<WriteOutcome>)
    requires c.connection.Connected? && !c.error && c.parser == Fresh(GET) && c.outBuffer != ""
    ensures var (d, o) := HandleEvents(AsWritten, files, c, {EPOLLOUT}, Env([], output));
      o.Close? && d.error && d.wire == c.wire && d.outBuffer == c.outBuffer
  {
    var env := Env([], output);
    KilledTurn(files, c, output);
    WritableOnly(AsWritten, files, c, env);
    HandleConnFrame(HandleRead(AsWritten, files, c, env).0);
  }

  lemma KilledTurn(files: Files, c: Conn, output: seq<WriteOutcome>)
    requires c.connection.Connected? && !c.error && c.parser == Fresh(GET)
    ensures var d := HandleRead(AsWritten, files, c, Env([], output)).0;
      d.error && d.wire == c.wire && d.outBuffer == c.outBuffer
  {
    var env := Env([], output);
    FillNothing(c, output);
    EmptyRequestFails(files, c);
    DigestFrame(AsWritten, files, c, env);
  }

  /** The empty buffer, taken for a request for nothing. */
  lemma EmptyRequestFails(files: Files, c: Conn)
    requires c.parser == Fresh(GET)
    ensures var p := Process(AsWritten, files, c); p.error && p.wire == c.wire && p.outBuffer == c.outBuffer
  {
    EmptyPasses();
  }

  lemma IdleTurn(files: Files, c: Conn, output: seq<WriteOutcome>)
    requires c.connection.Connected? && !c.error && c.parser == Fresh(GET)
    ensures HandleRead(Repaired, files, c, Env([], output)) == (Settle(c, Env([], output)).0, Settle(c, Env([], output)).1)
    ensures Settle(c, Env([], output)).0.parser == c.parser
  {
    FillNothing(c, output);
    EmptyPasses();
    assert Process(Repaired, files, c) == c;
  }

  lemma SettleSends(c: Conn, env: Env)
    requires c.connection.Connected? && !c.error && c.outBuffer != ""
    ensures var d := Settle(c, env).0;
      d.wire == c.wire + Send(env.output, c.outBuffer).bytes && !d.error && d.connection.Connected?
  {}

  /** Repaired, the same event sends on. */
  lemma WritableEventSends(files: Files, c: Conn, output: seq<WriteOutcome>)
    requires c.connection.Connected? && !c.error && c.parser == Fresh(GET) && c.outBuffer != ""
    ensures var (d, o) := HandleEvents(Repaired, files, c, {EPOLLOUT}, Env([], output));
      o.Update? && !d.error && d.wire == c.wire + Send(output, c.outBuffer).bytes
  {
    IdleTurn(files, c, output);
    var env := Env([], output);
    SettleSends(c, env);
    WritableOnly(Repaired, files, c, env);
    HandleConnFrame(Settle(c, env).0);
  }

  lemma EmptyPasses()
    ensures Pass(AsWritten, Fresh(GET)) == (Complete, Fresh(GET).(state := StateAnalysis))
    ensures Pass(Repaired, Fresh(GET)) == (NeedMore, Fresh(GET))
  {}
}
