/**
  The connection object of HttpData.cpp, updated in place, with its timer node (Timer.h). A Channel
  and the HttpData that owns it are one object here. Each method is tied to the function of the same
  name on `Connection.Conn`.
 */
module HttpServer {
  import opened Wrappers
  import opened Text
  import opened SocketIo
  import opened HttpParser
  import opened HttpResponse
  import opened Connection
  import Decimal

  /** `alive` is the strong count of the node's control block being positive. */
  class TimerNode {
    const expiredTime: nat
    var ownHttp: HttpData?
    var deleted: bool
    var alive: bool

    constructor (http: HttpData, expiredTime: nat)
      ensures this.expiredTime == expiredTime && ownHttp == http && !deleted && alive
    {
      this.expiredTime := expiredTime;
      ownHttp, deleted, alive := http, false, true;
    }

    method ClearHttp()
      modifies this
      ensures ownHttp == null && deleted && alive == old(alive)
    {
      ownHttp := null;
      deleted := true;
    }
  }

  /** The histories of a connection. */
  datatype Past = Past(wire: string, heard: string, served: seq<Request>, peer: string, pages: seq<string>, intact: bool)

  class HttpData {
    const fd: int
    const variant: Variant
    var timer: TimerNode?
    var inBuffer: string
    var outBuffer: string
    var verb: HttpMethod
    var url: string
    var version: string
    var headers: map<string, string>
    var error: bool
    var isKeepAlive: bool
    var state: ProcessState
    var connectionState: ConnectionState
    var events: Mask
    ghost var past: Past
    /** How often `handleClose` ran. */
    ghost var closes: nat

    ghost function Parser(): Parser
      reads this
    {
      HttpParser.Parser(state, inBuffer, verb, url, version, headers)
    }

    ghost function Abs(): Conn
      reads this
    {
      Conn(Parser(), outBuffer, error, isKeepAlive, connectionState, events,
        past.wire, past.heard, past.served, past.peer, past.pages, past.intact)
    }

    ghost function TimerFrame(): set<object>
      reads this
    {
      if timer == null then {} else {timer}
    }

    /** `timer_.lock()` gives nothing. */
    ghost predicate Separated()
      reads this, TimerFrame()
    {
      timer == null || !timer.alive
    }

    /** `method_` is not initialised by the code: any verb. */
    constructor (fd: int, variant: Variant, verb: HttpMethod)
      ensures this.fd == fd && this.variant == variant && timer == null && closes == 0
      ensures Abs() == Start(verb).(events := {})
    {
      this.fd, this.variant := fd, variant;
      timer, inBuffer, outBuffer, this.verb, url, version, headers := null, "", "", verb, "", "", map[];
      error, isKeepAlive, state, connectionState, events := false, false, StateParseUrl, Connected, {};
      past, closes := Past("", "", [], "", [], true), 0;
    }

    /** `seperaterTimer`: the timer gives up its strong reference. */
    method SeparateTimer()
      modifies this`timer, TimerFrame()
      ensures Separated() && Abs() == old(Abs())
      ensures old(timer) == null ==> timer == null
      ensures old(timer) != null && old(timer.alive) ==> timer == null && old(timer).ownHttp == null && old(timer).deleted && old(timer).alive
      ensures old(timer) != null && !old(timer.alive) ==> timer == old(timer) && unchanged(old(timer))
    {
      if timer != null && timer.alive {
        timer.ClearHttp();
        timer := null;
      }
    }

    method ParseURL() returns (flag: UrlState)
      modifies this`inBuffer, this`verb, this`url, this`version
      ensures (flag, Parser()) == ParseUrl(variant, old(Parser()))
    {
      var pos := Find(inBuffer, '\r');
      if pos == |inBuffer| || (variant.Repaired? && pos + 1 == |inBuffer|) { return UrlAgain; }
      var requestline := inBuffer[..pos];
      ghost var rest := Drop(inBuffer, pos + 2);
      assert SplitRequestLine(variant, inBuffer) == Some((requestline, rest));
      CutFront(pos + 2);
      assert Parser() == old(Parser()).(inBuffer := rest);
      flag := ReadLine(requestline);
    }

    /** `parseURL` behind the cut: method, target, version. */
    method ReadLine(line: string) returns (flag: UrlState)
      modifies this`verb, this`url, this`version
      ensures var (ok, q) := ReadRequestLine(line, old(Parser())); Parser() == q && flag == if ok then UrlSuccess else UrlError
    {
      var pos := Find(line, ' ');
      var token := line[..pos];
      if token == "GET" { verb := GET; } else if token == "POST" { verb := POST; } else if token == "HEAD" { verb := HEAD; }
      assert verb == ParseVerb(token, old(verb));
      var requestline := AfterToken(line, pos);
      pos := Find(requestline, ' ');
      if pos == |requestline| { return UrlError; }
      SetTarget(requestline[..pos]);
      version := requestline[pos + 1..];
      flag := UrlSuccess;
    }

    method SetTarget(target: string)
      modifies this`url
      ensures url == MapTarget(target)
    {
      url := target;
      if url == "/" { url := "root" + url + "log.html"; } else { url := "root" + url; }
      assert "root" + "/" + "log.html" == "root/log.html";
    }

    /** The next line of the header section, cut from the buffer. */
    method TakeLine() returns (line: Line)
      modifies this`inBuffer
      ensures line == NextLine(variant, old(inBuffer))
      ensures inBuffer == if line.Wait? then old(inBuffer) else line.rest
    {
      var pos := Find(inBuffer, '\n');
      if pos == |inBuffer| {
        if inBuffer != "" || variant.Repaired? { return Wait; }
      }
      if inBuffer == "" || inBuffer[0] == '\r' {
        CutFront(2);
        return Blank(inBuffer);
      }
      var headline := inBuffer[..pos];
      CutFront(pos + 1);
      line := ReadField(headline);
    }

    method CutFront(n: nat)
      modifies this`inBuffer
      ensures inBuffer == Drop(old(inBuffer), n)
    {
      if |inBuffer| > n { inBuffer := inBuffer[n..]; } else { inBuffer := ""; }
    }

    method ReadField(headline: string) returns (line: Line)
      ensures line == FieldLine(headline, inBuffer)
    {
      var pos := Find(headline, ':');
      if pos == |headline| { return Bad(inBuffer); }
      if |headline| < pos + 3 { return Reversed(inBuffer); }
      line := Field(headline[..pos], headline[pos + 2..|headline| - 1], inBuffer);
    }

    method ParseHeaders() returns (flag: HeaderState)
      modifies this`inBuffer, this`headers
      ensures Headers(flag, inBuffer, headers) == HttpParser.ParseHeaders(variant, old(inBuffer), old(headers))
    {
      while true
        invariant HttpParser.ParseHeaders(variant, inBuffer, headers) == HttpParser.ParseHeaders(variant, old(inBuffer), old(headers))
        decreases |inBuffer|
      {
        var line := TakeLine();
        match line
        case Wait => return HeaderAgain;
        case Blank(_) => break;
        case Bad(_) => return HeaderError;
        case Reversed(_) => return HeaderUndefined;
        case Field(head, value, _) => headers := headers[head := value];
      }
      flag := HeaderSuccess;
    }

    /** The header section and the body of the page, each with one `writen` whose result is not looked at. */
    method HandleError(page: Page, env: Env) returns (env': Env)
      modifies this`past
      ensures (Abs(), env') == Complain(old(Abs()), page, env)
    {
      var n, rest, head := WritenBytes(env.output, PageHead(page));
      var m, rest', body := WritenBytes(rest, PageBody(page));
      env' := env.(output := rest');
      past := past.(peer := past.peer + (head + body), pages := past.pages + [head + body]);
    }

    method AnalysisRequest(files: Files) returns (ok: bool)
      modifies this`outBuffer, this`isKeepAlive
      ensures Analysed(ok, outBuffer) == Analyse(files, old(Parser()).Current(), old(outBuffer))
      ensures isKeepAlive == (old(isKeepAlive) || (!verb.POST? && WantsKeepAlive(headers)))
    {
      if verb.POST? { return false; }
      var lines := ["HTTP/1.1 200 OK"];
      if WantsKeepAlive(headers) {
        isKeepAlive := true;
        lines := lines + ["Connection: Keep-Alive", "Keep-Alive: timeout=" + Decimal.Numeral(KEEP_ALIVE_TIME)];
      }
      assert lines == ["HTTP/1.1 200 OK"] + KeepAliveLines(headers);
      var filetype := FileType(url);
      if url == "hello" || url == "Hello" {
        outBuffer := HELLO;
        return true;
      }
      if url !in files { return false; }
      var size := |files[url].content|;
      lines := lines + ["Content-Type: " + filetype, LENGTH + Decimal.Numeral(size), "Server: ZHF's web server"];
      outBuffer := outBuffer + (Lines(lines) + "\r\n");
      if verb.HEAD? { return true; }
      if !files[url].readable || size == 0 {
        outBuffer := "";
        return false;
      }
      outBuffer := outBuffer + files[url].content;
      ok := true;
    }

    method ResetParser()
      modifies this`verb, this`url, this`version, this`headers, this`state
      ensures Parser() == old(Parser()).Reset()
    {
      verb := GET;
      url, version, headers := "", "", map[];
      state := StateParseUrl;
    }

    method Reset()
      modifies this`verb, this`url, this`version, this`headers, this`error, this`state
      ensures Abs() == old(Abs()).(parser := old(Parser()).Reset(), error := false)
    {
      ResetParser();
      error := false;
    }

    /** The result of `writen` is a `size_t`: the branch for a negative one is dead and left out. */
    method HandleWrite(env: Env) returns (env': Env)
      modifies this`timer, TimerFrame(), this`outBuffer, this`events, this`past
      ensures (Abs(), env') == Write(old(Abs()), env)
      ensures old(timer) == null ==> timer == null
      ensures old(timer) != null && old(timer.alive) ==> timer == null && old(timer).ownHttp == null && old(timer).deleted && old(timer).alive
      ensures old(timer) != null && !old(timer.alive) ==> timer == old(timer) && unchanged(old(timer))
    {
      SeparateTimer();
      env' := env;
      if |outBuffer| > 0 {
        if !error && connectionState != Disconnected { env' := SendOut(env); }
      }
    }

    method SendOut(env: Env) returns (env': Env)
      requires outBuffer != "" && !error && connectionState != Disconnected
      modifies this`outBuffer, this`events, this`past
      ensures (Abs(), env') == Write(old(Abs()), env)
    {
      var n, out, rest, sent := Writen(env.output, outBuffer);
      past := past.(wire := past.wire + sent, peer := past.peer + sent, intact := past.intact && !FatalAfterProgress(env.output, outBuffer));
      outBuffer, env' := out, env.(output := rest);
      if |outBuffer| > 0 { events := events + {EPOLLOUT}; } else { events := {}; }
    }

    /** `readn` and the states of the protocol: the body of the do-while(false) in `handleRead`. */
    method ReadAndProcess(files: Files, env: Env) returns (env': Env)
      modifies this`inBuffer, this`outBuffer, this`verb, this`url, this`version, this`headers,
        this`error, this`isKeepAlive, this`state, this`past
      ensures (Abs(), env') == Digest(variant, files, old(Abs()), env)
    {
      var failed;
      env', failed := ReadIn(env);
      if failed { env' := HandleError(BAD_REQUEST, env'); } else { env' := RunProtocol(files, env'); }
    }

    method ReadIn(env: Env) returns (env': Env, failed: bool)
      modifies this`inBuffer, this`error, this`past
      ensures (Abs(), env') == Fill(old(Abs()), env) && failed == ReadFails(env)
    {
      var n, buffer, rest := Readn(env.input, inBuffer);
      inBuffer, env', past := buffer, env.(input := rest), past.(heard := past.heard + Receive(env.input).bytes);
      failed := ToInt32(n) < 0;
      if failed { error := true; }
    }

    /** The request line and the header section, as far as the buffer allows. */
    method ParseRequest() returns (verdict: Verdict)
      modifies this`inBuffer, this`verb, this`url, this`version, this`headers, this`state
      ensures (verdict, Parser()) == Pass(variant, old(Parser()))
    {
      if state == StateParseUrl {
        var flag := ParseURL();
        if flag == UrlError {
          inBuffer := "";
          return BadRequest;
        } else if flag == UrlAgain && variant.Repaired? {
          return NeedMore;
        }
        verdict := ParseHeaderSection();
      } else if state == StateParseHeaders {
        verdict := ParseHeaderSection();
      } else {
        verdict := if state == StateRecvBody then AwaitBody else if state == StateAnalysis then Complete else NeedMore;
      }
    }

    method ParseHeaderSection() returns (verdict: Verdict)
      modifies this`inBuffer, this`headers, this`state
      ensures (verdict, Parser()) == HeaderPass(variant, old(Parser()))
    {
      state := StateParseHeaders;
      var flag := ParseHeaders();
      match flag
      case HeaderAgain => return NeedMore;
      case HeaderError => return BadRequest;
      case HeaderUndefined => return Undefined;
      case HeaderSuccess =>
        if verb == POST { state := StateRecvBody; return AwaitBody; }
        state := StateAnalysis;
        return Complete;
    }

    /** The states of the protocol, with the page that an error calls for. */
    method RunProtocol(files: Files, env: Env) returns (env': Env)
      modifies this`inBuffer, this`outBuffer, this`verb, this`url, this`version, this`headers,
        this`error, this`isKeepAlive, this`state, this`past
      ensures var c := old(Abs()); var p, page := Process(variant, files, c), Complaint(variant, files, c);
        (Abs(), env') == if page.Some? then Complain(p, page.value, env) else (p, env)
    {
      ghost var c := Abs();
      var verdict := ParseRequest();
      assert Abs() == c.(parser := Pass(variant, c.parser).1);
      env' := Conclude(files, env, verdict, c);
    }

    /** From the verdict of a pass to the error or the answer. */
    method Conclude(files: Files, env: Env, verdict: Verdict, ghost c: Conn) returns (env': Env)
      requires Pass(variant, c.parser).0 == verdict && Abs() == c.(parser := Pass(variant, c.parser).1)
      modifies this`outBuffer, this`error, this`isKeepAlive, this`state, this`past
      ensures var p, page := Process(variant, files, c), Complaint(variant, files, c);
        (Abs(), env') == if page.Some? then Complain(p, page.value, env) else (p, env)
    {
      env' := env;
      if verdict == Complete {
        env' := AnswerOrComplain(files, env);
      } else if verdict == BadRequest {
        error := true;
        env' := HandleError(BAD_REQUEST, env');
      } else if verdict == Undefined {
        error := true;
      }
    }

    method AnswerOrComplain(files: Files, env: Env) returns (env': Env)
      modifies this`outBuffer, this`error, this`isKeepAlive, this`state, this`past
      ensures var c := old(Abs()); var r := c.parser.Current(); var a := Analyse(files, r, c.outBuffer); var d := Finished(c, a);
        (Abs(), env') == if !r.verb.POST? && !a.ok then Complain(d, NOT_FOUND, env) else (d, env)
    {
      env' := env;
      var ok := Answer(files);
      if !ok && verb != POST { env' := HandleError(NOT_FOUND, env'); }
    }

    /** The last state: analysis of a complete request. */
    method Answer(files: Files) returns (ok: bool)
      modifies this`outBuffer, this`error, this`isKeepAlive, this`state, this`past
      ensures var c := old(Abs()); var a := Analyse(files, c.parser.Current(), c.outBuffer);
        ok == a.ok && Abs() == Finished(c, a)
    {
      past := past.(served := past.served + [Parser().Current()]);
      ok := AnalysisRequest(files);
      if ok { state := StateFinish; } else { error := true; }
    }

    /** The sending half of `handleRead`: answer, reset or wait on. */
    method Respond(env: Env) returns (env': Env, again: bool)
      requires Separated()
      modifies this`verb, this`url, this`version, this`headers, this`error, this`state, this`timer, TimerFrame(), this`outBuffer, this`events, this`past
      ensures (Abs(), env', again) == Settle(old(Abs()), env)
      ensures timer == old(timer) && (timer == null || unchanged(timer))
    {
      env', again := env, false;
      if !error && connectionState == Connected {
        if |outBuffer| > 0 { env' := HandleWrite(env'); }
        if state == StateFinish {
          Reset();
          again := |inBuffer| > 0;
        } else {
          events := events + {EPOLLIN};
        }
      }
    }

    /** One `handleRead` without the call it makes to itself. */
    method ReadOnce(files: Files, env: Env) returns (env': Env, again: bool)
      modifies this, TimerFrame()
      ensures (Abs(), env', again) == Turn(variant, files, old(Abs()), env) && closes == old(closes)
      ensures old(timer) == null ==> timer == null
      ensures old(timer) != null && old(timer.alive) ==> timer == null && old(timer).ownHttp == null && old(timer).deleted && old(timer).alive
      ensures old(timer) != null && !old(timer.alive) ==> timer == old(timer) && unchanged(old(timer))
    {
      SeparateTimer();
      env', again := ReadSeparated(files, env);
    }

    /** The rest of it, when no live timer node is left to empty. */
    method ReadSeparated(files: Files, env: Env) returns (env': Env, again: bool)
      requires Separated()
      modifies this, TimerFrame()
      ensures (Abs(), env', again) == Turn(variant, files, old(Abs()), env) && closes == old(closes)
      ensures timer == old(timer) && (timer == null || unchanged(timer))
    {
      env' := ReadAndProcess(files, env);
      env', again := Respond(env');
    }

    method HandleRead(files: Files, env: Env) returns (env': Env)
      requires Abs().Steady()
      modifies this, TimerFrame()
      ensures (Abs(), env') == Connection.HandleRead(variant, files, old(Abs()), env) && closes == old(closes)
      ensures old(timer) == null ==> timer == null
      ensures old(timer) != null && old(timer.alive) ==> timer == null && old(timer).ownHttp == null && old(timer).deleted && old(timer).alive
      ensures old(timer) != null && !old(timer.alive) ==> timer == old(timer) && unchanged(old(timer))
      decreases Work(Abs(), env)
    {
      TurnDecreases(variant, files, Abs(), env);
      var again;
      env', again := ReadOnce(files, env);
      if again { env' := HandleRead(files, env'); }
    }

    /** The mask half of `handleConn`; the poller does the rest. */
    method PrepareMask() returns (timeout: nat)
      requires !error && connectionState == Connected
      modifies this`events
      ensures (Abs(), Update(timeout)) == HandleConn(old(Abs())) && events != {}
    {
      timeout := if isKeepAlive then KEEP_ALIVE_TIME else EXPIRED_TIME;
      if events != {} {
        if EPOLLIN in events && EPOLLOUT in events { events := {EPOLLOUT}; }
        events := events + {EPOLLET};
      } else {
        events := {EPOLLIN, EPOLLET};
      }
      assert EPOLLET in events;
    }
  }
}
