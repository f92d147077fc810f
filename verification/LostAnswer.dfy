/**
  A whole connection in two dispatches: a request arrives, its answer does not go out at once, and the
  socket becomes writable. As written the rest of the answer is lost; repaired it is sent on.
 */
module LostAnswer {
  import opened SocketIo
  import opened HttpParser
  import opened HttpResponse
  import opened Connection
  import RequestText

  /** A request that fits one read, for a file that can be served. */
  predicate Asks(files: Files, m: RequestText.Message) {
    RequestText.Answerable(m) && 1 <= |RequestText.Print(m)| <= 1024 && Served(files, RequestText.Meaning(m))
  }

  function Answer(files: Files, m: RequestText.Message): string
    requires Asks(files, m)
  {
    Response(files, RequestText.Meaning(m))
  }

  function Arrives(files: Files, m: RequestText.Message, output: seq<WriteOutcome>): Round
    requires Asks(files, m)
  {
    Round({EPOLLIN}, Env([Data(RequestText.Print(m))], output))
  }

  function Writable(output: seq<WriteOutcome>): Round { Round({EPOLLOUT}, Env([], output)) }

  lemma Heard(files: Files, verb: HttpMethod, m: RequestText.Message, output: seq<WriteOutcome>)
    requires Asks(files, m)
    ensures var s := RequestText.Print(m); var env := Arrives(files, m, output).env;
      && !ReadFails(env)
      && Fill(Start(verb), env) == (Start(verb).(parser := Fresh(verb).Plus(s), heard := s), Env([], output))
  {
    var s, rs := RequestText.Print(m), Arrives(files, m, output).env.input;
    assert rs[1..] == [];
    assert Receive(rs) == Received(s + "", false, []);
    assert s + "" == s && "" + s == s;
  }

  lemma Processed(v: Variant, files: Files, verb: HttpMethod, m: RequestText.Message)
    requires Asks(files, m)
    ensures var s := RequestText.Print(m);
      var p := Process(v, files, Start(verb).(parser := Fresh(verb).Plus(s), heard := s));
      && p.parser == RequestText.Read(m, "").(state := StateFinish) && p.outBuffer == Answer(files, m)
      && !p.error && p.connection.Connected? && p.wire == ""
  {
    var s := RequestText.Print(m);
    assert s + "" == s;
    RequestText.RequestRoundTrip(v, verb, m, "");
    AnalyseExact(files, RequestText.Meaning(m), "");
    assert "" + Answer(files, m) == Answer(files, m);
  }

  lemma Settled(c: Conn, env: Env, m: RequestText.Message)
    requires c.parser == RequestText.Read(m, "").(state := StateFinish) && c.wire == ""
    requires !c.error && c.connection.Connected? && !Send(env.output, c.outBuffer).failed
    ensures var (d, env', again) := Settle(c, env); var sent := Send(env.output, c.outBuffer).bytes;
      !again && d.parser == Fresh(GET) && !d.error && d.connection.Connected? && d.wire == sent && d.outBuffer == c.outBuffer[|sent|..]
  {
    var sent := Send(env.output, c.outBuffer).bytes;
    assert "" + sent == sent;
  }

  lemma FirstRead(v: Variant, files: Files, verb: HttpMethod, m: RequestText.Message, output: seq<WriteOutcome>)
    requires Asks(files, m) && !Send(output, Answer(files, m)).failed
    ensures var c := HandleRead(v, files, Start(verb), Arrives(files, m, output).env).0;
      var sent := Send(output, Answer(files, m)).bytes;
      && c.parser == Fresh(GET) && !c.error && c.connection.Connected?
      && c.wire == sent && c.outBuffer == Answer(files, m)[|sent|..]
  {
    var env, s := Arrives(files, m, output).env, RequestText.Print(m);
    Heard(files, verb, m, output);
    Processed(v, files, verb, m);
    DigestFrame(v, files, Start(verb), env);
    Settled(Process(v, files, Start(verb).(parser := Fresh(verb).Plus(s), heard := s)), Env([], output), m);
  }

  /** After the first dispatch the connection is idle, with whatever the kernel did not take still buffered. */
  lemma Answered(v: Variant, files: Files, verb: HttpMethod, m: RequestText.Message, output: seq<WriteOutcome>)
    requires Asks(files, m) && !Send(output, Answer(files, m)).failed
    ensures var c := HandleEvents(v, files, Start(verb), {EPOLLIN}, Arrives(files, m, output).env).0;
      var sent := Send(output, Answer(files, m)).bytes;
      && c.parser == Fresh(GET) && !c.error && c.connection.Connected?
      && c.wire == sent && c.outBuffer == Answer(files, m)[|sent|..]
  {
    FirstRead(v, files, verb, m, output);
    var env := Arrives(files, m, output).env;
    assert Callbacks(v, files, Start(verb), {EPOLLIN}, env) == HandleRead(v, files, Start(verb), env);
    HandleConnFrame(HandleRead(v, files, Start(verb), env).0);
  }

  lemma TwoRounds(v: Variant, files: Files, c: Conn, a: Round, b: Round)
    requires c.Steady()
    ensures var (d, o) := HandleEvents(v, files, c, a.revents, a.env);
      && (!o.Close? ==> Run(v, files, c, [a, b]) == HandleEvents(v, files, d, b.revents, b.env).0)
  {
    var (d, o) := HandleEvents(v, files, c, a.revents, a.env);
    assert [a, b][1..] == [b] && [b][1..] == [];
    var (e, q) := HandleEvents(v, files, d, b.revents, b.env);
    assert Run(v, files, e, []) == e;
    if !o.Close? { assert Run(v, files, d, [b]) == e; }
  }

  /** Whenever the kernel does not take a whole answer at once, the code as written loses the rest of it. */
  lemma PartialAnswerIsLost(files: Files, verb: HttpMethod, m: RequestText.Message, output: seq<WriteOutcome>, later: seq<WriteOutcome>)
    requires Asks(files, m) && !Send(output, Answer(files, m)).failed && Send(output, Answer(files, m)).bytes != Answer(files, m)
    ensures var sent := Send(output, Answer(files, m)).bytes; var rest := Answer(files, m)[|sent|..];
      var rounds := [Arrives(files, m, output), Writable(later)];
      var w, r := Run(AsWritten, files, Start(verb), rounds), Run(Repaired, files, Start(verb), rounds);
      && w.error && w.wire == sent
      && !r.error && r.wire == sent + Send(later, rest).bytes
  {
    Answered(AsWritten, files, verb, m, output);
    Answered(Repaired, files, verb, m, output);
    TwoRounds(AsWritten, files, Start(verb), Arrives(files, m, output), Writable(later));
    TwoRounds(Repaired, files, Start(verb), Arrives(files, m, output), Writable(later));
    var c := HandleEvents(AsWritten, files, Start(verb), {EPOLLIN}, Arrives(files, m, output).env).0;
    WritableEventKills(files, c, later);
    var d := HandleEvents(Repaired, files, Start(verb), {EPOLLIN}, Arrives(files, m, output).env).0;
    WritableEventSends(files, d, later);
  }

  lemma OneByteGoesOut(answer: string)
    requires answer != ""
    ensures Send([Took(1), WriteAgain], answer).bytes == answer[..1] && !Send([Took(1), WriteAgain], answer).failed
  {
    var ws: seq<WriteOutcome> := [Took(1), WriteAgain];
    assert ws[1..] == [WriteAgain] && ws[1..][1..] == [];
    assert Send(ws[1..], answer[1..]).bytes == "" && !Send(ws[1..], answer[1..]).failed;
    assert answer[..1] + "" == answer[..1];
  }

  /** There are such files, requests and kernels: one byte of the answer goes out, then EAGAIN. */
  lemma SomeAnswerIsLost()
    ensures var files: Files := map["root/a" := File("x", true)];
      var m := RequestText.Message(GET, "/a", "HTTP/1.1", []);
      Asks(files, m) && !Send([Took(1), WriteAgain], Answer(files, m)).failed
        && Send([Took(1), WriteAgain], Answer(files, m)).bytes != Answer(files, m)
  {
    var files: Files := map["root/a" := File("x", true)];
    var m := RequestText.Message(GET, "/a", "HTTP/1.1", []);
    assert RequestText.Print(m) == "GET /a HTTP/1.1\r\n" + "" + "\r\n";
    assert RequestText.Meaning(m).url == "root/a";
    var answer := Answer(files, m);
    assert answer == Head(RequestText.Meaning(m), 1) + "x";
    HeadIsLong(RequestText.Meaning(m), 1);
    OneByteGoesOut(answer);
  }

  lemma HeadIsLong(r: Request, size: nat)
    ensures |Head(r, size)| >= 2
  {
    assert |"\r\n"| == 2;
  }
}
