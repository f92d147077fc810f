/** Which requests a connection refuses, and what becomes of it then. */
module Refusal {
  import opened Wrappers
  import opened Text
  import opened SocketIo
  import opened HttpParser
  import opened HttpResponse
  import opened Connection
  import opened RequestText

  /** From `c` to `d` nothing but an error, one page as far as the kernel took it, and perhaps requests analysed. */
  ghost predicate Refused(c: Conn, d: Conn, page: Page) {
    && d.error && d.connection == c.connection && d.wire == c.wire
    && exists s :: CutOf(page, s) && d.pages == c.pages + [s] && d.peer == c.peer + s
  }

  lemma ErrorComplains(v: Variant, files: Files, c: Conn, env: Env)
    requires c.Steady() && PageFor(v, files, c, env).Some?
    ensures var d := HandleRead(v, files, c, env).0; var p := Digested(v, files, c, env);
      && Refused(c, d, PageFor(v, files, c, env).value)
      && d.served == p.served && d.parser == p.parser && d.outBuffer == p.outBuffer
  {
    var page, p := PageFor(v, files, c, env).value, Digested(v, files, c, env);
    PageIsError(v, files, c, env);
    DigestedFrame(v, files, c, env);
    ComplainCuts(p, page, Fill(c, env).1);
    ErrorSettles(v, files, c, env);
    ProcessRooted(v, files, Fill(c, env).0);
  }

  lemma ErrorSettles(v: Variant, files: Files, c: Conn, env: Env)
    requires c.Steady() && PageFor(v, files, c, env).Some?
    ensures HandleRead(v, files, c, env) == Complain(Digested(v, files, c, env), PageFor(v, files, c, env).value, Fill(c, env).1)
  {
    PageIsError(v, files, c, env);
    DigestFrame(v, files, c, env);
  }

  /** The only reasons for an error: a failed read, a request that is malformed, or one that cannot be answered. Waiting for a body is none. */
  lemma ErrorExact(v: Variant, files: Files, c: Conn, env: Env)
    requires c.Steady() && !c.error && c.connection.Connected?
    ensures var (verdict, q) := Pass(v, Fill(c, env).0.parser); var d := Turn(v, files, c, env).0;
      && (d.error <==> ReadFails(env) || verdict.BadRequest? || verdict.Undefined? || (verdict.Complete? && !Served(files, q.Current())))
      && (d.pages == c.pages <==> !ReadFails(env) && !verdict.BadRequest? && !(verdict.Complete? && !q.verb.POST? && !Served(files, q.Current())))
  {
    var f := Fill(c, env).0;
    var (verdict, q) := Pass(v, f.parser);
    var (d, env') := Digest(v, files, c, env);
    FillFrame(c, env);
    if verdict.Complete? { AnalyseExact(files, q.Current(), f.outBuffer); }
    DigestFrame(v, files, c, env);
    DigestedFrame(v, files, c, env);
    DigestPages(v, files, c, env);
    SettleFrame(d, env');
  }

  lemma DigestPages(v: Variant, files: Files, c: Conn, env: Env)
    ensures var d := Digest(v, files, c, env).0; d.pages == c.pages <==> PageFor(v, files, c, env).None?
  {
    DigestedFrame(v, files, c, env);
    var page := PageFor(v, files, c, env);
    if page.Some? { assert |Complain(Digested(v, files, c, env), page.value, Fill(c, env).1).0.pages| == |c.pages| + 1; }
  }

  /** A read that fails: the page 400, and nothing is parsed. */
  lemma FailedRead(v: Variant, files: Files, c: Conn, env: Env)
    requires c.Steady() && ReadFails(env)
    ensures var d := HandleRead(v, files, c, env).0;
      Refused(c, d, BAD_REQUEST) && d.served == c.served && d.parser == c.parser.Plus(Receive(env.input).bytes)
  {
    ErrorComplains(v, files, c, env);
  }

  /** A pass that refuses the request. */
  lemma BadPass(v: Variant, files: Files, c: Conn, env: Env)
    requires c.Steady() && !ReadFails(env) && Pass(v, Fill(c, env).0.parser).0.BadRequest?
    ensures var d := HandleRead(v, files, c, env).0;
      && Refused(c, d, BAD_REQUEST) && d.served == c.served && d.outBuffer == c.outBuffer
      && d.parser == Pass(v, Fill(c, env).0.parser).1
  {
    ErrorComplains(v, files, c, env);
  }

  /** A pass to a request that cannot be answered. */
  lemma MissPass(v: Variant, files: Files, c: Conn, env: Env)
    requires c.Steady() && !ReadFails(env) && Pass(v, Fill(c, env).0.parser).0.Complete?
    requires var r := Pass(v, Fill(c, env).0.parser).1.Current(); !r.verb.POST? && !Served(files, r)
    ensures var d := HandleRead(v, files, c, env).0; var q := Pass(v, Fill(c, env).0.parser).1;
      Refused(c, d, NOT_FOUND) && d.served == c.served + [q.Current()] && d.parser == q
  {
    FillFrame(c, env);
    MissProcess(v, files, Fill(c, env).0);
    ErrorComplains(v, files, c, env);
  }

  lemma MissProcess(v: Variant, files: Files, c: Conn)
    requires Rooted(c.parser.url) && Pass(v, c.parser).0.Complete?
    requires var r := Pass(v, c.parser).1.Current(); !r.verb.POST? && !Served(files, r)
    ensures var p, q := Process(v, files, c), Pass(v, c.parser).1;
      Complaint(v, files, c) == Some(NOT_FOUND) && p.served == c.served + [q.Current()] && p.parser == q
  {
    AnalyseExact(files, Pass(v, c.parser).1.Current(), c.outBuffer);
  }

  /** What is in the buffer once `env` has been read. */
  ghost predicate Holds(c: Conn, env: Env, text: string) {
    c.Steady() && !c.error && c.connection.Connected? && !ReadFails(env) && c.parser.inBuffer + Receive(env.input).bytes == text
  }

  /**
    A complete request line without two blanks: in either variant the connection ends in an error, with
    nothing served or answered, the buffer thrown away, and the page 400 sent as far as it goes.
   */
  lemma BadRequestLine(v: Variant, files: Files, c: Conn, env: Env, line: string, rest: string)
    requires c.parser.state.StateParseUrl? && Holds(c, env, line + "\r\n" + rest) && '\r' !in line && !TwoBlanks(line)
    ensures var d := HandleRead(v, files, c, env).0;
      Refused(c, d, BAD_REQUEST) && d.served == c.served && d.outBuffer == c.outBuffer && d.parser.inBuffer == ""
  {
    var p := Fill(c, env).0.parser;
    assert line + "\r\n" + rest == line + "\r" + ['\n'] + rest;
    SplitExact(v, line, '\n', rest);
    RequestLineExact(line, p.(inBuffer := rest));
    BadPass(v, files, c, env);
  }

  /** With two blanks the line is never the reason. */
  lemma GoodRequestLine(v: Variant, p: Parser, line: string, rest: string) returns (q: Parser)
    requires p.state.StateParseUrl? && p.inBuffer == line + "\r\n" + rest && '\r' !in line && TwoBlanks(line)
    ensures Pass(v, p) == HeaderPass(v, q) && q.inBuffer == rest && q.headers == p.headers
  {
    assert line + "\r\n" + rest == line + "\r" + ['\n'] + rest;
    SplitExact(v, line, '\n', rest);
    RequestLineExact(line, p.(inBuffer := rest));
    q := ReadRequestLine(line, p.(inBuffer := rest)).1;
    UrlRead(v, p, line, rest);
  }

  lemma UrlRead(v: Variant, p: Parser, line: string, rest: string)
    requires p.state.StateParseUrl? && SplitRequestLine(v, p.inBuffer) == Some((line, rest)) && ReadRequestLine(line, p.(inBuffer := rest)).0
    ensures Pass(v, p) == HeaderPass(v, ReadRequestLine(line, p.(inBuffer := rest)).1)
  {}

  /** The verdict on a header section that is not read. */
  lemma FaultVerdict(v: Variant, q: Parser)
    ensures ParseHeaders(v, q.inBuffer, q.headers).status.HeaderError? ==> HeaderPass(v, q).0.BadRequest?
    ensures ParseHeaders(v, q.inBuffer, q.headers).status.HeaderUndefined? ==> HeaderPass(v, q).0.Undefined?
  {}

  /** A line of a header section, without its '\n'. */
  predicate HeaderLine(l: string) { '\n' !in l && !("\r" <= l) }

  /** With a colon and two more characters behind it. */
  predicate Good(l: string) { Find(l, ':') + 2 < |l| }

  predicate AllLines(ls: seq<string>) { forall i | 0 <= i < |ls| :: HeaderLine(ls[i]) }
  predicate AllGood(ls: seq<string>) { forall i | 0 <= i < |ls| :: Good(ls[i]) }

  function Join(ls: seq<string>, rest: string): string {
    if ls == [] then rest else ls[0] + "\n" + Join(ls[1..], rest)
  }

  lemma LineRead(v: Variant, l: string, rest: string)
    requires HeaderLine(l)
    ensures var r := NextLine(v, l + "\n" + rest);
      && (r.Field? <==> Good(l)) && (r.Bad? <==> ':' !in l) && (r.Field? || r.Bad? || r.Reversed?) && r.rest == rest
  {
    assert l != "" ==> "\r" <= l || l[0] != '\r';
    NextLineExact(v, l, rest);
    FieldRead(l, rest);
  }

  lemma FieldRead(l: string, rest: string)
    ensures var r := FieldLine(l, rest);
      (r.Field? <==> Good(l)) && (r.Bad? <==> ':' !in l) && (r.Field? || r.Bad? || r.Reversed?) && r.rest == rest
  {
    var k := Find(l, ':');
    if k < |l| {
      assert l == l[..k] + ":" + l[k + 1..];
      FieldLineExact(l[..k], l[k + 1..], rest);
    } else {
      assert l[..k] == l;
      FieldLineExact(l, "", rest);
    }
  }

  /** The first line that is not good, if there is one. */
  function Fault(ls: seq<string>): Option<string> {
    if ls == [] then None else if Good(ls[0]) then Fault(ls[1..]) else Some(ls[0])
  }

  lemma {:induction false} FaultExact(ls: seq<string>)
    ensures Fault(ls).None? <==> AllGood(ls)
    ensures Fault(ls).Some? ==> exists i :: 0 <= i < |ls| && ls[i] == Fault(ls).value && !Good(ls[i]) && AllGood(ls[..i])
  {
    if ls != [] {
      FaultExact(ls[1..]);
      assert AllGood(ls) <==> Good(ls[0]) && AllGood(ls[1..]) by { assert forall k | 0 < k < |ls| :: ls[k] == ls[1..][k - 1]; }
      if Fault(ls).Some? { FaultAt(ls); }
    }
  }

  lemma FaultAt(ls: seq<string>)
    requires ls != [] && Fault(ls).Some?
    requires Good(ls[0]) ==> exists i :: 0 <= i < |ls| - 1 && ls[1..][i] == Fault(ls[1..]).value && !Good(ls[1..][i]) && AllGood(ls[1..][..i])
    ensures exists i :: 0 <= i < |ls| && ls[i] == Fault(ls).value && !Good(ls[i]) && AllGood(ls[..i])
  {
    if Good(ls[0]) {
      var i :| 0 <= i < |ls| - 1 && ls[1..][i] == Fault(ls[1..]).value && !Good(ls[1..][i]) && AllGood(ls[1..][..i]);
      forall k | 0 <= k < i + 1 ensures Good(ls[k]) {
        if k > 0 { assert ls[1..][..i][k - 1] == ls[k]; }
      }
      assert ls[i + 1] == ls[1..][i] && AllGood(ls[..i + 1]);
    } else {
      assert AllGood(ls[..0]);
    }
  }

  /** A header section is read when all its lines are good, refused when the first that is not has no colon, and undefined otherwise. */
  lemma {:induction false} SectionExact(v: Variant, ls: seq<string>, tail: string, fields: map<string, string>)
    requires AllLines(ls)
    ensures var h := ParseHeaders(v, Join(ls, "\r\n" + tail), fields); var fault := Fault(ls);
      if fault.None? then h.status.HeaderSuccess? && h.rest == tail
      else if ':' !in fault.value then h.status.HeaderError?
      else h.status.HeaderUndefined?
  {
    if ls == [] {
      assert "\r\n" + tail == "\r" + "\n" + tail;
      NextLineExact(v, "\r", tail);
    } else {
      var r := NextLine(v, Join(ls, "\r\n" + tail));
      LineRead(v, ls[0], Join(ls[1..], "\r\n" + tail));
      if Good(ls[0]) { SectionExact(v, ls[1..], tail, fields[r.name := r.value]); }
    }
  }

  /** A line without a colon is refused as soon as it is complete, whatever follows it. */
  lemma {:induction false} FaultAtOnce(v: Variant, ls: seq<string>, bad: string, rest: string, fields: map<string, string>)
    requires AllLines(ls) && AllGood(ls) && HeaderLine(bad) && ':' !in bad
    ensures ParseHeaders(v, Join(ls, bad + "\n" + rest), fields).status.HeaderError?
  {
    if ls == [] {
      LineRead(v, bad, rest);
    } else {
      var later := Join(ls[1..], bad + "\n" + rest);
      var r := NextLine(v, ls[0] + "\n" + later);
      LineRead(v, ls[0], later);
      FaultAtOnce(v, ls[1..], bad, rest, fields[r.name := r.value]);
    }
  }

  /** The connection then ends in the same way as with a bad request line. */
  lemma BadHeaderLine(v: Variant, files: Files, c: Conn, env: Env, line: string, ls: seq<string>, bad: string, rest: string)
    requires c.parser.state.StateParseUrl? && '\r' !in line && TwoBlanks(line)
    requires AllLines(ls) && AllGood(ls) && HeaderLine(bad) && ':' !in bad
    requires Holds(c, env, line + "\r\n" + Join(ls, bad + "\n" + rest))
    ensures var d := HandleRead(v, files, c, env).0; Refused(c, d, BAD_REQUEST) && d.served == c.served && d.outBuffer == c.outBuffer
  {
    var p, section := Fill(c, env).0.parser, Join(ls, bad + "\n" + rest);
    var q := GoodRequestLine(v, p, line, section);
    FaultAtOnce(v, ls, bad, rest, p.headers);
    FaultVerdict(v, q);
    BadPass(v, files, c, env);
  }

  /** A line with a colon and too little behind it ends the connection too, without a page. */
  lemma ShortHeaderLine(v: Variant, files: Files, c: Conn, env: Env, line: string, ls: seq<string>, tail: string)
    requires c.parser.state.StateParseUrl? && '\r' !in line && TwoBlanks(line)
    requires AllLines(ls) && Fault(ls).Some? && ':' in Fault(ls).value
    requires Holds(c, env, line + "\r\n" + Join(ls, "\r\n" + tail))
    ensures var d := Turn(v, files, c, env).0; d.error && d.pages == c.pages
  {
    var p, section := Fill(c, env).0.parser, Join(ls, "\r\n" + tail);
    var q := GoodRequestLine(v, p, line, section);
    SectionExact(v, ls, tail, p.headers);
    FaultVerdict(v, q);
    ErrorExact(v, files, c, env);
  }

  /** A request that is complete but cannot be answered: the page 404, behind the analysis. */
  lemma MissingFile(v: Variant, files: Files, verb: HttpMethod, env: Env, m: Message, tail: string)
    requires WellFormed(m) && !m.verb.POST? && !Served(files, Meaning(m)) && Holds(Start(verb), env, Print(m) + tail)
    ensures var d := HandleRead(v, files, Start(verb), env).0;
      Refused(Start(verb), d, NOT_FOUND) && d.served == [Meaning(m)] && d.parser.inBuffer == tail
  {
    var f := Fill(Start(verb), env).0;
    assert f.parser == Fresh(verb).Plus(Print(m) + tail);
    RequestRoundTrip(v, verb, m, tail);
    MissPass(v, files, Start(verb), env);
  }
}
