/** Requests as text (sections 3 and 5 of RFC 9112) and what the parser makes of them. */
module RequestText {
  import opened Wrappers
  import opened Text
  import opened HttpParser
  import opened FieldSpacing

  datatype Message = Message(verb: HttpMethod, target: string, version: string, fields: seq<FieldText>)

  /** No delimiter inside the part it delimits; implied by the grammar of the RFC. */
  predicate WellFormed(m: Message) {
    && ' ' !in m.target && '\r' !in m.target && '\r' !in m.version
    && forall f | f in m.fields :: WellFormedField(f)
  }

  function VerbText(verb: HttpMethod): string {
    match verb case GET => "GET" case POST => "POST" case HEAD => "HEAD"
  }

  /** The usual form, one blank before the value. */
  function Narrow(fs: seq<FieldText>): seq<Spaced> {
    if fs == [] then [] else [Spaced(fs[0].name, " ", fs[0].value)] + Narrow(fs[1..])
  }

  function PrintFields(fs: seq<FieldText>): string { PrintLines(Narrow(fs)) }

  function RequestLine(m: Message): string { VerbText(m.verb) + " " + m.target + " " + m.version }

  function Print(m: Message): string {
    RequestLine(m) + "\r\n" + PrintFields(m.fields) + "\r\n"
  }

  function Meaning(m: Message): Request {
    Request(m.verb, MapTarget(m.target), m.version, FieldMap(m.fields, map[]))
  }

  lemma {:induction false} NarrowIsExact(fs: seq<FieldText>)
    requires forall f | f in fs :: WellFormedField(f)
    ensures AllWellSpaced(Narrow(fs)) && AllHaveText(Narrow(fs)) && LastsExact(Narrow(fs)) && Meant(Narrow(fs)) == fs
  {
    if fs != [] {
      NarrowIsExact(fs[1..]);
      assert Narrow(fs)[1..] == Narrow(fs[1..]);
      assert fs == [fs[0]] + fs[1..];
    }
  }

  /** One token and what is behind the blank after it. */
  lemma TokenRoundTrip(token: string, after: string)
    requires ' ' !in token
    ensures var line := token + " " + after; var sp := Find(line, ' ');
      sp == |token| < |line| && line[..sp] == token && AfterToken(line, sp) == after && line[sp + 1..] == after
  {
    var line := token + " " + after;
    assert line == token + [' '] + after;
    FindAfter(token, ' ', after);
    assert line[..|token|] == token && line[|token| + 1..] == after;
  }

  lemma RequestLineRoundTrip(m: Message, p: Parser)
    requires WellFormed(m)
    ensures ReadRequestLine(RequestLine(m), p) == (true, p.(verb := m.verb, url := MapTarget(m.target), version := m.version))
  {
    var after := m.target + " " + m.version;
    assert RequestLine(m) == VerbText(m.verb) + " " + after;
    TokenRoundTrip(VerbText(m.verb), after);
    TokenRoundTrip(m.target, m.version);
    VerbRoundTrip(m.verb, p.verb);
  }

  lemma VerbRoundTrip(verb: HttpMethod, old': HttpMethod)
    ensures ParseVerb(VerbText(verb), old') == verb
  {}

  lemma SplitPrinted(v: Variant, m: Message, rest: string)
    requires WellFormed(m)
    ensures SplitRequestLine(v, RequestLine(m) + "\r\n" + rest) == Some((RequestLine(m), rest))
  {
    var line := RequestLine(m);
    var str := line + "\r\n" + rest;
    assert '\r' !in VerbText(m.verb);
    assert '\r' !in line;
    assert str == line + ['\r'] + ("\n" + rest);
    FindAfter(line, '\r', "\n" + rest);
    assert str[..|line|] == line && Drop(str, |line| + 2) == rest;
  }

  /** The parser that has just read `m` and left `tail` in the buffer. */
  function Read(m: Message, tail: string): Parser {
    var r := Meaning(m);
    Parser(if m.verb.POST? then StateRecvBody else StateAnalysis, tail, r.verb, r.url, r.version, r.headers)
  }

  /** Printing and parsing: the request comes back and exactly the tail stays in the buffer. */
  lemma RequestRoundTrip(v: Variant, verb: HttpMethod, m: Message, tail: string)
    requires WellFormed(m)
    ensures Pass(v, Fresh(verb).Plus(Print(m) + tail)) == (if m.verb.POST? then AwaitBody else Complete, Read(m, tail))
  {
    NarrowIsExact(m.fields);
    SpacedRequestExact(v, verb, m, Narrow(m.fields), tail);
    assert Print(m) == PrintRequest(m, Narrow(m.fields));
  }

  function PrintRequest(m: Message, fs: seq<Spaced>): string { RequestLine(m) + "\r\n" + PrintLines(fs) + "\r\n" }

  lemma PassReadsLine(v: Variant, verb: HttpMethod, m: Message, rest: string)
    requires WellFormed(m)
    ensures var p := Fresh(verb).Plus(RequestLine(m) + "\r\n" + rest);
      Pass(v, p) == HeaderPass(v, p.(inBuffer := rest, verb := m.verb, url := MapTarget(m.target), version := m.version))
  {
    var p := Fresh(verb).Plus(RequestLine(m) + "\r\n" + rest);
    assert p.inBuffer == RequestLine(m) + "\r\n" + rest;
    SplitPrinted(v, m, rest);
    RequestLineRoundTrip(m, p.(inBuffer := rest));
  }

  /** The verdict on a header section that ended, compared with the request that was meant. */
  lemma DecideExact(p: Parser, m: Message, h: Headers, tail: string)
    requires p.verb == m.verb && p.url == MapTarget(m.target) && p.version == m.version
    requires h.status.HeaderUndefined? || (h.status.HeaderSuccess? && h.rest == tail)
    ensures Decide(p, h) == (if m.verb.POST? then AwaitBody else Complete, Read(m, tail))
      <==> h.status.HeaderSuccess? && h.fields == FieldMap(m.fields, map[])
    ensures Decide(p, h).0.Undefined? <==> h.status.HeaderUndefined?
  {}

  /**
    A whole request with any blanks behind its colons: it is read as it is meant exactly when every
    field has something behind its colon, and each value that no later field replaces exactly one
    blank before it. It is undefined exactly when some field has nothing behind its colon.
   */
  lemma SpacedRequestExact(v: Variant, verb: HttpMethod, m: Message, fs: seq<Spaced>, tail: string)
    requires WellFormed(m) && AllWellSpaced(fs) && m.fields == Meant(fs)
    ensures var r := Pass(v, Fresh(verb).Plus(PrintRequest(m, fs) + tail));
      && (r == (if m.verb.POST? then AwaitBody else Complete, Read(m, tail)) <==> AllHaveText(fs) && LastsExact(fs))
      && (r.0.Undefined? <==> !AllHaveText(fs))
  {
    var rest := Section(fs, tail);
    assert PrintRequest(m, fs) + tail == RequestLine(m) + "\r\n" + rest;
    PassReadsLine(v, verb, m, rest);
    LinesRead(v, fs, tail, map[]);
    var q := Fresh(verb).(inBuffer := rest, verb := m.verb, url := MapTarget(m.target), version := m.version);
    DecideExact(q, m, ParseHeaders(v, rest, map[]), tail);
    if AllHaveText(fs) {
      MapsAgree(fs, map[], map[]);
      assert AgreeOutside(map[], map[], Names(fs));
    }
  }

  function PrintAll(ms: seq<Message>): string {
    if ms == [] then "" else Print(ms[0]) + PrintAll(ms[1..])
  }

  predicate Answerable(m: Message) { WellFormed(m) && !m.verb.POST? }

  function Meanings(ms: seq<Message>): seq<Request> { seq(|ms|, i requires 0 <= i < |ms| => Meaning(ms[i])) }

  lemma PrintNotEmpty(m: Message, tail: string)
    ensures Print(m) + tail != ""
  {
    assert |"\r\n"| == 2;
  }

  lemma PipelineStep(v: Variant, p: Parser, q: Parser, later: seq<Request>)
    requires p.Waiting() && Pass(v, p) == (Complete, q)
    requires q.inBuffer == "" ==> later == []
    requires q.inBuffer != "" ==> ParseAll(v, q.Reset()) == Parsed(later, NeedMore, Fresh(GET))
    ensures ParseAll(v, p) == Parsed([q.Current()] + later, NeedMore, Fresh(GET))
  {
    if q.inBuffer != "" { ParseAllStep(v, p, q); } else { assert [q.Current()] + later == [q.Current()]; }
  }

  lemma ReadLeaves(m: Message, tail: string)
    ensures var q := Read(m, tail);
      q.inBuffer == tail && q.Current() == Meaning(m) && q.Reset() == Fresh(GET).Plus(tail)
  {
    assert "" + tail == tail;
  }

  lemma MeaningsStep(ms: seq<Message>)
    requires ms != []
    ensures Meanings(ms) == [Meaning(ms[0])] + Meanings(ms[1..])
    ensures |ms| == 1 ==> Meanings(ms[1..]) == []
    ensures |ms| == 1 <==> PrintAll(ms[1..]) == ""
  {
    if |ms| > 1 { PrintNotEmpty(ms[1], PrintAll(ms[1..][1..])); }
  }

  /** Pipelined requests are found one by one, in order, and nothing is left over. */
  lemma {:induction false} PipelineRoundTrip(v: Variant, verb: HttpMethod, ms: seq<Message>)
    requires ms != [] && forall m | m in ms :: Answerable(m)
    ensures ParseAll(v, Fresh(verb).Plus(PrintAll(ms))) == Parsed(Meanings(ms), NeedMore, Fresh(GET))
    decreases |ms|
  {
    var rest := ms[1..];
    MeaningsStep(ms);
    assert Answerable(ms[0]);
    RequestRoundTrip(v, verb, ms[0], PrintAll(rest));
    ReadLeaves(ms[0], PrintAll(rest));
    if rest != [] { PipelineRoundTrip(v, GET, rest); }
    PipelineStep(v, Fresh(verb).Plus(Print(ms[0]) + PrintAll(rest)), Read(ms[0], PrintAll(rest)), Meanings(rest));
  }

  /** Repaired: however the network cuts the stream of a well-formed client, it is understood. */
  lemma PipelineAnyChunking(verb: HttpMethod, ms: seq<Message>, chunks: seq<string>)
    requires ms != [] && forall m | m in ms :: Answerable(m)
    requires Concat(chunks) == PrintAll(ms)
    ensures Feed(Repaired, Fresh(verb), chunks).requests == Meanings(ms)
  {
    PipelineRoundTrip(Repaired, verb, ms);
    ChunkingRepaired(Fresh(verb), chunks);
  }

  /** As written, a request line that arrives alone is answered at once. */
  lemma PrematureRequest(verb: HttpMethod, m: Message)
    requires Answerable(m)
    ensures var p := Fresh(verb).Plus(RequestLine(m) + "\r\n"); var (d, q) := Pass(AsWritten, p);
      && d.Complete? && q.inBuffer == "" && q.Current() == Meaning(m.(fields := []))
      && !SafeCut(p)
  {
    var line := RequestLine(m);
    var p := Fresh(verb).Plus(line + "\r\n");
    assert p.inBuffer == line + "\r\n" + "";
    SplitPrinted(AsWritten, m, "");
    SplitPrinted(Repaired, m, "");
    RequestLineRoundTrip(m, p.(inBuffer := ""));
    RequestLineRoundTrip(m, p);
    var q := p.(inBuffer := "", verb := m.verb, url := MapTarget(m.target), version := m.version);
    assert ParseHeaders(AsWritten, "", map[]) == Headers(HeaderSuccess, "", map[]);
    PassComplete(AsWritten, p, line, "", q, Headers(HeaderSuccess, "", map[]));
  }

  /**
    As written the cut matters: every request with header fields whose delivery is cut behind the
    request line, which is not a safe cut, is misread.
   */
  lemma CutBehindRequestLine(verb: HttpMethod, m: Message)
    requires Answerable(m) && m.fields != []
    ensures var chunks := [RequestLine(m) + "\r\n", PrintFields(m.fields) + "\r\n"];
      && Concat(chunks) == Print(m)
      && !SafeChunks(Fresh(verb), chunks)
      && Feed(AsWritten, Fresh(verb), chunks).requests != Meanings([m])
  {
    var chunks := [RequestLine(m) + "\r\n", PrintFields(m.fields) + "\r\n"];
    assert Concat(chunks) == Print(m) by {
      assert Concat(chunks[1..]) == chunks[1] + "";
      assert chunks[0] + chunks[1] == Print(m);
    }
    PrematureRequest(verb, m);
    LastFieldWins(m.fields, map[], m.fields[0].name);
    assert m.fields[0].name in Meanings([m])[0].headers;
    FirstRequest(Fresh(verb), chunks, Meaning(m.(fields := [])));
  }

  lemma FirstRequest(p: Parser, chunks: seq<string>, r: Request)
    requires p.Waiting() && chunks != []
    requires var (d, q) := Pass(AsWritten, p.Plus(chunks[0])); d.Complete? && q.inBuffer == "" && q.Current() == r
    ensures var f := Feed(AsWritten, p, chunks); f.requests != [] && f.requests[0] == r
  {}
}
