/**
  The resumable request parser of HttpData.cpp, as functions on its state. `AsWritten` is the code;
  `Repaired` differs in the three places where the code does not wait for a complete line:
  a request line without end is not taken for parsed, a request line ends only when the character
  after '\r' has arrived, and an empty buffer does not end the header section.
 */
module HttpParser {
  import opened Text
  import opened Wrappers

  datatype Variant = AsWritten | Repaired

  datatype HttpMethod = GET | POST | HEAD

  datatype ProcessState = StateParseUrl | StateParseHeaders | StateRecvBody | StateAnalysis | StateFinish

  datatype UrlState = UrlAgain | UrlError | UrlSuccess

  /** `HeaderUndefined`: the iterator range of the value would end before it begins. */
  datatype HeaderState = HeaderSuccess | HeaderAgain | HeaderError | HeaderUndefined

  datatype Parser = Parser(
    state: ProcessState,
    inBuffer: string,
    verb: HttpMethod,
    url: string,
    version: string,
    headers: map<string, string>)
  {
    function Plus(x: string): Parser { this.(inBuffer := inBuffer + x) }

    /** States between two handler calls of a connection without error. */
    predicate Waiting() { state.StateParseUrl? || state.StateParseHeaders? || state.StateRecvBody? }

    /** `HttpData::reset`: both buffers are kept. */
    function Reset(): Parser { Parser(StateParseUrl, inBuffer, GET, "", "", map[]) }

    function Current(): Request { Request(verb, url, version, headers) }
  }

  datatype Request = Request(verb: HttpMethod, url: string, version: string, headers: map<string, string>)

  /** `substr(pos + 1)`; `npos + 1` is 0. */
  function AfterToken(s: string, pos: nat): string
    requires pos <= |s|
  {
    if pos == |s| then s else s[pos + 1..]
  }

  function Drop(s: string, n: nat): string { if |s| > n then s[n..] else "" }

  function MapTarget(target: string): string {
    if target == "/" then "root/log.html" else "root" + target
  }

  function ParseVerb(token: string, verb: HttpMethod): HttpMethod {
    if token == "GET" then GET else if token == "POST" then POST else if token == "HEAD" then HEAD else verb
  }

  /** The request line and the buffer behind it; absent while the line is not complete. */
  function SplitRequestLine(v: Variant, str: string): (r: Option<(string, string)>)
    ensures r.Some? ==> |r.value.1| < |str|
  {
    var pos := Find(str, '\r');
    if pos == |str| || (v.Repaired? && pos + 1 == |str|) then None
    else Some((str[..pos], Drop(str, pos + 2)))
  }

  /** Method, target and version of a complete line. */
  function ReadRequestLine(line: string, p: Parser): (r: (bool, Parser))
    ensures r.1.inBuffer == p.inBuffer && r.1.state == p.state && r.1.headers == p.headers
    ensures r.1.url == p.url || "root" <= r.1.url
  {
    var sp := Find(line, ' ');
    var q := p.(verb := ParseVerb(line[..sp], p.verb));
    var line := AfterToken(line, sp);
    var sp := Find(line, ' ');
    if sp == |line| then (false, q)
    else (true, q.(url := MapTarget(line[..sp]), version := line[sp + 1..]))
  }

  function ParseUrl(v: Variant, p: Parser): (r: (UrlState, Parser))
    ensures |r.1.inBuffer| <= |p.inBuffer|
    ensures r.1.state == p.state && r.1.headers == p.headers
    ensures r.1.url == p.url || "root" <= r.1.url
  {
    match SplitRequestLine(v, p.inBuffer)
    case None => (UrlAgain, p)
    case Some((line, rest)) =>
      var (ok, q) := ReadRequestLine(line, p.(inBuffer := rest));
      (if ok then UrlSuccess else UrlError, q)
  }

  datatype Line = Wait | Blank(rest: string) | Bad(rest: string) | Reversed(rest: string) | Field(name: string, value: string, rest: string)

  /** One turn of the loop in `parseHeaders`. */
  function NextLine(v: Variant, str: string): (r: Line)
    ensures r.Wait? || |r.rest| < |str| || (r.Blank? && str == "")
  {
    var pos := Find(str, '\n');
    if pos == |str| && (str != "" || v.Repaired?) then Wait
    else if str == "" || str[0] == '\r' then Blank(Drop(str, 2))
    else FieldLine(str[..pos], Drop(str, pos + 1))
  }

  function FieldLine(line: string, rest: string): (r: Line)
    ensures !r.Wait? && !r.Blank? && r.rest == rest
  {
    var colon := Find(line, ':');
    if colon == |line| then Bad(rest)
    else if |line| < colon + 3 then Reversed(rest)
    else Field(line[..colon], line[colon + 2..|line| - 1], rest)
  }

  datatype Headers = Headers(status: HeaderState, rest: string, fields: map<string, string>)

  function ParseHeaders(v: Variant, str: string, fields: map<string, string>): (r: Headers)
    ensures |r.rest| <= |str|
    ensures r.status.HeaderSuccess? && r.rest != "" ==> |r.rest| < |str|
    decreases |str|
  {
    match NextLine(v, str)
    case Wait => Headers(HeaderAgain, str, fields)
    case Blank(rest) => Headers(HeaderSuccess, rest, fields)
    case Bad(rest) => Headers(HeaderError, rest, fields)
    case Reversed(rest) => Headers(HeaderUndefined, rest, fields)
    case Field(name, value, rest) => ParseHeaders(v, rest, fields[name := value])
  }

  datatype Verdict = NeedMore | BadRequest | Undefined | AwaitBody | Complete

  /** The parsing part of one `handleRead`: from the request line to the decision to analyse. */
  function Pass(v: Variant, p: Parser): (r: (Verdict, Parser))
    ensures |r.1.inBuffer| <= |p.inBuffer|
    ensures r.0.Complete? && p.Waiting() && r.1.inBuffer != "" ==> |r.1.inBuffer| < |p.inBuffer|
    ensures r.0.NeedMore? && p.Waiting() ==> r.1.Waiting() && !r.1.state.StateRecvBody?
    ensures r.1.url == p.url || "root" <= r.1.url
    ensures r.0.Complete? ==> r.1.state.StateAnalysis?
    ensures r.0.AwaitBody? ==> r.1.state.StateRecvBody?
  {
    match p.state
    case StateParseUrl => UrlPass(v, ParseUrl(v, p))
    case StateParseHeaders => HeaderPass(v, p)
    case StateRecvBody => (AwaitBody, p)
    case StateAnalysis => (Complete, p)
    case StateFinish => (NeedMore, p)
  }

  function UrlPass(v: Variant, u: (UrlState, Parser)): (r: (Verdict, Parser))
    ensures |r.1.inBuffer| <= |u.1.inBuffer|
    ensures r.0.Complete? && r.1.inBuffer != "" ==> |r.1.inBuffer| < |u.1.inBuffer|
    ensures r.0.NeedMore? ==> r.1.state.StateParseHeaders? || r.1.state == u.1.state
    ensures r.0.Complete? ==> r.1.state.StateAnalysis?
    ensures r.0.AwaitBody? ==> r.1.state.StateRecvBody?
    ensures r.1.url == u.1.url
  {
    if u.0.UrlError? then (BadRequest, u.1.(inBuffer := ""))
    else if u.0.UrlAgain? && v.Repaired? then (NeedMore, u.1)
    else HeaderPass(v, u.1)
  }

  function HeaderPass(v: Variant, p: Parser): (r: (Verdict, Parser))
    ensures |r.1.inBuffer| <= |p.inBuffer|
    ensures r.0.Complete? && r.1.inBuffer != "" ==> |r.1.inBuffer| < |p.inBuffer|
    ensures r.1.url == p.url && Follows(r.0, r.1.state)
  {
    Decide(p, ParseHeaders(v, p.inBuffer, p.headers))
  }

  /** The state that a verdict leaves behind. */
  predicate Follows(d: Verdict, state: ProcessState) {
    && (d.NeedMore? ==> state.StateParseHeaders?)
    && (d.Complete? ==> state.StateAnalysis?)
    && (d.AwaitBody? ==> state.StateRecvBody?)
  }

  /** What `handleRead` makes of the outcome of `parseHeaders`. */
  function Decide(p: Parser, h: Headers): (r: (Verdict, Parser))
    ensures r.1.inBuffer == h.rest && r.1.url == p.url && (r.0.Complete? ==> h.status.HeaderSuccess?)
    ensures Follows(r.0, r.1.state)
  {
    var q := p.(state := StateParseHeaders, inBuffer := h.rest, headers := h.fields);
    match h.status
    case HeaderAgain => (NeedMore, q)
    case HeaderError => (BadRequest, q)
    case HeaderUndefined => (Undefined, q)
    case HeaderSuccess =>
      if p.verb.POST? then (AwaitBody, q.(state := StateRecvBody)) else (Complete, q.(state := StateAnalysis))
  }

  datatype Parsed = Parsed(requests: seq<Request>, verdict: Verdict, parser: Parser)
  {
    predicate Open() { verdict.NeedMore? || verdict.AwaitBody? }

    function After(done: seq<Request>): Parsed { this.(requests := done + requests) }
  }

  /** Every request that the buffered text completes, as the recursion of `handleRead` finds them. */
  function ParseAll(v: Variant, p: Parser): (r: Parsed)
    requires p.Waiting()
    ensures r.Open() ==> r.parser.Waiting() && (r.verdict.AwaitBody? <==> r.parser.state.StateRecvBody?)
    ensures !r.verdict.Complete?
    decreases |p.inBuffer|
  {
    var (d, q) := Pass(v, p);
    if !d.Complete? then Parsed([], d, q)
    else if q.inBuffer == "" then Parsed([q.Current()], NeedMore, q.Reset())
    else ParseAll(v, q.Reset()).After([q.Current()])
  }

  /** Text delivered in pieces, parsed as far as possible after each. */
  function Feed(v: Variant, p: Parser, chunks: seq<string>): Parsed
    requires p.Waiting()
    decreases |chunks|
  {
    if chunks == [] then Parsed([], if p.state.StateRecvBody? then AwaitBody else NeedMore, p)
    else
      var r := ParseAll(v, p.Plus(chunks[0]));
      if r.Open() then Feed(v, r.parser, chunks[1..]).After(r.requests) else r
  }

  /** A pass over a complete request, put together from its parts. */
  lemma PassComplete(v: Variant, p: Parser, line: string, rest: string, q: Parser, h: Headers)
    requires p.state.StateParseUrl? && SplitRequestLine(v, p.inBuffer) == Some((line, rest))
    requires ReadRequestLine(line, p.(inBuffer := rest)) == (true, q)
    requires ParseHeaders(v, q.inBuffer, q.headers) == h && h.status.HeaderSuccess?
    ensures Pass(v, p) ==
      (if q.verb.POST? then AwaitBody else Complete,
       q.(state := if q.verb.POST? then StateRecvBody else StateAnalysis, inBuffer := h.rest, headers := h.fields))
  {}

  // ---------------------------------------------------------------- what is read and what is refused

  predicate TwoBlanks(line: string) { exists i, j :: 0 <= i < j < |line| && line[i] == ' ' && line[j] == ' ' }

  /** A request line is read exactly when it has two blanks. */
  lemma RequestLineExact(line: string, p: Parser)
    ensures ReadRequestLine(line, p).0 <==> TwoBlanks(line)
  {
    var sp := Find(line, ' ');
    var behind := AfterToken(line, sp);
    var sp' := Find(behind, ' ');
    if sp < |line| && sp' < |behind| {
      assert line[sp] == ' ' && line[sp + 1 + sp'] == ' ';
    } else {
      assert forall k | 0 <= k < sp :: line[..sp][k] == line[k];
      forall i, j | 0 <= i < j < |line| && line[i] == ' ' ensures line[j] != ' ' {
        assert behind[j - sp - 1] == line[j] && behind[..sp'][j - sp - 1] == line[j];
      }
    }
  }

  /** And then each part is found; an unknown method leaves the verb as it was. */
  lemma RequestLineParts(method': string, target: string, version: string, p: Parser)
    requires ' ' !in method' && ' ' !in target
    ensures ReadRequestLine(method' + " " + target + " " + version, p) ==
      (true, p.(verb := if method' == "GET" then GET else if method' == "POST" then POST else if method' == "HEAD" then HEAD else p.verb,
                url := if target == "/" then "root/log.html" else "root" + target,
                version := version))
  {
    var behind := target + " " + version;
    var line := method' + " " + target + " " + version;
    assert line == method' + [' '] + behind && behind == target + [' '] + version;
    FindAfter(method', ' ', behind);
    FindAfter(target, ' ', version);
    assert line[..|method'|] == method' && line[|method'| + 1..] == behind;
    assert behind[..|target|] == target && behind[|target| + 1..] == version;
  }

  /** The request line ends at the first '\r'; the character behind that is skipped, and has to be there when repaired. */
  lemma SplitExact(v: Variant, line: string, c: char, rest: string)
    requires '\r' !in line
    ensures SplitRequestLine(v, line) == None
    ensures SplitRequestLine(v, line + "\r") == if v.Repaired? then None else Some((line, ""))
    ensures SplitRequestLine(v, line + "\r" + [c] + rest) == Some((line, rest))
  {
    assert line[..|line|] == line;
    FindIs(line, '\r', |line|);
    assert line + "\r" == line + ['\r'] + "";
    FindAfter(line, '\r', "");
    var str := line + "\r" + [c] + rest;
    assert str == line + ['\r'] + ([c] + rest);
    FindAfter(line, '\r', [c] + rest);
    assert str[..|line|] == line && Drop(str, |line| + 2) == rest;
  }

  /** A header line without ':' is bad; behind the colon it needs two characters more, the first and the last of which are dropped. */
  lemma FieldLineExact(name: string, behind: string, rest: string)
    requires ':' !in name
    ensures FieldLine(name, rest) == Bad(rest)
    ensures FieldLine(name + ":" + behind, rest) == if |behind| < 2 then Reversed(rest) else Field(name, behind[1..|behind| - 1], rest)
  {
    assert name[..|name|] == name;
    FindIs(name, ':', |name|);
    var line := name + ":" + behind;
    assert line == name + [':'] + behind;
    FindAfter(name, ':', behind);
    assert line[..|name|] == name;
    if |behind| >= 2 { assert line[|name| + 2..|line| - 1] == behind[1..|behind| - 1]; }
  }

  /** A header line ends at the first '\n'; one that begins with '\r' ends the section and takes two characters with it. */
  lemma NextLineExact(v: Variant, line: string, rest: string)
    requires '\n' !in line
    ensures NextLine(v, line) == if line == "" && v.AsWritten? then Blank("") else Wait
    ensures line != "" && line[0] != '\r' ==> NextLine(v, line + "\n" + rest) == FieldLine(line, rest)
    ensures line == "" ==> NextLine(v, line + "\n" + rest) == FieldLine(line, rest)
    ensures line == "\r" ==> NextLine(v, line + "\n" + rest) == Blank(rest)
  {
    assert line[..|line|] == line;
    FindIs(line, '\n', |line|);
    var str := line + "\n" + rest;
    assert str == line + ['\n'] + rest;
    FindAfter(line, '\n', rest);
    assert str[..|line|] == line && Drop(str, |line| + 1) == rest;
  }

  // ---------------------------------------------------------------- resuming

  lemma DropExact(s: string, n: nat, x: string)
    requires n <= |s|
    ensures Drop(s, n) == s[n..]
    ensures Drop(s + x, n) == s[n..] + x
  {}

  lemma NextLineExtend(str: string, x: string)
    ensures var r := NextLine(Repaired, str);
      !r.Wait? ==> NextLine(Repaired, str + x) == r.(rest := r.rest + x)
  {
    var pos := Find(str, '\n');
    if pos < |str| {
      FindExtend(str, x, '\n');
      if str[0] == '\r' {
        assert pos > 0;
        DropExact(str, 2, x);
      } else {
        NextFieldExtend(str, pos, x);
      }
    }
  }

  lemma NextFieldExtend(str: string, pos: nat, x: string)
    requires pos < |str|
    ensures FieldLine((str + x)[..pos], Drop(str + x, pos + 1)) ==
      var r := FieldLine(str[..pos], Drop(str, pos + 1)); r.(rest := r.rest + x)
  {
    DropExact(str, pos + 1, x);
    assert (str + x)[..pos] == str[..pos];
  }

  /**
    The key to chunking: a header section cut anywhere and resumed with any suffix parses as the
    uncut text does, and a decision taken is not changed by later text.
   */
  lemma {:induction false} HeadersResume(str: string, fields: map<string, string>, x: string)
    ensures var r, w := ParseHeaders(Repaired, str, fields), ParseHeaders(Repaired, str + x, fields);
      && (r.status.HeaderAgain? ==> ParseHeaders(Repaired, r.rest + x, r.fields) == w)
      && (!r.status.HeaderAgain? ==> w == r.(rest := r.rest + x))
    decreases |str|
  {
    NextLineExtend(str, x);
    match NextLine(Repaired, str)
    case Field(name, value, rest) => HeadersResume(rest, fields[name := value], x);
    case _ =>
  }

  lemma DecideExtends(p: Parser, h: Headers, x: string)
    ensures var (d, q) := Decide(p, h); Decide(p.Plus(x), h.(rest := h.rest + x)) == (d, q.Plus(x))
  {}

  /** The buffer and the fields of the parser are all that `Decide` replaces. */
  lemma DecideForgets(p: Parser, h: Headers, g: Headers, x: string)
    requires h.status.HeaderAgain?
    ensures Decide(Decide(p, h).1.Plus(x), g) == Decide(p.Plus(x), g)
  {}

  lemma HeaderPassResume(p: Parser, x: string)
    ensures var (d, q) := HeaderPass(Repaired, p);
      && (d.NeedMore? ==> HeaderPass(Repaired, q.Plus(x)) == HeaderPass(Repaired, p.Plus(x)))
      && (!d.NeedMore? ==> HeaderPass(Repaired, p.Plus(x)) == (d, q.Plus(x)))
  {
    HeadersResume(p.inBuffer, p.headers, x);
    var h := ParseHeaders(Repaired, p.inBuffer, p.headers);
    if h.status.HeaderAgain? {
      DecideForgets(p, h, ParseHeaders(Repaired, p.inBuffer + x, p.headers), x);
    } else {
      DecideExtends(p, h, x);
    }
  }

  lemma SplitExtend(str: string, x: string)
    ensures var r := SplitRequestLine(Repaired, str);
      r.Some? ==> SplitRequestLine(Repaired, str + x) == Some((r.value.0, r.value.1 + x))
  {
    var pos := Find(str, '\r');
    if pos + 1 < |str| {
      FindExtend(str, x, '\r');
      DropExact(str, pos + 2, x);
      assert (str + x)[..pos] == str[..pos];
    }
  }

  lemma UrlResume(p: Parser, x: string)
    ensures var (flag, q) := ParseUrl(Repaired, p);
      && (flag.UrlAgain? ==> q == p)
      && (!flag.UrlAgain? ==> ParseUrl(Repaired, p.Plus(x)) == (flag, q.Plus(x)))
  {
    SplitExtend(p.inBuffer, x);
    var split := SplitRequestLine(Repaired, p.inBuffer);
    if split.Some? { ReadRequestLineFrame(split.value.0, p, split.value.1, x); }
  }

  lemma ReadRequestLineFrame(line: string, p: Parser, rest: string, x: string)
    ensures var (ok, q) := ReadRequestLine(line, p.(inBuffer := rest));
      ReadRequestLine(line, p.Plus(x).(inBuffer := rest + x)) == (ok, q.Plus(x))
  {}

  lemma UrlPassResume(u: (UrlState, Parser), x: string)
    requires !u.0.UrlAgain?
    ensures var (d, q) := UrlPass(Repaired, u); var w := UrlPass(Repaired, (u.0, u.1.Plus(x)));
      && (d.NeedMore? ==> q.state.StateParseHeaders? && HeaderPass(Repaired, q.Plus(x)) == w)
      && (d.Complete? || d.AwaitBody? ==> w == (d, q.Plus(x)))
      && (!d.NeedMore? ==> w.0 == d)
  {
    HeaderPassResume(u.1, x);
  }

  lemma PassResumeUrl(p: Parser, x: string)
    requires p.state.StateParseUrl? && !ParseUrl(Repaired, p).0.UrlAgain?
    ensures var (d, q) := Pass(Repaired, p); var w := Pass(Repaired, p.Plus(x));
      && (d.NeedMore? ==> q.state.StateParseHeaders? && HeaderPass(Repaired, q.Plus(x)) == w)
      && (d.Complete? || d.AwaitBody? ==> w == (d, q.Plus(x)))
      && (!d.NeedMore? ==> w.0 == d)
  {
    UrlResume(p, x);
    UrlPassResume(ParseUrl(Repaired, p), x);
  }

  lemma PassWaitsForLine(p: Parser)
    requires p.state.StateParseUrl? && ParseUrl(Repaired, p).0.UrlAgain?
    ensures Pass(Repaired, p) == (NeedMore, p)
  {
    UrlResume(p, "");
  }

  lemma PassHeaders(p: Parser)
    requires p.state.StateParseHeaders?
    ensures Pass(Repaired, p) == HeaderPass(Repaired, p)
  {}

  lemma PassResumeHeaders(p: Parser, x: string)
    requires p.state.StateParseHeaders?
    ensures var (d, q) := Pass(Repaired, p); var w := Pass(Repaired, p.Plus(x));
      && (d.NeedMore? ==> q.state.StateParseHeaders? && HeaderPass(Repaired, q.Plus(x)) == w)
      && (!d.NeedMore? ==> w == (d, q.Plus(x)))
  {
    HeaderPassResume(p, x);
    PassHeaders(p);
    PassHeaders(p.Plus(x));
  }

  lemma PassResume(p: Parser, x: string)
    requires p.Waiting()
    ensures var (d, q) := Pass(Repaired, p); var w := Pass(Repaired, p.Plus(x));
      && (d.NeedMore? ==> Pass(Repaired, q.Plus(x)) == w)
      && (d.Complete? || d.AwaitBody? ==> w == (d, q.Plus(x)))
      && (!d.NeedMore? ==> w.0 == d)
  {
    var (d, q) := Pass(Repaired, p);
    if p.state.StateParseUrl? && ParseUrl(Repaired, p).0.UrlAgain? {
      PassWaitsForLine(p);
    } else if !p.state.StateRecvBody? {
      if p.state.StateParseUrl? { PassResumeUrl(p, x); } else { PassResumeHeaders(p, x); }
      if d.NeedMore? { PassHeaders(q.Plus(x)); }
    }
  }

  /** Parsing what has arrived and later the rest gives what parsing everything at once gives. */
  lemma {:induction false} ParseAllResume(p: Parser, x: string)
    requires p.Waiting()
    ensures var r, w := ParseAll(Repaired, p), ParseAll(Repaired, p.Plus(x));
      && (r.Open() ==> w == ParseAll(Repaired, r.parser.Plus(x)).After(r.requests))
      && (!r.Open() ==> w.requests == r.requests && w.verdict == r.verdict)
    decreases |p.inBuffer|
  {
    var (d, q) := Pass(Repaired, p);
    PassResume(p, x);
    if d.Complete? {
      if q.inBuffer == "" {
        ParseAllEmpty(p, q, x);
      } else {
        var next := q.Reset();
        ParseAllResume(next, x);
        assert q.Plus(x).Reset() == next.Plus(x);
        ParseAllStep(Repaired, p, q);
        ParseAllStep(Repaired, p.Plus(x), q.Plus(x));
        var r := ParseAll(Repaired, next);
        if r.Open() { AfterAfter(ParseAll(Repaired, r.parser.Plus(x)), [q.Current()], r.requests); }
      }
    } else if d.AwaitBody? || d.NeedMore? {
      ParseAllSame(q.Plus(x), p.Plus(x));
    }
  }

  lemma ParseAllSame(a: Parser, b: Parser)
    requires a.Waiting() && b.Waiting() && Pass(Repaired, a) == Pass(Repaired, b)
    ensures ParseAll(Repaired, b) == ParseAll(Repaired, a).After([])
  {
    var (d, q) := Pass(Repaired, a);
    if d.Complete? && q.inBuffer != "" {
      ParseAllStep(Repaired, a, q);
      ParseAllStep(Repaired, b, q);
    }
    var r := ParseAll(Repaired, b);
    assert [] + r.requests == r.requests;
  }

  lemma NothingToParse(p: Parser)
    requires p.state.StateParseUrl? && p.inBuffer == ""
    ensures ParseAll(Repaired, p) == Parsed([], NeedMore, p)
  {
    PassWaitsForLine(p);
  }

  lemma ParseAllLast(v: Variant, p: Parser, q: Parser)
    requires p.Waiting() && q.inBuffer == "" && Pass(v, p) == (Complete, q)
    ensures ParseAll(v, p) == Parsed([q.Current()], NeedMore, q.Reset())
  {}

  lemma ParseAllEmpty(p: Parser, q: Parser, x: string)
    requires p.Waiting() && q.inBuffer == ""
    requires Pass(Repaired, p) == (Complete, q) && Pass(Repaired, p.Plus(x)) == (Complete, q.Plus(x))
    ensures ParseAll(Repaired, p.Plus(x)) == ParseAll(Repaired, q.Reset().Plus(x)).After([q.Current()])
  {
    assert q.Plus(x).Reset() == q.Reset().Plus(x);
    if x == "" {
      NothingToParse(q.Reset().Plus(x));
      ParseAllLast(Repaired, p.Plus(x), q.Plus(x));
      assert [q.Current()] + [] == [q.Current()];
    } else {
      ParseAllStep(Repaired, p.Plus(x), q.Plus(x));
    }
  }

  lemma AfterAfter(r: Parsed, a: seq<Request>, b: seq<Request>)
    ensures r.After(b).After(a) == r.After(a + b)
  {
    assert a + (b + r.requests) == (a + b) + r.requests;
  }

  lemma ParseAllStep(v: Variant, p: Parser, q: Parser)
    requires p.Waiting() && q.inBuffer != "" && Pass(v, p) == (Complete, q)
    ensures ParseAll(v, p) == ParseAll(v, q.Reset()).After([q.Current()])
  {}

  /** Repaired, the way the stream is cut into deliveries does not matter. */
  lemma {:induction false} ChunkingRepaired(p: Parser, chunks: seq<string>)
    requires p.Waiting() && ParseAll(Repaired, p) == Parsed([], NeedMore, p)
    ensures var f, w := Feed(Repaired, p, chunks), ParseAll(Repaired, p.Plus(Concat(chunks)));
      && f.requests == w.requests && f.verdict == w.verdict
      && (w.Open() ==> f.parser == w.parser)
    decreases |chunks|
  {
    if chunks == [] {
      assert p.Plus("") == p;
    } else {
      var x, later := chunks[0], Concat(chunks[1..]);
      assert p.Plus(x).Plus(later) == p.Plus(x + later);
      ParseAllResume(p.Plus(x), later);
      var r := ParseAll(Repaired, p.Plus(x));
      if r.Open() {
        ChunkingQuiescent(p.Plus(x));
        if r.verdict.NeedMore? {
          ChunkingRepaired(r.parser, chunks[1..]);
        } else {
          FeedBody(r.parser, chunks[1..]);
        }
      }
    }
  }

  /** After everything has been parsed, parsing again finds nothing. */
  lemma ChunkingQuiescent(p: Parser)
    requires p.Waiting()
    ensures var r := ParseAll(Repaired, p);
      r.Open() ==> ParseAll(Repaired, r.parser) == Parsed([], r.verdict, r.parser)
  {
    ParseAllResume(p, "");
    var r := ParseAll(Repaired, p);
    assert p.Plus("") == p;
    if r.Open() {
      assert r.parser.Plus("") == r.parser;
      var again := ParseAll(Repaired, r.parser);
      assert |again.requests| == 0;
    }
  }

  /** A request whose body is awaited only collects text. */
  lemma {:induction false} FeedBody(p: Parser, chunks: seq<string>)
    requires p.state.StateRecvBody?
    ensures forall v :: Feed(v, p, chunks).requests == [] && Feed(v, p, chunks).verdict.AwaitBody?
    ensures forall v :: Feed(v, p, chunks).parser == p.Plus(Concat(chunks))
    decreases |chunks|
  {
    if chunks == [] {
      assert p.Plus("") == p;
    } else {
      FeedBody(p.Plus(chunks[0]), chunks[1..]);
      assert p.Plus(chunks[0]).Plus(Concat(chunks[1..])) == p.Plus(Concat(chunks));
    }
  }

  // ---------------------------------------------------------------- the code as written

  /** The header text does not stop right after a complete line. */
  predicate SafeHeaders(str: string)
    decreases |str|
  {
    str != "" &&
    match NextLine(Repaired, str)
    case Field(_, _, rest) => SafeHeaders(rest)
    case _ => true
  }

  /**
    What the caller can see in the buffer: the request line is there with the character after its
    '\r', and the text behind it ends inside a header line or the blank line, or past the latter.
   */
  predicate SafeCut(p: Parser) {
    match p.state
    case StateParseUrl =>
      (match SplitRequestLine(Repaired, p.inBuffer)
       case None => false
       case Some((line, rest)) => !ReadRequestLine(line, p).0 || SafeHeaders(rest))
    case StateParseHeaders => SafeHeaders(p.inBuffer)
    case _ => true
  }

  lemma {:induction false} SafeHeadersAgree(str: string, fields: map<string, string>)
    ensures ParseHeaders(AsWritten, str, fields) == ParseHeaders(Repaired, str, fields) <==> SafeHeaders(str)
    ensures !SafeHeaders(str) ==> ParseHeaders(AsWritten, str, fields).status.HeaderSuccess?
    ensures !SafeHeaders(str) ==> ParseHeaders(Repaired, str, fields).status.HeaderAgain?
    decreases |str|
  {
    match NextLine(Repaired, str)
    case Field(name, value, rest) => SafeHeadersAgree(rest, fields[name := value]);
    case _ =>
  }

  lemma SplitAgree(str: string)
    ensures var a, r := SplitRequestLine(AsWritten, str), SplitRequestLine(Repaired, str);
      && (r.Some? ==> a == r)
      && (r.None? && a.Some? ==> a.value.1 == "")
  {}

  lemma HeaderPassAgree(p: Parser)
    ensures HeaderPass(AsWritten, p) == HeaderPass(Repaired, p) <==> SafeHeaders(p.inBuffer)
    ensures !SafeHeaders(p.inBuffer) ==> !HeaderPass(AsWritten, p).0.NeedMore?
  {
    SafeHeadersAgree(p.inBuffer, p.headers);
  }

  /** Without a complete request line the code goes on to an empty rest, or to the line as a header. */
  lemma UrlPassWaits(p: Parser)
    requires p.state.StateParseUrl? && SplitRequestLine(Repaired, p.inBuffer).None?
    ensures Pass(AsWritten, p) != Pass(Repaired, p)
  {
    PassWaitsForLine(p);
    UrlPassGoesOn(ParseUrl(AsWritten, p));
  }

  lemma UrlPassGoesOn(u: (UrlState, Parser))
    ensures UrlPass(AsWritten, u).0.NeedMore? ==> UrlPass(AsWritten, u).1.state.StateParseHeaders?
  {}

  /** Both variants read a complete request line alike. */
  lemma ParseUrlAgree(v: Variant, p: Parser, line: string, rest: string)
    requires SplitRequestLine(Repaired, p.inBuffer) == Some((line, rest))
    ensures var (ok, q) := ReadRequestLine(line, p.(inBuffer := rest));
      ParseUrl(v, p) == (if ok then UrlSuccess else UrlError, q)
  {
    SplitAgree(p.inBuffer);
  }

  lemma ReadLineRest(line: string, p: Parser, rest: string)
    ensures ReadRequestLine(line, p.(inBuffer := rest)).0 == ReadRequestLine(line, p).0
    ensures ReadRequestLine(line, p.(inBuffer := rest)).1.inBuffer == rest
  {}

  lemma UrlPassAgree(p: Parser, line: string, rest: string)
    requires p.state.StateParseUrl? && SplitRequestLine(Repaired, p.inBuffer) == Some((line, rest))
    ensures Pass(AsWritten, p) == Pass(Repaired, p) <==> !ReadRequestLine(line, p).0 || SafeHeaders(rest)
  {
    ParseUrlAgree(AsWritten, p, line, rest);
    ParseUrlAgree(Repaired, p, line, rest);
    ReadLineRest(line, p, rest);
    HeaderPassAgree(ParseUrl(Repaired, p).1);
  }

  /** As written, one pass waits for complete lines exactly on the safe cuts. */
  lemma SafeCutExact(p: Parser)
    requires p.Waiting()
    ensures Pass(AsWritten, p) == Pass(Repaired, p) <==> SafeCut(p)
  {
    match p.state
    case StateParseUrl =>
      var split := SplitRequestLine(Repaired, p.inBuffer);
      if split.None? { UrlPassWaits(p); } else { UrlPassAgree(p, split.value.0, split.value.1); }
    case StateParseHeaders => HeaderPassAgree(p);
    case StateRecvBody =>
  }

  predicate SafeAll(p: Parser)
    requires p.Waiting()
    decreases |p.inBuffer|
  {
    SafeCut(p) &&
    var (d, q) := Pass(Repaired, p);
    d.Complete? && q.inBuffer != "" ==> SafeAll(q.Reset())
  }

  /** Every cut between deliveries is safe. */
  predicate SafeChunks(p: Parser, chunks: seq<string>)
    requires p.Waiting()
    decreases |chunks|
  {
    chunks == [] ||
    (SafeAll(p.Plus(chunks[0])) &&
     var r := ParseAll(Repaired, p.Plus(chunks[0]));
     r.Open() ==> SafeChunks(r.parser, chunks[1..]))
  }

  /** On an unsafe cut the repaired code waits. */
  lemma UnsafeWaits(p: Parser)
    requires p.Waiting() && !SafeCut(p)
    ensures Pass(Repaired, p).0.NeedMore?
  {
    match p.state
    case StateParseUrl =>
      var split := SplitRequestLine(Repaired, p.inBuffer);
      if split.Some? {
        ParseUrlAgree(Repaired, p, split.value.0, split.value.1);
        ReadLineRest(split.value.0, p, split.value.1);
        SafeHeadersAgree(split.value.1, p.headers);
      }
    case StateParseHeaders => SafeHeadersAgree(p.inBuffer, p.headers);
    case StateRecvBody =>
  }

  lemma AfterOne(r: Parsed, q: Parsed, one: seq<Request>)
    ensures r.After(one) == q.After(one) <==> r == q
  {
    if r.After(one) == q.After(one) {
      assert r.requests == r.After(one).requests[|one|..] == q.requests;
    }
  }

  /** As written, a buffer is parsed as the repaired code parses it exactly when every pass finds a safe cut. */
  lemma {:induction false} SafeAllExact(p: Parser)
    requires p.Waiting()
    ensures ParseAll(AsWritten, p) == ParseAll(Repaired, p) <==> SafeAll(p)
    decreases |p.inBuffer|
  {
    SafeCutExact(p);
    var (d, q) := Pass(Repaired, p);
    if !SafeCut(p) {
      UnsafeWaits(p);
      assert ParseAll(Repaired, p) == Parsed([], d, q);
    } else if d.Complete? && q.inBuffer != "" {
      SafeAllExact(q.Reset());
      ParseAllStep(AsWritten, p, q);
      ParseAllStep(Repaired, p, q);
      AfterOne(ParseAll(AsWritten, q.Reset()), ParseAll(Repaired, q.Reset()), [q.Current()]);
    }
  }

  lemma FeedStep(v: Variant, p: Parser, chunk: string, later: seq<string>)
    requires p.Waiting()
    ensures var r := ParseAll(v, p.Plus(chunk));
      Feed(v, p, [chunk] + later) == if r.Open() then Feed(v, r.parser, later).After(r.requests) else r
  {
    assert ([chunk] + later)[0] == chunk && ([chunk] + later)[1..] == later;
  }

  lemma FeedOne(v: Variant, p: Parser, chunk: string)
    requires p.Waiting()
    ensures Feed(v, p, [chunk]) == ParseAll(v, p.Plus(chunk))
  {
    FeedStep(v, p, chunk, []);
    var r := ParseAll(v, p.Plus(chunk));
    assert [chunk] + [] == [chunk] && r.requests + [] == r.requests;
  }

  lemma {:induction false} SafeChunksAgree(p: Parser, chunks: seq<string>)
    requires p.Waiting() && SafeChunks(p, chunks)
    ensures Feed(AsWritten, p, chunks) == Feed(Repaired, p, chunks)
    decreases |chunks|
  {
    if chunks != [] {
      SafeAllExact(p.Plus(chunks[0]));
      var r := ParseAll(Repaired, p.Plus(chunks[0]));
      if r.Open() { SafeChunksAgree(r.parser, chunks[1..]); }
    }
  }

  lemma {:induction false} SafeChunksPrefix(p: Parser, chunks: seq<string>, k: nat)
    requires p.Waiting() && SafeChunks(p, chunks) && k <= |chunks|
    ensures SafeChunks(p, chunks[..k])
    decreases |chunks|
  {
    if k > 0 {
      var r := ParseAll(Repaired, p.Plus(chunks[0]));
      assert chunks[..k][1..] == chunks[1..][..k - 1];
      if r.Open() { SafeChunksPrefix(r.parser, chunks[1..], k - 1); }
    }
  }

  /** After each delivery the code as written has found what the repaired code has found. */
  predicate AgreesThroughout(p: Parser, chunks: seq<string>)
    requires p.Waiting()
  {
    forall k | 0 <= k <= |chunks| :: Feed(AsWritten, p, chunks[..k]) == Feed(Repaired, p, chunks[..k])
  }

  /** Behind a first delivery on which the two agree they agree exactly when they do from there on. */
  lemma AgreesStep(p: Parser, c: string, later: seq<string>)
    requires p.Waiting() && ParseAll(AsWritten, p.Plus(c)) == ParseAll(Repaired, p.Plus(c))
    ensures var r := ParseAll(Repaired, p.Plus(c));
      r.Open() ==> (Feed(AsWritten, p, [c] + later) == Feed(Repaired, p, [c] + later)
        <==> Feed(AsWritten, r.parser, later) == Feed(Repaired, r.parser, later))
  {
    FeedStep(AsWritten, p, c, later);
    FeedStep(Repaired, p, c, later);
    var r := ParseAll(Repaired, p.Plus(c));
    if r.Open() { AfterOne(Feed(AsWritten, r.parser, later), Feed(Repaired, r.parser, later), r.requests); }
  }

  lemma AgreesFirst(p: Parser, chunks: seq<string>)
    requires p.Waiting() && chunks != [] && AgreesThroughout(p, chunks)
    ensures ParseAll(AsWritten, p.Plus(chunks[0])) == ParseAll(Repaired, p.Plus(chunks[0]))
  {
    assert chunks[..1] == [chunks[0]];
    FeedOne(AsWritten, p, chunks[0]);
    FeedOne(Repaired, p, chunks[0]);
  }

  lemma AgreesAt(p: Parser, chunks: seq<string>, r: Parser, k: nat)
    requires p.Waiting() && chunks != [] && k < |chunks| && AgreesThroughout(p, chunks)
    requires ParseAll(AsWritten, p.Plus(chunks[0])) == ParseAll(Repaired, p.Plus(chunks[0]))
    requires var f := ParseAll(Repaired, p.Plus(chunks[0])); f.Open() && f.parser == r
    ensures Feed(AsWritten, r, chunks[1..][..k]) == Feed(Repaired, r, chunks[1..][..k])
  {
    assert chunks[..k + 1] == [chunks[0]] + chunks[1..][..k];
    AgreesStep(p, chunks[0], chunks[1..][..k]);
  }

  lemma AgreesLater(p: Parser, chunks: seq<string>, r: Parser)
    requires p.Waiting() && chunks != [] && AgreesThroughout(p, chunks)
    requires var f := ParseAll(Repaired, p.Plus(chunks[0])); f.Open() && f.parser == r
    ensures AgreesThroughout(r, chunks[1..])
  {
    AgreesFirst(p, chunks);
    forall k | 0 <= k <= |chunks| - 1
      ensures Feed(AsWritten, r, chunks[1..][..k]) == Feed(Repaired, r, chunks[1..][..k])
    {
      AgreesAt(p, chunks, r, k);
    }
  }

  /** Over a sequence of deliveries the two agree after each exactly when every cut is safe. */
  lemma {:induction false} SafeChunksExact(p: Parser, chunks: seq<string>)
    requires p.Waiting()
    ensures AgreesThroughout(p, chunks) <==> SafeChunks(p, chunks)
    decreases |chunks|
  {
    if SafeChunks(p, chunks) {
      forall k | 0 <= k <= |chunks| ensures Feed(AsWritten, p, chunks[..k]) == Feed(Repaired, p, chunks[..k]) {
        SafeChunksPrefix(p, chunks, k);
        SafeChunksAgree(p, chunks[..k]);
      }
    }
    if chunks != [] && AgreesThroughout(p, chunks) {
      AgreesFirst(p, chunks);
      SafeAllExact(p.Plus(chunks[0]));
      var r := ParseAll(Repaired, p.Plus(chunks[0]));
      if r.Open() {
        AgreesLater(p, chunks, r.parser);
        SafeChunksExact(r.parser, chunks[1..]);
      }
    }
  }

  lemma {:induction false} SafeHeadersResume(str: string, fields: map<string, string>, x: string)
    requires SafeHeaders(str)
    requires var r := ParseHeaders(Repaired, str, fields); r.status.HeaderAgain? ==> SafeHeaders(r.rest + x)
    ensures SafeHeaders(str + x)
    decreases |str|
  {
    NextLineExtend(str, x);
    match NextLine(Repaired, str)
    case Field(name, value, rest) => SafeHeadersResume(rest, fields[name := value], x);
    case _ =>
  }

  lemma SafeCutResume(p: Parser, x: string)
    requires p.Waiting() && SafeCut(p)
    requires var (d, q) := Pass(Repaired, p); d.NeedMore? ==> SafeCut(q.Plus(x))
    ensures SafeCut(p.Plus(x))
  {
    match p.state
    case StateParseUrl => SafeUrlResume(p, x);
    case StateParseHeaders => SafeHeadersResume(p.inBuffer, p.headers, x);
    case StateRecvBody =>
  }

  lemma SafeUrlResume(p: Parser, x: string)
    requires p.state.StateParseUrl? && SafeCut(p)
    requires var (d, q) := Pass(Repaired, p); d.NeedMore? ==> SafeCut(q.Plus(x))
    ensures SafeCut(p.Plus(x))
  {
    SplitExtend(p.inBuffer, x);
    var split := SplitRequestLine(Repaired, p.inBuffer).value;
    ReadRequestLineFrame(split.0, p, p.inBuffer, x);
    if ReadRequestLine(split.0, p).0 {
      ReadRequestLineFrame(split.0, p, split.1, "");
      SafeHeadersResume(split.1, p.headers, x);
    }
  }

  lemma {:induction false} SafeAllResume(p: Parser, x: string)
    requires p.Waiting() && SafeAll(p)
    requires var r := ParseAll(Repaired, p); r.Open() ==> SafeAll(r.parser.Plus(x))
    ensures SafeAll(p.Plus(x))
    decreases |p.inBuffer|
  {
    var (d, q) := Pass(Repaired, p);
    PassResume(p, x);
    if d.Complete? {
      SafeCutResume(p, x);
      assert q.Plus(x).Reset() == q.Reset().Plus(x);
      if q.inBuffer != "" { SafeAllResume(q.Reset(), x); }
    } else if d.NeedMore? {
      assert SafeAll(q.Plus(x));
      SafeCutResume(p, x);
    } else {
      SafeCutResume(p, x);
    }
  }

  lemma PlusPlus(p: Parser, x: string, y: string)
    ensures p.Plus(x).Plus(y) == p.Plus(x + y)
    ensures p.Plus("") == p
  {
    assert p.inBuffer + x + y == p.inBuffer + (x + y);
    assert p.inBuffer + "" == p.inBuffer;
  }

  lemma {:induction false} SafeWhole(p: Parser, chunks: seq<string>)
    requires p.Waiting() && chunks != [] && SafeChunks(p, chunks)
    ensures SafeAll(p.Plus(Concat(chunks)))
    decreases |chunks|
  {
    var x, rest := chunks[0], chunks[1..];
    var head := p.Plus(x);
    assert SafeAll(head);
    var r := ParseAll(Repaired, head);
    if rest == [] {
      assert Concat(chunks) == x by { assert x + "" == x; }
    } else {
      if r.Open() { SafeWhole(r.parser, rest); }
      SafeAllResume(head, Concat(rest));
      PlusPlus(p, x, Concat(rest));
    }
  }

  /** As written, deliveries that are cut at safe places parse as the whole stream does. */
  lemma ChunkingAsWritten(p: Parser, chunks: seq<string>)
    requires p.Waiting() && ParseAll(Repaired, p) == Parsed([], NeedMore, p)
    requires chunks != [] && SafeChunks(p, chunks)
    ensures Feed(AsWritten, p, chunks).requests == ParseAll(AsWritten, p.Plus(Concat(chunks))).requests
    ensures Feed(AsWritten, p, chunks).requests == ParseAll(Repaired, p.Plus(Concat(chunks))).requests
  {
    SafeChunksAgree(p, chunks);
    ChunkingRepaired(p, chunks);
    SafeWhole(p, chunks);
    SafeAllExact(p.Plus(Concat(chunks)));
  }

  function Fresh(verb: HttpMethod): Parser { Parser(StateParseUrl, "", verb, "", "", map[]) }
}
