/** `analysisRequest` of HttpData.cpp and the framing of its answers. The file system is a map. */
module HttpResponse {
  import opened Wrappers
  import opened Text
  import opened Decimal
  import opened HttpParser

  datatype File = File(content: string, readable: bool)

  /** `stat("")` fails. */
  type Files = m: map<string, File> | "" !in m witness map[]

  const KEEP_ALIVE_TIME: nat := 5000
  const EXPIRED_TIME: nat := 2000

  function Mime(suffix: string): (t: string)
    ensures '\r' !in t
  {
    match suffix
    case ".html" => "text/html"
    case ".avi" => "video/x-msvideo"
    case ".bmp" => "image/bmp"
    case ".c" => "text/plain"
    case ".doc" => "application/msword"
    case ".gif" => "image/gif"
    case ".gz" => "application/x-gzip"
    case ".htm" => "text/html"
    case ".ico" => "image/x-icon"
    case ".jpg" => "image/jpeg"
    case ".png" => "image/png"
    case ".txt" => "text/plain"
    case ".mp3" => "audio/mp3"
    case _ => "text/html"
  }

  function FileType(url: string): (t: string)
    ensures '\r' !in t
  {
    var dot := Find(url, '.');
    if dot == |url| then Mime("default") else Mime(url[dot..])
  }

  predicate WantsKeepAlive(headers: map<string, string>) {
    "Connection" in headers && (headers["Connection"] == "keep-alive" || headers["Connection"] == "Keep-Alive")
  }

  function KeepAliveLines(headers: map<string, string>): seq<string> {
    if WantsKeepAlive(headers) then ["Connection: Keep-Alive", "Keep-Alive: timeout=" + Numeral(KEEP_ALIVE_TIME)] else []
  }

  function Lines(ls: seq<string>): string {
    if ls == [] then "" else ls[0] + "\r\n" + Lines(ls[1..])
  }

  const LENGTH := "Content-Length: "

  function Head(r: Request, size: nat): string {
    Lines(["HTTP/1.1 200 OK"] + KeepAliveLines(r.headers)
        + ["Content-Type: " + FileType(r.url), LENGTH + Numeral(size), "Server: ZHF's web server"])
    + "\r\n"
  }

  const HELLO := "HTTP/1.1 200 OK\r\nContent-type: text/plain\r\n\r\nHello World"

  datatype Analysed = Analysed(ok: bool, out: string)

  /** The effect on `outBuffer_`; an empty file cannot be mapped and fails like a missing one. */
  function Analyse(files: Files, r: Request, out: string): Analysed {
    if r.verb.POST? then Analysed(false, out)
    else if r.url == "hello" || r.url == "Hello" then Analysed(true, HELLO)
    else if r.url !in files then Analysed(false, out)
    else
      var file := files[r.url];
      var out' := out + Head(r, |file.content|);
      if r.verb.HEAD? then Analysed(true, out')
      else if !file.readable || file.content == "" then Analysed(false, "")
      else Analysed(true, out' + file.content)
  }

  /** Every url the parser makes is empty or lies below "root". */
  predicate Rooted(url: string) { url == "" || "root" <= url }

  /** What the client should find in the answer. */
  function Body(files: Files, r: Request): string
    requires r.url in files
  {
    if r.verb.HEAD? then "" else files[r.url].content
  }

  function Response(files: Files, r: Request): string
    requires r.url in files
  {
    Head(r, |files[r.url].content|) + Body(files, r)
  }

  /** The requests that are answered. */
  predicate Served(files: Files, r: Request) {
    && !r.verb.POST? && r.url in files
    && (r.verb.GET? ==> files[r.url].readable && files[r.url].content != "")
  }

  /** Success is exactly being served, and then precisely the answer is appended. */
  lemma AnalyseExact(files: Files, r: Request, out: string)
    requires Rooted(r.url)
    ensures Analyse(files, r, out).ok <==> Served(files, r)
    ensures Served(files, r) ==> Analyse(files, r, out).out == out + Response(files, r)
    ensures !Served(files, r) ==> Analyse(files, r, out).out == if r.verb.GET? && r.url in files then "" else out
  {
    RootedIsNotHello(r.url);
    if Served(files, r) {
      var head := Head(r, |files[r.url].content|);
      assert out + head + Body(files, r) == out + (head + Body(files, r));
      if r.verb.HEAD? { assert head + "" == head; }
    }
  }

  /** The fixed answer to "hello" cannot be asked for. */
  lemma RootedIsNotHello(url: string)
    requires Rooted(url)
    ensures url != "hello" && url != "Hello"
  {
    assert "hello"[0] == 'h' && "Hello"[0] == 'H' && "root"[0] == 'r';
    assert url != "" ==> url[0] == "root"[0];
  }

  predicate AllServed(files: Files, rs: seq<Request>) {
    forall i | 0 <= i < |rs| :: Served(files, rs[i])
  }

  // ---------------------------------------------------------------- the reader

  /** Status code, header lines and body length of an answer, and what stands behind its header section. */
  datatype Framed = Framed(status: nat, lines: seq<string>, length: nat, rest: string)

  datatype Section = Section(lines: seq<string>, length: nat, rest: string)

  /** Header lines up to the empty one; section 6.3 of RFC 9112 takes the length from Content-Length. */
  function ReadFields(s: string, length: Option<nat>): Option<Section>
    decreases |s|
  {
    var eol := Find(s, '\r');
    if eol + 1 >= |s| || s[eol + 1] != '\n' then None
    else
      var line, rest := s[..eol], s[eol + 2..];
      if line == "" then (if length.Some? then Some(Section([], length.value, rest)) else None)
      else if !(LENGTH <= line) then Behind([line], ReadFields(rest, length))
      else if line[|LENGTH|..] != "" && AllDigits(line[|LENGTH|..]) then Behind([line], ReadFields(rest, Some(ReadNat(line[|LENGTH|..]))))
      else None
  }

  function Behind(lines: seq<string>, later: Option<Section>): Option<Section> {
    if later.Some? then Some(later.value.(lines := lines + later.value.lines)) else None
  }

  const VERSION := "HTTP/1.1 "

  /** The code of a status line; section 4 of RFC 9112. */
  function ReadStatus(line: string): Option<nat> {
    if !(VERSION <= line) then None
    else
      var behind := line[|VERSION|..];
      var code := behind[..Find(behind, ' ')];
      if code != "" && AllDigits(code) then Some(ReadNat(code)) else None
  }

  /** A status line and the header section behind it. */
  function ReadHead(s: string): Option<Framed> {
    var eol := Find(s, '\r');
    if eol + 1 >= |s| || s[eol + 1] != '\n' || ReadStatus(s[..eol]).None? then None
    else
      match ReadFields(s[eol + 2..], None)
      case None => None
      case Some(t) => Some(Framed(ReadStatus(s[..eol]).value, t.lines, t.length, t.rest))
  }

  /** The bodies of the answers, all of status 200, to requests of which the client knows which were HEAD. */
  function ReadBodies(s: string, verbs: seq<HttpMethod>): Option<seq<string>>
    decreases |verbs|
  {
    if verbs == [] then (if s == "" then Some([]) else None)
    else match ReadHead(s)
      case None => None
      case Some(m) =>
        var size := if verbs[0].HEAD? then 0 else m.length;
        if m.status != 200 || |m.rest| < size then None
        else match ReadBodies(m.rest[size..], verbs[1..])
          case None => None
          case Some(bodies) => Some([m.rest[..size]] + bodies)
  }

  lemma LineEnds(line: string, rest: string)
    requires '\r' !in line
    ensures var s := line + "\r\n" + rest; var eol := Find(s, '\r');
      eol + 1 < |s| && s[eol + 1] == '\n' && s[..eol] == line && s[eol + 2..] == rest
  {
    assert line + "\r\n" + rest == line + ['\r'] + ("\n" + rest);
    FindAfter(line, '\r', "\n" + rest);
  }

  lemma ReadLine(line: string, rest: string, length: Option<nat>)
    requires '\r' !in line && line != ""
    ensures !(LENGTH <= line) ==> ReadFields(line + "\r\n" + rest, length) == Behind([line], ReadFields(rest, length))
    ensures forall n: nat :: line == LENGTH + Numeral(n) ==>
      ReadFields(line + "\r\n" + rest, length) == Behind([line], ReadFields(rest, Some(n)))
  {
    LineEnds(line, rest);
    forall n: nat | line == LENGTH + Numeral(n)
      ensures ReadFields(line + "\r\n" + rest, length) == Behind([line], ReadFields(rest, Some(n)))
    {
      assert line[|LENGTH|..] == Numeral(n);
      NumeralRoundTrip(n);
    }
  }

  lemma StatusLine(code: nat, reason: string)
    ensures ReadStatus(VERSION + Numeral(code) + " " + reason) == Some(code)
  {
    var line := VERSION + Numeral(code) + " " + reason;
    var digits := Numeral(code);
    NumeralRoundTrip(code);
    assert line == VERSION + (digits + [' '] + reason);
    assert line[|VERSION|..] == digits + [' '] + reason;
    assert ' ' !in digits;
    FindAfter(digits, ' ', reason);
    assert (digits + [' '] + reason)[..|digits|] == digits;
  }

  predicate Plain(line: string) { '\r' !in line && line != "" && !(LENGTH <= line) }

  lemma {:induction false} ReadPlainLines(ls: seq<string>, rest: string, length: Option<nat>)
    requires AllPlain(ls)
    ensures ReadFields(Lines(ls) + rest, length) == Behind(ls, ReadFields(rest, length))
  {
    if ls == [] {
      assert Lines(ls) + rest == rest;
      var t := ReadFields(rest, length);
      if t.Some? { assert [] + t.value.lines == t.value.lines; }
    } else {
      var later := Lines(ls[1..]) + rest;
      LinesShift(ls, rest);
      assert Plain(ls[0]) && AllPlain(ls[1..]);
      ReadLine(ls[0], later, length);
      ReadPlainLines(ls[1..], rest, length);
      BehindBehind([ls[0]], ls[1..], ReadFields(rest, length));
      assert [ls[0]] + ls[1..] == ls;
    }
  }

  lemma LinesShift(ls: seq<string>, rest: string)
    requires ls != []
    ensures Lines(ls) + rest == ls[0] + "\r\n" + (Lines(ls[1..]) + rest)
  {}

  lemma BehindBehind(a: seq<string>, b: seq<string>, later: Option<Section>)
    ensures Behind(a, Behind(b, later)) == Behind(a + b, later)
  {
    if later.Some? { assert a + (b + later.value.lines) == (a + b) + later.value.lines; }
  }

  lemma {:induction false} LinesAppend(a: seq<string>, b: seq<string>)
    ensures Lines(a + b) == Lines(a) + Lines(b)
  {
    if a == [] {
      assert a + b == b;
    } else {
      assert (a + b)[1..] == a[1..] + b;
      LinesAppend(a[1..], b);
    }
  }

  lemma NotLength(line: string, c: char)
    requires |line| >= 1 && line[0] == c && c != 'C'
    ensures !(LENGTH <= line)
  {
    assert LENGTH[0] == 'C';
  }

  lemma PlainServer()
    ensures Plain("Server: ZHF's web server")
  {
    NotLength("Server: ZHF's web server", 'S');
  }

  lemma PlainType(r: Request)
    ensures Plain("Content-Type: " + FileType(r.url))
  {
    var t := "Content-Type: " + FileType(r.url);
    assert LENGTH[8] == 'L' && t[8] == 'T';
  }

  lemma PlainKeepAlive(r: Request)
    ensures forall l | l in KeepAliveLines(r.headers) :: Plain(l)
  {
    var k := "Keep-Alive: timeout=" + Numeral(KEEP_ALIVE_TIME);
    NumeralHasNoReturn(KEEP_ALIVE_TIME);
    NotLength(k, 'K');
    assert LENGTH[3] == 't' && "Connection: Keep-Alive"[3] == 'n';
  }

  lemma NumeralHasNoReturn(n: nat)
    ensures '\r' !in Numeral(n)
  {
    NumeralRoundTrip(n);
  }

  predicate AllPlain(ls: seq<string>) { forall i | 0 <= i < |ls| :: Plain(ls[i]) }

  /** A header section with its length somewhere between other lines. */
  function Sized(before: seq<string>, size: nat, after: seq<string>): string {
    Lines(before + [LENGTH + Numeral(size)] + after) + "\r\n"
  }

  lemma SizedShape(before: seq<string>, size: nat, after: seq<string>, rest: string)
    ensures Sized(before, size, after) + rest ==
      Lines(before) + (LENGTH + Numeral(size) + "\r\n" + (Lines(after) + ("\r\n" + rest)))
  {
    var line := LENGTH + Numeral(size);
    assert before + [line] + after == before + ([line] + after);
    LinesAppend(before, [line] + after);
    LinesAppend([line], after);
    assert Lines([line]) == line + "\r\n" + Lines([]) == line + "\r\n";
    var last := "\r\n" + rest;
    Regroup(Lines(before), line + "\r\n" + Lines(after), "\r\n", rest);
    Associative(line + "\r\n", Lines(after), last);
  }

  lemma ReadBlankLine(rest: string, length: nat)
    ensures ReadFields("\r\n" + rest, Some(length)) == Some(Section([], length, rest))
  {
    assert "\r\n" + rest == "" + "\r\n" + rest;
    LineEnds("", rest);
  }

  /** The reader finds every line and the length, and stops exactly where the header section ends. */
  lemma SizedRoundTrip(before: seq<string>, size: nat, after: seq<string>, rest: string)
    requires AllPlain(before) && AllPlain(after)
    ensures ReadFields(Sized(before, size, after) + rest, None) == Some(Section(before + [LENGTH + Numeral(size)] + after, size, rest))
  {
    var last, line := "\r\n" + rest, LENGTH + Numeral(size);
    SizedShape(before, size, after, rest);
    ReadPlainLines(before, line + "\r\n" + (Lines(after) + last), None);
    ReadFromLength(size, after, rest);
    assert before + ([line] + after) == before + [line] + after;
  }

  lemma ReadFromLength(size: nat, after: seq<string>, rest: string)
    requires AllPlain(after)
    ensures ReadFields(LENGTH + Numeral(size) + "\r\n" + (Lines(after) + ("\r\n" + rest)), None) == Some(Section([LENGTH + Numeral(size)] + after, size, rest))
  {
    NumeralHasNoReturn(size);
    ReadLine(LENGTH + Numeral(size), Lines(after) + ("\r\n" + rest), None);
    ReadPlainLines(after, "\r\n" + rest, Some(size));
    ReadBlankLine(rest, size);
    assert after + [] == after;
  }

  /** With a status line before it. */
  lemma MessageRoundTrip(code: nat, reason: string, before: seq<string>, size: nat, after: seq<string>, rest: string)
    requires '\r' !in reason && AllPlain(before) && AllPlain(after)
    ensures ReadHead(VERSION + Numeral(code) + " " + reason + "\r\n" + (Sized(before, size, after) + rest)) ==
      Some(Framed(code, before + [LENGTH + Numeral(size)] + after, size, rest))
  {
    var line := VERSION + Numeral(code) + " " + reason;
    NumeralHasNoReturn(code);
    assert '\r' !in VERSION && '\r' !in line;
    LineEnds(line, Sized(before, size, after) + rest);
    StatusLine(code, reason);
    SizedRoundTrip(before, size, after, rest);
  }

  function LinesBeforeLength(r: Request): seq<string> {
    KeepAliveLines(r.headers) + ["Content-Type: " + FileType(r.url)]
  }

  lemma PlainBefore(r: Request)
    ensures AllPlain(LinesBeforeLength(r))
  {
    PlainType(r);
    PlainKeepAlive(r);
  }

  lemma HeadShape(r: Request, size: nat, rest: string)
    ensures Head(r, size) + rest ==
      VERSION + Numeral(200) + " " + "OK" + "\r\n" + (Sized(LinesBeforeLength(r), size, ["Server: ZHF's web server"]) + rest)
  {
    var status, after := ["HTTP/1.1 200 OK"], ["Server: ZHF's web server"];
    var ls := LinesBeforeLength(r) + [LENGTH + Numeral(size)] + after;
    assert status + ls == status + KeepAliveLines(r.headers) + ["Content-Type: " + FileType(r.url), LENGTH + Numeral(size), "Server: ZHF's web server"];
    LinesAppend(status, ls);
    assert Lines(status) == status[0] + "\r\n" + Lines([]);
    TwoHundred();
    assert VERSION + Numeral(200) + " " + "OK" + "\r\n" == Lines(status);
  }

  lemma TwoHundred()
    ensures Numeral(200) == "200" && VERSION + "200" + " " + "OK" == "HTTP/1.1 200 OK"
  {
    assert Numeral(20) == "20" by { assert Numeral(2) == "2"; }
  }

  /**
    The header section of an answer says 200, the type, the length and the server, and that the
    connection is kept alive exactly when the request wants it.
   */
  lemma HeadRoundTrip(r: Request, size: nat, rest: string)
    ensures ReadHead(Head(r, size) + rest) == Some(Framed(200, HeadLines(r, size), size, rest))
  {
    HeadShape(r, size, rest);
    PlainBefore(r);
    PlainServer();
    MessageRoundTrip(200, "OK", LinesBeforeLength(r), size, ["Server: ZHF's web server"], rest);
    HeadLinesShape(r, size);
  }

  function HeadLines(r: Request, size: nat): seq<string> {
    KeepAliveLines(r.headers) + ["Content-Type: " + FileType(r.url), LENGTH + Numeral(size), "Server: ZHF's web server"]
  }

  lemma HeadLinesShape(r: Request, size: nat)
    ensures HeadLines(r, size) == LinesBeforeLength(r) + [LENGTH + Numeral(size)] + ["Server: ZHF's web server"]
  {}

  /** The client is told so exactly when it asked to be kept. */
  lemma KeepAliveTold(r: Request, size: nat, rest: string)
    ensures ReadHead(Head(r, size) + rest).Some?
    ensures var lines := ReadHead(Head(r, size) + rest).value.lines;
      var wants := "Connection" in r.headers && r.headers["Connection"] in {"keep-alive", "Keep-Alive"};
      && ("Connection: Keep-Alive" in lines <==> wants)
      && ("Keep-Alive: timeout=5000" in lines <==> wants)
  {
    HeadRoundTrip(r, size, rest);
    FiveThousand();
    NotTold(r, size, "Connection: Keep-Alive");
    NotTold(r, size, "Keep-Alive: timeout=5000");
  }

  /** The other lines are others. */
  lemma NotTold(r: Request, size: nat, line: string)
    requires line == "Connection: Keep-Alive" || line == "Keep-Alive: timeout=5000"
    ensures line !in ["Content-Type: " + FileType(r.url), LENGTH + Numeral(size), "Server: ZHF's web server"]
  {
    var type', length := "Content-Type: " + FileType(r.url), LENGTH + Numeral(size);
    assert type'[3] == 't' && LENGTH[3] == 't' && length[3] == 't' && type'[0] == 'C' && length[0] == 'C';
    assert line[3] == if line[0] == 'C' then 'n' else 'p';
  }

  lemma FiveThousand()
    ensures "Keep-Alive: timeout=" + Numeral(KEEP_ALIVE_TIME) == "Keep-Alive: timeout=5000"
  {
    assert Numeral(500) == "500" by { assert Numeral(50) == "50" by { assert Numeral(5) == "5"; } }
  }

  /** The type is looked up by what stands from the first dot on; a dot in the directory counts too. */
  lemma FileTypeExact(stem: string, suffix: string)
    requires '.' !in stem
    ensures FileType(stem) == "text/html" && FileType(stem + "." + suffix) == Mime("." + suffix)
  {
    assert stem[..|stem|] == stem;
    FindIs(stem, '.', |stem|);
    assert stem + "." + suffix == stem + ['.'] + suffix;
    FindAfter(stem, '.', suffix);
    assert (stem + "." + suffix)[|stem|..] == "." + suffix;
  }

  // ---------------------------------------------------------------- error pages

  /** What `handleError` is called with. */
  datatype Page = Page(code: nat, short: string)

  const BAD_REQUEST := Page(400, "Bad Request")
  const NOT_FOUND := Page(404, "Not Fount!")

  /** In bytes; the title is UTF-8. */
  function PageBody(p: Page): string {
    "<html><title>\U{E5}\U{93}\U{8E}~\U{E5}\U{87}\U{BA}\U{E9}\U{94}\U{99}\U{E4}\U{BA}\U{86}</title>"
    + "<body bgcolor=\"ffffff\">" + Numeral(p.code) + " " + p.short + "<hr><em> Z's Web Server</em>\n</body></html>"
  }

  const PAGE_LINES := ["Content-Type: text/html", "Connection: Close"]
  const PAGE_SERVER := "Server: Z's Web Server"

  function PageHead(p: Page): string {
    VERSION + Numeral(p.code) + " " + p.short + "\r\n" + Sized(PAGE_LINES, |PageBody(p)|, [PAGE_SERVER])
  }

  lemma PlainPage()
    ensures AllPlain(PAGE_LINES) && AllPlain([PAGE_SERVER])
  {
    NotLength(PAGE_SERVER, 'S');
    assert LENGTH[8] == 'L' && "Content-Type: text/html"[8] == 'T';
    assert LENGTH[3] == 't' && "Connection: Close"[3] == 'n';
  }

  lemma PageShape(p: Page, body: string, rest: string)
    ensures PageHead(p) + body + rest ==
      VERSION + Numeral(p.code) + " " + p.short + "\r\n" + (Sized(PAGE_LINES, |PageBody(p)|, [PAGE_SERVER]) + (body + rest))
  {
    Regroup(VERSION + Numeral(p.code) + " " + p.short + "\r\n", Sized(PAGE_LINES, |PageBody(p)|, [PAGE_SERVER]), body, rest);
  }

  lemma Regroup(a: string, b: string, c: string, d: string)
    ensures (a + b) + c + d == a + (b + (c + d))
  {}

  /** A page that goes out whole is framed as answers are: it has its code, and the length of its body in bytes. */
  lemma PageRoundTrip(p: Page, rest: string)
    requires '\r' !in p.short
    ensures ReadHead(PageHead(p) + PageBody(p) + rest) ==
      Some(Framed(p.code, PAGE_LINES + [LENGTH + Numeral(|PageBody(p)|)] + [PAGE_SERVER], |PageBody(p)|, PageBody(p) + rest))
  {
    PlainPage();
    PageShape(p, PageBody(p), rest);
    MessageRoundTrip(p.code, p.short, PAGE_LINES, |PageBody(p)|, [PAGE_SERVER], PageBody(p) + rest);
  }

  function Responses(files: Files, rs: seq<Request>): string
    requires AllServed(files, rs)
  {
    if rs == [] then "" else Response(files, rs[0]) + Responses(files, rs[1..])
  }

  function Verbs(rs: seq<Request>): seq<HttpMethod> { seq(|rs|, i requires 0 <= i < |rs| => rs[i].verb) }

  function Bodies(files: Files, rs: seq<Request>): seq<string>
    requires AllServed(files, rs)
  {
    if rs == [] then [] else [Body(files, rs[0])] + Bodies(files, rs[1..])
  }

  lemma ReadOne(files: Files, r: Request, rest: string, verbs: seq<HttpMethod>)
    requires Served(files, r)
    ensures var later := ReadBodies(rest, verbs);
      ReadBodies(Response(files, r) + rest, [r.verb] + verbs) ==
        if later.Some? then Some([Body(files, r)] + later.value) else None
  {
    var size, body := |files[r.url].content|, Body(files, r);
    assert Response(files, r) + rest == Head(r, size) + (body + rest);
    HeadRoundTrip(r, size, body + rest);
    assert (body + rest)[..|body|] == body && (body + rest)[|body|..] == rest;
    assert ([r.verb] + verbs)[1..] == verbs;
  }

  /** Answers written one behind the other are read back as exactly the file bodies, in order. */
  lemma {:induction false} FramingRoundTrip(files: Files, rs: seq<Request>)
    requires AllServed(files, rs)
    ensures ReadBodies(Responses(files, rs), Verbs(rs)) == Some(Bodies(files, rs))
  {
    if rs != [] {
      FramingRoundTrip(files, rs[1..]);
      ReadOne(files, rs[0], Responses(files, rs[1..]), Verbs(rs[1..]));
      assert Verbs(rs) == [rs[0].verb] + Verbs(rs[1..]);
    }
  }

  lemma {:induction false} ResponsesAppend(files: Files, a: seq<Request>, b: seq<Request>)
    requires AllServed(files, a) && AllServed(files, b)
    ensures Responses(files, a + b) == Responses(files, a) + Responses(files, b)
  {
    if a == [] {
      assert a + b == b;
    } else {
      assert (a + b)[1..] == a[1..] + b && (a + b)[0] == a[0];
      ResponsesAppend(files, a[1..], b);
    }
  }

  lemma ResponsesSnoc(files: Files, rs: seq<Request>, r: Request)
    requires AllServed(files, rs) && Served(files, r)
    ensures AllServed(files, rs + [r])
    ensures Responses(files, rs + [r]) == Responses(files, rs) + Response(files, r)
  {
    ResponsesAppend(files, rs, [r]);
    var one := [r];
    assert one[0] == r && one[1..] == [];
    assert Responses(files, one) == Response(files, r) + "";
  }
}
