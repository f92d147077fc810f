/**
  The non-blocking read and write loops of base/Util.cpp. The kernel is an arbitrary finite
  schedule of system-call outcomes; an exhausted schedule means EAGAIN.
 */
module SocketIo {

  /** One `read` fills at most the 1024-byte stack buffer. */
  type Chunk = s: string | 1 <= |s| <= 1024 witness "x"
  type Count = n: nat | n >= 1 witness 1

  datatype ReadOutcome = Data(bytes: Chunk) | ReadIntr | ReadAgain | ReadFatal | Eof
  datatype WriteOutcome = Took(count: Count) | WriteIntr | WriteAgain | WriteFatal

  /** `-1` returned through a 64-bit `size_t`. */
  const FAILURE: nat := 0xFFFF_FFFF_FFFF_FFFF

  /** A `size_t` stored in an `int`. */
  function ToInt32(n: nat): int {
    var m := n % 0x1_0000_0000;
    if m < 0x8000_0000 then m else m - 0x1_0000_0000
  }

  datatype Received = Received(bytes: string, failed: bool, rest: seq<ReadOutcome>)

  /** All bytes up to the first outcome that ends the loop. */
  function Receive(rs: seq<ReadOutcome>): (r: Received)
    ensures |r.bytes| + Undelivered(r.rest) <= Undelivered(rs)
    ensures |r.rest| <= |rs|
  {
    if rs == [] then Received("", false, [])
    else match rs[0]
      case Data(b) => var r := Receive(rs[1..]); r.(bytes := b + r.bytes)
      case ReadIntr => Receive(rs[1..])
      case ReadAgain => Received("", false, rs[1..])
      case ReadFatal => Received("", true, rs[1..])
      case Eof => Received("", true, rs[1..])
  }

  /** Bytes the schedule has still to deliver. */
  function Undelivered(rs: seq<ReadOutcome>): nat {
    if rs == [] then 0
    else (if rs[0].Data? then |rs[0].bytes| else 0) + Undelivered(rs[1..])
  }

  /** Nothing that ends a loop. */
  predicate Delivers(rs: seq<ReadOutcome>) { forall i | 0 <= i < |rs| :: rs[i].Data? || rs[i].ReadIntr? }

  /** The bytes of a schedule. */
  function BytesOf(rs: seq<ReadOutcome>): string {
    if rs == [] then "" else (if rs[0].Data? then rs[0].bytes else "") + BytesOf(rs[1..])
  }

  /** Data and interruptions are read through; what comes then ends the loop, and fails it unless it only says to try later. */
  lemma {:induction false} ReceiveExact(rs: seq<ReadOutcome>, last: ReadOutcome, later: seq<ReadOutcome>)
    requires Delivers(rs) && !last.Data? && !last.ReadIntr?
    ensures Receive(rs) == Received(BytesOf(rs), false, [])
    ensures Receive(rs + [last] + later) == Received(BytesOf(rs), !last.ReadAgain?, later)
    decreases |rs|
  {
    var whole := rs + [last] + later;
    if rs == [] {
      assert whole[0] == last && whole[1..] == later;
    } else {
      assert whole[0] == rs[0] && whole[1..] == rs[1..] + [last] + later;
      assert Delivers(rs[1..]);
      ReceiveExact(rs[1..], last, later);
    }
  }

  /** What has been read so far, followed by what is still to come. */
  ghost predicate Continues(whole: Received, got: string, later: Received) {
    whole == later.(bytes := got + later.bytes)
  }

  lemma ReceiveSplit(whole: Received, got: string, rs: seq<ReadOutcome>)
    requires rs != [] && Continues(whole, got, Receive(rs))
    ensures rs[0].Data? ==> Continues(whole, got + rs[0].bytes, Receive(rs[1..]))
    ensures rs[0].ReadIntr? ==> Continues(whole, got, Receive(rs[1..]))
    ensures !rs[0].Data? && !rs[0].ReadIntr? ==> whole == Received(got, !rs[0].ReadAgain?, rs[1..])
  {
    var later := Receive(rs[1..]).bytes;
    if rs[0].Data? { assert got + (rs[0].bytes + later) == got + rs[0].bytes + later; }
    assert got + "" == got;
  }

  /** `readn(int, string&, bool&)`: on failure the bytes already read stay in the buffer. */
  method Readn(rs: seq<ReadOutcome>, buffer: string) returns (n: nat, buffer': string, rest: seq<ReadOutcome>)
    ensures var r := Receive(rs);
      buffer' == buffer + r.bytes && rest == r.rest && n == if r.failed then FAILURE else |r.bytes|
  {
    buffer', rest := buffer, rs;
    var readSum: nat := 0;
    ghost var got := "";
    while true
      invariant buffer' == buffer + got && |got| == readSum && Continues(Receive(rs), got, Receive(rest))
      decreases |rest|
    {
      if rest == [] {
        assert got + "" == got;
        return readSum, buffer', [];
      }
      ReceiveSplit(Receive(rs), got, rest);
      var nread := rest[0];
      rest := rest[1..];
      match nread
      case ReadIntr => continue;
      case ReadAgain => break;
      case ReadFatal => return FAILURE, buffer', rest;
      case Eof => return FAILURE, buffer', rest;
      case Data(b) =>
        readSum := readSum + |b|;
        buffer' := buffer' + b;
        got := got + b;
    }
    n := readSum;
  }

  datatype Sent = Sent(bytes: string, failed: bool, rest: seq<WriteOutcome>)

  /** What the peer gets of `buf`. */
  function Send(ws: seq<WriteOutcome>, buf: string): (r: Sent)
    ensures r.bytes <= buf
    ensures r.failed ==> r.bytes < buf
    decreases |ws|
  {
    if buf == "" then Sent("", false, ws)
    else if ws == [] then Sent("", false, [])
    else match ws[0]
      case Took(k) =>
        var n := if k <= |buf| then k else |buf|;
        var r := Send(ws[1..], buf[n..]);
        assert buf == buf[..n] + buf[n..];
        r.(bytes := buf[..n] + r.bytes)
      case WriteIntr => Send(ws[1..], buf)
      case WriteAgain => Sent("", false, ws[1..])
      case WriteFatal => Sent("", true, ws[1..])
  }

  /** What is not read yet is still to come. */
  lemma {:induction false} ReceiveConserves(rs: seq<ReadOutcome>)
    ensures Receive(rs).bytes + BytesOf(Receive(rs).rest) == BytesOf(rs)
  {
    if rs != [] && (rs[0].Data? || rs[0].ReadIntr?) { ReceiveConserves(rs[1..]); }
  }

  predicate Accepts(ws: seq<WriteOutcome>) { forall i | 0 <= i < |ws| :: ws[i].Took? || ws[i].WriteIntr? }

  /** The room that a schedule offers. */
  function Room(ws: seq<WriteOutcome>): nat {
    if ws == [] then 0 else (if ws[0].Took? then ws[0].count else 0) + Room(ws[1..])
  }

  /** Everything that finds room goes out; what comes then ends the loop if bytes are left, and fails it unless it only says to try later. */
  lemma {:induction false} SendExact(ws: seq<WriteOutcome>, last: WriteOutcome, later: seq<WriteOutcome>, buf: string)
    requires Accepts(ws) && !last.Took? && !last.WriteIntr?
    ensures var sent := Send(ws + [last] + later, buf);
      if Room(ws) < |buf| then sent == Sent(buf[..Room(ws)], last.WriteFatal?, later) else sent.bytes == buf && !sent.failed
    ensures Send(ws, buf).bytes == buf[..if Room(ws) < |buf| then Room(ws) else |buf|] && !Send(ws, buf).failed
    decreases |ws|
  {
    var whole := ws + [last] + later;
    if ws == [] {
      assert whole[0] == last && whole[1..] == later;
    } else {
      assert whole[0] == ws[0] && whole[1..] == ws[1..] + [last] + later;
      assert Accepts(ws[1..]);
      var k := if ws[0].Took? then ws[0].count else 0;
      if k < |buf| {
        SendExact(ws[1..], last, later, buf[k..]);
        TakeOn(buf, k, Room(ws[1..]));
      } else {
        SendExact(ws[1..], last, later, "");
        assert buf[|buf|..] == "" && buf[..|buf|] + "" == buf;
      }
    }
  }

  /** Nothing goes out without room for it, and that room is used up. */
  lemma {:induction false} SendSpends(ws: seq<WriteOutcome>, buf: string)
    ensures |Send(ws, buf).bytes| + Room(Send(ws, buf).rest) <= Room(ws)
    decreases |ws|
  {
    if buf != "" && ws != [] {
      match ws[0]
      case Took(k) => SendSpends(ws[1..], buf[if k <= |buf| then k else |buf|..]);
      case WriteIntr => SendSpends(ws[1..], buf);
      case _ =>
    }
  }

  lemma TakeOn(buf: string, k: nat, n: nat)
    requires k <= |buf|
    ensures k + n <= |buf| ==> buf[..k] + buf[k..][..n] == buf[..k + n]
    ensures buf[..k] + buf[k..] == buf
  {}

  /** The loop that both forms of `writen` run over their bytes. */
  method WriteLoop(ws: seq<WriteOutcome>, data: string) returns (writeSum: nat, failed: bool, rest: seq<WriteOutcome>, wire: string)
    ensures var r := Send(ws, data);
      wire == r.bytes && rest == r.rest && failed == r.failed && writeSum == |r.bytes|
  {
    var nleft: nat := |data|;
    writeSum, failed, wire, rest := 0, false, "", ws;
    ghost var left := data;
    while nleft > 0
      invariant |left| == nleft && wire + left == data && |wire| == writeSum
      invariant Resumes(Send(ws, data), wire, Send(rest, left))
      decreases |rest|
    {
      if rest == [] { break; }
      var outcome := rest[0];
      rest := rest[1..];
      match outcome
      case WriteIntr => continue;
      case WriteAgain => break;
      case WriteFatal =>
        failed := true;
        return;
      case Took(k) =>
        var nwritten := if k <= nleft then k else nleft;
        SendSplit(data, wire, left, nwritten, Send(rest, left[nwritten..]).bytes);
        wire := wire + data[writeSum..writeSum + nwritten];
        left := left[nwritten..];
        writeSum := writeSum + nwritten;
        nleft := nleft - nwritten;
    }
  }

  /**
    `writen(int, string&)`: the buffer is cut only on the way out that is not an error, so the
    bytes already taken by the kernel stay in it after a fatal outcome.
   */
  method Writen(ws: seq<WriteOutcome>, buffer: string)
    returns (n: nat, buffer': string, rest: seq<WriteOutcome>, wire: string)
    ensures var r := Send(ws, buffer);
      && wire == r.bytes && rest == r.rest
      && n == (if r.failed then FAILURE else |r.bytes|)
      && buffer' == (if r.failed then buffer else buffer[|r.bytes|..])
  {
    var writeSum, failed;
    writeSum, failed, rest, wire := WriteLoop(ws, buffer);
    if failed { return FAILURE, buffer, rest, wire; }
    n, buffer' := writeSum, buffer[writeSum..];
  }

  /** `writen(int, void*, int)`: what is not taken is forgotten. */
  method WritenBytes(ws: seq<WriteOutcome>, data: string) returns (n: nat, rest: seq<WriteOutcome>, wire: string)
    ensures var r := Send(ws, data); wire == r.bytes && rest == r.rest && n == if r.failed then FAILURE else |r.bytes|
  {
    var writeSum, failed;
    writeSum, failed, rest, wire := WriteLoop(ws, data);
    n := if failed then FAILURE else writeSum;
  }

  /** The whole send is what went out so far followed by the send that is still to come. */
  ghost predicate Resumes(whole: Sent, wire: string, later: Sent) {
    whole.bytes == wire + later.bytes && whole.failed == later.failed && whole.rest == later.rest
  }

  lemma SendSplit(buffer: string, wire: string, left: string, n: nat, tail: string)
    requires wire + left == buffer && n <= |left|
    ensures buffer[|wire|..|wire| + n] == left[..n]
    ensures wire + left[..n] + left[n..] == buffer
    ensures wire + (left[..n] + tail) == (wire + left[..n]) + tail
  {}

  /**
    Write conservation: what the peer got followed by what is kept is the old buffer, exactly when
    the call did not fail after the kernel had taken something.
   */
  lemma WriteConserves(ws: seq<WriteOutcome>, buffer: string)
    ensures var r := Send(ws, buffer); var kept := if r.failed then buffer else buffer[|r.bytes|..];
      r.bytes + kept == buffer <==> !FatalAfterProgress(ws, buffer)
  {
    FatalAfterProgressMeaning(ws, buffer);
    var r := Send(ws, buffer);
    if r.failed {
      assert r.bytes + buffer == buffer <==> |r.bytes| == 0;
    }
  }

  /** Read off the schedule alone: a byte is taken, and later, with bytes left, an outcome is fatal. */
  predicate FatalAfterProgress(ws: seq<WriteOutcome>, buffer: string)
    decreases |ws|
  {
    ws != [] && buffer != "" &&
    match ws[0]
    case Took(k) => k < |buffer| && FatalNext(ws[1..], |buffer| - k)
    case WriteIntr => FatalAfterProgress(ws[1..], buffer)
    case WriteAgain => false
    case WriteFatal => false
  }

  predicate FatalNext(ws: seq<WriteOutcome>, left: nat) {
    ws != [] && left > 0 &&
    match ws[0]
    case Took(k) => k < left && FatalNext(ws[1..], left - k)
    case WriteIntr => FatalNext(ws[1..], left)
    case WriteAgain => false
    case WriteFatal => true
  }

  lemma {:induction false} FatalNextMeaning(ws: seq<WriteOutcome>, buffer: string)
    ensures FatalNext(ws, |buffer|) <==> Send(ws, buffer).failed
    decreases |ws|
  {
    if ws != [] && buffer != "" {
      match ws[0]
      case Took(k) => FatalNextMeaning(ws[1..], buffer[if k <= |buffer| then k else |buffer|..]);
      case WriteIntr => FatalNextMeaning(ws[1..], buffer);
      case _ =>
    }
  }

  lemma {:induction false} FatalAfterProgressMeaning(ws: seq<WriteOutcome>, buffer: string)
    ensures FatalAfterProgress(ws, buffer) <==> Send(ws, buffer).failed && Send(ws, buffer).bytes != ""
    decreases |ws|
  {
    if ws != [] && buffer != "" {
      match ws[0]
      case Took(k) => FatalNextMeaning(ws[1..], buffer[if k <= |buffer| then k else |buffer|..]);
      case WriteIntr => FatalAfterProgressMeaning(ws[1..], buffer);
      case _ =>
    }
  }

  /** A fatal outcome comes next, but for interruptions. */
  predicate FatalFollows(ws: seq<WriteOutcome>) {
    ws != [] && (ws[0].WriteFatal? || (ws[0].WriteIntr? && FatalFollows(ws[1..])))
  }

  /** A schedule in which no fatal outcome comes directly behind bytes taken. */
  predicate Orderly(ws: seq<WriteOutcome>) {
    ws == [] || (Orderly(ws[1..]) && (ws[0].Took? ==> !FatalFollows(ws[1..])))
  }

  lemma {:induction false} OrderlyNext(ws: seq<WriteOutcome>, left: nat)
    requires Orderly(ws) && !FatalFollows(ws)
    ensures !FatalNext(ws, left)
    decreases |ws|
  {
    if ws != [] && left > 0 {
      match ws[0]
      case Took(k) => if k < left { OrderlyNext(ws[1..], left - k); }
      case WriteIntr => OrderlyNext(ws[1..], left);
      case _ =>
    }
  }

  /** On such a schedule no write is lost track of, whatever is written, and what is left of it is orderly. */
  lemma {:induction false} OrderlyConserves(ws: seq<WriteOutcome>, buffer: string)
    requires Orderly(ws)
    ensures !FatalAfterProgress(ws, buffer) && Orderly(Send(ws, buffer).rest)
    decreases |ws|
  {
    if ws != [] && buffer != "" {
      match ws[0]
      case Took(k) =>
        if k < |buffer| { OrderlyNext(ws[1..], |buffer| - k); }
        OrderlyConserves(ws[1..], buffer[if k <= |buffer| then k else |buffer|..]);
      case WriteIntr => OrderlyConserves(ws[1..], buffer);
      case _ =>
    }
  }

  lemma {:induction false} NoFatalIsOrderly(ws: seq<WriteOutcome>)
    requires forall i | 0 <= i < |ws| :: !ws[i].WriteFatal?
    ensures Orderly(ws) && !FatalFollows(ws)
  {
    if ws != [] { NoFatalIsOrderly(ws[1..]); }
  }
}
