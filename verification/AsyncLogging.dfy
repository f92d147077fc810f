/**
  The logger object of log/AsyncLogging.* and its prototype log/wanju/FileUtil.cpp, with the
  writer's local variables as fields. Buffers are objects, so two pointers to one would alias;
  `OwnedOnce` says there are none. Each method is one atomic section and performs one action of
  LogProtocol on `log`, the abstract state that `Valid` ties to the fields.
 */
module AsyncLogging {
  import opened Wrappers
  import opened LogProtocol
  import opened LogFile
  import opened LogBuffer

  ghost predicate Holds(cells: seq<Cell>, b: FixedBuffer?, p: Place, t: Option<string>) {
    if b == null then t.None? else t.Some? && Known(cells, b, p, t.value)
  }

  ghost predicate HoldsAll(cells: seq<Cell>, bs: seq<FixedBuffer>, number: int, ts: seq<string>) {
    |ts| == |bs| && forall i {:trigger bs[i]} | 0 <= i < |bs| :: Known(cells, bs[i], InList(number, i), ts[i])
  }

  class AsyncLogging {
    const size: nat
    const logfile: LogFile
    const pool: Pool
    var currentBuffer: FixedBuffer?
    var nextBuffer: FixedBuffer?
    var bufferPtrs: seq<FixedBuffer>
    var newBuffer1: FixedBuffer?
    var newBuffer2: FixedBuffer?
    var buffersToWrite: seq<FixedBuffer>
    var running: bool
    /** The index of the writing loops. */
    var next: nat
    ghost var log: Log
    /** The number of the list `bufferPtrs`; the batch has the number before it. */
    ghost var number: int
    /** No write to the file has failed. */
    ghost var lossless: bool

    /** Every pointer agrees with the pool and with the abstract state. */
    ghost predicate Rep()
      reads this, pool
    {
      && size == pool.size
      && Holds(pool.cells, currentBuffer, AtCurrent, log.current) && Holds(pool.cells, nextBuffer, AtNext, log.next)
      && Holds(pool.cells, newBuffer1, AtSpare1, log.spare1) && Holds(pool.cells, newBuffer2, AtSpare2, log.spare2)
      && HoldsAll(pool.cells, bufferPtrs, number, log.ptrs)
      && HoldsAll(pool.cells, buffersToWrite, number - 1, log.batch)
      && log.size == size && log.running == running
    }

    /** The file holds what the protocol has written, while no write has failed. */
    ghost predicate Filed()
      reads this, logfile, logfile.file
    {
      logfile.Valid() && (lossless ==> log.file == logfile.file.content)
    }

    /** Nothing of the file is left in stdio. */
    ghost predicate Flushed()
      reads this, logfile, logfile.file
    {
      logfile.file.flushed == |logfile.file.content|
    }

    /** While the writer is at work on the file, some of it may be. */
    ghost predicate Settled()
      reads this, logfile, logfile.file
    {
      log.phase.Writing? || log.phase.Draining? || Flushed()
    }

    ghost predicate Sound()
      reads this, pool
    {
      && Rep() && Stocked(log) && !log.failed
      && (log.phase.Writing? || log.phase.Draining? ==> next == log.phase.next)
    }

    /** The buffers are none of the other objects. */
    ghost predicate Apart()
      reads pool
    {
      this !in pool.Repr && logfile !in pool.Repr && logfile.file !in pool.Repr
    }

    ghost predicate Stored()
      reads pool, pool.Repr
    {
      Apart() && pool.Valid()
    }

    ghost predicate Valid()
      reads this, pool, pool.Repr, logfile, logfile.file
    {
      Sound() && Stored() && Filed() && Settled()
    }

    /** The pointer kept at a place. */
    ghost function PointerAt(p: Place): FixedBuffer?
      reads this
    {
      match p
      case AtCurrent => currentBuffer
      case AtNext => nextBuffer
      case AtSpare1 => newBuffer1
      case AtSpare2 => newBuffer2
      case InList(k, i) =>
        if k == number && i < |bufferPtrs| then bufferPtrs[i]
        else if k == number - 1 && i < |buffersToWrite| then buffersToWrite[i] else null
    }

    /** No buffer object is held in two places. */
    ghost predicate OwnedOnce()
      reads this
    {
      forall p, q | PointerAt(p) != null && PointerAt(p) == PointerAt(q) :: p == q
    }

    lemma PlacesOwn()
      requires Rep()
      ensures OwnedOnce()
    {
      forall p, q | PointerAt(p) != null && PointerAt(p) == PointerAt(q) ensures p == q {
        assert pool.cells[PointerAt(p).id].place == p && pool.cells[PointerAt(q).id].place == q;
      }
    }

    /** No buffers yet. */
    constructor (size: nat, flushEveryN: int)
      requires size > 0
      ensures Rep() && Stored() && Filed() && Flushed() && lossless && number == 0 && this.size == size
      ensures log == Start(size).(current := None, next := None, spare1 := None, spare2 := None)
      ensures fresh(logfile) && fresh(logfile.file) && fresh(pool) && pool.Repr == {}
    {
      this.size := size;
      logfile := new LogFile(flushEveryN);
      currentBuffer, nextBuffer, newBuffer1, newBuffer2 := null, null, null, null;
      bufferPtrs, buffersToWrite, running, next := [], [], true, 0;
      log, lossless := Start(size).(current := None, next := None, spare1 := None, spare2 := None), true;
      pool := new Pool(size);
      number := 0;
    }

    /** The two buffers of the constructor and the two spare ones of the writer. */
    method Open()
      requires Rep() && Stored() && Filed() && Flushed() && size > 0
      requires log == Start(size).(current := None, next := None, spare1 := None, spare2 := None)
      modifies this, pool
      ensures Valid() && log == Start(size) && lossless == old(lossless) && fresh(pool.Repr - old(pool.Repr))
    {
      OpenFront();
      OpenSpares();
    }

    method OpenFront()
      requires Rep() && Stored() && currentBuffer == null && nextBuffer == null
      modifies pool, this`currentBuffer, this`nextBuffer, this`log
      ensures Rep() && Stored() && log == old(log).(current := Some(""), next := Some("")) && fresh(pool.Repr - old(pool.Repr))
    {
      NewCurrent();
      NewNext();
    }

    method OpenSpares()
      requires Rep() && Stored() && newBuffer1 == null && newBuffer2 == null
      modifies pool, this`newBuffer1, this`newBuffer2, this`log
      ensures Rep() && Stored() && log == old(log).(spare1 := Some(""), spare2 := Some("")) && fresh(pool.Repr - old(pool.Repr))
    {
      NewSpare1();
      NewSpare2();
    }

    method NewNext()
      requires Rep() && Stored() && nextBuffer == null
      modifies pool, this`nextBuffer, this`log
      ensures Rep() && Stored() && log == old(log).(next := Some("")) && fresh(pool.Repr - old(pool.Repr))
    {
      var b := pool.New(AtNext);
      InstallNext(b, "");
    }

    method NewSpare1()
      requires Rep() && Stored() && newBuffer1 == null
      modifies pool, this`newBuffer1, this`log
      ensures Rep() && Stored() && log == old(log).(spare1 := Some("")) && fresh(pool.Repr - old(pool.Repr))
    {
      var b := pool.New(AtSpare1);
      InstallSpare1(b, "");
    }

    method NewSpare2()
      requires Rep() && Stored() && newBuffer2 == null
      modifies pool, this`newBuffer2, this`log
      ensures Rep() && Stored() && log == old(log).(spare2 := Some("")) && fresh(pool.Repr - old(pool.Repr))
    {
      var b := pool.New(AtSpare2);
      InstallSpare2(b, "");
    }

    /** `FixedBuffer::append` on the current buffer. */
    method PutCurrent(msg: string)
      requires Rep() && Stored() && currentBuffer != null
      modifies pool`cells, this`log, currentBuffer, currentBuffer.data
      ensures Rep() && Stored() && log == old(log).(current := Some(Put(size, old(log).current.value, msg)))
    {
      ghost var t := Put(size, log.current.value, msg);
      pool.Put(currentBuffer, msg);
      log := log.(current := Some(t));
      CurrentWritten(t);
    }

    /** Nobody else holds the buffer that was written to. */
    twostate lemma CurrentWritten(t: string)
      requires old(Rep()) && currentBuffer != null && log == old(log).(current := Some(t))
      requires unchanged(this`currentBuffer, this`nextBuffer, this`newBuffer1, this`newBuffer2, this`bufferPtrs,
        this`buffersToWrite, this`running, this`number)
      requires currentBuffer.id < |old(pool.cells)| && pool.cells == old(pool.cells)[currentBuffer.id := Cell(currentBuffer, AtCurrent, t)]
      ensures Rep()
    {}

    method PushCurrent()
      requires Rep() && Stored() && currentBuffer != null
      modifies pool`cells, this`currentBuffer, this`bufferPtrs, this`log
      ensures Rep() && Stored() && currentBuffer == null
      ensures log == old(log).(ptrs := old(log).ptrs + [old(log).current.value], current := None)
    {
      var b := MoveCurrent();
      PushBack(b, old(log).current.value);
    }

    /** `std::move(currentBuffer_)`. */
    method MoveCurrent() returns (b: FixedBuffer)
      requires Rep() && currentBuffer != null
      modifies this`currentBuffer, this`log
      ensures Rep() && currentBuffer == null && Known(pool.cells, b, AtCurrent, old(log).current.value)
      ensures log == old(log).(current := None)
    {
      b := currentBuffer;
      log := log.(current := None);
      currentBuffer := null;
    }

    /** `std::move(nextBuffer_)`. */
    method MoveNext() returns (b: FixedBuffer)
      requires Rep() && nextBuffer != null
      modifies this`nextBuffer, this`log
      ensures Rep() && nextBuffer == null && Known(pool.cells, b, AtNext, old(log).next.value)
      ensures log == old(log).(next := None)
    {
      b := nextBuffer;
      log := log.(next := None);
      nextBuffer := null;
    }

    /** `std::move(newBuffer1)`. */
    method MoveSpare1() returns (b: FixedBuffer)
      requires Rep() && newBuffer1 != null
      modifies this`newBuffer1, this`log
      ensures Rep() && newBuffer1 == null && Known(pool.cells, b, AtSpare1, old(log).spare1.value)
      ensures log == old(log).(spare1 := None)
    {
      b := newBuffer1;
      log := log.(spare1 := None);
      newBuffer1 := null;
    }

    /** `std::move(newBuffer2)`. */
    method MoveSpare2() returns (b: FixedBuffer)
      requires Rep() && newBuffer2 != null
      modifies this`newBuffer2, this`log
      ensures Rep() && newBuffer2 == null && Known(pool.cells, b, AtSpare2, old(log).spare2.value)
      ensures log == old(log).(spare2 := None)
    {
      b := newBuffer2;
      log := log.(spare2 := None);
      newBuffer2 := null;
    }

    /** The assignments to the four pointers: the buffer is already at its place. */
    method InstallCurrent(b: FixedBuffer, ghost t: string)
      requires Rep() && currentBuffer == null && Known(pool.cells, b, AtCurrent, t)
      modifies this`currentBuffer, this`log
      ensures Rep() && currentBuffer == b && log == old(log).(current := Some(t))
    {
      currentBuffer := b;
      log := log.(current := Some(t));
    }

    method InstallNext(b: FixedBuffer, ghost t: string)
      requires Rep() && nextBuffer == null && Known(pool.cells, b, AtNext, t)
      modifies this`nextBuffer, this`log
      ensures Rep() && nextBuffer == b && log == old(log).(next := Some(t))
    {
      nextBuffer := b;
      log := log.(next := Some(t));
    }

    method InstallSpare1(b: FixedBuffer, ghost t: string)
      requires Rep() && newBuffer1 == null && Known(pool.cells, b, AtSpare1, t)
      modifies this`newBuffer1, this`log
      ensures Rep() && newBuffer1 == b && log == old(log).(spare1 := Some(t))
    {
      newBuffer1 := b;
      log := log.(spare1 := Some(t));
    }

    method InstallSpare2(b: FixedBuffer, ghost t: string)
      requires Rep() && newBuffer2 == null && Known(pool.cells, b, AtSpare2, t)
      modifies this`newBuffer2, this`log
      ensures Rep() && newBuffer2 == b && log == old(log).(spare2 := Some(t))
    {
      newBuffer2 := b;
      log := log.(spare2 := Some(t));
    }

    /** A buffer that nobody holds is moved to a free place. */
    ghost method MoveFree(b: FixedBuffer, from: Place, p: Place, t: string)
      requires Rep() && Stored() && PointerAt(from) == null && PointerAt(p) == null
      requires Known(pool.cells, b, from, t)
      modifies pool`cells
      ensures Rep() && Stored() && Known(pool.cells, b, p, t)
    {
      pool.Move(b, p);
      Moved(b);
    }

    /** A buffer has moved between places that no pointer stands for. */
    twostate lemma Moved(b: FixedBuffer)
      requires old(Rep()) && unchanged(this) && b.id < |old(pool.cells)| == |pool.cells|
      requires pool.cells == old(pool.cells)[b.id := pool.cells[b.id]]
      requires PointerAt(old(pool.cells)[b.id].place) == null && PointerAt(pool.cells[b.id].place) == null
      ensures Rep()
    {}

    method PushBack(b: FixedBuffer, ghost t: string)
      requires Rep() && Stored() && currentBuffer == null && Known(pool.cells, b, AtCurrent, t)
      modifies pool`cells, this`bufferPtrs, this`log
      ensures Rep() && Stored() && log == old(log).(ptrs := old(log).ptrs + [t])
    {
      MoveFree(b, AtCurrent, InList(number, |bufferPtrs|), t);
      AppendList(b, t);
    }

    method AppendList(b: FixedBuffer, ghost t: string)
      requires Rep() && Known(pool.cells, b, InList(number, |bufferPtrs|), t)
      modifies this`bufferPtrs, this`log
      ensures Rep() && log == old(log).(ptrs := old(log).ptrs + [t])
    {
      log := log.(ptrs := log.ptrs + [t]);
      bufferPtrs := bufferPtrs + [b];
    }

    method TakeReserve()
      requires Rep() && Stored() && currentBuffer == null && nextBuffer != null
      modifies pool`cells, this`currentBuffer, this`nextBuffer, this`log
      ensures Rep() && Stored() && currentBuffer != null && log == old(log).(current := old(log).next, next := None)
    {
      ghost var t := log.next.value;
      var b := MoveNext();
      MoveFree(b, AtNext, AtCurrent, t);
      InstallCurrent(b, t);
    }

    method NewCurrent()
      requires Rep() && Stored() && currentBuffer == null
      modifies pool, this`currentBuffer, this`log
      ensures Rep() && Stored() && currentBuffer != null && log == old(log).(current := Some(""))
      ensures fresh(pool.Repr - old(pool.Repr))
    {
      var b := pool.New(AtCurrent);
      InstallCurrent(b, "");
    }

    /** The full buffer joins the list; the reserve or a new one takes its place. */
    method MakeRoom()
      requires Rep() && Stored() && currentBuffer != null
      modifies pool, this`currentBuffer, this`nextBuffer, this`bufferPtrs, this`log
      ensures Rep() && Stored() && currentBuffer != null && fresh(pool.Repr - old(pool.Repr))
      ensures log == old(log).(ptrs := old(log).ptrs + [old(log).current.value], current := Some(Contents(old(log).next)), next := None)
    {
      PushCurrent();
      if nextBuffer != null { TakeReserve(); } else { NewCurrent(); }
    }

    method PutInNext(msg: string)
      requires Rep() && Stored() && currentBuffer != null
      modifies pool, this`currentBuffer, this`nextBuffer, this`bufferPtrs, this`log, pool.Repr
      ensures Rep() && Stored() && fresh(pool.Repr - old(pool.Repr))
      ensures log == old(log).(ptrs := old(log).ptrs + [old(log).current.value],
        current := Some(Put(size, Contents(old(log).next), msg)), next := None)
    {
      MakeRoom();
      PutCurrent(msg);
    }

    /** The body of `append`, in its two branches. */
    method StoreMessage(msg: string)
      requires Rep() && Stored() && currentBuffer != null
      modifies pool, this`currentBuffer, this`nextBuffer, this`bufferPtrs, this`log, pool.Repr
      ensures Rep() && Stored() && fresh(pool.Repr - old(pool.Repr))
      ensures Avail(old(log)) >= |msg| ==> log == old(log).(current := Some(Put(size, old(log).current.value, msg)))
      ensures Avail(old(log)) < |msg| ==> log == old(log).(ptrs := old(log).ptrs + [old(log).current.value],
        current := Some(Put(size, Contents(old(log).next), msg)), next := None)
    {
      var room := pool.Room(currentBuffer);
      if room >= |msg| { PutCurrent(msg); } else { PutInNext(msg); }
    }

    /** `append`: the producer's locked section. */
    method Append(msg: string)
      requires Valid() && currentBuffer != null
      modifies pool, this`currentBuffer, this`nextBuffer, this`bufferPtrs, this`log, pool.Repr
      ensures Valid() && log == AppendStep(old(log), msg) && fresh(pool.Repr - old(pool.Repr))
    {
      AppendStocked(log, msg);
      ghost var n := AppendStep(log, msg);
      assert !n.failed && n.phase == log.phase && n.file == log.file && Stocked(n);
      AppendMessage(msg);
    }

    method AppendMessage(msg: string)
      requires Rep() && Stored() && currentBuffer != null
      modifies pool, this`currentBuffer, this`nextBuffer, this`bufferPtrs, this`log, pool.Repr
      ensures Rep() && Stored() && fresh(pool.Repr - old(pool.Repr)) && log == AppendStep(old(log), msg)
    {
      ghost var accepted := AppendStep(log, msg).accepted;
      StoreMessage(msg);
      Account(log.(accepted := accepted));
    }

    /** The parts of the abstract state that no pointer stands for. */
    ghost method Account(n: Log)
      requires Rep() && n == log.(accepted := n.accepted, overloaded := n.overloaded, phase := n.phase)
      modifies this`log
      ensures Rep() && log == n
    {
      log := n;
    }

    method Stop()
      requires Valid()
      modifies this`running, this`log
      ensures Valid() && log == old(log).(running := false)
    {
      ClearRunning();
    }

    method ClearRunning()
      requires Rep()
      modifies this`running, this`log
      ensures Rep() && log == old(log).(running := false)
    {
      running := false;
      log := log.(running := false);
    }

    /** The loop test, and behind the loop the push of the current buffer. */
    method Check()
      requires Valid() && log.phase.Top?
      modifies pool`cells, this`currentBuffer, this`bufferPtrs, this`next, this`log
      ensures Valid() && log == CheckStep(old(log))
    {
      CheckStocked(log);
      next := 0;
      CheckPointers();
    }

    method CheckPointers()
      requires Rep() && Stored()
      modifies pool`cells, this`currentBuffer, this`bufferPtrs, this`log
      ensures Rep() && Stored() && log == CheckStep(old(log))
    {
      ghost var n := CheckStep(log);
      if !running && currentBuffer != null { PushCurrent(); }
      Account(n);
    }

    method TakeSpare1()
      requires Rep() && Stored() && currentBuffer == null && newBuffer1 != null
      modifies pool`cells, this`currentBuffer, this`newBuffer1, this`log
      ensures Rep() && Stored() && log == old(log).(current := old(log).spare1, spare1 := None)
    {
      ghost var t := log.spare1.value;
      var b := MoveSpare1();
      MoveFree(b, AtSpare1, AtCurrent, t);
      InstallCurrent(b, t);
    }

    method SwapLists()
      requires Rep() && buffersToWrite == []
      modifies this`bufferPtrs, this`buffersToWrite, this`number, this`log
      ensures Rep() && log == old(log).(ptrs := old(log).batch, batch := old(log).ptrs, phase := Swapped)
    {
      log := log.(ptrs := log.batch, batch := log.ptrs, phase := Swapped);
      bufferPtrs, buffersToWrite := buffersToWrite, bufferPtrs;
      number := number + 1;
    }

    method TakeSpare2()
      requires Rep() && Stored() && nextBuffer == null
      modifies pool`cells, this`nextBuffer, this`newBuffer2, this`log
      ensures Rep() && Stored() && log == old(log).(next := old(log).spare2, spare2 := None)
    {
      if newBuffer2 != null { FillReserve(); }
    }

    method FillReserve()
      requires Rep() && Stored() && nextBuffer == null && newBuffer2 != null
      modifies pool`cells, this`nextBuffer, this`newBuffer2, this`log
      ensures Rep() && Stored() && log == old(log).(next := old(log).spare2, spare2 := None)
    {
      ghost var t := log.spare2.value;
      var b := MoveSpare2();
      MoveFree(b, AtSpare2, AtNext, t);
      InstallNext(b, t);
    }

    /** The current buffer joins the list and a spare one takes its place. */
    method SwapCurrent()
      requires Rep() && Stored() && currentBuffer != null && newBuffer1 != null
      modifies pool`cells, this`currentBuffer, this`bufferPtrs, this`newBuffer1, this`log
      ensures Rep() && Stored()
      ensures log == old(log).(ptrs := old(log).ptrs + [old(log).current.value], current := old(log).spare1, spare1 := None)
    {
      PushCurrent();
      TakeSpare1();
    }

    /** The lists change over, and a used-up reserve is replaced. */
    method SwapOut()
      requires Rep() && Stored() && buffersToWrite == []
      modifies pool`cells, this`nextBuffer, this`bufferPtrs, this`newBuffer2, this`buffersToWrite, this`number, this`log
      ensures Rep() && Stored()
      ensures log == old(log).(ptrs := old(log).batch, batch := old(log).ptrs, phase := Swapped,
        next := if old(log).next.None? then old(log).spare2 else old(log).next,
        spare2 := if old(log).next.None? then None else old(log).spare2)
    {
      SwapLists();
      if nextBuffer == null { TakeSpare2(); }
    }

    method SwapPointers()
      requires Rep() && Stored() && currentBuffer != null && newBuffer1 != null && buffersToWrite == []
      modifies pool`cells, this`currentBuffer, this`nextBuffer, this`bufferPtrs, this`newBuffer1, this`newBuffer2, this`buffersToWrite, this`number, this`log
      ensures Rep() && Stored() && log == SwapStep(old(log))
    {
      SwapCurrent();
      SwapOut();
    }

    /** The writer's locked section. */
    method Swap()
      requires Valid() && log.phase.Locking?
      modifies pool`cells, this`currentBuffer, this`nextBuffer, this`bufferPtrs, this`newBuffer1, this`newBuffer2, this`buffersToWrite, this`number, this`log
      ensures Valid() && log == SwapStep(old(log))
    {
      SwapStocked(log);
      SwapPointers();
    }

    /** The overload test; on a batch of one buffer the erase is undefined. */
    method Trim()
      requires Valid() && log.phase.Swapped? && (|bufferPtrs| > OVERLOAD ==> |buffersToWrite| >= 2)
      modifies this`buffersToWrite, this`next, this`log
      ensures Valid() && log == TrimStep(Prototype, old(log))
    {
      TrimStocked(Prototype, log);
      next := 0;
      TrimPointers();
    }

    method TrimPointers()
      requires Rep() && (|bufferPtrs| > OVERLOAD ==> |buffersToWrite| >= 2)
      modifies this`buffersToWrite, this`log
      ensures Rep() && log == TrimStep(Prototype, old(log))
    {
      ghost var n := TrimStep(Prototype, log);
      if |bufferPtrs| > OVERLOAD { Cut(2); }
      Account(n);
    }

    /** One text through the short-write loop. */
    method Save(text: string, shorts: seq<nat>)
      requires Filed()
      modifies logfile, logfile.file, this`log, this`lossless
      ensures Filed() && log == old(log).(file := old(log).file + text)
      ensures lossless == (old(lossless) && !FileFails(shorts, |text|))
    {
      WrittenExact(shorts, |text|);
      logfile.Append(text, shorts);
      assert lossless && !FileFails(shorts, |text|) ==> text[..Written(shorts, |text|)] == text;
      log, lossless := log.(file := log.file + text), lossless && !FileFails(shorts, |text|);
    }

    method WriteText(text: string, shorts: seq<nat>, ghost n: Log)
      requires Valid() && n == log.(file := log.file + text, phase := n.phase) && Stocked(n)
      requires n.phase == Writing(next + 1) || n.phase == Draining(next + 1)
      modifies logfile, logfile.file, this`next, this`log, this`lossless
      ensures Valid() && log == n && lossless == (old(lossless) && !FileFails(shorts, |text|))
    {
      Save(text, shorts);
      log, next := n, next + 1;
    }

    method WriteOne(shorts: seq<nat>)
      requires Valid() && log.phase.Writing? && next < |buffersToWrite|
      modifies logfile, logfile.file, this`next, this`log, this`lossless
      ensures Valid() && log == Step(Prototype, old(log), LogProtocol.WriteOne)
      ensures lossless == (old(lossless) && !FileFails(shorts, |old(log).batch[old(next)]|))
    {
      WriteText(buffersToWrite[next].Data(), shorts, Step(Prototype, log, LogProtocol.WriteOne));
    }

    method DrainOne(shorts: seq<nat>)
      requires Valid() && log.phase.Draining? && next < |bufferPtrs|
      modifies logfile, logfile.file, this`next, this`log, this`lossless
      ensures Valid() && log == Step(Prototype, old(log), LogProtocol.DrainOne)
      ensures lossless == (old(lossless) && !FileFails(shorts, |old(log).ptrs[old(next)]|))
    {
      WriteText(bufferPtrs[next].Data(), shorts, Step(Prototype, log, LogProtocol.DrainOne));
    }

    method DrainEnd()
      requires Valid() && log.phase.Draining? && log.phase.next == |bufferPtrs|
      modifies logfile, logfile.file, this`bufferPtrs, this`log
      ensures Valid() && log == old(log).(ptrs := [], phase := Done)
      ensures logfile.file.content == old(logfile.file.content) && Flushed()
    {
      bufferPtrs := [];
      log := log.(ptrs := [], phase := Done);
      Flush();
    }

    /** The last buffer of the batch leaves it for a free place. */
    method PopBatch(ghost p: Place) returns (b: FixedBuffer)
      requires Rep() && Stored() && buffersToWrite != [] && !p.InList? && PointerAt(p) == null
      modifies pool`cells, this`buffersToWrite, this`log
      ensures Rep() && Stored() && Known(pool.cells, b, p, old(log).batch[|old(log).batch| - 1])
      ensures log == old(log).(batch := old(log).batch[..|old(log).batch| - 1])
    {
      var n := |buffersToWrite| - 1;
      b := buffersToWrite[n];
      Cut(n);
      MoveFree(b, InList(number - 1, n), p, old(log).batch[n]);
    }

    /** Nobody else sees the reset. */
    method EmptyAt(b: FixedBuffer, ghost p: Place)
      requires Rep() && Stored() && b.id < |pool.cells| && Known(pool.cells, b, p, pool.cells[b.id].text) && !p.InList? && PointerAt(p) == null
      modifies pool`cells, b`cur, b`text
      ensures Rep() && Stored() && Known(pool.cells, b, p, "")
    {
      pool.Empty(b);
    }

    /** `back`, `pop_back` and `reset`. */
    method Reuse(ghost p: Place) returns (b: FixedBuffer)
      requires Rep() && Stored() && buffersToWrite != [] && !p.InList? && PointerAt(p) == null
      modifies pool`cells, this`buffersToWrite, this`log, pool.Repr
      ensures Rep() && Stored() && Known(pool.cells, b, p, "")
      ensures log == old(log).(batch := old(log).batch[..|old(log).batch| - 1])
    {
      b := PopBatch(p);
      EmptyAt(b, p);
    }

    method Refill1()
      requires Rep() && Stored() && (newBuffer1 == null ==> buffersToWrite != [])
      modifies pool`cells, this`newBuffer1, this`buffersToWrite, this`log, pool.Repr
      ensures Rep() && Stored()
      ensures var r := Refill(old(log).spare1, old(log).batch); r.ok && log == old(log).(spare1 := r.spare, batch := r.batch)
    {
      if newBuffer1 == null { MakeSpare1(); }
    }

    method MakeSpare1()
      requires Rep() && Stored() && newBuffer1 == null && buffersToWrite != []
      modifies pool`cells, this`newBuffer1, this`buffersToWrite, this`log, pool.Repr
      ensures Rep() && Stored()
      ensures log == old(log).(spare1 := Some(""), batch := old(log).batch[..|old(log).batch| - 1])
    {
      var b := Reuse(AtSpare1);
      InstallSpare1(b, "");
    }

    method Refill2()
      requires Rep() && Stored() && (newBuffer2 == null ==> buffersToWrite != [])
      modifies pool`cells, this`newBuffer2, this`buffersToWrite, this`log, pool.Repr
      ensures Rep() && Stored()
      ensures var r := Refill(old(log).spare2, old(log).batch); r.ok && log == old(log).(spare2 := r.spare, batch := r.batch)
    {
      if newBuffer2 == null { MakeSpare2(); }
    }

    method MakeSpare2()
      requires Rep() && Stored() && newBuffer2 == null && buffersToWrite != []
      modifies pool`cells, this`newBuffer2, this`buffersToWrite, this`log, pool.Repr
      ensures Rep() && Stored()
      ensures log == old(log).(spare2 := Some(""), batch := old(log).batch[..|old(log).batch| - 1])
    {
      var b := Reuse(AtSpare2);
      InstallSpare2(b, "");
    }

    method Cut(n: nat)
      requires Rep() && n <= |buffersToWrite|
      modifies this`buffersToWrite, this`log
      ensures Rep() && log == old(log).(batch := old(log).batch[..n])
    {
      log := log.(batch := log.batch[..n]);
      buffersToWrite := buffersToWrite[..n];
    }

    /** Both refills find a buffer. */
    method RefillBoth()
      requires Rep() && Stored()
      requires |buffersToWrite| >= (if newBuffer1 == null then 1 else 0) + (if newBuffer2 == null then 1 else 0)
      modifies pool`cells, this`newBuffer1, this`newBuffer2, this`buffersToWrite, this`log, pool.Repr
      ensures Rep() && Stored()
      ensures var r1 := Refill(old(log).spare1, old(log).batch); var r2 := Refill(old(log).spare2, r1.batch);
        r1.ok && r2.ok && log == old(log).(spare1 := r1.spare, spare2 := r2.spare, batch := r2.batch)
    {
      Refill1();
      Refill2();
    }

    /** Keep two buffers and make spares of them. */
    method KeepTwo()
      requires Rep() && Stored()
      requires |buffersToWrite| >= (if newBuffer1 == null then 1 else 0) + (if newBuffer2 == null then 1 else 0)
      modifies pool`cells, this`newBuffer1, this`newBuffer2, this`buffersToWrite, this`log, pool.Repr
      ensures Rep() && Stored() && log.(batch := [], phase := Top) == RecycleStep(Prototype, old(log))
    {
      ghost var s := log;
      var n := if |buffersToWrite| > 2 then 2 else |buffersToWrite|;
      Cut(n);
      assert log.batch == if |s.batch| > 2 then s.batch[..2] else s.batch;
      RefillBoth();
    }

    method RecycleBuffers()
      requires Rep() && Stored()
      requires |buffersToWrite| >= (if newBuffer1 == null then 1 else 0) + (if newBuffer2 == null then 1 else 0)
      modifies pool`cells, this`newBuffer1, this`newBuffer2, this`buffersToWrite, this`log, pool.Repr
      ensures Rep() && Stored() && log == RecycleStep(Prototype, old(log))
    {
      KeepTwo();
      ClearBatch();
    }

    method ClearBatch()
      requires Rep()
      modifies this`buffersToWrite, this`log
      ensures Rep() && log == old(log).(batch := [], phase := Top)
    {
      buffersToWrite := [];
      log := log.(batch := [], phase := Top);
    }

    method Flush()
      requires Filed()
      modifies logfile, logfile.file
      ensures Filed() && logfile.file.content == old(logfile.file.content) && Flushed()
    {
      logfile.Flush();
    }

    /** The end of a round, which leaves the file flushed. */
    method Recycle()
      requires Valid() && log.phase.Writing? && log.phase.next == |buffersToWrite|
      modifies logfile, logfile.file, pool`cells, this`newBuffer1, this`newBuffer2, this`buffersToWrite, this`log, pool.Repr
      ensures Valid() && log == RecycleStep(Prototype, old(log)) && logfile.file.content == old(logfile.file.content) && Flushed()
    {
      RecycleStocked(Prototype, log);
      RecycleBuffers();
      Flush();
    }

    /** Any action of producer or writer. */
    method Perform(a: Action, shorts: seq<nat>)
      requires Valid() && Enabled(log, a) && !Step(Prototype, log, a).failed
      modifies this, logfile, logfile.file, pool, pool.Repr
      ensures Valid() && log == Step(Prototype, old(log), a) && fresh(pool.Repr - old(pool.Repr))
      ensures a.Recycle? || a.DrainEnd? ==> Flushed()
      ensures old(lossless) && Progresses(shorts) ==> lossless
    {
      if a.Append? || a.Stop? { ProducerActs(a); } else { WriterActs(a, shorts); }
    }

    /** The other threads leave the file alone. */
    method ProducerActs(a: Action)
      requires Valid() && Enabled(log, a) && !Step(Prototype, log, a).failed && (a.Append? || a.Stop?)
      modifies pool, this`currentBuffer, this`nextBuffer, this`bufferPtrs, this`running, this`log, pool.Repr
      ensures Valid() && log == Step(Prototype, old(log), a) && fresh(pool.Repr - old(pool.Repr))
    {
      if a.Append? {
        HasCurrent();
        Append(a.msg);
      } else {
        Stop();
      }
    }

    lemma HasCurrent()
      requires Valid()
      ensures currentBuffer != null <==> log.current.Some?
    {}

    /** The writer allocates nothing. */
    method WriterActs(a: Action, shorts: seq<nat>)
      requires Valid() && Enabled(log, a) && !Step(Prototype, log, a).failed && !a.Append? && !a.Stop?
      modifies this, logfile, logfile.file, pool`cells, pool.Repr
      ensures Valid() && log == Step(Prototype, old(log), a) && (a.Recycle? || a.DrainEnd? ==> Flushed())
      ensures old(lossless) && Progresses(shorts) ==> lossless
    {
      if a.Check? { Check(); } else if a.Trim? { Trim(); } else if a.Swap? || a.Recycle? { WriterTrades(a); } else { WriterSaves(a, shorts); }
    }

    /** Buffers change hands between the producers' side and the writer's. */
    method WriterTrades(a: Action)
      requires Valid() && Enabled(log, a) && !Step(Prototype, log, a).failed && (a.Swap? || a.Recycle?)
      modifies this`currentBuffer, this`nextBuffer, this`bufferPtrs, this`newBuffer1, this`newBuffer2,
        this`buffersToWrite, this`number, this`log, logfile, logfile.file, pool`cells, pool.Repr
      ensures Valid() && log == Step(Prototype, old(log), a) && (a.Recycle? ==> Flushed())
    {
      match a
      case Swap => Swap();
      case Recycle => Recycle();
    }

    method WriterSaves(a: Action, shorts: seq<nat>)
      requires Valid() && Enabled(log, a) && (a.WriteOne? || a.DrainOne? || a.DrainEnd?)
      modifies this`next, this`log, this`lossless, this`bufferPtrs, logfile, logfile.file
      ensures Valid() && log == Step(Prototype, old(log), a) && (a.DrainEnd? ==> Flushed()) && (old(lossless) && Progresses(shorts) ==> lossless)
    {
      match a
      case WriteOne =>
        if Progresses(shorts) { ProgressNeverFails(shorts, |log.batch[next]|); }
        WriteOne(shorts);
      case DrainOne =>
        if Progresses(shorts) { ProgressNeverFails(shorts, |log.ptrs[next]|); }
        DrainOne(shorts);
      case DrainEnd => DrainEnd();
    }

    /** Before the k-th action of a run that ends in `goal`. */
    ghost predicate Performing(trace: seq<Action>, k: nat, goal: Log)
      reads this, pool, pool.Repr, logfile, logfile.file
    {
      && Valid() && k <= |trace|
      && Behaviour(Prototype, log, trace[k..]) && Run(Prototype, log, trace[k..]) == goal && !goal.failed
    }

    method PerformNext(trace: seq<Action>, k: nat, shorts: seq<nat>, ghost goal: Log)
      requires Performing(trace, k, goal) && k < |trace|
      modifies this, logfile, logfile.file, pool, pool.Repr
      ensures Performing(trace, k + 1, goal) && fresh(pool.Repr - old(pool.Repr))
      ensures old(lossless) && Progresses(shorts) ==> lossless
    {
      RunNext(Prototype, log, trace, k);
      Perform(trace[k], shorts);
    }

    method PerformEach(trace: seq<Action>, shorts: seq<seq<nat>>)
      requires Valid() && Behaviour(Prototype, log, trace) && |shorts| == |trace|
      requires !Run(Prototype, log, trace).failed
      modifies this, logfile, logfile.file, pool, pool.Repr
      ensures Valid() && fresh(pool.Repr - old(pool.Repr)) && log == Run(Prototype, old(log), trace)
      ensures old(lossless) && (forall i | 0 <= i < |shorts| :: Progresses(shorts[i])) ==> lossless
    {
      ghost var goal := Run(Prototype, log, trace);
      assert trace[0..] == trace;
      for k := 0 to |trace|
        invariant Performing(trace, k, goal) && fresh(pool.Repr - old(pool.Repr))
        invariant old(lossless) && (forall i | 0 <= i < k :: Progresses(shorts[i])) ==> lossless
      {
        PerformNext(trace, k, shorts[k], goal);
      }
    }

    /**
      Any interleaving: every pointer stays unique, whenever the writer has ended a round all it has
      written is flushed, and at the end the file is what was accepted.
     */
    method PerformAll(trace: seq<Action>, shorts: seq<seq<nat>>)
      requires Valid() && Conserved(log) && Behaviour(Prototype, log, trace) && |shorts| == |trace|
      requires !Run(Prototype, log, trace).failed
      modifies this, logfile, logfile.file, pool, pool.Repr
      ensures Valid() && OwnedOnce() && fresh(pool.Repr - old(pool.Repr)) && Conserved(log) && log == Run(Prototype, old(log), trace)
      ensures old(lossless) && (forall i | 0 <= i < |shorts| :: Progresses(shorts[i])) ==> lossless
      ensures lossless && log.phase.Done? && !log.overloaded ==> logfile.file.content == log.accepted
      ensures log.phase.Top? || log.phase.Done? ==> Flushed()
    {
      RunKeeps(Prototype, log, trace);
      PerformEach(trace, shorts);
      PlacesOwn();
      DoneIsFile(log);
    }
  }
}
