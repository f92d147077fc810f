/**
  The double-buffered logger as a protocol: producers append under the lock; the writer swaps the
  full buffers out under the lock, writes them, recycles two, and drains at shutdown. Buffers are
  their contents here; which object holds them is the matter of AsyncLogging.
 */
module LogProtocol {
  import opened Text
  import opened Wrappers

  /**
    The two copies of the code differ in how the second spare buffer is refilled. Both make the
    overload test on the list just swapped in; `Intended` is the prototype with the test on the batch.
   */
  datatype Copy = Intended | Prototype | Installed

  /** Where the writer thread is. */
  datatype Phase = Top | Locking | Swapped | Writing(next: nat) | Draining(next: nat) | Done

  /** `failed`: an assert has failed, or an iterator or null pointer was misused. */
  datatype Log = Log(
    size: nat,
    current: Option<string>, next: Option<string>, ptrs: seq<string>,
    spare1: Option<string>, spare2: Option<string>, batch: seq<string>,
    phase: Phase, running: bool, file: string,
    accepted: string, overloaded: bool, failed: bool)

  datatype Action = Append(msg: string) | Stop | Check | Swap | Trim | WriteOne | Recycle | DrainOne | DrainEnd

  const OVERLOAD: nat := 25

  function Start(size: nat): Log {
    Log(size, Some(""), Some(""), [], Some(""), Some(""), [], Top, true, "", "", false, false)
  }

  /** `FixedBuffer::append`: the test is strict. */
  function Put(size: nat, b: string, msg: string): string {
    if size - |b| > |msg| then b + msg else b
  }

  function Avail(s: Log): int
    requires s.current.Some?
  {
    s.size - |s.current.value|
  }

  /** The messages that are kept, said without the code: not exactly the room left, and below a whole buffer. */
  predicate Accepts(s: Log, msg: string)
    requires s.current.Some?
  {
    |msg| != Avail(s) && |msg| < s.size
  }

  function AppendStep(s: Log, msg: string): Log
    requires s.current.Some?
  {
    var accepted := s.accepted + if Accepts(s, msg) then msg else "";
    if Avail(s) >= |msg| then
      s.(current := Some(Put(s.size, s.current.value, msg)), accepted := accepted)
    else
      var fresh' := if s.next.Some? then s.next.value else "";
      s.(ptrs := s.ptrs + [s.current.value], current := Some(Put(s.size, fresh', msg)), next := None, accepted := accepted)
  }

  function SwapStep(s: Log): Log
    requires s.current.Some?
  {
    s.(current := s.spare1, spare1 := None,
       batch := s.ptrs + [s.current.value], ptrs := s.batch,
       next := if s.next.None? then s.spare2 else s.next,
       spare2 := if s.next.None? then None else s.spare2,
       phase := Swapped)
  }

  /** The list whose length is taken for the sign of overload. */
  function Measured(v: Copy, s: Log): seq<string> { if v.Intended? then s.batch else s.ptrs }

  /** `erase` from position 2 needs two elements. */
  function TrimStep(v: Copy, s: Log): Log {
    if |Measured(v, s)| <= OVERLOAD then s.(phase := Writing(0))
    else if |s.batch| < 2 then s.(failed := true)
    else s.(batch := s.batch[..2], overloaded := true, phase := Writing(0))
  }

  datatype Refilled = Refilled(spare: Option<string>, batch: seq<string>, ok: bool)

  /** A missing spare is replaced by the last buffer of the batch, emptied. */
  function Refill(spare: Option<string>, batch: seq<string>): Refilled {
    if spare.Some? then Refilled(spare, batch, true)
    else if batch == [] then Refilled(None, [], false)
    else Refilled(Some(""), batch[..|batch| - 1], true)
  }

  function RecycleStep(v: Copy, s: Log): Log {
    var two := if |s.batch| > 2 then s.batch[..2] else s.batch;
    var r1 := Refill(s.spare1, two);
    var r2 := Refill(s.spare2, r1.batch);
    if !r1.ok || !r2.ok || (v.Installed? && s.spare2.None?) then s.(failed := true)
    else s.(spare1 := r1.spare, spare2 := r2.spare, batch := [], phase := Top)
  }

  function CheckStep(s: Log): Log {
    if s.running then s.(phase := Locking)
    else s.(ptrs := s.ptrs + (if s.current.Some? then [s.current.value] else []), current := None, phase := Draining(0))
  }

  /** Producers and `stop` may come at any time, the writer's actions at their places. */
  predicate Enabled(s: Log, a: Action) {
    !s.failed &&
    match a
    case Append(_) => true
    case Stop => true
    case Check => s.phase.Top?
    case Swap => s.phase.Locking? && s.current.Some?
    case Trim => s.phase.Swapped?
    case WriteOne => s.phase.Writing? && s.phase.next < |s.batch|
    case Recycle => s.phase.Writing? && s.phase.next == |s.batch|
    case DrainOne => s.phase.Draining? && s.phase.next < |s.ptrs|
    case DrainEnd => s.phase.Draining? && s.phase.next == |s.ptrs|
  }

  function Step(v: Copy, s: Log, a: Action): Log
    requires Enabled(s, a)
  {
    match a
    case Append(msg) => if s.current.Some? then AppendStep(s, msg) else s.(failed := true)
    case Stop => s.(running := false)
    case Check => CheckStep(s)
    case Swap => SwapStep(s)
    case Trim => TrimStep(v, s)
    case WriteOne => s.(file := s.file + s.batch[s.phase.next], phase := Writing(s.phase.next + 1))
    case Recycle => RecycleStep(v, s)
    case DrainOne => s.(file := s.file + s.ptrs[s.phase.next], phase := Draining(s.phase.next + 1))
    case DrainEnd => s.(ptrs := [], phase := Done)
  }

  predicate Behaviour(v: Copy, s: Log, trace: seq<Action>)
    decreases |trace|
  {
    trace == [] || (Enabled(s, trace[0]) && Behaviour(v, Step(v, s, trace[0]), trace[1..]))
  }

  function Run(v: Copy, s: Log, trace: seq<Action>): Log
    requires Behaviour(v, s, trace)
    decreases |trace|
  {
    if trace == [] then s else Run(v, Step(v, s, trace[0]), trace[1..])
  }

  /** A run from its k-th action on. */
  lemma RunNext(v: Copy, s: Log, trace: seq<Action>, k: nat)
    requires k < |trace| && Behaviour(v, s, trace[k..])
    ensures Enabled(s, trace[k]) && Behaviour(v, Step(v, s, trace[k]), trace[k + 1..])
    ensures Run(v, s, trace[k..]) == Run(v, Step(v, s, trace[k]), trace[k + 1..])
    ensures Step(v, s, trace[k]).failed ==> Run(v, s, trace[k..]).failed
  {
    assert trace[k..][0] == trace[k] && trace[k..][1..] == trace[k + 1..];
  }

  /** `n` is reached from `s` by `trace`. */
  predicate Reaches(v: Copy, s: Log, trace: seq<Action>, n: Log) { Behaviour(v, s, trace) && Run(v, s, trace) == n }

  lemma {:induction false} ReachesOn(v: Copy, s: Log, a: seq<Action>, n: Log, b: seq<Action>, m: Log)
    requires Reaches(v, s, a, n) && Reaches(v, n, b, m)
    ensures Reaches(v, s, a + b, m)
    decreases |a|
  {
    if a == [] {
      assert a + b == b;
    } else {
      assert (a + b)[0] == a[0] && (a + b)[1..] == a[1..] + b;
      ReachesOn(v, Step(v, s, a[0]), a[1..], n, b, m);
    }
  }

  lemma ReachesOne(v: Copy, s: Log, a: Action)
    requires Enabled(s, a)
    ensures Reaches(v, s, [a], Step(v, s, a))
  {
    var n := Step(v, s, a);
    assert [a][0] == a && [a][1..] == [];
    assert Behaviour(v, n, []) && Run(v, n, []) == n;
  }

  lemma ReachesStep(v: Copy, s: Log, trace: seq<Action>, n: Log, a: Action)
    requires Reaches(v, s, trace, n) && Enabled(n, a)
    ensures Reaches(v, s, trace + [a], Step(v, n, a))
  {
    ReachesOne(v, n, a);
    ReachesOn(v, s, trace, n, [a], Step(v, n, a));
  }

  // ---------------------------------------------------------------- what is held

  function Contents(b: Option<string>): string { if b.Some? then b.value else "" }

  /** The part of the batch, and at shutdown of the list, that is not in the file yet. */
  function Unwritten(s: Log): seq<string> {
    match s.phase
    case Writing(i) => if i <= |s.batch| then s.batch[i..] else []
    case Draining(i) => if i <= |s.ptrs| then s.ptrs[i..] else []
    case _ => s.batch
  }

  function Waiting(s: Log): seq<string> { if s.phase.Draining? then [] else s.ptrs }

  /** File, rest of the batch, waiting buffers, current buffer: the whole stream in order. */
  function Held(s: Log): string {
    s.file + Concat(Unwritten(s)) + Concat(Waiting(s)) + Contents(s.current)
  }

  predicate AllBelow(size: nat, bs: seq<string>) { forall i | 0 <= i < |bs| :: |bs[i]| < size }

  /** The buffers: never full, spares empty, and enough of them to recycle. */
  predicate Stocked(s: Log) {
    && s.size > 0
    && (s.current.Some? ==> |s.current.value| < s.size)
    && AllBelow(s.size, s.ptrs) && AllBelow(s.size, s.batch)
    && (s.next.Some? ==> s.next.value == "") && (s.spare1.Some? ==> s.spare1.value == "") && (s.spare2.Some? ==> s.spare2.value == "")
    && (s.next.None? ==> s.ptrs != [] || s.phase.Done?)
    && (!s.phase.Draining? && !s.phase.Done? ==> s.current.Some?)
    && match s.phase
       case Top => s.spare1.Some? && s.spare2.Some? && s.batch == []
       case Locking => s.spare1.Some? && s.spare2.Some? && s.batch == []
       case Swapped => s.spare1.None? && s.batch != [] && (s.spare2.None? ==> |s.batch| >= 2)
       case Writing(i) => s.spare1.None? && s.batch != [] && (s.spare2.None? ==> |s.batch| >= 2) && i <= |s.batch|
       case Draining(i) => s.current.None? && s.batch == [] && i <= |s.ptrs|
       case Done => s.current.None? && s.batch == [] && s.ptrs == []
  }

  predicate Conserved(s: Log) { !s.overloaded ==> Held(s) == s.accepted }

  lemma PutExact(size: nat, b: string, msg: string)
    requires |b| < size
    ensures var n := Put(size, b, msg); |n| < size && n == b + if |msg| < size - |b| then msg else ""
  {
    assert b + "" == b;
  }

  /** The buffer that takes the message. */
  function Target(s: Log, msg: string): string
    requires s.current.Some?
  {
    if Avail(s) >= |msg| then s.current.value else Contents(s.next)
  }

  /** The code's two tests together keep a message exactly when it is accepted. */
  lemma AppendPuts(s: Log, msg: string)
    requires Stocked(s) && s.current.Some?
    ensures |Target(s, msg)| < s.size
    ensures AppendStep(s, msg).current == Some(Target(s, msg) + if Accepts(s, msg) then msg else "")
    ensures |AppendStep(s, msg).current.value| < s.size
  {
    PutExact(s.size, Target(s, msg), msg);
  }

  lemma AppendHolds(head: string, ptrs: seq<string>, cur: string, msg: string)
    ensures head + Concat(ptrs) + (cur + msg) == head + Concat(ptrs) + cur + msg
    ensures head + Concat(ptrs + [cur]) + msg == head + Concat(ptrs) + cur + msg
  {
    ConcatSnoc(ptrs, cur);
    var c := Concat(ptrs);
    assert head + c + (cur + msg) == head + c + cur + msg;
    assert head + (c + cur) + msg == head + c + cur + msg;
  }

  lemma AppendEnds(s: Log, msg: string, kept: string)
    requires s.current.Some? && !s.phase.Draining? && (Avail(s) < |msg| ==> Target(s, msg) == "")
    requires AppendStep(s, msg).current == Some(Target(s, msg) + kept)
    ensures Held(AppendStep(s, msg)) == Held(s) + kept
  {
    AppendHolds(s.file + Concat(Unwritten(s)), s.ptrs, s.current.value, kept);
    if Avail(s) < |msg| { assert "" + kept == kept; }
  }

  /** An append is silently dropped exactly when it is not accepted; otherwise it ends the current buffer. */
  lemma AppendExact(s: Log, msg: string)
    requires Stocked(s) && s.current.Some?
    ensures var n := AppendStep(s, msg);
      && Held(n) == Held(s) + (if Accepts(s, msg) then msg else "")
      && n.current == Some(Target(s, msg) + if Accepts(s, msg) then msg else "")
      && (!Accepts(s, msg) <==> |msg| == Avail(s) || |msg| >= s.size)
  {
    AppendPuts(s, msg);
    AppendEnds(s, msg, if Accepts(s, msg) then msg else "");
  }

  lemma AppendStocked(s: Log, msg: string)
    requires Stocked(s) && s.current.Some?
    ensures Stocked(AppendStep(s, msg))
  {
    AppendPuts(s, msg);
    if Avail(s) >= |msg| { StoredStocked(s, msg); } else { PushedStocked(s, msg); }
  }

  lemma StoredStocked(s: Log, msg: string)
    requires Stocked(s) && s.current.Some? && Avail(s) >= |msg| && |AppendStep(s, msg).current.value| < s.size
    ensures Stocked(AppendStep(s, msg))
  {}

  lemma PushedStocked(s: Log, msg: string)
    requires Stocked(s) && s.current.Some? && Avail(s) < |msg| && |AppendStep(s, msg).current.value| < s.size
    ensures Stocked(AppendStep(s, msg))
  {
    assert AllBelow(s.size, s.ptrs + [s.current.value]);
  }

  lemma SwapKeeps(s: Log)
    requires Stocked(s) && s.phase.Locking?
    ensures Held(SwapStep(s)) == Held(s)
  {
    ConcatSnoc(s.ptrs, s.current.value);
    assert Concat(s.batch) == "";
    assert s.file + (Concat(s.ptrs) + s.current.value) + "" + "" == s.file + "" + Concat(s.ptrs) + s.current.value;
  }

  lemma WriteKeeps(s: Log, bs: seq<string>, i: nat)
    requires i < |bs|
    ensures s.file + bs[i] + Concat(bs[i + 1..]) == s.file + Concat(bs[i..])
  {
    assert bs[i..][0] == bs[i] && bs[i..][1..] == bs[i + 1..];
    assert s.file + bs[i] + Concat(bs[i + 1..]) == s.file + (bs[i] + Concat(bs[i + 1..]));
  }

  lemma CheckKeeps(s: Log)
    requires Stocked(s) && s.phase.Top?
    ensures Held(CheckStep(s)) == Held(s)
  {
    if !s.running {
      ConcatSnoc(s.ptrs, s.current.value);
      var all := s.ptrs + [s.current.value];
      assert all[0..] == all;
      assert s.file + (Concat(s.ptrs) + s.current.value) + "" + "" == s.file + "" + Concat(s.ptrs) + s.current.value;
    }
  }

  /** Every refill finds a buffer, also after the overload trim and the cut to two. */
  lemma RefillsSucceed(s: Log)
    requires Stocked(s) && s.phase.Writing?
    ensures var two := if |s.batch| > 2 then s.batch[..2] else s.batch; var r1 := Refill(s.spare1, two);
      r1.ok && Refill(s.spare2, r1.batch).ok
  {}

  lemma StepStocked(v: Copy, s: Log, a: Action)
    requires Stocked(s) && Enabled(s, a) && !Step(v, s, a).failed
    ensures Stocked(Step(v, s, a))
  {
    match a
    case Append(msg) => AppendStocked(s, msg);
    case Swap => SwapStocked(s);
    case Check => CheckStocked(s);
    case Trim => TrimStocked(v, s);
    case Recycle => RecycleStocked(v, s);
    case _ =>
  }

  lemma SwapStocked(s: Log)
    requires Stocked(s) && s.phase.Locking?
    ensures Stocked(SwapStep(s))
  {}

  lemma CheckStocked(s: Log)
    requires Stocked(s) && s.phase.Top?
    ensures Stocked(CheckStep(s))
  {}

  lemma TrimStocked(v: Copy, s: Log)
    requires Stocked(s) && s.phase.Swapped? && !TrimStep(v, s).failed
    ensures Stocked(TrimStep(v, s))
  {}

  lemma RecycleStocked(v: Copy, s: Log)
    requires Stocked(s) && s.phase.Writing? && !s.failed && !RecycleStep(v, s).failed
    ensures Stocked(RecycleStep(v, s))
  {}

  lemma StepConserves(v: Copy, s: Log, a: Action)
    requires Stocked(s) && Conserved(s) && Enabled(s, a) && !Step(v, s, a).failed
    ensures Conserved(Step(v, s, a))
  {
    match a
    case Append(msg) => AppendConserves(s, msg);
    case Trim => if |Measured(v, s)| <= OVERLOAD { TrimConserves(v, s); }
    case Recycle => RecycleConserves(v, s);
    case _ => WriterConserves(v, s, a);
  }

  lemma WriterConserves(v: Copy, s: Log, a: Action)
    requires Stocked(s) && Enabled(s, a) && (a.Stop? || a.Swap? || a.Check? || a.WriteOne? || a.DrainOne? || a.DrainEnd?)
    ensures Step(v, s, a).accepted == s.accepted && Step(v, s, a).overloaded == s.overloaded
    ensures Held(Step(v, s, a)) == Held(s)
  {
    match a
    case Stop => assert Held(s.(running := false)) == Held(s);
    case Swap => SwapKeeps(s);
    case Check => CheckKeeps(s);
    case WriteOne => WriteConserves(s);
    case DrainOne => DrainConserves(s);
    case DrainEnd => DrainEndConserves(s);
  }

  lemma AppendConserves(s: Log, msg: string)
    requires Stocked(s) && Conserved(s) && s.current.Some?
    ensures Conserved(AppendStep(s, msg))
  {
    AppendExact(s, msg);
  }

  lemma TrimConserves(v: Copy, s: Log)
    requires s.phase.Swapped? && |Measured(v, s)| <= OVERLOAD
    ensures Held(TrimStep(v, s)) == Held(s)
  {
    assert s.batch[0..] == s.batch;
  }

  lemma RecycleConserves(v: Copy, s: Log)
    requires s.phase.Writing? && s.phase.next == |s.batch| && !s.failed && !RecycleStep(v, s).failed
    ensures Held(RecycleStep(v, s)) == Held(s)
  {
    assert s.batch[|s.batch|..] == [];
  }

  lemma DrainEndConserves(s: Log)
    requires Stocked(s) && s.phase.Draining? && s.phase.next == |s.ptrs|
    ensures Held(s.(ptrs := [], phase := Done)) == Held(s)
  {
    assert s.ptrs[|s.ptrs|..] == [];
  }

  lemma WriteConserves(s: Log)
    requires s.phase.Writing? && s.phase.next < |s.batch|
    ensures Held(s.(file := s.file + s.batch[s.phase.next], phase := Writing(s.phase.next + 1))) == Held(s)
  {
    WriteKeeps(s, s.batch, s.phase.next);
  }

  lemma DrainConserves(s: Log)
    requires s.phase.Draining? && s.phase.next < |s.ptrs|
    ensures Held(s.(file := s.file + s.ptrs[s.phase.next], phase := Draining(s.phase.next + 1))) == Held(s)
  {
    WriteKeeps(s, s.ptrs, s.phase.next);
  }

  /**
    A step fails in exactly three ways: an append once the drain has taken the current buffer away,
    overload on a batch of one, and the refill of the installed copy.
   */
  lemma FailsExactly(v: Copy, s: Log, a: Action)
    requires Stocked(s) && Enabled(s, a)
    ensures Step(v, s, a).failed <==>
      || (a.Append? && (s.phase.Draining? || s.phase.Done?))
      || (a.Trim? && !v.Intended? && |s.ptrs| > OVERLOAD && |s.batch| == 1)
      || (a.Recycle? && v.Installed? && s.spare2.None?)
  {
    if a.Recycle? { RefillsSucceed(s); }
  }

  lemma {:induction false} RunKeeps(v: Copy, s: Log, trace: seq<Action>)
    requires Stocked(s) && Conserved(s) && Behaviour(v, s, trace)
    ensures var n := Run(v, s, trace); !n.failed ==> Stocked(n) && Conserved(n)
    decreases |trace|
  {
    if trace != [] {
      var n := Step(v, s, trace[0]);
      if n.failed {
        assert trace[1..] == [];
      } else {
        StepStocked(v, s, trace[0]);
        StepConserves(v, s, trace[0]);
        RunKeeps(v, n, trace[1..]);
      }
    }
  }

  lemma StartKeeps(size: nat)
    requires size > 0
    ensures Stocked(Start(size)) && Conserved(Start(size))
  {}

  /** For every interleaving: nothing accepted is lost, repeated or reordered unless the overload drop is taken. */
  lemma Conservation(v: Copy, size: nat, trace: seq<Action>)
    requires size > 0 && Behaviour(v, Start(size), trace)
    ensures var s := Run(v, Start(size), trace);
      !s.failed ==> (!s.overloaded ==> Held(s) == s.accepted) && Stocked(s)
  {
    StartKeeps(size);
    RunKeeps(v, Start(size), trace);
  }

  /**
    For every interleaving, recycling never fails; with the intended overload test nothing does as
    long as no message comes once the drain has begun.
   */
  lemma RecyclingNeverFails(v: Copy, size: nat, trace: seq<Action>, a: Action)
    requires size > 0 && !v.Installed? && Behaviour(v, Start(size), trace)
    requires Enabled(Run(v, Start(size), trace), a) && (a.Trim? ==> v.Intended?)
    requires var s := Run(v, Start(size), trace); a.Append? ==> !s.phase.Draining? && !s.phase.Done?
    ensures !Step(v, Run(v, Start(size), trace), a).failed
  {
    Conservation(v, size, trace);
    FailsExactly(v, Run(v, Start(size), trace), a);
  }

  predicate WithinRound(trace: seq<Action>) { forall i | 0 <= i < |trace| :: !trace[i].Swap? && !trace[i].Recycle? }

  lemma {:induction false} SpareKept(v: Copy, s: Log, trace: seq<Action>)
    requires Behaviour(v, s, trace) && WithinRound(trace)
    ensures Run(v, s, trace).spare2 == s.spare2
    decreases |trace|
  {
    if trace != [] { SpareKept(v, Step(v, s, trace[0]), trace[1..]); }
  }

  /** The installed copy fails in the round in which the swap found the reserve buffer used up, and only then. */
  lemma InstalledRecycleExact(s: Log, trace: seq<Action>)
    requires Stocked(s) && Conserved(s) && s.phase.Locking? && !s.failed
    requires Behaviour(Installed, SwapStep(s), trace) && WithinRound(trace)
    requires Enabled(Run(Installed, SwapStep(s), trace), Recycle)
    ensures Step(Installed, Run(Installed, SwapStep(s), trace), Recycle).failed <==> s.next.None?
  {
    SwapStocked(s);
    SwapKeeps(s);
    RunKeeps(Installed, SwapStep(s), trace);
    SpareKept(Installed, SwapStep(s), trace);
    FailsExactly(Installed, Run(Installed, SwapStep(s), trace), Recycle);
  }

  /** Shutdown: when the writer is done, the file is exactly what was accepted. */
  lemma ShutdownDrains(v: Copy, size: nat, trace: seq<Action>)
    requires size > 0 && Behaviour(v, Start(size), trace)
    ensures var s := Run(v, Start(size), trace);
      s.phase.Done? && !s.failed && !s.overloaded ==> s.file == s.accepted
  {
    Conservation(v, size, trace);
    var s := Run(v, Start(size), trace);
    if s.phase.Done? && !s.failed { DoneIsFile(s); }
  }

  lemma DoneIsFile(s: Log)
    requires Stocked(s) && Conserved(s)
    ensures s.phase.Done? && !s.overloaded ==> s.file == s.accepted
  {
    if s.phase.Done? {
      assert Concat(Unwritten(s)) == "" && Concat(Waiting(s)) == "" && Contents(s.current) == "";
      assert Held(s) == s.file;
    }
  }

  function DrainRest(s: Log): seq<Action>
    requires s.phase.Draining? && s.phase.next <= |s.ptrs|
  {
    seq(|s.ptrs| - s.phase.next, _ => DrainOne) + [DrainEnd]
  }

  lemma {:induction false} DrainRuns(v: Copy, s: Log)
    requires s.phase.Draining? && s.phase.next <= |s.ptrs| && !s.failed
    ensures Behaviour(v, s, DrainRest(s)) && Run(v, s, DrainRest(s)).phase.Done?
    decreases |s.ptrs| - s.phase.next
  {
    var rest := DrainRest(s);
    if s.phase.next == |s.ptrs| {
      assert rest == [DrainEnd];
      ReachesOne(v, s, DrainEnd);
    } else {
      var n := Step(v, s, DrainOne);
      assert rest[0] == DrainOne && rest[1..] == DrainRest(n);
      DrainRuns(v, n);
    }
  }

  /** Once the drain has begun the writer reaches its end by itself, and every append fails. */
  lemma DrainEnds(v: Copy, s: Log)
    requires Stocked(s) && s.phase.Draining? && !s.failed
    ensures Behaviour(v, s, DrainRest(s)) && Run(v, s, DrainRest(s)).phase.Done?
    ensures forall msg :: Step(v, s, Append(msg)).failed
  {
    DrainRuns(v, s);
  }

  /** After `stop` a message meets the empty pointer as soon as the writer has left its loop. */
  lemma LateAppendReachable(v: Copy, size: nat, msg: string)
    ensures var trace := [Stop, Check];
      && Behaviour(v, Start(size), trace) && Run(v, Start(size), trace).phase.Draining?
      && Step(v, Run(v, Start(size), trace), Append(msg)).failed
  {
    ReachesOne(v, Start(size), Stop);
    ReachesStep(v, Start(size), [Stop], Step(v, Start(size), Stop), Check);
    assert [Stop] + [Check] == [Stop, Check];
  }

  /** What the overload drop takes out: everything of the batch behind its second buffer. */
  lemma TrimLoses(v: Copy, s: Log)
    requires Stocked(s) && s.phase.Swapped? && |Measured(v, s)| > OVERLOAD && |s.batch| >= 2
    ensures var n := TrimStep(v, s); var after := Concat(s.ptrs) + Contents(s.current);
      && Held(s) == s.file + Concat(s.batch[..2]) + Concat(s.batch[2..]) + after
      && Held(n) == s.file + Concat(s.batch[..2]) + after
  {
    assert s.batch == s.batch[..2] + s.batch[2..];
    ConcatAppend(s.batch[..2], s.batch[2..]);
    var a, b, c, d := Concat(s.batch[..2]), Concat(s.batch[2..]), Concat(s.ptrs), Contents(s.current);
    assert s.file + (a + b) + c + d == s.file + a + b + (c + d);
    assert s.batch[..2][0..] == s.batch[..2];
    assert s.file + a + c + d == s.file + a + (c + d);
  }

  /** Two messages that do not fit together make the installed copy fail in its first round. */
  lemma InstalledFailureReachable(size: nat, a: string, b: string)
    requires |a| < size && |b| < size && |a| + |b| > size
    ensures var trace := [Append(a), Append(b), Check, Swap, Trim, WriteOne, WriteOne];
      && Behaviour(Installed, Start(size), trace)
      && var s := Run(Installed, Start(size), trace);
      && s.accepted == a + b && Enabled(s, Recycle) && Step(Installed, s, Recycle).failed
  {
    var s0 := Start(size);
    var s1 := FirstStored(size, a);
    var s2 := SecondPushes(size, a, b);
    ReachesOne(Installed, s0, Append(a));
    var t2 := [Append(a)] + [Append(b)];
    ReachesStep(Installed, s0, [Append(a)], s1, Append(b));
    var s3, t3 := CheckStep(s2), t2 + [Check];
    ReachesStep(Installed, s0, t2, s2, Check);
    var s4, t4 := SwapStep(s3), t3 + [Swap];
    ReachesStep(Installed, s0, t3, s3, Swap);
    var s5, t5 := TrimStep(Installed, s4), t4 + [Trim];
    ReachesStep(Installed, s0, t4, s4, Trim);
    var s6, t6 := Step(Installed, s5, WriteOne), t5 + [WriteOne];
    ReachesStep(Installed, s0, t5, s5, WriteOne);
    ReachesStep(Installed, s0, t6, s6, WriteOne);
    assert t6 + [WriteOne] == [Append(a), Append(b), Check, Swap, Trim, WriteOne, WriteOne];
  }

  function FirstStored(size: nat, a: string): (s: Log)
    requires |a| < size
    ensures s == AppendStep(Start(size), a)
  {
    Start(size).(current := Some("" + a), accepted := "" + a)
  }

  function SecondPushes(size: nat, a: string, b: string): (s: Log)
    requires |a| < size && |b| < size && |a| + |b| > size
    ensures s == AppendStep(FirstStored(size, a), b) && s.accepted == a + b
  {
    Start(size).(current := Some("" + b), next := None, ptrs := ["" + a], accepted := "" + a + b)
  }

  /** When the room is exactly the length of a message, that message and its like change nothing any more. */
  lemma {:induction false} EqualRoomSticks(v: Copy, s: Log, msg: string, k: nat)
    requires s.current.Some? && !s.failed && Avail(s) == |msg|
    ensures var trace := seq(k, _ => Append(msg)); Behaviour(v, s, trace) && Run(v, s, trace) == s
    decreases k
  {
    var trace := seq(k, _ => Append(msg));
    if k > 0 {
      assert s.accepted + "" == s.accepted;
      assert AppendStep(s, msg) == s;
      assert trace[0] == Append(msg) && trace[1..] == seq(k - 1, _ => Append(msg));
      EqualRoomSticks(v, s, msg, k - 1);
    }
  }

  /** How many messages like `msg` one buffer takes. */
  function PerBuffer(size: nat, msg: string): nat
    requires |msg| > 0
  {
    size / |msg|
  }

  /** The current buffer holds `u` such messages, while the writer has not looked yet. */
  predicate Filling(s: Log, msg: string, u: nat) {
    && Stocked(s) && s.phase.Swapped? && !s.failed
    && 0 < |msg| < s.size && s.size % |msg| != 0
    && u <= PerBuffer(s.size, msg) && |s.current.value| == u * |msg|
  }

  lemma RoomFor(size: nat, len: nat, u: nat)
    requires 0 < len < size && size % len != 0 && u <= size / len
    ensures var room := size - u * len; room != len && (room >= len <==> u < size / len) && 1 <= size / len
  {
    var d, r := size / len - u, size % len;
    Multiple(size / len, u, len);
    assert size - u * len == d * len + r;
    if d > 0 { Multiple(d, 1, len); }
  }

  lemma Multiple(a: nat, b: nat, len: nat)
    requires b <= a
    ensures (a - b) * len == a * len - b * len && (a - b) * len >= 0
  {}

  /** One more such message: it is accepted, and a full buffer is pushed. */
  lemma FillStep(s: Log, msg: string, u: nat) returns (w: nat)
    requires Filling(s, msg, u)
    ensures var n, c := AppendStep(s, msg), PerBuffer(s.size, msg);
      && Filling(n, msg, w) && n.size == s.size && n.batch == s.batch && n.accepted == s.accepted + msg
      && |n.ptrs| * c + w == |s.ptrs| * c + u + 1
  {
    RoomFor(s.size, |msg|, u);
    AppendStocked(s, msg);
    var c := PerBuffer(s.size, msg);
    w := if u < c then u + 1 else 1;
    assert (u + 1) * |msg| == u * |msg| + |msg|;
    assert (|s.ptrs| + 1) * c == |s.ptrs| * c + c;
  }

  lemma {:induction false} FillSteps(v: Copy, s: Log, msg: string, u: nat, k: nat) returns (n: Log, w: nat)
    requires Filling(s, msg, u)
    ensures Reaches(v, s, seq(k, _ => Append(msg)), n) && Filling(n, msg, w)
    ensures n.size == s.size && n.batch == s.batch && |n.accepted| == |s.accepted| + k * |msg|
    ensures var c := PerBuffer(s.size, msg); |n.ptrs| * c + w == |s.ptrs| * c + u + k
    decreases k
  {
    var trace := seq(k, _ => Append(msg));
    if k == 0 {
      n, w := s, u;
    } else {
      w := FillStep(s, msg, u);
      n, w := FillSteps(v, AppendStep(s, msg), msg, w, k - 1);
      assert trace == [Append(msg)] + seq(k - 1, _ => Append(msg));
      ReachesOne(v, s, Append(msg));
      ReachesOn(v, s, [Append(msg)], AppendStep(s, msg), seq(k - 1, _ => Append(msg)), n);
      Multiple(k, 1, |msg|);
    }
  }

  lemma ManyPushes(pushed: nat, c: nat, w: nat)
    requires w <= c && pushed * c + w == (OVERLOAD + 1) * c + 1
    ensures pushed > OVERLOAD
  {
    assert pushed * c > OVERLOAD * c;
  }

  /** The appends that fill 26 buffers and begin another. */
  function Burst(size: nat, msg: string): seq<Action>
    requires |msg| > 0
  {
    seq((OVERLOAD + 1) * PerBuffer(size, msg) + 1, _ => Append(msg))
  }

  /**
    The overload test as written can really fail: a quiet first round, then enough messages before the
    writer looks, every one of them accepted. Any length will do that does not divide the buffer size.
   */
  lemma OverloadFailureReachable(v: Copy, size: nat, msg: string)
    requires 0 < |msg| < size && size % |msg| != 0 && !v.Intended?
    ensures var trace := [Check, Swap] + Burst(size, msg);
      && Behaviour(v, Start(size), trace)
      && var s := Run(v, Start(size), trace);
      && |s.accepted| == |Burst(size, msg)| * |msg| && Enabled(s, Trim) && Step(v, s, Trim).failed
  {
    var s := FirstSwap(v, size);
    var n, w := FillSteps(v, s, msg, 0, |Burst(size, msg)|);
    ReachesOn(v, Start(size), [Check, Swap], s, Burst(size, msg), n);
    ManyPushes(|n.ptrs|, PerBuffer(size, msg), w);
  }

  /** The writer's first swap, with nothing logged. */
  function FirstSwap(v: Copy, size: nat): (s: Log)
    requires size > 0
    ensures s == Run(v, Start(size), [Check, Swap]) && Behaviour(v, Start(size), [Check, Swap])
    ensures Stocked(s) && s.phase.Swapped? && !s.failed && |s.batch| == 1 && s.ptrs == []
    ensures s.size == size && s.current == Some("") && s.accepted == ""
  {
    var s1 := Step(v, Start(size), Check);
    var s2 := Step(v, s1, Swap);
    assert Behaviour(v, s2, []) && Run(v, s2, []) == s2;
    assert [Check, Swap][1..] == [Swap] && [Swap][1..] == [];
    assert Behaviour(v, s1, [Swap]) && Run(v, s1, [Swap]) == s2;
    s2
  }
}
