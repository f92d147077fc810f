/**
  The task queue and wake-up protocol of EventLoop.*: many producers, one loop thread, an
  edge-triggered eventfd. A producer's push and its wake-up are separate steps.
 */
module TaskQueue {

  type Task = nat

  datatype Phase = Waiting | Handling | Running | Expiring

  /**
    `ready`: the eventfd is on epoll's ready list. `wakers`: producers that have pushed and not yet
    woken; `selfWaking` the same for the loop thread. `queued`, `executed` and `mark` (what had been
    queued at the last swap) are histories.
   */
  datatype LoopState = LoopState(
    pending: seq<Task>, batch: seq<Task>, calling: bool, phase: Phase,
    ready: bool, counter: nat, wakers: nat, selfWaking: bool,
    queued: seq<Task>, executed: seq<Task>, mark: seq<Task>)

  const INIT := LoopState([], [], false, Waiting, false, 0, 0, false, [], [], [])

  datatype Action =
    | ProducerPush(task: Task)
    | ProducerWake
    | LoopPush(task: Task)
    | LoopWake
    | PollReturn(woken: bool)
    | Drain
    | Rearm
    | Swap
    | Execute
    | EndRun
    | ExpiryDone

  predicate FromOutside(a: Action) { a.ProducerPush? || a.ProducerWake? }

  /**
    The loop thread queues from event handlers and from functors only; while it is between push and
    wake it does nothing else. `poll` may return at any time, with the wake-up event only when ready.
   */
  predicate Enabled(s: LoopState, a: Action) {
    match a
    case ProducerPush(_) => true
    case ProducerWake => s.wakers > 0
    case LoopPush(_) => !s.selfWaking && (s.phase.Handling? || s.phase.Running?)
    case LoopWake => s.selfWaking
    case PollReturn(woken) => s.phase.Waiting? && (woken ==> s.ready)
    case Drain => s.phase.Handling?
    case Rearm => s.phase.Handling?
    case Swap => s.phase.Handling?
    case Execute => s.phase.Running? && !s.selfWaking && s.batch != []
    case EndRun => s.phase.Running? && !s.selfWaking && s.batch == []
    case ExpiryDone => s.phase.Expiring?
  }

  function Push(s: LoopState, t: Task): LoopState { s.(pending := s.pending + [t], queued := s.queued + [t]) }

  function Wake(s: LoopState): LoopState { s.(counter := s.counter + 1, ready := true) }

  function Step(s: LoopState, a: Action): LoopState
    requires Enabled(s, a)
  {
    match a
    case ProducerPush(t) => Push(s, t).(wakers := s.wakers + 1)
    case ProducerWake => Wake(s).(wakers := s.wakers - 1)
    case LoopPush(t) => Push(s, t).(selfWaking := s.calling)
    case LoopWake => Wake(s).(selfWaking := false)
    case PollReturn(woken) => s.(phase := Handling, ready := s.ready && !woken)
    case Drain => s.(counter := 0)
    case Rearm => s.(ready := s.ready || s.counter > 0)
    case Swap => s.(phase := Running, calling := true, batch := s.pending, pending := [], mark := s.queued)
    case Execute => s.(executed := s.executed + [s.batch[0]], batch := s.batch[1..])
    case EndRun => s.(phase := Expiring, calling := false)
    case ExpiryDone => s.(phase := Waiting)
  }

  predicate Behaviour(s: LoopState, trace: seq<Action>)
    decreases |trace|
  {
    trace == [] || (Enabled(s, trace[0]) && Behaviour(Step(s, trace[0]), trace[1..]))
  }

  function Run(s: LoopState, trace: seq<Action>): LoopState
    requires Behaviour(s, trace)
    decreases |trace|
  {
    if trace == [] then s else Run(Step(s, trace[0]), trace[1..])
  }

  lemma {:induction false} RunAppend(s: LoopState, a: seq<Action>, b: seq<Action>)
    requires Behaviour(s, a) && Behaviour(Run(s, a), b)
    ensures Behaviour(s, a + b) && Run(s, a + b) == Run(Run(s, a), b)
    decreases |a|
  {
    if a == [] {
      assert a + b == b;
    } else {
      assert (a + b)[0] == a[0] && (a + b)[1..] == a[1..] + b;
      RunAppend(Step(s, a[0]), a[1..], b);
    }
  }

  lemma RunSnoc(s: LoopState, trace: seq<Action>, a: Action)
    requires Behaviour(s, trace) && Enabled(Run(s, trace), a)
    ensures Behaviour(s, trace + [a]) && Run(s, trace + [a]) == Step(Run(s, trace), a)
  {
    var n := Step(Run(s, trace), a);
    assert Behaviour(n, []) && [a][1..] == [] && Run(n, []) == n;
    assert Behaviour(Run(s, trace), [a]) && Run(Run(s, trace), [a]) == n;
    RunAppend(s, trace, [a]);
  }

  /** Those of the steps that other threads can take, `wakers` of which stand between push and wake-up. */
  function Possible(wakers: nat, steps: seq<Action>): seq<Action>
    decreases |steps|
  {
    if steps == [] then []
    else if steps[0].ProducerPush? then [steps[0]] + Possible(wakers + 1, steps[1..])
    else if wakers > 0 then [steps[0]] + Possible(wakers - 1, steps[1..])
    else Possible(wakers, steps[1..])
  }

  lemma PossibleOn(wakers: nat, steps: seq<Action>, i: nat, trace: seq<Action>)
    requires i < |steps|
    ensures var a := steps[i];
      trace + Possible(wakers, steps[i..]) ==
        (trace + if a.ProducerPush? || wakers > 0 then [a] else [])
        + Possible(if a.ProducerPush? then wakers + 1 else if wakers > 0 then wakers - 1 else 0, steps[i + 1..])
  {
    assert steps[i..][0] == steps[i] && steps[i..][1..] == steps[i + 1..];
  }

  /** Someone will still make the eventfd ready. */
  predicate WakeComing(s: LoopState) { s.ready || s.wakers > 0 || s.selfWaking }

  predicate Inv(s: LoopState) {
    && s.executed + s.batch + s.pending == s.queued
    && s.executed + s.batch == (if s.phase.Running? then s.mark else s.executed)
    && (s.calling <==> s.phase.Running?)
    && (s.selfWaking ==> s.phase.Running?)
    && (!s.phase.Handling? && s.pending != [] ==> WakeComing(s))
  }

  lemma StepKeeps(s: LoopState, a: Action)
    requires Inv(s) && Enabled(s, a)
    ensures Inv(Step(s, a))
  {
    var n := Step(s, a);
    match a
    case ProducerPush(t) => assert s.executed + s.batch + (s.pending + [t]) == s.queued + [t];
    case LoopPush(t) => assert s.executed + s.batch + (s.pending + [t]) == s.queued + [t];
    case Swap =>
      assert s.batch == [];
      assert s.executed + s.pending + [] == s.executed + s.pending;
    case Execute =>
      assert s.executed + s.batch == s.executed + [s.batch[0]] + s.batch[1..];
    case _ =>
  }

  lemma {:induction false} RunKeeps(s: LoopState, trace: seq<Action>)
    requires Inv(s) && Behaviour(s, trace)
    ensures Inv(Run(s, trace))
    decreases |trace|
  {
    if trace != [] {
      StepKeeps(s, trace[0]);
      RunKeeps(Step(s, trace[0]), trace[1..]);
    }
  }

  /** In every run, a loop about to block on a non-empty queue will be woken. */
  lemma NoLostWakeUp(trace: seq<Action>)
    requires Behaviour(INIT, trace)
    ensures var s := Run(INIT, trace);
      s.phase.Waiting? && s.pending != [] ==> s.ready || s.wakers > 0
  {
    RunKeeps(INIT, trace);
  }

  /** In every run, every task is run once, in the order of the lock. */
  lemma ExactlyOnceInOrder(trace: seq<Action>)
    requires Behaviour(INIT, trace)
    ensures var s := Run(INIT, trace);
      && s.executed + s.batch + s.pending == s.queued
      && (!s.phase.Running? ==> s.executed + s.pending == s.queued)
  {
    RunKeeps(INIT, trace);
    var s := Run(INIT, trace);
    if !s.phase.Running? { assert s.batch == [] by { assert |s.executed + s.batch| == |s.executed|; } }
  }

  /** The tasks of one `doPendingFunctors` are those queued before its swap, whatever is queued meanwhile. */
  lemma {:induction false} RunsOnlyItsSnapshot(s: LoopState, trace: seq<Action>)
    requires Inv(s) && s.phase.Running? && Behaviour(s, trace)
    requires forall i | 0 <= i < |trace| :: !trace[i].EndRun?
    ensures var n := Run(s, trace);
      && n.phase.Running? && n.executed <= s.mark && n.executed + n.batch == s.mark
      && (Enabled(n, EndRun) ==> n.executed == s.mark)
    decreases |trace|
  {
    if trace != [] {
      StepKeeps(s, trace[0]);
      assert Step(s, trace[0]).mark == s.mark;
      RunsOnlyItsSnapshot(Step(s, trace[0]), trace[1..]);
    }
  }

  /**
    Why the expiry phase must queue nothing: there the loop thread would push without a wake-up, and
    block on a task nobody announces.
   */
  lemma ExpiryMustNotQueue(t: Task)
    ensures var trace := [PollReturn(false), Swap, EndRun];
      && Behaviour(INIT, trace)
      && var s := Run(INIT, trace);
      && s.phase.Expiring? && !s.calling
      && var bad := Step(Push(s, t), ExpiryDone);
      bad.phase.Waiting? && bad.pending == [t] && !WakeComing(bad)
  {
    var s1 := Step(INIT, PollReturn(false));
    var s2 := Step(s1, Swap);
    var s3 := Step(s2, EndRun);
    assert Behaviour(s3, []);
    assert Behaviour(s2, [EndRun]);
    assert [Swap, EndRun][1..] == [EndRun];
    assert Behaviour(s1, [Swap, EndRun]);
    assert [PollReturn(false), Swap, EndRun][1..] == [Swap, EndRun];
    assert Run(s3, []) == s3 && Run(s2, [EndRun]) == s3 && Run(s1, [Swap, EndRun]) == s3;
  }

  /** `n` is reached from `s` by `trace`. */
  predicate Leads(s: LoopState, trace: seq<Action>, n: LoopState) {
    Behaviour(s, trace) && Run(s, trace) == n && Inv(n)
  }

  lemma LeadsStart(s: LoopState)
    requires Inv(s)
    ensures Leads(s, [], s)
  {}

  lemma LeadsStep(s: LoopState, trace: seq<Action>, n: LoopState, a: Action)
    requires Leads(s, trace, n) && Enabled(n, a)
    ensures Leads(s, trace + [a], Step(n, a))
  {
    RunSnoc(s, trace, a);
    StepKeeps(n, a);
  }

  lemma LeadsOn(s: LoopState, trace: seq<Action>, n: LoopState, more: seq<Action>, m: LoopState)
    requires Leads(s, trace, n) && Leads(n, more, m)
    ensures Leads(s, trace + more, m)
  {
    RunAppend(s, trace, more);
  }

  /** A wake-up that is answered is used up: the counter is empty and the eventfd ready only if it was already. */
  lemma AnsweredOnce(s: LoopState)
    requires Inv(s) && s.phase.Handling?
    ensures Leads(s, [Drain, Rearm], s.(counter := 0))
  {
    LeadsStart(s);
    LeadsStep(s, [], s, Drain);
    LeadsStep(s, [] + [Drain], s.(counter := 0), Rearm);
    assert [] + [Drain] + [Rearm] == [Drain, Rearm];
  }
}
