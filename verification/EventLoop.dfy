/** The queue of EventLoop.cpp as an object; its methods are runs of the protocol in TaskQueue. */
module EventLoop {
  import opened TaskQueue

  /** What is queued while the functors `fs` run: by each of them, and then by other threads. */
  function Meanwhile(fs: seq<Task>, body: Task -> seq<Task>, others: nat -> seq<Task>): seq<Task>
    decreases |fs|
  {
    if fs == [] then []
    else Meanwhile(fs[..|fs| - 1], body, others) + body(fs[|fs| - 1]) + others(|fs| - 1)
  }

  /** What had been executed, and what was pending, when a batch was begun. */
  datatype Begun = Begun(executed: seq<Task>, pending: seq<Task>)

  lemma MeanwhileOn(fs: seq<Task>, i: nat, body: Task -> seq<Task>, others: nat -> seq<Task>, before: seq<Task>)
    requires i < |fs|
    ensures before + Meanwhile(fs[..i], body, others) + body(fs[i]) + others(i) == before + Meanwhile(fs[..i + 1], body, others)
  {
    assert fs[..i + 1][..i] == fs[..i] && fs[..i + 1][i] == fs[i];
  }

  class EventLoop {
    var pendingFunctors: seq<Task>
    var callingPendingFunctors: bool
    /** The eventfd: its counter, and whether epoll has it on the ready list. */
    var counter: nat
    var ready: bool
    /** The other threads that stand between their push and their wake-up. */
    var wakers: nat
    ghost var phase: Phase
    ghost var rest: seq<Task>
    ghost var selfWaking: bool
    ghost var queued: seq<Task>
    ghost var executed: seq<Task>
    ghost var mark: seq<Task>

    ghost function Abs(): LoopState
      reads this
    {
      LoopState(pendingFunctors, rest, callingPendingFunctors, phase, ready, counter, wakers, selfWaking, queued, executed, mark)
    }

    constructor ()
      ensures Abs() == INIT
    {
      pendingFunctors, callingPendingFunctors, counter, ready, wakers := [], false, 0, false, 0;
      phase, rest, selfWaking, queued, executed, mark := Waiting, [], false, [], [], [];
    }

    /** The write of 1 to the eventfd. */
    method WakeUp()
      modifies this`counter, this`ready
      ensures Abs() == Wake(old(Abs()))
    {
      counter := counter + 1;
      ready := true;
    }

    /** The locked section of `queueInLoop`. */
    method PushBack(cb: Task)
      modifies this`pendingFunctors, this`queued
      ensures Abs() == Push(old(Abs()), cb)
    {
      pendingFunctors := pendingFunctors + [cb];
      queued := queued + [cb];
    }

    /** A producer's `queueInLoop`, up to the point where its wake-up is still to come. */
    method ProducerPushes(cb: Task)
      modifies this`pendingFunctors, this`queued, this`wakers
      ensures Abs() == Step(old(Abs()), ProducerPush(cb))
    {
      PushBack(cb);
      wakers := wakers + 1;
    }

    method ProducerWakes()
      requires wakers > 0
      modifies this`counter, this`ready, this`wakers
      ensures Abs() == Step(old(Abs()), ProducerWake)
    {
      WakeUp();
      wakers := wakers - 1;
    }

    /** `epoll_wait` returns, with the wake-up event or (timeout, other channels) without it. */
    method PollReturns(woken: bool)
      requires Enabled(Abs(), PollReturn(woken))
      modifies this`ready, this`phase
      ensures Abs() == Step(old(Abs()), PollReturn(woken))
    {
      if woken { ready := false; }
      phase := Handling;
    }

    /** Whatever other threads do for a while: those of their steps that are possible. */
    method Producers(steps: seq<Action>) returns (ghost trace: seq<Action>)
      requires Inv(Abs()) && forall i | 0 <= i < |steps| :: FromOutside(steps[i])
      modifies this`pendingFunctors, this`queued, this`wakers, this`counter, this`ready
      ensures Leads(old(Abs()), trace, Abs()) && trace == Possible(old(wakers), steps)
    {
      ghost var s := Abs();
      LeadsStart(s);
      trace := [];
      for i := 0 to |steps|
        invariant Leads(s, trace, Abs())
        invariant trace + Possible(wakers, steps[i..]) == Possible(old(wakers), steps)
      {
        ghost var mid, w := Abs(), wakers;
        ghost var more := Produce(steps[i]);
        LeadsOn(s, trace, mid, more, Abs());
        PossibleOn(w, steps, i, trace);
        trace := trace + more;
      }
    }

    /** One such step, when it is possible. */
    method Produce(step: Action) returns (ghost trace: seq<Action>)
      requires Inv(Abs()) && FromOutside(step)
      modifies this`pendingFunctors, this`queued, this`wakers, this`counter, this`ready
      ensures Leads(old(Abs()), trace, Abs())
      ensures trace == (if step.ProducerPush? || old(wakers) > 0 then [step] else [])
      ensures wakers == if step.ProducerPush? then old(wakers) + 1 else if old(wakers) > 0 then old(wakers) - 1 else 0
    {
      LeadsStart(Abs());
      trace := [];
      if step.ProducerPush? || wakers > 0 {
        LeadsStep(Abs(), [], Abs(), step);
        trace := [] + [step];
        if step.ProducerPush? { ProducerPushes(step.task); } else { ProducerWakes(); }
      }
    }

    /** The expiry phase is over; the loop goes back to `poll`. */
    method ExpiryEnds()
      requires phase == Expiring
      modifies this`phase
      ensures Abs() == Step(old(Abs()), ExpiryDone)
    {
      phase := Waiting;
    }

    /** `EventLoop::handleRead`: the eventfd is emptied. */
    method HandleRead()
      requires phase == Handling
      modifies this`counter
      ensures Abs() == Step(old(Abs()), Drain)
    {
      counter := 0;
    }

    /** `EventLoop::handleConn`: EPOLL_CTL_MOD looks at the descriptor again. */
    method HandleConn()
      requires phase == Handling
      modifies this`ready
      ensures Abs() == Step(old(Abs()), Rearm)
    {
      if counter > 0 { ready := true; }
    }

    /** `queueInLoop` on the loop thread: it wakes itself only while it runs functors. */
    method QueueInLoop(cb: Task) returns (ghost trace: seq<Action>)
      requires Enabled(Abs(), LoopPush(cb)) && Inv(Abs())
      modifies this`pendingFunctors, this`queued, this`selfWaking, this`counter, this`ready
      ensures Leads(old(Abs()), trace, Abs()) && !selfWaking
      ensures pendingFunctors == old(pendingFunctors) + [cb]
      ensures callingPendingFunctors ==> ready
    {
      ghost var s := Abs();
      LeadsStart(s);
      LeadsStep(s, [], s, LoopPush(cb));
      trace := [] + [LoopPush(cb)];
      PushBack(cb);
      selfWaking := callingPendingFunctors;
      if callingPendingFunctors {
        LeadsStep(s, trace, Abs(), LoopWake);
        trace := trace + [LoopWake];
        WakeUp();
        selfWaking := false;
      }
    }

    /**
      `doPendingFunctors`: functor `f` queues `body(f)`, and while the i-th one runs other threads
      queue `others(i)`. Exactly the functors pending at the swap are run, in order; all that is
      queued meanwhile stays for the next time, and that next time is announced.
     */
    method DoPendingFunctors(body: Task -> seq<Task>, others: nat -> seq<Task>) returns (ghost trace: seq<Action>)
      requires Inv(Abs()) && phase == Handling
      modifies this
      ensures Leads(old(Abs()), trace, Abs())
      ensures phase == Expiring && executed == old(executed) + old(pendingFunctors)
      ensures pendingFunctors == Meanwhile(old(pendingFunctors), body, others)
      ensures pendingFunctors != [] ==> WakeComing(Abs())
    {
      ghost var s := Abs();
      var functors := SwapOut();
      trace := [] + [Swap];
      ghost var mid := Abs();
      ghost var more := RunBatch(functors, body, others);
      LeadsOn(s, trace, mid, more, Abs());
      trace := trace + more;
      LeadsStep(s, trace, Abs(), EndRun);
      trace := trace + [EndRun];
      callingPendingFunctors := false;
      phase := Expiring;
    }

    /** The local batch, front to back. */
    method RunBatch(functors: seq<Task>, body: Task -> seq<Task>, others: nat -> seq<Task>) returns (ghost trace: seq<Action>)
      requires Inv(Abs()) && phase == Running && !selfWaking && rest == functors
      modifies this`pendingFunctors, this`queued, this`selfWaking, this`counter, this`ready, this`wakers, this`executed, this`rest
      ensures Leads(old(Abs()), trace, Abs()) && !selfWaking
      ensures rest == [] && executed == old(executed) + functors
      ensures pendingFunctors == old(pendingFunctors) + Meanwhile(functors, body, others)
    {
      ghost var s, before := Abs(), Begun(executed, pendingFunctors);
      LeadsStart(s);
      trace := [];
      assert before.pending + [] == before.pending && before.executed + [] == before.executed;
      for i := 0 to |functors|
        invariant InBatch(functors, i, body, others, s, before, trace)
      {
        trace := RunNext(functors, i, body, others, s, before, trace);
      }
      assert functors[..|functors|] == functors;
    }

    /** Before the i-th functor. */
    ghost predicate InBatch(functors: seq<Task>, i: nat, body: Task -> seq<Task>, others: nat -> seq<Task>, s: LoopState, before: Begun, trace: seq<Action>)
      reads this
    {
      && i <= |functors| && Leads(s, trace, Abs()) && !selfWaking && phase == Running
      && rest == functors[i..] && executed == before.executed + functors[..i]
      && pendingFunctors == before.pending + Meanwhile(functors[..i], body, others)
    }

    method RunNext(functors: seq<Task>, i: nat, body: Task -> seq<Task>, others: nat -> seq<Task>, ghost s: LoopState, ghost before: Begun, ghost done: seq<Action>)
      returns (ghost trace: seq<Action>)
      requires InBatch(functors, i, body, others, s, before, done) && i < |functors|
      modifies this`pendingFunctors, this`queued, this`selfWaking, this`counter, this`ready, this`wakers, this`executed, this`rest
      ensures InBatch(functors, i + 1, body, others, s, before, trace)
    {
      ghost var mid := Abs();
      MeanwhileOn(functors, i, body, others, before.pending);
      ghost var more := RunOne(functors[i], body, others(i));
      LeadsOn(s, done, mid, more, Abs());
      trace := done + more;
      assert functors[..i + 1] == functors[..i] + [functors[i]];
    }

    /** The locked swap; from here on the loop thread wakes itself for what it queues. */
    method SwapOut() returns (functors: seq<Task>)
      requires Inv(Abs()) && phase == Handling
      modifies this`pendingFunctors, this`callingPendingFunctors, this`phase, this`rest, this`mark
      ensures functors == old(pendingFunctors) == rest && pendingFunctors == [] && phase == Running && !selfWaking
      ensures Leads(old(Abs()), [] + [Swap], Abs()) && Abs() == Step(old(Abs()), Swap)
    {
      LeadsStart(Abs());
      LeadsStep(Abs(), [], Abs(), Swap);
      callingPendingFunctors := true;
      functors := pendingFunctors;
      pendingFunctors := [];
      phase, rest, mark := Running, functors, queued;
    }

    /** One functor, with what it and the other threads queue while it runs. */
    method RunOne(f: Task, body: Task -> seq<Task>, others: seq<Task>) returns (ghost trace: seq<Action>)
      requires Inv(Abs()) && phase == Running && !selfWaking && rest != [] && rest[0] == f
      modifies this`pendingFunctors, this`queued, this`selfWaking, this`counter, this`ready, this`wakers, this`executed, this`rest
      ensures Leads(old(Abs()), trace, Abs()) && !selfWaking
      ensures executed == old(executed) + [f] && rest == old(rest)[1..]
      ensures pendingFunctors == old(pendingFunctors) + body(f) + others
    {
      ghost var s := Abs();
      LeadsStart(s);
      LeadsStep(s, [], s, Execute);
      trace := [] + [Execute];
      executed, rest := executed + [f], rest[1..];
      ghost var mid := Abs();
      ghost var more := QueueAll(body(f));
      LeadsOn(s, trace, mid, more, Abs());
      trace := trace + more;
      mid := Abs();
      more := OthersQueue(others);
      LeadsOn(s, trace, mid, more, Abs());
      trace := trace + more;
    }

    method QueueAll(own: seq<Task>) returns (ghost trace: seq<Action>)
      requires Inv(Abs()) && phase == Running && !selfWaking
      modifies this`pendingFunctors, this`queued, this`selfWaking, this`counter, this`ready
      ensures Leads(old(Abs()), trace, Abs()) && !selfWaking
      ensures pendingFunctors == old(pendingFunctors) + own
    {
      ghost var s := Abs();
      LeadsStart(s);
      trace := [];
      for i := 0 to |own|
        invariant Leads(s, trace, Abs()) && !selfWaking
        invariant pendingFunctors == old(pendingFunctors) + own[..i]
      {
        ghost var mid := Abs();
        ghost var more := QueueInLoop(own[i]);
        LeadsOn(s, trace, mid, more, Abs());
        trace := trace + more;
        assert own[..i + 1] == own[..i] + [own[i]];
      }
    }

    method OthersQueue(others: seq<Task>) returns (ghost trace: seq<Action>)
      requires Inv(Abs())
      modifies this`pendingFunctors, this`queued, this`wakers
      ensures Leads(old(Abs()), trace, Abs())
      ensures pendingFunctors == old(pendingFunctors) + others
    {
      ghost var s := Abs();
      LeadsStart(s);
      trace := [];
      for i := 0 to |others|
        invariant Leads(s, trace, Abs())
        invariant pendingFunctors == old(pendingFunctors) + others[..i]
      {
        LeadsStep(s, trace, Abs(), ProducerPush(others[i]));
        trace := trace + [ProducerPush(others[i])];
        ProducerPushes(others[i]);
        assert others[..i + 1] == others[..i] + [others[i]];
      }
    }
  }
}
