/**
  `EventLoop::loop`: the poller, the wake-up channel, the task queue with the hand-over of new
  connections, and expiry, on the two objects they belong to.
 */
module ServerLoop {
  import opened Wrappers
  import opened HttpParser
  import opened HttpResponse
  import opened Connection
  import opened Lifecycle
  import opened HttpServer
  import opened Poller
  import opened EventLoop
  import opened TaskQueue

  /** A socket accepted by the main thread; the task that stands for it runs `newEvent` at clock reading `at`. */
  datatype Arrival = Arrival(fd: int, verb: HttpMethod, at: nat)

  /**
    What the world does during one iteration: events, the steps of other threads before `poll` and
    before the tasks are taken, what is queued while they run, and the clock.
   */
  datatype Iteration = Iteration(
    events: seq<Event>,
    beforePoll: seq<TaskQueue.Action>, beforeTasks: seq<TaskQueue.Action>,
    body: Task -> seq<Task>, others: nat -> seq<Task>,
    clock: nat -> nat)
  {
    predicate Wellformed() {
      && (forall i | 0 <= i < |beforePoll| :: FromOutside(beforePoll[i]))
      && (forall i | 0 <= i < |beforeTasks| :: FromOutside(beforeTasks[i]))
    }

    /** What a connection notices of it, with so many looks at the clock and so many closed. */
    function Seen(looks: nat, swept: set<int>): Tick { Tick(events, clock, looks, swept) }

    ghost predicate SeenAs(t: Tick) { t == Seen(t.looks, t.swept) }
  }

  predicate Distinct(es: seq<Event>) { forall i, j | 0 <= i < j < |es| :: es[i].fd != es[j].fd }

  function Fds(es: seq<Event>): set<int> { set e | e in es :: e.fd }

  /** Offered, registered, with a tested bit, and each descriptor once. */
  ghost predicate Reports(fds: set<int>, offered: seq<Event>, ready: seq<Event>) {
    && (forall i | 0 <= i < |ready| :: ready[i] in offered && ready[i].fd in fds && Tested(ready[i].revents))
    && Distinct(ready)
  }

  /** `ready` is what `es` says of the descriptors `listened`, each with the first of its events. */
  ghost predicate Collected(listened: set<int>, es: seq<Event>, ready: seq<Event>, seen: set<int>) {
    && Reports(listened, es, ready)
    && (forall fd :: First(fd, ready) == (if fd in listened then First(fd, es) else None) && (fd in seen <==> First(fd, ready).Some?))
  }

  lemma CollectedOn(listened: set<int>, es: seq<Event>, e: Event, ready: seq<Event>, seen: set<int>)
    requires Collected(listened, es, ready, seen)
    ensures if e.fd in listened && e.fd !in seen && Tested(e.revents) then Collected(listened, es + [e], ready + [e], seen + {e.fd})
      else Collected(listened, es + [e], ready, seen)
  {
    assert forall i | 0 <= i < |ready| :: ready[i] in es + [e];
    forall fd ensures First(fd, es + [e]) == if First(fd, es).Some? then First(fd, es) else if e.fd == fd && Tested(e.revents) then Some(e) else None
      ensures First(fd, ready + [e]) == if First(fd, ready).Some? then First(fd, ready) else if e.fd == fd && Tested(e.revents) then Some(e) else None
    {
      FirstSnoc(fd, es, e);
      FirstSnoc(fd, ready, e);
    }
    if e.fd in listened && e.fd !in seen && Tested(e.revents) {
      forall i | 0 <= i < |ready| ensures ready[i].fd != e.fd { if ready[i].fd == e.fd { FirstSome(e.fd, ready, i); } }
    }
  }

  lemma {:induction false} FirstSome(fd: int, es: seq<Event>, i: nat)
    requires i < |es| && es[i].fd == fd && Tested(es[i].revents)
    ensures First(fd, es).Some?
  {
    if i > 0 { FirstSome(fd, es[1..], i - 1); }
  }

  lemma {:induction false} FirstNone(fd: int, es: seq<Event>)
    requires forall i | 0 <= i < |es| :: es[i].fd != fd
    ensures First(fd, es) == None
  {
    if es != [] { FirstNone(fd, es[1..]); }
  }

  lemma ReportedOnce(fd: int, ready: seq<Event>)
    requires forall i | 0 <= i < |ready| :: Tested(ready[i].revents)
    ensures fd in Fds(ready) <==> First(fd, ready).Some?
  {
    if fd in Fds(ready) {
      var i :| 0 <= i < |ready| && ready[i].fd == fd;
      FirstSome(fd, ready, i);
    } else {
      forall i | 0 <= i < |ready| ensures ready[i].fd != fd { assert ready[i] in ready; }
      FirstNone(fd, ready);
    }
  }

  /** The descriptors the kernel may report; the wake-up descriptor only when it is ready. */
  function Listened(p: EPollPoller, wakeFd: int, awake: bool): set<int>
    reads p
  {
    if awake then p.interest.Keys else p.interest.Keys - {wakeFd}
  }

  /**
    `epoll_wait` and `poll`. The kernel reports registered descriptors only, each once and with some
    bit that `handleEvents` tests. As written the body behind `while (false)` never runs: what the
    kernel reported is not handed on.
   */
  method Poll(p: EPollPoller, wakeFd: int, awake: bool, offered: seq<Event>) returns (ready: seq<Event>, woken: bool)
    requires p.Valid()
    ensures Reports(p.channels.Keys, offered, ready)
    ensures forall fd :: First(fd, ready) == if fd in Listened(p, wakeFd, awake) then Reported(p.polling, fd, offered) else None
    ensures woken <==> wakeFd in Listened(p, wakeFd, awake) && First(wakeFd, offered).Some?
  {
    ready := [];
    var seen: set<int> := {};
    var listened := Listened(p, wakeFd, awake);
    for k := 0 to |offered|
      invariant Collected(listened, offered[..k], ready, seen)
    {
      var e := offered[k];
      CollectedOn(listened, offered[..k], e, ready, seen);
      assert offered[..k + 1] == offered[..k] + [e];
      if e.fd in listened && e.fd !in seen && Tested(e.revents) {
        ready := ready + [e];
        seen := seen + {e.fd};
      }
    }
    assert offered[..|offered|] == offered;
    woken := wakeFd in seen;
    if p.polling.AsWritten? { ready := []; }
  }

  /** `fillActiveChannels`: every reported descriptor has its entry. */
  method FillActiveChannels(p: EPollPoller, ready: seq<Event>) returns (active: seq<HttpData?>)
    requires forall i | 0 <= i < |ready| :: ready[i].fd in p.channels
    ensures |active| == |ready| && forall i | 0 <= i < |ready| :: active[i] == p.channels[ready[i].fd]
  {
    active := [];
    for k := 0 to |ready|
      invariant |active| == k && forall i | 0 <= i < k :: active[i] == p.channels[ready[i].fd]
    {
      active := active + [p.channels[ready[k].fd]];
    }
  }

  /** The poller's invariant, and that no connection is deaf or was sent anything but its answers and error pages. */
  ghost predicate Healthy(p: EPollPoller)
    reads p, p.queue, p.created
  {
    p.Valid() && p.Sound()
  }

  /** Only connections among `fds` have lost their entries; no other entry has changed. */
  ghost predicate Kept(before: map<int, HttpData?>, after: map<int, HttpData?>, fds: set<int>) {
    && (forall fd | fd in after :: fd in before && after[fd] == before[fd])
    && (forall fd | fd in before && fd !in after :: before[fd] != null && fd in fds)
  }

  lemma KeptOn(a: map<int, HttpData?>, b: map<int, HttpData?>, c: map<int, HttpData?>, fds: set<int>, fd: int)
    requires Kept(a, b, fds) && Kept(b, c, {fd}) && fd in fds
    ensures Kept(a, c, fds)
  {}

  /** The reported channels from the k-th on still have the entries they were reported with. */
  ghost predicate Active(channels: map<int, HttpData?>, ready: seq<Event>, active: seq<HttpData?>, k: nat) {
    |active| == |ready| && forall i | k <= i < |ready| :: ready[i].fd in channels && channels[ready[i].fd] == active[i]
  }

  lemma ActiveOn(b: map<int, HttpData?>, c: map<int, HttpData?>, ready: seq<Event>, active: seq<HttpData?>, k: nat)
    requires k < |ready| && Distinct(ready) && Active(b, ready, active, k) && Kept(b, c, {ready[k].fd})
    ensures Active(c, ready, active, k + 1)
  {}

  /** What a dispatch works on: the events reported, and the entries they were reported with. */
  datatype Batch = Batch(wakeFd: int, ready: seq<Event>, active: seq<HttpData?>)

  /** A poller at one moment: entries, interest set, connections. */
  datatype Tables = Tables(channels: map<int, HttpData?>, interest: map<int, Mask>, clients: map<HttpData, Client>)

  /** The open connections are those that have an entry. */
  ghost predicate Coherent(t: Tables) {
    && (forall fd | fd in t.channels && t.channels[fd] != null ::
          t.channels[fd] in t.clients && t.channels[fd].fd == fd && t.clients[t.channels[fd]].open)
    && (forall h | h in t.clients && t.clients[h].open :: h.fd in t.channels && t.channels[h.fd] == h)
  }

  ghost function Snap(p: EPollPoller): Tables
    requires p.Valid()
    reads p, p.queue, p.created
  {
    Tables(p.channels, p.interest, p.All())
  }

  lemma SnapCoherent(p: EPollPoller)
    requires p.Valid()
    ensures Coherent(Snap(p))
  {}

  /** What a batch does to the task queue: a reported wake-up is drained and listened for again. */
  function Answers(wakeFd: int, es: seq<Event>): seq<TaskQueue.Action> { if wakeFd in Fds(es) then [Drain, Rearm] else [] }

  /** Each connection has gone through one dispatch with what `es` says of its descriptor. */
  ghost predicate AllDispatched(v: Variant, files: Files, clients: map<HttpData, Client>, after: map<HttpData, Client>, es: seq<Event>) {
    && after.Keys == clients.Keys
    && forall h | h in clients :: clients[h].Fit() && after[h] == Dispatched(v, files, clients[h], First(h.fd, es))
  }

  lemma FirstOn(fd: int, es: seq<Event>, e: Event)
    requires Distinct(es + [e]) && Tested(e.revents)
    ensures First(fd, es + [e]) == if e.fd == fd then Some(e) else First(fd, es)
    ensures e.fd == fd ==> First(fd, es) == None
  {
    FirstSnoc(fd, es, e);
    assert (es + [e])[|es|] == e && forall i | 0 <= i < |es| :: (es + [e])[i] == es[i];
    if e.fd == fd { FirstNone(fd, es); }
  }

  /** One more event: for the connection `h` that owns its descriptor, or for none. */
  lemma AllDispatchedOn(v: Variant, files: Files, clients: map<HttpData, Client>, before: map<HttpData, Client>, after: map<HttpData, Client>,
    es: seq<Event>, e: Event, h: HttpData?)
    requires AllDispatched(v, files, clients, before, es) && Distinct(es + [e]) && Tested(e.revents)
    requires Carried(v, files, before, after, h, e) && Owned(before, h, e.fd)
    ensures AllDispatched(v, files, clients, after, es + [e])
  {
    forall g | g in clients ensures after[g] == Dispatched(v, files, clients[g], First(g.fd, es + [e])) {
      FirstOn(g.fd, es, e);
    }
  }

  /** One event has been carried to the connection that owns its descriptor, if one does. */
  ghost predicate Carried(v: Variant, files: Files, before: map<HttpData, Client>, after: map<HttpData, Client>, h: HttpData?, e: Event) {
    if h == null then after == before
    else h in before && before[h].Fit() && after == before[h := Dispatched(v, files, before[h], Some(e))]
  }

  /** All entries but the one for `fd` are registered as before. */
  ghost predicate StillListen(before: map<int, Mask>, channels: map<int, HttpData?>, after: map<int, Mask>, fd: int) {
    forall i | i != fd && i in channels :: i in before && i in after && after[i] == before[i]
  }

  /** One dispatch has led from `mid` to `after`. */
  ghost predicate Moved(v: Variant, files: Files, mid: Tables, after: Tables, h: HttpData?, e: Event) {
    && Kept(mid.channels, after.channels, {e.fd}) && Carried(v, files, mid.clients, after.clients, h, e)
    && StillListen(mid.interest, after.channels, after.interest, e.fd)
    && (h == null ==> e.fd in after.interest && after.interest[e.fd] == {EPOLLIN, EPOLLET})
  }

  /** One active channel. The wake-up channel empties its eventfd; one without HttpData registers again. */
  method Dispatch(p: EPollPoller, l: EventLoop, wakeFd: int, h: HttpData?, e: Event, ghost s: LoopState, ghost before: seq<TaskQueue.Action>)
    returns (ghost trace: seq<TaskQueue.Action>)
    requires Healthy(p) && Wakeable(p, wakeFd) && e.fd in p.channels && p.channels[e.fd] == h && Tested(e.revents)
    requires Leads(s, before, l.Abs()) && l.phase == Handling
    modifies p`queue, p`channels, p`httpdatas, p`interest, p.queue, p.created, l`counter, l`ready
    ensures fresh(p.queue - old(p.queue)) && Healthy(p) && Moved(p.variant, p.files, old(Snap(p)), Snap(p), h, e)
    ensures Leads(s, trace, l.Abs()) && trace == before + if e.fd == wakeFd then [Drain, Rearm] else []
  {
    trace := before;
    if e.fd == wakeFd { trace := AnswerWakeUp(l, s, before); }
    p.Undisturbed();
    HandleChannel(p, h, e);
  }

  method HandleChannel(p: EPollPoller, h: HttpData?, e: Event)
    requires Healthy(p) && e.fd in p.channels && p.channels[e.fd] == h && Tested(e.revents)
    modifies p`queue, p`channels, p`httpdatas, p`interest, p.queue, p.created
    ensures fresh(p.queue - old(p.queue)) && Healthy(p) && Moved(p.variant, p.files, old(Snap(p)), Snap(p), h, e)
  {
    if h == null {
      DispatchPlain(p, e);
    } else {
      EntriesOwn(p, e.fd);
      DispatchConnection(p, h, e);
    }
  }

  method DispatchPlain(p: EPollPoller, e: Event)
    requires Healthy(p) && e.fd in p.channels && p.channels[e.fd] == null
    modifies p`interest
    ensures Healthy(p) && Moved(p.variant, p.files, old(Snap(p)), Snap(p), null, e)
  {
    p.UpdatePlainChannel(e.fd, {EPOLLIN, EPOLLET});
  }

  method DispatchConnection(p: EPollPoller, h: HttpData, e: Event)
    requires Healthy(p) && h in p.created && p.Registered(h) && h.fd == e.fd && Tested(e.revents)
    modifies p`queue, p`channels, p`httpdatas, p`interest, p.queue, p.created
    ensures fresh(p.queue - old(p.queue)) && Healthy(p) && Moved(p.variant, p.files, old(Snap(p)), Snap(p), h, e)
  {
    assert p.Timed(h);
    p.HandleSoundly(h, e.revents, e.env, e.at);
  }

  /** `EventLoop::handleRead` and `handleConn`. */
  method AnswerWakeUp(l: EventLoop, ghost s: LoopState, ghost before: seq<TaskQueue.Action>) returns (ghost trace: seq<TaskQueue.Action>)
    requires Leads(s, before, l.Abs()) && l.phase == Handling
    modifies l`counter, l`ready
    ensures Leads(s, trace, l.Abs()) && trace == before + [Drain, Rearm]
  {
    LeadsStep(s, before, l.Abs(), Drain);
    l.HandleRead();
    LeadsStep(s, before + [Drain], l.Abs(), Rearm);
    l.HandleConn();
    trace := before + [Drain] + [Rearm];
    assert trace == before + [Drain, Rearm];
  }

  /** The first `k` events have been dispatched since `was`; the entries of the others are as reported. */
  ghost predicate Handled(v: Variant, files: Files, was: Tables, mid: Tables, b: Batch, k: nat) {
    && k <= |b.ready| && Active(mid.channels, b.ready, b.active, k) && Kept(was.channels, mid.channels, Fds(b.ready))
    && AllDispatched(v, files, was.clients, mid.clients, b.ready[..k]) && PlainListen(mid.channels, mid.interest, b, k)
  }

  /** The state before the k-th dispatch. */
  ghost predicate Dispatching(p: EPollPoller, l: EventLoop, b: Batch, k: nat, was: Tables, s: LoopState, trace: seq<TaskQueue.Action>)
    reads p, p.queue, p.created, l
  {
    && Healthy(p) && Wakeable(p, b.wakeFd) && Handled(p.variant, p.files, was, Snap(p), b, k)
    && Leads(s, trace, l.Abs()) && l.phase == Handling
  }

  /** The dispatched channels without HttpData are registered for input again. */
  ghost predicate PlainListen(channels: map<int, HttpData?>, interest: map<int, Mask>, b: Batch, k: nat) {
    && k <= |b.ready| && |b.active| == |b.ready|
    && forall i | 0 <= i < k && b.active[i] == null ::
      && b.ready[i].fd in channels && channels[b.ready[i].fd] == null
      && b.ready[i].fd in interest && interest[b.ready[i].fd] == {EPOLLIN, EPOLLET}
  }

  method DispatchNext(p: EPollPoller, l: EventLoop, b: Batch, k: nat, ghost was: Tables, ghost s: LoopState, ghost before: seq<TaskQueue.Action>)
    returns (ghost trace: seq<TaskQueue.Action>)
    requires k < |b.ready| && Distinct(b.ready) && Tested(b.ready[k].revents)
    requires Dispatching(p, l, b, k, was, s, before)
    modifies p`queue, p`channels, p`httpdatas, p`interest, p.queue, p.created, l`counter, l`ready
    ensures fresh(p.queue - old(p.queue)) && Dispatching(p, l, b, k + 1, was, s, trace)
    ensures trace == before + if b.ready[k].fd == b.wakeFd then [Drain, Rearm] else []
  {
    ghost var mid := Snap(p);
    EntriesOwn(p, b.ready[k].fd);
    trace := Dispatch(p, l, b.wakeFd, b.active[k], b.ready[k], s, before);
    HandledOn(p.variant, p.files, was, mid, Snap(p), b, k);
  }

  lemma HandledOn(v: Variant, files: Files, was: Tables, mid: Tables, after: Tables, b: Batch, k: nat)
    requires k < |b.ready| && Distinct(b.ready) && Tested(b.ready[k].revents) && Handled(v, files, was, mid, b, k)
    requires Moved(v, files, mid, after, b.active[k], b.ready[k]) && Owned(mid.clients, b.active[k], b.ready[k].fd)
    requires after.channels.Keys == after.interest.Keys
    ensures Handled(v, files, was, after, b, k + 1)
  {
    var e := b.ready[k];
    KeptOn(was.channels, mid.channels, after.channels, Fds(b.ready), e.fd);
    ActiveOn(mid.channels, after.channels, b.ready, b.active, k);
    assert b.ready[..k + 1] == b.ready[..k] + [e];
    AllDispatchedOn(v, files, was.clients, mid.clients, after.clients, b.ready[..k], e, b.active[k]);
    PlainListenOn(mid.channels, mid.interest, after.channels, after.interest, b, k);
  }

  lemma PlainListenOn(channels: map<int, HttpData?>, interest: map<int, Mask>, channels': map<int, HttpData?>, interest': map<int, Mask>, b: Batch, k: nat)
    requires k < |b.ready| && Distinct(b.ready) && PlainListen(channels, interest, b, k) && channels'.Keys == interest'.Keys
    requires Active(channels, b.ready, b.active, k)
    requires Kept(channels, channels', {b.ready[k].fd}) && StillListen(interest, channels', interest', b.ready[k].fd)
    requires b.active[k] == null ==> b.ready[k].fd in interest' && interest'[b.ready[k].fd] == {EPOLLIN, EPOLLET}
    ensures PlainListen(channels', interest', b, k + 1)
  {}

  /** Whoever is open at a descriptor is its entry. */
  ghost predicate Owned(clients: map<HttpData, Client>, h: HttpData?, fd: int) {
    (forall g | g in clients && g.fd == fd && g != h :: !clients[g].open) && (h != null ==> h.fd == fd)
  }

  lemma EntriesOwn(p: EPollPoller, fd: int)
    requires p.Valid() && fd in p.channels
    ensures Owned(p.All(), p.channels[fd], fd)
    ensures p.channels[fd] != null ==> p.channels[fd] in p.created && p.Registered(p.channels[fd])
  {}

  lemma AnswersOn(wakeFd: int, es: seq<Event>, k: nat, before: seq<TaskQueue.Action>)
    requires Distinct(es) && k < |es|
    ensures before + Answers(wakeFd, es[..k + 1]) == before + Answers(wakeFd, es[..k]) + if es[k].fd == wakeFd then [Drain, Rearm] else []
  {
    assert es[..k + 1] == es[..k] + [es[k]];
    assert es[k] in es[..k + 1];
    assert forall x | x in es[..k + 1] :: x in es[..k] || x == es[k];
    assert forall x | x in es[..k] :: x in es[..k + 1] && x.fd != es[k].fd;
  }

  /**
    Every active channel is dispatched on the entry it was reported with: each connection goes through
    the dispatch of its own event, a reported wake-up is drained and listened for again, and nobody
    else's entry changes.
   */
  method DispatchAll(p: EPollPoller, l: EventLoop, b: Batch, ghost s: LoopState, ghost before: seq<TaskQueue.Action>)
    returns (ghost trace: seq<TaskQueue.Action>)
    requires Distinct(b.ready) && forall i | 0 <= i < |b.ready| :: Tested(b.ready[i].revents)
    requires Healthy(p) && Wakeable(p, b.wakeFd) && Active(p.channels, b.ready, b.active, 0) && Leads(s, before, l.Abs()) && l.phase == Handling
    modifies p`queue, p`channels, p`httpdatas, p`interest, p.queue, p.created, l`counter, l`ready
    ensures Healthy(p) && Wakeable(p, b.wakeFd) && fresh(p.queue - old(p.queue)) && Kept(old(p.channels), p.channels, Fds(b.ready))
    ensures AllDispatched(p.variant, p.files, old(p.All()), p.All(), b.ready) && PlainListen(p.channels, p.interest, b, |b.ready|)
    ensures Leads(s, trace, l.Abs()) && l.phase == Handling && trace == before + Answers(b.wakeFd, b.ready)
  {
    trace := before;
    ghost var was := Snap(p);
    NothingHandled(p.variant, p.files, was, b);
    for k := 0 to |b.ready|
      invariant fresh(p.queue - old(p.queue)) && Dispatching(p, l, b, k, was, s, trace)
      invariant trace == before + Answers(b.wakeFd, b.ready[..k])
    {
      trace := DispatchNext(p, l, b, k, was, s, trace);
      AnswersOn(b.wakeFd, b.ready, k, before);
    }
    assert b.ready[..|b.ready|] == b.ready;
  }

  lemma NothingHandled(v: Variant, files: Files, was: Tables, b: Batch)
    requires Active(was.channels, b.ready, b.active, 0) && forall h | h in was.clients :: was.clients[h].Fit()
    ensures Handled(v, files, was, was, b, 0)
  {
    assert b.ready[..0] == [];
  }

  /** The sockets that are registered: with a descriptor of their own, for one that is open cannot be handed out again. */
  function Admitted(taken: set<int>, arrivals: seq<Arrival>): (admitted: seq<Arrival>)
    decreases |arrivals|
  {
    if arrivals == [] then []
    else
      var rest, a := Admitted(taken, arrivals[..|arrivals| - 1]), arrivals[|arrivals| - 1];
      if a.fd > 0 && a.fd !in taken && a.fd !in Descriptors(rest) then rest + [a] else rest
  }

  function Descriptors(arrivals: seq<Arrival>): set<int> { set a | a in arrivals :: a.fd }

  /** Every arrival with a positive descriptor that is free gets one in, each descriptor once, with its first arrival. */
  ghost predicate FirstArrivals(taken: set<int>, arrivals: seq<Arrival>, admitted: seq<Arrival>) {
    && (forall a | a in arrivals :: a.fd in Descriptors(admitted) <==> a.fd > 0 && a.fd !in taken)
    && (forall i, j | 0 <= i < j < |admitted| :: admitted[i].fd != admitted[j].fd)
    && (forall a | a in admitted :: ArrivesFirst(arrivals, a))
  }

  lemma {:induction false} AdmittedExact(taken: set<int>, arrivals: seq<Arrival>)
    ensures FirstArrivals(taken, arrivals, Admitted(taken, arrivals))
    decreases |arrivals|
  {
    if arrivals != [] {
      var n := |arrivals| - 1;
      var before, a := arrivals[..n], arrivals[n];
      AdmittedExact(taken, before);
      assert before + [a] == arrivals;
      AdmittedOn(taken, before, a);
      FirstArrivalsOn(taken, before, Admitted(taken, before), a);
    }
  }

  lemma FirstArrivalsOn(taken: set<int>, arrivals: seq<Arrival>, some: seq<Arrival>, a: Arrival)
    requires FirstArrivals(taken, arrivals, some)
    ensures FirstArrivals(taken, arrivals + [a], if a.fd > 0 && a.fd !in taken && a.fd !in Descriptors(some) then some + [a] else some)
  {
    var more := arrivals + [a];
    var admitted := if a.fd > 0 && a.fd !in taken && a.fd !in Descriptors(some) then some + [a] else some;
    DescriptorsOn(some, a);
    assert forall x | x in more :: x in arrivals || x == a;
    forall x | x in admitted ensures ArrivesFirst(more, x) {
      if x in some { StillFirst(arrivals, x, a); } else { FirstNow(arrivals, a); }
    }
  }

  ghost predicate ArrivesFirst(arrivals: seq<Arrival>, a: Arrival) {
    exists i :: 0 <= i < |arrivals| && arrivals[i] == a && forall j | 0 <= j < i :: arrivals[j].fd != a.fd
  }

  lemma StillFirst(arrivals: seq<Arrival>, x: Arrival, a: Arrival)
    requires ArrivesFirst(arrivals, x)
    ensures ArrivesFirst(arrivals + [a], x)
  {
    var i :| 0 <= i < |arrivals| && arrivals[i] == x && forall j | 0 <= j < i :: arrivals[j].fd != x.fd;
    assert (arrivals + [a])[i] == x && forall j | 0 <= j < i :: (arrivals + [a])[j] == arrivals[j];
  }

  lemma FirstNow(arrivals: seq<Arrival>, a: Arrival)
    requires forall x | x in arrivals :: x.fd != a.fd
    ensures ArrivesFirst(arrivals + [a], a)
  {
    assert (arrivals + [a])[|arrivals|] == a && forall j | 0 <= j < |arrivals| :: (arrivals + [a])[j] in arrivals;
  }

  function Arrivals(tasks: seq<Task>, arrival: Task -> Arrival): (arrivals: seq<Arrival>)
    ensures |arrivals| == |tasks|
  {
    seq(|tasks|, i requires 0 <= i < |tasks| => arrival(tasks[i]))
  }

  /** The connections `born` have been registered for the sockets `admitted`; all others are as they were. */
  ghost predicate AllAccepted(clients: map<HttpData, Client>, after: map<HttpData, Client>, born: seq<HttpData>, admitted: seq<Arrival>) {
    && |born| == |admitted| && after.Keys == clients.Keys + (set h | h in born) && (forall h | h in clients :: after[h] == clients[h])
    && (forall i | 0 <= i < |born| ::
          born[i] !in clients && born[i].fd == admitted[i].fd && after[born[i]] == Accepted(admitted[i].verb, admitted[i].at))
  }

  /** After the first arrivals, `admitted` of which have been registered. */
  ghost predicate Admitting(p: EPollPoller, was: Tables, arrivals: seq<Arrival>, born: seq<HttpData>)
    reads p, p.queue, p.created
  {
    var admitted := Admitted(was.channels.Keys, arrivals);
    Healthy(p) && AllAccepted(was.clients, p.All(), born, admitted) && Entered(was.channels, p.channels, admitted)
  }

  /** The entries for `admitted` have been added. */
  ghost predicate Entered(before: map<int, HttpData?>, after: map<int, HttpData?>, admitted: seq<Arrival>) {
    after.Keys == before.Keys + Descriptors(admitted) && forall fd | fd in before :: after[fd] == before[fd]
  }

  lemma EnteredOn(before: map<int, HttpData?>, mid: map<int, HttpData?>, admitted: seq<Arrival>, a: Arrival, h: HttpData)
    requires Entered(before, mid, admitted) && a.fd !in mid
    ensures Entered(before, mid[a.fd := h], admitted + [a])
  {
    DescriptorsOn(admitted, a);
  }

  lemma DescriptorsOn(arrivals: seq<Arrival>, a: Arrival)
    ensures Descriptors(arrivals + [a]) == Descriptors(arrivals) + {a.fd}
  {
    assert forall x | x in arrivals + [a] :: x in arrivals || x == a;
    assert a in arrivals + [a] && forall x | x in arrivals :: x in arrivals + [a];
  }

  /** The tasks of one snapshot: `newEvent` for each connection handed over. */
  method RunArrivals(p: EPollPoller, arrivals: seq<Arrival>) returns (ghost born: seq<HttpData>)
    requires Healthy(p)
    modifies p
    ensures Healthy(p) && fresh(p.queue - old(p.queue)) && fresh(p.created - old(p.created)) && old(p.created) <= p.created
    ensures AllAccepted(old(p.All()), p.All(), born, Admitted(old(p.channels).Keys, arrivals))
    ensures Entered(old(p.channels), p.channels, Admitted(old(p.channels).Keys, arrivals))
  {
    ghost var was := Snap(p);
    born := [];
    for k := 0 to |arrivals|
      invariant fresh(p.queue - old(p.queue)) && fresh(p.created - old(p.created)) && old(p.created) <= p.created
      invariant Admitting(p, was, arrivals[..k], born)
    {
      born := Arrive(p, was, arrivals[..k], arrivals[k], born);
      assert arrivals[..k + 1] == arrivals[..k] + [arrivals[k]];
    }
    assert arrivals[..|arrivals|] == arrivals;
  }

  method Arrive(p: EPollPoller, ghost was: Tables, ghost arrivals: seq<Arrival>, a: Arrival, ghost born: seq<HttpData>)
    returns (ghost born': seq<HttpData>)
    requires Admitting(p, was, arrivals, born)
    modifies p
    ensures fresh(p.queue - old(p.queue)) && fresh(p.created - old(p.created)) && old(p.created) <= p.created
    ensures Admitting(p, was, arrivals + [a], born')
  {
    AdmittedOn(was.channels.Keys, arrivals, a);
    born' := born;
    if a.fd > 0 && a.fd !in p.interest {
      ghost var mid := Snap(p);
      var h := Introduce(p, a);
      AdmittingOn(p, was, mid, arrivals, born, h, a);
      born' := born + [h];
    }
  }

  /** From the state `mid`, which had admitted the first arrivals, by registering `h` for one more. */
  lemma AdmittingOn(p: EPollPoller, was: Tables, mid: Tables, arrivals: seq<Arrival>, born: seq<HttpData>, h: HttpData, a: Arrival)
    requires Healthy(p) && a.fd > 0 && a.fd !in mid.channels
    requires var admitted := Admitted(was.channels.Keys, arrivals);
      AllAccepted(was.clients, mid.clients, born, admitted) && Entered(was.channels, mid.channels, admitted)
    requires h !in mid.clients && h.fd == a.fd && p.All() == mid.clients[h := Accepted(a.verb, a.at)] && p.channels == mid.channels[a.fd := h]
    ensures Admitting(p, was, arrivals + [a], born + [h])
  {
    AdmittedOn(was.channels.Keys, arrivals, a);
    AcceptedOn(was.clients, mid.clients, p.All(), born, Admitted(was.channels.Keys, arrivals), h, a);
    EnteredOn(was.channels, mid.channels, Admitted(was.channels.Keys, arrivals), a, h);
  }

  lemma AdmittedOn(taken: set<int>, arrivals: seq<Arrival>, a: Arrival)
    ensures var some, more := Admitted(taken, arrivals), Admitted(taken, arrivals + [a]);
      more == if a.fd > 0 && a.fd !in taken && a.fd !in Descriptors(some) then some + [a] else some
  {
    assert (arrivals + [a])[..|arrivals|] == arrivals;
  }

  lemma AcceptedOn(clients: map<HttpData, Client>, before: map<HttpData, Client>, after: map<HttpData, Client>,
    born: seq<HttpData>, admitted: seq<Arrival>, h: HttpData, a: Arrival)
    requires AllAccepted(clients, before, born, admitted)
    requires h !in before && h.fd == a.fd && after == before[h := Accepted(a.verb, a.at)]
    ensures AllAccepted(clients, after, born + [h], admitted + [a])
  {
    assert forall i | 0 <= i < |born| :: born[i] in born && born[i] in before;
    assert (set g | g in born + [h]) == (set g | g in born) + {h};
  }

  method Introduce(p: EPollPoller, a: Arrival) returns (h: HttpData)
    requires Healthy(p) && a.fd > 0 && a.fd !in p.interest
    modifies p
    ensures Healthy(p) && fresh(p.queue - old(p.queue)) && fresh(h) && p.created == old(p.created) + {h}
    ensures h.fd == a.fd && p.All() == old(p.All())[h := Accepted(a.verb, a.at)] && p.channels == old(p.channels)[a.fd := h]
  {
    h := new HttpData(a.fd, p.variant, a.verb);
    p.Undisturbed();
    assert h !in p.created && h.Abs() == Start(a.verb).(events := {});
    Register(p, h, a.verb, a.at);
  }

  method Register(p: EPollPoller, h: HttpData, verb: HttpMethod, now: nat)
    requires Healthy(p) && h.fd > 0 && h.fd !in p.interest && h !in p.created
    requires h.closes == 0 && h.variant == p.variant && h.timer == null && h.Abs() == Start(verb).(events := {})
    modifies p, h`timer, h`events
    ensures Healthy(p) && fresh(p.queue - old(p.queue)) && p.created == old(p.created) + {h}
    ensures p.All() == old(p.All())[h := Accepted(verb, now)] && p.channels == old(p.channels)[h.fd := h]
  {
    StartHonest(p.files, verb);
    HonestElsewhere(p.files, Start(verb), Connected, {});
    p.NewEvent(h, now);
  }

  /** The wake-up channel is registered. */
  ghost predicate Wakeable(p: EPollPoller, wakeFd: int)
    reads p
  {
    wakeFd in p.channels && p.channels[wakeFd] == null
  }

  // ---------------------------------------------------------------- one iteration

  /** The connections behind the dispatch of what the poller handed on. */
  ghost function AfterEvents(v: Variant, polling: Variant, files: Files, clients: map<HttpData, Client>, es: seq<Event>): map<HttpData, Client>
    requires forall h | h in clients :: clients[h].Fit()
  {
    map h | h in clients :: Dispatched(v, files, clients[h], Reported(polling, h.fd, es))
  }

  /** The descriptors of the entries whose connections are open, and of those without one. */
  ghost function Held(channels: map<int, HttpData?>, clients: map<HttpData, Client>): set<int> {
    set fd | fd in channels && (channels[fd] == null || (channels[fd] in clients && clients[channels[fd]].open))
  }

  /** An iteration as it went: how often the sweep looked at the clock, the tasks, the new connections, and whether the poll found the wake-up. */
  datatype Record = Record(tick: Tick, tasks: seq<Task>, born: seq<HttpData>, woken: bool)

  /** The poll found the eventfd ready, and the kernel reported it. */
  ghost predicate PolledSo(s: LoopState, wakeFd: int, it: Iteration, woken: bool) {
    var outside := Possible(s.wakers, it.beforePoll);
    Behaviour(s, outside) && (woken <==> TaskQueue.Run(s, outside).ready && First(wakeFd, it.events).Some?)
  }

  /** The steps of the other threads, the poll, and what a wake-up handed on leads to. */
  function Polled(s: LoopState, polling: Variant, it: Iteration, woken: bool): seq<TaskQueue.Action> {
    Possible(s.wakers, it.beforePoll) + [PollReturn(woken)] + if woken && polling.Repaired? then [Drain, Rearm] else []
  }

  /**
    What one iteration makes of the connections: each that was there has gone through the tick, each
    admitted socket has its connection, and there are no others.
   */
  ghost predicate AllTicked(v: Variant, polling: Variant, files: Files, was: Tables, after: map<HttpData, Client>, arrival: Task -> Arrival, r: Record)
    requires forall h | h in was.clients :: was.clients[h].Fit()
  {
    var t := r.tick;
    var admitted := Admitted(Held(was.channels, AfterEvents(v, polling, files, was.clients, t.events)), Arrivals(r.tasks, arrival));
    && after.Keys == was.clients.Keys + (set h | h in r.born) && |r.born| == |admitted|
    && (forall h | h in was.clients :: TickedRight(v, polling, files, h.fd, was.clients[h], t, after[h]))
    && (forall i | 0 <= i < |admitted| ::
          r.born[i] !in was.clients && r.born[i].fd == admitted[i].fd && BornRight(admitted[i].fd, admitted[i].verb, admitted[i].at, t, after[r.born[i]]))
  }

  /** What was due when the sweep last looked at the clock is no longer in the heap. */
  ghost predicate NothingDue(p: EPollPoller, t: Tick)
    reads p
  {
    forall n | n in p.queue :: t.looks > 0 && n.expiredTime > t.clock(t.looks - 1)
  }

  /** The sweep of the tick has closed the connections it names, each in time, and changed no other. */
  ghost predicate AllSwept(before: map<HttpData, Client>, after: map<HttpData, Client>, t: Tick) {
    && after.Keys == before.Keys
    && forall h | h in before :: after[h] == Swept(before[h], h.fd in t.swept) && OnTime(t, h.fd, before[h])
  }

  /** No two open connections have the same descriptor. */
  ghost predicate OneEach(clients: map<HttpData, Client>) {
    forall g, h | g in clients && h in clients && clients[g].open && clients[h].open && g.fd == h.fd :: g == h
  }

  lemma ValidOneEach(p: EPollPoller)
    requires p.Valid()
    ensures OneEach(p.All())
  {}

  lemma SweptFds(p: EPollPoller, before: map<HttpData, Client>, it: Iteration, looks: nat) returns (t: Tick)
    requires p.Valid() && OneEach(before) && SomeClosed(before, p.All(), it.clock, looks)
    requires forall n | n in p.queue :: looks > 0 && n.expiredTime > it.clock(looks - 1)
    ensures it.SeenAs(t) && t.looks == looks && AllSwept(before, p.All(), t)
  {
    t := it.Seen(looks, set h | h in before && before[h].open && !p.All()[h].open :: h.fd);
    forall h | h in before ensures p.All()[h] == Swept(before[h], h.fd in t.swept) && OnTime(t, h.fd, before[h]) {
      if p.Registered(h) { assert p.Timed(h); }
    }
  }

  /**
    One iteration up to the point where the loop would block again. On the task queue it is a run of
    the protocol, in which a reported wake-up is answered; every connection goes through its tick.
   */
  method Iterate(p: EPollPoller, l: EventLoop, wakeFd: int, it: Iteration, arrival: Task -> Arrival)
    returns (ghost trace: seq<TaskQueue.Action>, ghost r: Record)
    requires Healthy(p) && Wakeable(p, wakeFd) && it.Wellformed()
    requires Inv(l.Abs()) && l.phase == Waiting
    modifies p, p.queue, p.created, l
    ensures Healthy(p) && Wakeable(p, wakeFd) && fresh(p.queue - old(p.queue)) && fresh(p.created - old(p.created)) && old(p.created) <= p.created
    ensures it.SeenAs(r.tick) && l.executed == old(l.executed) + r.tasks
    ensures AllTicked(p.variant, p.polling, p.files, old(Snap(p)), p.All(), arrival, r) && NothingDue(p, r.tick)
    ensures Leads(old(l.Abs()), trace, l.Abs()) && l.phase == Waiting
    ensures Polled(old(l.Abs()), p.polling, it, r.woken) <= trace && PolledSo(old(l.Abs()), wakeFd, it, r.woken)
  {
    ghost var was, tasks, born, woken := Snap(p), [], [], false;
    trace, tasks, born, woken := Serve(p, l, wakeFd, it, arrival);
    r := EndPhase(p, l, wakeFd, it, arrival, was, tasks, born, woken);
  }

  /** The sweep, and with it the end of the iteration. */
  method EndPhase(p: EPollPoller, l: EventLoop, wakeFd: int, it: Iteration, arrival: Task -> Arrival,
    ghost was: Tables, ghost tasks: seq<Task>, ghost born: seq<HttpData>, ghost woken: bool) returns (ghost r: Record)
    requires Healthy(p) && Wakeable(p, wakeFd) && l.phase == Expiring && (forall h | h in was.clients :: was.clients[h].Fit())
    requires AllHandled(p.variant, p.polling, p.files, was, p.All(), arrival, it, tasks, born)
    modifies p`queue, p`channels, p`httpdatas, p`interest, p.queue, p.created, l`phase
    ensures Healthy(p) && Wakeable(p, wakeFd) && p.queue <= old(p.queue) && l.Abs() == Step(old(l.Abs()), ExpiryDone)
    ensures it.SeenAs(r.tick) && r == Record(r.tick, tasks, born, woken)
    ensures AllTicked(p.variant, p.polling, p.files, was, p.All(), arrival, r) && NothingDue(p, r.tick)
  {
    ghost var served := p.All();
    ghost var t := ExpiryPhase(p, l, wakeFd, it);
    r := Record(t, tasks, born, woken);
    TickedAll(p.variant, p.polling, p.files, was, served, p.All(), arrival, it, r);
  }

  /** Everything before the sweep; `trace` is already that of the whole iteration. */
  method Serve(p: EPollPoller, l: EventLoop, wakeFd: int, it: Iteration, arrival: Task -> Arrival)
    returns (ghost trace: seq<TaskQueue.Action>, ghost tasks: seq<Task>, ghost born: seq<HttpData>, ghost woken: bool)
    requires Healthy(p) && Wakeable(p, wakeFd) && it.Wellformed()
    requires Inv(l.Abs()) && l.phase == Waiting
    modifies p, p.queue, p.created, l
    ensures Healthy(p) && Wakeable(p, wakeFd) && fresh(p.queue - old(p.queue)) && fresh(p.created - old(p.created)) && old(p.created) <= p.created
    ensures AllHandled(p.variant, p.polling, p.files, old(Snap(p)), p.All(), arrival, it, tasks, born)
    ensures l.phase == Expiring && Leads(old(l.Abs()), trace, Step(l.Abs(), ExpiryDone)) && l.executed == old(l.executed) + tasks
    ensures Polled(old(l.Abs()), p.polling, it, woken) <= trace && PolledSo(old(l.Abs()), wakeFd, it, woken)
  {
    ghost var was := Snap(p);
    trace, woken := EventPhase(p, l, wakeFd, it);
    ghost var mid, more, handled := l.Abs(), [], Snap(p);
    more, tasks, born := ServeTasks(p, l, wakeFd, it, arrival);
    LeadsToEnd(old(l.Abs()), trace, mid, more, l.Abs());
    trace := trace + more + [ExpiryDone];
    ServedAll(p.variant, p.polling, p.files, was, handled, p.All(), arrival, it, tasks, born);
  }

  lemma LeadsToEnd(s: LoopState, trace: seq<TaskQueue.Action>, mid: LoopState, more: seq<TaskQueue.Action>, n: LoopState)
    requires Leads(s, trace, mid) && Leads(mid, more, n) && n.phase == Expiring
    ensures Leads(s, trace + more + [ExpiryDone], Step(n, ExpiryDone)) && trace <= trace + more + [ExpiryDone]
  {
    LeadsOn(s, trace, mid, more, n);
    LeadsStep(s, trace + more, n, ExpiryDone);
  }

  lemma ServedAll(v: Variant, polling: Variant, files: Files, was: Tables, handled: Tables, served: map<HttpData, Client>, arrival: Task -> Arrival,
    it: Iteration, tasks: seq<Task>, born: seq<HttpData>)
    requires EventsHandled(v, polling, files, was, handled, it.events)
    requires AllAccepted(handled.clients, served, born, Admitted(handled.channels.Keys, Arrivals(tasks, arrival)))
    ensures AllHandled(v, polling, files, was, served, arrival, it, tasks, born)
  {}

  /** Before the sweep: the connections are dispatched, and the admitted sockets have theirs. */
  ghost predicate AllHandled(v: Variant, polling: Variant, files: Files, was: Tables, served: map<HttpData, Client>, arrival: Task -> Arrival,
    it: Iteration, tasks: seq<Task>, born: seq<HttpData>)
    requires forall h | h in was.clients :: was.clients[h].Fit()
  {
    var d := AfterEvents(v, polling, files, was.clients, it.events);
    AllAccepted(d, served, born, Admitted(Held(was.channels, d), Arrivals(tasks, arrival)))
  }

  /** The three phases together make the tick. */
  lemma TickedAll(v: Variant, polling: Variant, files: Files, was: Tables, served: map<HttpData, Client>, after: map<HttpData, Client>,
    arrival: Task -> Arrival, it: Iteration, r: Record)
    requires forall h | h in was.clients :: was.clients[h].Fit()
    requires AllHandled(v, polling, files, was, served, arrival, it, r.tasks, r.born) && it.SeenAs(r.tick)
    requires AllSwept(served, after, r.tick)
    ensures AllTicked(v, polling, files, was, after, arrival, r)
  {
    var d := AfterEvents(v, polling, files, was.clients, r.tick.events);
    var admitted := Admitted(Held(was.channels, d), Arrivals(r.tasks, arrival));
    forall h | h in was.clients ensures TickedRight(v, polling, files, h.fd, was.clients[h], r.tick, after[h]) {
      assert served[h] == d[h] && h in after;
    }
    forall i | 0 <= i < |admitted| ensures BornRight(admitted[i].fd, admitted[i].verb, admitted[i].at, r.tick, after[r.born[i]]) {
      assert r.born[i] in served && r.born[i] in after;
    }
  }

  /** `doPendingFunctors`, with what its tasks do to the poller. */
  method ServeTasks(p: EPollPoller, l: EventLoop, wakeFd: int, it: Iteration, arrival: Task -> Arrival)
    returns (ghost trace: seq<TaskQueue.Action>, ghost tasks: seq<Task>, ghost born: seq<HttpData>)
    requires Healthy(p) && Wakeable(p, wakeFd) && it.Wellformed()
    requires Inv(l.Abs()) && l.phase == Handling
    modifies p, l
    ensures Healthy(p) && Wakeable(p, wakeFd) && fresh(p.queue - old(p.queue)) && fresh(p.created - old(p.created)) && old(p.created) <= p.created
    ensures AllAccepted(old(p.All()), p.All(), born, Admitted(old(p.channels).Keys, Arrivals(tasks, arrival)))
    ensures Leads(old(l.Abs()), trace, l.Abs()) && l.phase == Expiring && l.executed == old(l.executed) + tasks
  {
    var batch;
    batch, trace := TaskPhase(l, it);
    tasks := batch;
    p.Undisturbed();
    born := RunArrivals(p, Arrivals(batch, arrival));
  }

  /** Every connection has gone through the dispatch of what was handed on, and the tables hold those that are open. */
  ghost predicate EventsHandled(v: Variant, polling: Variant, files: Files, was: Tables, after: Tables, es: seq<Event>) {
    && (forall h | h in was.clients :: was.clients[h].Fit())
    && after.clients == AfterEvents(v, polling, files, was.clients, es) && after.channels.Keys == Held(was.channels, after.clients)
  }

  /** `poll` and the dispatch of what it reported. */
  method EventPhase(p: EPollPoller, l: EventLoop, wakeFd: int, it: Iteration)
    returns (ghost trace: seq<TaskQueue.Action>, ghost woken: bool)
    requires Healthy(p) && Wakeable(p, wakeFd) && it.Wellformed()
    requires Inv(l.Abs()) && l.phase == Waiting
    modifies p`queue, p`channels, p`httpdatas, p`interest, p.queue, p.created, l
    ensures Healthy(p) && Wakeable(p, wakeFd) && fresh(p.queue - old(p.queue))
    ensures EventsHandled(p.variant, p.polling, p.files, old(Snap(p)), Snap(p), it.events)
    ensures Leads(old(l.Abs()), trace, l.Abs()) && l.phase == Handling && l.executed == old(l.executed)
    ensures trace == Polled(old(l.Abs()), p.polling, it, woken) && PolledSo(old(l.Abs()), wakeFd, it, woken)
  {
    ghost var was, ready := Snap(p), [];
    SnapCoherent(p);
    trace, ready, woken := PollAndHandle(p, l, wakeFd, it);
    SnapCoherent(p);
    PhaseHandled(p.variant, p.polling, p.files, was, Snap(p), it.events, ready);
  }

  method PollAndHandle(p: EPollPoller, l: EventLoop, wakeFd: int, it: Iteration)
    returns (ghost trace: seq<TaskQueue.Action>, ready: seq<Event>, woken: bool)
    requires Healthy(p) && Wakeable(p, wakeFd) && it.Wellformed()
    requires Inv(l.Abs()) && l.phase == Waiting
    modifies p`queue, p`channels, p`httpdatas, p`interest, p.queue, p.created, l
    ensures Healthy(p) && Wakeable(p, wakeFd) && fresh(p.queue - old(p.queue)) && Kept(old(p.channels), p.channels, Fds(ready))
    ensures AllDispatched(p.variant, p.files, old(p.All()), p.All(), ready) && Hears(old(p.All()), p.polling, it.events, ready)
    ensures Leads(old(l.Abs()), trace, l.Abs()) && l.phase == Handling && l.executed == old(l.executed)
    ensures trace == Polled(old(l.Abs()), p.polling, it, woken) && PolledSo(old(l.Abs()), wakeFd, it, woken)
  {
    ready, woken, trace := PollPhase(p, l, wakeFd, it);
    p.Undisturbed();
    trace := HandlePhase(p, l, wakeFd, it, ready, old(l.Abs()), trace);
  }

  /** The loop over the active channels. */
  method HandlePhase(p: EPollPoller, l: EventLoop, wakeFd: int, it: Iteration, ready: seq<Event>, ghost s: LoopState, ghost before: seq<TaskQueue.Action>)
    returns (ghost trace: seq<TaskQueue.Action>)
    requires Healthy(p) && Wakeable(p, wakeFd) && Reports(p.channels.Keys, it.events, ready)
    requires Leads(s, before, l.Abs()) && l.phase == Handling
    modifies p`queue, p`channels, p`httpdatas, p`interest, p.queue, p.created, l`counter, l`ready
    ensures Healthy(p) && Wakeable(p, wakeFd) && fresh(p.queue - old(p.queue)) && Kept(old(p.channels), p.channels, Fds(ready))
    ensures AllDispatched(p.variant, p.files, old(p.All()), p.All(), ready)
    ensures Leads(s, trace, l.Abs()) && l.phase == Handling && trace == before + Answers(wakeFd, ready)
  {
    var active := FillActiveChannels(p, ready);
    trace := DispatchAll(p, l, Batch(wakeFd, ready, active), s, before);
  }

  lemma PhaseHandled(v: Variant, polling: Variant, files: Files, was: Tables, after: Tables, es: seq<Event>, ready: seq<Event>)
    requires Coherent(was) && Coherent(after) && Kept(was.channels, after.channels, Fds(ready))
    requires AllDispatched(v, files, was.clients, after.clients, ready) && Hears(was.clients, polling, es, ready)
    ensures EventsHandled(v, polling, files, was, after, es)
  {
    HandedOn(v, polling, files, was.clients, after.clients, es, ready);
    forall fd ensures fd in after.channels.Keys <==> fd in Held(was.channels, after.clients) {
      if fd in after.channels { assert after.channels[fd] == was.channels[fd]; }
    }
    assert after.channels.Keys == Held(was.channels, after.clients);
  }

  lemma OpenListen(p: EPollPoller, wakeFd: int)
    requires p.Valid() && Wakeable(p, wakeFd)
    ensures forall h | h in p.created && p.All()[h].open :: h.fd in p.interest && h.fd != wakeFd
  {}

  lemma HandedOn(v: Variant, polling: Variant, files: Files, clients: map<HttpData, Client>, after: map<HttpData, Client>, es: seq<Event>, ready: seq<Event>)
    requires AllDispatched(v, files, clients, after, ready) && Hears(clients, polling, es, ready)
    ensures after == AfterEvents(v, polling, files, clients, es)
  {}

  /** An open connection is listened for, and hears what the poller hands on. */
  ghost predicate Hears(clients: map<HttpData, Client>, polling: Variant, es: seq<Event>, ready: seq<Event>) {
    forall h | h in clients && clients[h].open :: First(h.fd, ready) == Reported(polling, h.fd, es)
  }

  /**
    The expiry phase, between the tasks and the next `poll`. For the task queue it is no step but its
    end: the sweep closes connections and queues nothing.
   */
  method ExpiryPhase(p: EPollPoller, l: EventLoop, wakeFd: int, it: Iteration) returns (ghost t: Tick)
    requires Healthy(p) && Wakeable(p, wakeFd) && l.phase == Expiring
    modifies p`queue, p`channels, p`httpdatas, p`interest, p.queue, p.created, l`phase
    ensures Healthy(p) && Wakeable(p, wakeFd) && p.queue <= old(p.queue)
    ensures it.SeenAs(t) && AllSwept(old(p.All()), p.All(), t) && NothingDue(p, t)
    ensures l.Abs() == Step(old(l.Abs()), ExpiryDone)
  {
    l.ExpiryEnds();
    p.Undisturbed();
    t := HandleExpired(p, wakeFd, it);
  }

  /** `EPollPoller::handleExpired`. */
  method HandleExpired(p: EPollPoller, wakeFd: int, it: Iteration) returns (ghost t: Tick)
    requires Healthy(p) && Wakeable(p, wakeFd)
    modifies p`queue, p`channels, p`httpdatas, p`interest, p.queue, p.created
    ensures Healthy(p) && Wakeable(p, wakeFd) && p.queue <= old(p.queue)
    ensures it.SeenAs(t) && AllSwept(old(p.All()), p.All(), t) && NothingDue(p, t)
  {
    ghost var before := p.All();
    ValidOneEach(p);
    var looks := p.HandleExpiredEvent(it.clock);
    t := SweptFds(p, before, it, looks);
  }

  /** Other threads work, then `epoll_wait` returns. */
  method PollPhase(p: EPollPoller, l: EventLoop, wakeFd: int, it: Iteration)
    returns (ready: seq<Event>, woken: bool, ghost trace: seq<TaskQueue.Action>)
    requires Healthy(p) && Wakeable(p, wakeFd) && it.Wellformed() && Inv(l.Abs()) && l.phase == Waiting
    modifies l
    ensures Reports(p.channels.Keys, it.events, ready)
    ensures Hears(old(p.All()), p.polling, it.events, ready)
    ensures Answers(wakeFd, ready) == if woken && p.polling.Repaired? then [Drain, Rearm] else []
    ensures Leads(old(l.Abs()), trace, l.Abs()) && l.phase == Handling && l.executed == old(l.executed)
    ensures trace == Possible(old(l.Abs()).wakers, it.beforePoll) + [PollReturn(woken)] && PolledSo(old(l.Abs()), wakeFd, it, woken)
  {
    ghost var s := l.Abs();
    OpenListen(p, wakeFd);
    ghost var outside := l.Producers(it.beforePoll);
    ready, woken := Poll(p, wakeFd, l.ready, it.events);
    ReportedOnce(wakeFd, ready);
    LeadsStep(s, outside, l.Abs(), PollReturn(woken));
    trace := outside + [PollReturn(woken)];
    l.PollReturns(woken);
  }

  /** Other threads work, then `doPendingFunctors` runs its snapshot. */
  method TaskPhase(l: EventLoop, it: Iteration) returns (tasks: seq<Task>, ghost trace: seq<TaskQueue.Action>)
    requires it.Wellformed() && Inv(l.Abs()) && l.phase == Handling
    modifies l
    ensures Leads(old(l.Abs()), trace, l.Abs()) && l.phase == Expiring
    ensures l.executed == old(l.executed) + tasks
  {
    ghost var s := l.Abs();
    trace := l.Producers(it.beforeTasks);
    ghost var mid := l.Abs();
    tasks := l.pendingFunctors;
    ghost var more := l.DoPendingFunctors(it.body, it.others);
    LeadsOn(s, trace, mid, more, l.Abs());
    trace := trace + more;
  }

  // ---------------------------------------------------------------- any number of iterations

  /** A connection is closed once: when it leaves the tables, and not before. */
  ghost predicate ClosedOnce(p: EPollPoller)
    reads p, p.created
  {
    forall h | h in p.created ::
      if p.Registered(h) then h.closes == 0 && h.connectionState != Disconnected
      else h.closes == 1 && h.connectionState == Disconnected
  }

  lemma ValidClosesOnce(p: EPollPoller)
    requires p.Valid()
    ensures ClosedOnce(p)
  {
    forall h | h in p.created && p.Registered(h) ensures h.connectionState != Disconnected {
      assert p.Timed(h);
    }
  }

  /** A connection accepted in iteration `k`, up to now. */
  ghost predicate LivedFrom(v: Variant, polling: Variant, files: Files, fd: int, verb: HttpMethod, at: nat, ticks: seq<Tick>, k: nat, c: Client)
    requires k < |ticks|
  {
    var born := Born(fd, verb, at, ticks[k]);
    BornRight(fd, verb, at, ticks[k], born) && Lived(v, polling, files, fd, born, ticks[k + 1..], c)
  }

  ghost predicate LivedSince(v: Variant, polling: Variant, files: Files, fd: int, ticks: seq<Tick>, c: Client) {
    exists k: nat, verb: HttpMethod, at: nat :: k < |ticks| && LivedFrom(v, polling, files, fd, verb, at, ticks, k, c)
  }

  /** Every connection has lived through the iterations: those of `clients` from the start, the others from their own. */
  ghost predicate Lives(v: Variant, polling: Variant, files: Files, clients: map<HttpData, Client>, ticks: seq<Tick>, after: map<HttpData, Client>) {
    && clients.Keys <= after.Keys
    && (forall h | h in clients :: clients[h].Fit() && Lived(v, polling, files, h.fd, clients[h], ticks, after[h]))
    && (forall h | h in after && h !in clients :: LivedSince(v, polling, files, h.fd, ticks, after[h]))
  }

  lemma LivedOn(v: Variant, polling: Variant, files: Files, fd: int, c: Client, ticks: seq<Tick>, t: Tick, d: Client)
    requires LivedSince(v, polling, files, fd, ticks, c) && c.Fit() && TickedRight(v, polling, files, fd, c, t, d)
    ensures LivedSince(v, polling, files, fd, ticks + [t], d)
  {
    var k: nat, verb: HttpMethod, at: nat :| k < |ticks| && LivedFrom(v, polling, files, fd, verb, at, ticks, k, c);
    assert (ticks + [t])[k + 1..] == ticks[k + 1..] + [t] && (ticks + [t])[k] == ticks[k];
    LivedSnoc(v, polling, files, fd, Born(fd, verb, at, ticks[k]), ticks[k + 1..], c, t, d);
    assert LivedFrom(v, polling, files, fd, verb, at, ticks + [t], k, d);
  }

  lemma BornNow(v: Variant, polling: Variant, files: Files, fd: int, verb: HttpMethod, at: nat, ticks: seq<Tick>, t: Tick, c: Client)
    requires BornRight(fd, verb, at, t, c)
    ensures LivedSince(v, polling, files, fd, ticks + [t], c)
  {
    assert (ticks + [t])[|ticks| + 1..] == [] && (ticks + [t])[|ticks|] == t;
    assert LivedFrom(v, polling, files, fd, verb, at, ticks + [t], |ticks|, c);
  }

  lemma BornLives(v: Variant, polling: Variant, files: Files, mid: Tables, ticks: seq<Tick>, after: map<HttpData, Client>, arrival: Task -> Arrival, r: Record, h: HttpData)
    requires (forall g | g in mid.clients :: mid.clients[g].Fit()) && h in after && h !in mid.clients
    requires AllTicked(v, polling, files, mid, after, arrival, r)
    ensures LivedSince(v, polling, files, h.fd, ticks + [r.tick], after[h])
  {
    var i :| 0 <= i < |r.born| && r.born[i] == h;
    var verb, at: nat :| BornRight(h.fd, verb, at, r.tick, after[h]);
    BornNow(v, polling, files, h.fd, verb, at, ticks, r.tick, after[h]);
  }

  /** One more iteration, from the connections `mid` before it. */
  lemma LivesOn(v: Variant, polling: Variant, files: Files, clients: map<HttpData, Client>, mid: Tables, ticks: seq<Tick>, after: map<HttpData, Client>,
    arrival: Task -> Arrival, r: Record)
    requires (forall h | h in mid.clients :: mid.clients[h].Fit()) && AllTicked(v, polling, files, mid, after, arrival, r)
    requires Lives(v, polling, files, clients, ticks, mid.clients)
    ensures Lives(v, polling, files, clients, ticks + [r.tick], after)
  {
    forall h | h in clients ensures Lived(v, polling, files, h.fd, clients[h], ticks + [r.tick], after[h]) {
      LivedSnoc(v, polling, files, h.fd, clients[h], ticks, mid.clients[h], r.tick, after[h]);
    }
    forall h | h in after && h !in clients ensures LivedSince(v, polling, files, h.fd, ticks + [r.tick], after[h]) {
      if h in mid.clients {
        LivedOn(v, polling, files, h.fd, mid.clients[h], ticks, r.tick, after[h]);
      } else {
        BornLives(v, polling, files, mid, ticks, after, arrival, r, h);
      }
    }
  }

  /** The first iterations, as the connections noticed them. */
  ghost predicate TicksOf(iterations: seq<Iteration>, ticks: seq<Tick>) {
    && |ticks| <= |iterations|
    && forall i | 0 <= i < |ticks| :: iterations[i].SeenAs(ticks[i])
  }

  /**
    After some iterations: the invariants, on the task queue a run of the protocol, every connection
    has lived through them, and nothing due at the last look is in the heap.
   */
  ghost predicate Looping(p: EPollPoller, l: EventLoop, wakeFd: int, clients: map<HttpData, Client>, s: LoopState, trace: seq<TaskQueue.Action>, ticks: seq<Tick>)
    reads p, p.queue, p.created, l
  {
    && Healthy(p) && Wakeable(p, wakeFd) && Leads(s, trace, l.Abs()) && l.phase == Waiting
    && Lives(p.variant, p.polling, p.files, clients, ticks, p.All()) && (ticks != [] ==> NothingDue(p, ticks[|ticks| - 1]))
  }

  /**
    Any number of iterations, whatever the kernel, the peers, the other threads and the clock do. No
    connection is forgotten, each is closed once, and no wake-up is lost. Each has gone through what
    was reported for it, and through the sweeps, and nothing else.
   */
  method Loop(p: EPollPoller, l: EventLoop, wakeFd: int, iterations: seq<Iteration>, arrival: Task -> Arrival)
    returns (ghost trace: seq<TaskQueue.Action>, ghost ticks: seq<Tick>)
    requires Healthy(p) && Wakeable(p, wakeFd) && forall i | 0 <= i < |iterations| :: iterations[i].Wellformed()
    requires Inv(l.Abs()) && l.phase == Waiting
    modifies p, p.queue, p.created, l
    ensures fresh(p.queue - old(p.queue)) && fresh(p.created - old(p.created)) && old(p.created) <= p.created
    ensures Looping(p, l, wakeFd, old(p.All()), old(l.Abs()), trace, ticks) && |ticks| == |iterations| && TicksOf(iterations, ticks)
    ensures ClosedOnce(p) && (l.pendingFunctors != [] ==> l.ready || l.wakers > 0)
  {
    LoopStarts(p, l, wakeFd);
    trace, ticks := LoopThrough(p, l, wakeFd, iterations, arrival, p.All(), l.Abs());
    LoopEnds(p, l, wakeFd, old(p.All()), old(l.Abs()), trace, ticks);
  }

  method LoopThrough(p: EPollPoller, l: EventLoop, wakeFd: int, iterations: seq<Iteration>, arrival: Task -> Arrival,
    ghost clients: map<HttpData, Client>, ghost s: LoopState) returns (ghost trace: seq<TaskQueue.Action>, ghost ticks: seq<Tick>)
    requires Looping(p, l, wakeFd, clients, s, [], []) && forall i | 0 <= i < |iterations| :: iterations[i].Wellformed()
    modifies p, p.queue, p.created, l
    ensures fresh(p.queue - old(p.queue)) && fresh(p.created - old(p.created))
    ensures Looping(p, l, wakeFd, clients, s, trace, ticks) && |ticks| == |iterations| && TicksOf(iterations, ticks)
  {
    trace, ticks := [], [];
    for k := 0 to |iterations|
      invariant fresh(p.queue - old(p.queue)) && fresh(p.created - old(p.created))
      invariant Looping(p, l, wakeFd, clients, s, trace, ticks) && |ticks| == k && TicksOf(iterations, ticks)
    {
      trace, ticks := LoopOnce(p, l, wakeFd, iterations, k, arrival, clients, s, trace, ticks);
    }
  }

  method LoopOnce(p: EPollPoller, l: EventLoop, wakeFd: int, iterations: seq<Iteration>, k: nat, arrival: Task -> Arrival,
    ghost clients: map<HttpData, Client>, ghost s: LoopState, ghost trace: seq<TaskQueue.Action>, ghost ticks: seq<Tick>)
    returns (ghost trace': seq<TaskQueue.Action>, ghost ticks': seq<Tick>)
    requires Looping(p, l, wakeFd, clients, s, trace, ticks) && k < |iterations| && iterations[k].Wellformed()
    requires |ticks| == k && TicksOf(iterations, ticks)
    modifies p, p.queue, p.created, l
    ensures fresh(p.queue - old(p.queue)) && fresh(p.created - old(p.created)) && old(p.created) <= p.created
    ensures Looping(p, l, wakeFd, clients, s, trace', ticks') && |ticks'| == k + 1 && TicksOf(iterations, ticks')
  {
    ghost var mid, before := l.Abs(), Snap(p);
    ghost var more, r := Iterate(p, l, wakeFd, iterations[k], arrival);
    trace', ticks' := trace + more, ticks + [r.tick];
    LoopingOn(p, l, wakeFd, clients, s, trace, ticks, mid, before, more, arrival, r);
    TicksOn(iterations, ticks, r.tick);
  }

  /** One more iteration, from the task queue `mid` and the tables `before` in front of it. */
  lemma LoopingOn(p: EPollPoller, l: EventLoop, wakeFd: int, clients: map<HttpData, Client>, s: LoopState, trace: seq<TaskQueue.Action>, ticks: seq<Tick>,
    mid: LoopState, before: Tables, more: seq<TaskQueue.Action>, arrival: Task -> Arrival, r: Record)
    requires Healthy(p) && Wakeable(p, wakeFd) && Leads(s, trace, mid) && Leads(mid, more, l.Abs()) && l.phase == Waiting && NothingDue(p, r.tick)
    requires (forall h | h in before.clients :: before.clients[h].Fit()) && Lives(p.variant, p.polling, p.files, clients, ticks, before.clients)
    requires AllTicked(p.variant, p.polling, p.files, before, p.All(), arrival, r)
    ensures Looping(p, l, wakeFd, clients, s, trace + more, ticks + [r.tick])
  {
    LeadsOn(s, trace, mid, more, l.Abs());
    LivesOn(p.variant, p.polling, p.files, clients, before, ticks, p.All(), arrival, r);
  }

  lemma TicksOn(iterations: seq<Iteration>, ticks: seq<Tick>, t: Tick)
    requires TicksOf(iterations, ticks) && |ticks| < |iterations| && iterations[|ticks|].SeenAs(t)
    ensures TicksOf(iterations, ticks + [t])
  {}

  lemma LoopStarts(p: EPollPoller, l: EventLoop, wakeFd: int)
    requires Healthy(p) && Wakeable(p, wakeFd) && Inv(l.Abs()) && l.phase == Waiting
    ensures Looping(p, l, wakeFd, p.All(), l.Abs(), [], [])
  {
    LeadsStart(l.Abs());
  }

  lemma LoopEnds(p: EPollPoller, l: EventLoop, wakeFd: int, clients: map<HttpData, Client>, s: LoopState, trace: seq<TaskQueue.Action>, ticks: seq<Tick>)
    requires Looping(p, l, wakeFd, clients, s, trace, ticks)
    ensures ClosedOnce(p) && (l.pendingFunctors != [] ==> l.ready || l.wakers > 0)
  {
    ValidClosesOnce(p);
  }

  /** So the server as a whole serves every connection it accepts as one connection by itself is served. */
  lemma LivesServedRight(polling: Variant, files: Files, clients: map<HttpData, Client>, ticks: seq<Tick>, after: map<HttpData, Client>)
    requires Lives(Repaired, polling, files, clients, ticks, after)
    ensures forall h | h in after && h !in clients :: exists verb :: ServedRight(files, verb, after[h])
  {
    forall h | h in after && h !in clients ensures exists verb :: ServedRight(files, verb, after[h]) {
      var k: nat, verb: HttpMethod, at: nat :| k < |ticks| && LivedFrom(Repaired, polling, files, h.fd, verb, at, ticks, k, after[h]);
      ServedInOrder(polling, files, h.fd, verb, at, ticks[k], ticks[k + 1..]);
      assert ServedRight(files, verb, after[h]);
    }
  }
}
