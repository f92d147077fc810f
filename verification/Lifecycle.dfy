/**
  One connection as the whole server sees it: its own state, the mask the kernel listens with, its
  deadline, and whether it is still in the tables. Each iteration of the loop moves every connection
  by a function of what the kernel reported for it and of the clock, and of nothing else.
 */
module Lifecycle {
  import opened Wrappers
  import opened HttpParser
  import opened HttpResponse
  import opened Connection
  import opened ClockWrap

  datatype Client = Client(conn: Conn, mask: Mask, deadline: nat, open: bool)
  {
    predicate Fit() { open ==> conn.Steady() }
  }

  /** An epoll event, with what the kernel will say to the handler's reads and writes, and the clock when it re-arms. */
  datatype Event = Event(fd: int, revents: Mask, env: Env, at: nat)
  {
    function AsRound(): Round { Round(revents, env) }
  }

  /** The first event for a descriptor that has a tested bit. */
  function First(fd: int, es: seq<Event>): Option<Event> {
    if es == [] then None
    else if es[0].fd == fd && Tested(es[0].revents) then Some(es[0])
    else First(fd, es[1..])
  }

  lemma {:induction false} FirstSnoc(fd: int, es: seq<Event>, e: Event)
    ensures First(fd, es + [e]) ==
      if First(fd, es).Some? then First(fd, es) else if e.fd == fd && Tested(e.revents) then Some(e) else None
  {
    var more := es + [e];
    assert more[|es|] == e;
    if es != [] {
      assert more[0] == es[0] && more[1..] == es[1..] + [e];
      FirstSnoc(fd, es[1..], e);
    } else {
      assert more[1..] == [];
    }
  }

  function Closed(c: Client): Client { Client(c.conn.(connection := Disconnected), {}, 0, false) }

  /** A dispatch, if there is one. */
  function Dispatched(v: Variant, files: Files, c: Client, r: Option<Event>): (d: Client)
    requires c.Fit()
    ensures d.Fit()
  {
    if !c.open || r.None? then c
    else
      var (d, o) := HandleEvents(v, files, c.conn, r.value.revents, r.value.env);
      match o
      case Close => Closed(c.(conn := d))
      case Update(timeout) => Client(d, d.events, Deadline(r.value.at, timeout), true)
      case Ignore => c.(conn := d)
  }

  ghost predicate Monotone(clock: nat -> nat) { forall i: nat, j: nat | i <= j :: clock(i) <= clock(j) }

  /** Its deadline had come at the last look. */
  predicate Overdue(c: Client, looks: nat, clock: nat -> nat) { looks > 0 && c.deadline <= clock(looks - 1) }

  /** Its deadline had come at some look. */
  ghost predicate Reached(c: Client, looks: nat, clock: nat -> nat) { exists j: nat :: j < looks && c.deadline <= clock(j) }

  /** For a clock that does not go back that is the same. */
  lemma ReachedExact(c: Client, looks: nat, clock: nat -> nat)
    ensures Overdue(c, looks, clock) ==> Reached(c, looks, clock)
    ensures Monotone(clock) && Reached(c, looks, clock) ==> Overdue(c, looks, clock)
  {
    if Monotone(clock) && Reached(c, looks, clock) {
      var j: nat :| j < looks && c.deadline <= clock(j);
      assert clock(j) <= clock(looks - 1);
    }
  }

  /** The sweep. */
  function Swept(c: Client, closed: bool): (d: Client)
    ensures c.Fit() ==> d.Fit()
  {
    if c.open && closed then Closed(c) else c
  }

  /** `newEvent` for an accepted socket. */
  function Accepted(verb: HttpMethod, now: nat): (c: Client)
    ensures c.Fit()
  {
    Client(Start(verb), DEFAULT_EVENT, Deadline(now, EXPIRED_TIME), true)
  }

  /** A dispatch keeps what the peer may have been sent, and the kernel listening for what is waited for. */
  lemma DispatchedHonest(v: Variant, files: Files, c: Client, r: Event)
    requires c.open && Tame(c.conn) && Tested(r.revents) && Honest(files, c.conn) && ListensFor(c.mask, c.conn)
    ensures c.Fit()
    ensures var d := Dispatched(v, files, c, Some(r)); Honest(files, d.conn) && (d.open ==> ListensFor(d.mask, d.conn))
  {
    EventsHonest(v, files, c.conn, r.revents, r.env, c.mask);
    NeverDeafOnce(v, files, c.conn, r.revents, r.env);
  }

  /**
    One iteration of the loop, as far as a connection notices it: the events offered, how often the
    sweep looked at which clock, and the descriptors of the connections it closed.
   */
  datatype Tick = Tick(events: seq<Event>, clock: nat -> nat, looks: nat, swept: set<int>)

  /** Nothing is closed before its deadline has been seen to come, and nothing stays that is overdue. */
  ghost predicate OnTime(t: Tick, fd: int, c: Client) {
    c.open ==> if fd in t.swept then Reached(c, t.looks, t.clock) else t.looks > 0 && c.deadline > t.clock(t.looks - 1)
  }

  /** With a clock that does not go back within the sweep, exactly the overdue are closed. */
  lemma OnTimeExact(t: Tick, fd: int, c: Client)
    requires OnTime(t, fd, c) && c.open && Monotone(t.clock)
    ensures fd in t.swept <==> Overdue(c, t.looks, t.clock)
  {
    ReachedExact(c, t.looks, t.clock);
  }

  /** What the poller hands on of it: as written, nothing. */
  function Reported(polling: Variant, fd: int, es: seq<Event>): Option<Event> {
    if polling.Repaired? then First(fd, es) else None
  }

  function Ticked(v: Variant, polling: Variant, files: Files, fd: int, c: Client, t: Tick): (d: Client)
    requires c.Fit()
    ensures d.Fit()
  {
    Swept(Dispatched(v, files, c, Reported(polling, fd, t.events)), fd in t.swept)
  }

  /** A connection accepted in the iteration `t`, at clock reading `at`: registered between the dispatch and the sweep. */
  function Born(fd: int, verb: HttpMethod, at: nat, t: Tick): (c: Client)
    ensures c.Fit()
  {
    Swept(Accepted(verb, at), fd in t.swept)
  }

  /** A connection through any number of iterations. */
  function Life(v: Variant, polling: Variant, files: Files, fd: int, c: Client, ticks: seq<Tick>): (d: Client)
    requires c.Fit()
    ensures d.Fit()
    decreases |ticks|
  {
    if ticks == [] then c
    else Ticked(v, polling, files, fd, Life(v, polling, files, fd, c, ticks[..|ticks| - 1]), ticks[|ticks| - 1])
  }

  /** Every sweep of it was on time. */
  ghost predicate LifeOnTime(v: Variant, polling: Variant, files: Files, fd: int, c: Client, ticks: seq<Tick>)
    requires c.Fit()
    decreases |ticks|
  {
    ticks == [] ||
    var before, t := ticks[..|ticks| - 1], ticks[|ticks| - 1];
    && LifeOnTime(v, polling, files, fd, c, before)
    && OnTime(t, fd, Dispatched(v, files, Life(v, polling, files, fd, c, before), Reported(polling, fd, t.events)))
  }

  /** A whole tick, with its sweep on time. */
  ghost predicate TickedRight(v: Variant, polling: Variant, files: Files, fd: int, c: Client, t: Tick, d: Client)
    requires c.Fit()
  {
    d == Ticked(v, polling, files, fd, c, t) && OnTime(t, fd, Dispatched(v, files, c, Reported(polling, fd, t.events)))
  }

  ghost predicate BornRight(fd: int, verb: HttpMethod, at: nat, t: Tick, d: Client) {
    d == Born(fd, verb, at, t) && OnTime(t, fd, Accepted(verb, at))
  }

  ghost predicate Lived(v: Variant, polling: Variant, files: Files, fd: int, c: Client, ticks: seq<Tick>, d: Client)
    requires c.Fit()
  {
    d == Life(v, polling, files, fd, c, ticks) && LifeOnTime(v, polling, files, fd, c, ticks)
  }

  lemma LivedSnoc(v: Variant, polling: Variant, files: Files, fd: int, c: Client, ticks: seq<Tick>, d: Client, t: Tick, e: Client)
    requires c.Fit() && Lived(v, polling, files, fd, c, ticks, d) && TickedRight(v, polling, files, fd, d, t, e)
    ensures Lived(v, polling, files, fd, c, ticks + [t], e)
  {
    assert (ticks + [t])[..|ticks|] == ticks;
  }

  function Added(r: Option<Event>): seq<Round> { if r.Some? then [r.value.AsRound()] else [] }

  /** The rounds reported for it. */
  function Rounds(polling: Variant, fd: int, ticks: seq<Tick>): seq<Round>
    decreases |ticks|
  {
    if ticks == [] then []
    else
      var r := Reported(polling, fd, ticks[|ticks| - 1].events);
      Rounds(polling, fd, ticks[..|ticks| - 1]) + Added(r)
  }

  predicate Tame(c: Conn) { c.Steady() && NoIdleOutput(c) && !c.error }

  lemma {:induction false} RunSnoc(v: Variant, files: Files, c: Conn, rounds: seq<Round>, r: Round)
    requires Tame(c) && AllTested(rounds) && !Run(v, files, c, rounds).error
    ensures var d := Run(v, files, c, rounds);
      Tame(d) && Run(v, files, c, rounds + [r]) == HandleEvents(v, files, d, r.revents, r.env).0
    decreases |rounds|
  {
    if rounds == [] {
      assert rounds + [r] == [r] && [r][1..] == [];
      var (d, o) := HandleEvents(v, files, c, r.revents, r.env);
      assert Run(v, files, d, []) == d;
    } else {
      var (d, o) := HandleEvents(v, files, c, rounds[0].revents, rounds[0].env);
      NeverDeafOnce(v, files, c, rounds[0].revents, rounds[0].env);
      assert (rounds + [r])[0] == rounds[0] && (rounds + [r])[1..] == rounds[1..] + [r];
      RunSnoc(v, files, d, rounds[1..], r);
    }
  }

  lemma {:induction false} FirstTested(fd: int, es: seq<Event>)
    ensures First(fd, es).Some? ==> Tested(First(fd, es).value.revents)
  {
    if es != [] && !(es[0].fd == fd && Tested(es[0].revents)) { FirstTested(fd, es[1..]); }
  }

  lemma {:induction false} RoundsTested(polling: Variant, fd: int, ticks: seq<Tick>)
    ensures AllTested(Rounds(polling, fd, ticks))
    decreases |ticks|
  {
    if ticks != [] {
      FirstTested(fd, ticks[|ticks| - 1].events);
      RoundsTested(polling, fd, ticks[..|ticks| - 1]);
    }
  }

  /** One dispatch of a connection that has run so far. */
  lemma DispatchedIsRun(v: Variant, files: Files, start: Conn, rounds: seq<Round>, c: Client, r: Option<Event>)
    requires Tame(start) && AllTested(rounds) && c.open && c.conn == Run(v, files, start, rounds) && !c.conn.error
    requires r.Some? ==> Tested(r.value.revents)
    ensures c.Fit()
    ensures var d := Dispatched(v, files, c, r); var run := Run(v, files, start, rounds + Added(r));
      && d.conn == (if d.open then run else run.(connection := Disconnected))
      && (d.open ==> !d.conn.error)
  {
    if r.Some? {
      RunSnoc(v, files, start, rounds, r.value.AsRound());
      NeverDeafOnce(v, files, c.conn, r.value.revents, r.value.env);
    } else {
      assert rounds + [] == rounds;
    }
  }

  lemma TickedIsRun(v: Variant, polling: Variant, files: Files, fd: int, start: Conn, rounds: seq<Round>, c: Client, t: Tick)
    requires Tame(start) && AllTested(rounds) && c.open && c.conn == Run(v, files, start, rounds) && !c.conn.error
    ensures c.Fit()
    ensures var d := Ticked(v, polling, files, fd, c, t); var run := Run(v, files, start, rounds + Added(Reported(polling, fd, t.events)));
      d.conn == (if d.open then run else run.(connection := Disconnected)) && (d.open ==> !d.conn.error)
  {
    FirstTested(fd, t.events);
    DispatchedIsRun(v, files, start, rounds, c, Reported(polling, fd, t.events));
  }

  lemma ClosedStays(v: Variant, polling: Variant, files: Files, fd: int, c: Client, t: Tick)
    requires !c.open
    ensures Ticked(v, polling, files, fd, c, t) == c
  {}

  /** What the tables and the histories say at the end of `ticks`, of which the first `n` count. */
  predicate RanFor(v: Variant, polling: Variant, files: Files, fd: int, start: Conn, ticks: seq<Tick>, n: nat, d: Client)
    requires Tame(start)
  {
    && n <= |ticks| && (d.open ==> n == |ticks| && !d.conn.error)
    && var run := Run(v, files, start, Rounds(polling, fd, ticks[..n]));
    d.conn == if d.open then run else run.(connection := Disconnected)
  }

  lemma RanOn(v: Variant, polling: Variant, files: Files, fd: int, start: Conn, ticks: seq<Tick>, n: nat, d: Client, t: Tick)
    returns (m: nat)
    requires Tame(start) && RanFor(v, polling, files, fd, start, ticks, n, d) && d.Fit()
    ensures RanFor(v, polling, files, fd, start, ticks + [t], m, Ticked(v, polling, files, fd, d, t))
  {
    var more := ticks + [t];
    if d.open {
      m := n + 1;
      assert ticks[..n] == ticks && more[..m] == more && more[..n] == ticks && more[n] == t;
      RoundsTested(polling, fd, ticks);
      TickedIsRun(v, polling, files, fd, start, Rounds(polling, fd, ticks), d, t);
      assert Rounds(polling, fd, more) == Rounds(polling, fd, ticks) + Added(Reported(polling, fd, t.events));
    } else {
      m := n;
      assert more[..n] == ticks[..n];
      ClosedStays(v, polling, files, fd, d, t);
    }
  }

  lemma LifeStep(v: Variant, polling: Variant, files: Files, fd: int, c: Client, ticks: seq<Tick>)
    requires c.Fit() && ticks != []
    ensures Life(v, polling, files, fd, c, ticks) == Ticked(v, polling, files, fd, Life(v, polling, files, fd, c, ticks[..|ticks| - 1]), ticks[|ticks| - 1])
  {}

  /**
    What the loop does to a connection is a run over the rounds reported for it: all of them while it
    is open, and those of the first `n` iterations when it was closed in the n-th.
   */
  lemma {:induction false} LifeIsRun(v: Variant, polling: Variant, files: Files, fd: int, c: Client, ticks: seq<Tick>) returns (n: nat)
    requires c.open && Tame(c.conn)
    ensures RanFor(v, polling, files, fd, c.conn, ticks, n, Life(v, polling, files, fd, c, ticks))
    decreases |ticks|
  {
    if ticks == [] {
      n := 0;
      assert ticks[..0] == [];
    } else {
      var before, t := ticks[..|ticks| - 1], ticks[|ticks| - 1];
      n := LifeIsRun(v, polling, files, fd, c, before);
      n := RanOn(v, polling, files, fd, c.conn, before, n, Life(v, polling, files, fd, c, before), t);
      LifeStep(v, polling, files, fd, c, ticks);
      assert before + [t] == ticks;
    }
  }

  lemma {:induction false} ClosedForGood(v: Variant, polling: Variant, files: Files, fd: int, c: Client, ticks: seq<Tick>)
    requires !c.open
    ensures Life(v, polling, files, fd, c, ticks) == c
    decreases |ticks|
  {
    if ticks != [] { ClosedForGood(v, polling, files, fd, c, ticks[..|ticks| - 1]); }
  }

  /** What a connection of the server has got: its requests are those heard, and the peer has their answers, in order. */
  ghost predicate ServedRight(files: Files, verb: HttpMethod, d: Client) {
    && PeerSees(d.conn, 2)
    && (d.conn.intact ==> d.conn.wire <= Responses(files, Successes(files, d.conn.served)))
    && (d.open ==>
        && d.conn.peer == d.conn.wire
        && d.conn.served == ParseAll(Repaired, Fresh(verb).Plus(d.conn.heard)).requests
        && AllServed(files, d.conn.served)
        && (d.conn.intact ==> ReadBodies(d.conn.wire + d.conn.outBuffer, Verbs(d.conn.served)) == Some(Bodies(files, d.conn.served))))
  }

  /** The server keeps what a connection by itself keeps. */
  lemma ServedInOrder(polling: Variant, files: Files, fd: int, verb: HttpMethod, at: nat, t: Tick, ticks: seq<Tick>)
    ensures ServedRight(files, verb, Life(Repaired, polling, files, fd, Born(fd, verb, at, t), ticks))
  {
    var c := Born(fd, verb, at, t);
    if c.open {
      var n := LifeIsRun(Repaired, polling, files, fd, c, ticks);
      var rounds := Rounds(polling, fd, ticks[..n]);
      EndToEnd(files, verb, rounds);
      PeerIsSent(Repaired, files, verb, rounds);
    } else {
      ClosedForGood(Repaired, polling, files, fd, c, ticks);
    }
  }

  // ---------------------------------------------------------------- deadlines in real time

  /**
    A connection armed at real time `t`, its deadline not crossing the period, is overdue for a sweep
    that looks last at real time `now` in the same period exactly when its timeout has passed.
   */
  lemma OverdueOnTime(c: Client, t: nat, timeout: nat, looks: nat, clock: nat -> nat, now: nat)
    requires c.deadline == Deadline(t, timeout) && !Wraps(t, timeout)
    requires looks > 0 && clock(looks - 1) == now % PERIOD && now / PERIOD == t / PERIOD
    ensures Overdue(c, looks, clock) <==> now >= t + timeout
  {
    ExactWithinPeriod(t, timeout, now);
  }

  /** So an active connection lives for its timeout from its last dispatch, and a quiet one is closed. */
  lemma ActiveStays(v: Variant, files: Files, c: Client, r: Event, fd: int, tick: Tick, now: nat)
    requires c.open && Tame(c.conn) && Tested(r.revents) && !HangUp(r.revents) && EPOLLERR !in r.revents
    requires tick.looks > 0 && tick.clock(tick.looks - 1) == now % PERIOD && now / PERIOD == r.at / PERIOD && Monotone(tick.clock)
    ensures c.Fit()
    ensures var d := Dispatched(v, files, c, Some(r)); var timeout := if d.conn.keepAlive then KEEP_ALIVE_TIME else EXPIRED_TIME;
      d.open && !Wraps(r.at, timeout) && OnTime(tick, fd, d) ==> (Swept(d, fd in tick.swept).open <==> now < r.at + timeout)
  {
    var d := Dispatched(v, files, c, Some(r));
    NeverDeafOnce(v, files, c.conn, r.revents, r.env);
    HandleConnFrame(Callbacks(v, files, c.conn, r.revents, r.env).0);
    var timeout := if d.conn.keepAlive then KEEP_ALIVE_TIME else EXPIRED_TIME;
    if d.open && !Wraps(r.at, timeout) {
      OverdueOnTime(d, r.at, timeout, tick.looks, tick.clock, now);
      if OnTime(tick, fd, d) { OnTimeExact(tick, fd, d); }
    }
  }

  /** A new connection lives for its first timeout. */
  lemma AcceptedStays(fd: int, verb: HttpMethod, at: nat, tick: Tick, now: nat)
    requires !Wraps(at, EXPIRED_TIME) && Monotone(tick.clock) && OnTime(tick, fd, Accepted(verb, at))
    requires tick.looks > 0 && tick.clock(tick.looks - 1) == now % PERIOD && now / PERIOD == at / PERIOD
    ensures Born(fd, verb, at, tick).open <==> now < at + EXPIRED_TIME
  {
    OverdueOnTime(Accepted(verb, at), at, EXPIRED_TIME, tick.looks, tick.clock, now);
    OnTimeExact(tick, fd, Accepted(verb, at));
  }

  /** The sweep of each iteration looked last at these real times, all in the period of `t`. */
  ghost predicate LooksAt(ticks: seq<Tick>, times: seq<nat>, t: nat) {
    && |times| == |ticks|
    && forall i | 0 <= i < |ticks| :: Monotone(ticks[i].clock) && (ticks[i].looks > 0 ==>
      ticks[i].clock(ticks[i].looks - 1) == times[i] % PERIOD && times[i] / PERIOD == t / PERIOD)
  }

  /** None of them came at `end` or later. */
  ghost predicate AllBefore(ticks: seq<Tick>, times: seq<nat>, end: nat)
    requires |times| == |ticks|
  {
    forall i | 0 <= i < |ticks| && ticks[i].looks > 0 :: times[i] < end
  }

  /**
    A connection armed at real time `t` for which nothing is reported: through any number of
    iterations it stays as it is until a sweep looks at its deadline or later, and that one closes it.
   */
  lemma {:induction false} QuietUntilDue(v: Variant, polling: Variant, files: Files, fd: int, c: Client, t: nat, timeout: nat, ticks: seq<Tick>, times: seq<nat>)
    requires c.open && c.Fit() && c.deadline == Deadline(t, timeout) && !Wraps(t, timeout)
    requires LooksAt(ticks, times, t) && LifeOnTime(v, polling, files, fd, c, ticks)
    requires forall i | 0 <= i < |ticks| :: Reported(polling, fd, ticks[i].events) == None
    ensures Life(v, polling, files, fd, c, ticks) == if AllBefore(ticks, times, t + timeout) then c else Closed(c)
    decreases |ticks|
  {
    if ticks != [] {
      var k := |ticks| - 1;
      QuietUntilDue(v, polling, files, fd, c, t, timeout, ticks[..k], times[..k]);
      if AllBefore(ticks[..k], times[..k], t + timeout) { QuietTick(v, polling, files, fd, c, t, timeout, ticks[k], times[k]); }
      ClosedStays(v, polling, files, fd, Closed(c), ticks[k]);
      AllBeforeOn(ticks, times, t + timeout);
    }
  }

  lemma QuietTick(v: Variant, polling: Variant, files: Files, fd: int, c: Client, t: nat, timeout: nat, tick: Tick, time: nat)
    requires c.open && c.Fit() && c.deadline == Deadline(t, timeout) && !Wraps(t, timeout)
    requires tick.looks > 0 ==> tick.clock(tick.looks - 1) == time % PERIOD && time / PERIOD == t / PERIOD
    requires Reported(polling, fd, tick.events) == None && Monotone(tick.clock) && OnTime(tick, fd, c)
    ensures Ticked(v, polling, files, fd, c, tick) == if tick.looks > 0 && time >= t + timeout then Closed(c) else c
  {
    OnTimeExact(tick, fd, c);
    if tick.looks > 0 { OverdueOnTime(c, t, timeout, tick.looks, tick.clock, time); }
  }

  lemma AllBeforeOn(ticks: seq<Tick>, times: seq<nat>, end: nat)
    requires |times| == |ticks| > 0
    ensures var k := |ticks| - 1;
      AllBefore(ticks, times, end) <==> AllBefore(ticks[..k], times[..k], end) && (ticks[k].looks > 0 ==> times[k] < end)
  {
    var k := |ticks| - 1;
    if AllBefore(ticks[..k], times[..k], end) {
      forall i | 0 <= i < k && ticks[i].looks > 0 ensures times[i] < end {
        assert ticks[..k][i] == ticks[i] && times[..k][i] == times[i];
      }
    }
  }
}
