/**
  EPollPoller.* with its Timer.*: the maps, the kernel's interest set and the heap of timer nodes,
  and who is responsible for closing a connection.
 */
module Poller {
  import opened Wrappers
  import opened HttpParser
  import opened HttpResponse
  import opened Connection
  import opened HttpServer
  import opened ClockWrap
  import opened Lifecycle

  class EPollPoller {
    /** The parser that connections run, and which form of `poll` this is. */
    const variant: Variant
    const polling: Variant
    const files: Files
    /** `null` for a channel without HttpData: the wake-up and the accept channel. */
    var channels: map<int, HttpData?>
    var httpdatas: map<int, HttpData>
    /** The kernel's side of `epoll_ctl`. */
    var interest: map<int, Mask>
    var queue: set<TimerNode>
    /** Every connection that `newEvent` has registered. */
    ghost var created: set<HttpData>

    ghost predicate Registered(h: HttpData)
      reads this
    {
      h.fd in httpdatas && httpdatas[h.fd] == h
    }

    /** Maps and interest set agree. */
    ghost predicate Tables()
      reads this, created
    {
      && channels.Keys == interest.Keys
      && (forall fd | fd in httpdatas :: fd in channels && channels[fd] == httpdatas[fd] && httpdatas[fd].fd == fd && httpdatas[fd] in created)
      && (forall fd | fd in channels :: fd > 0 && (channels[fd] != null ==> fd in httpdatas))
      && (forall h | h in created :: if Registered(h) then h.closes == 0 else h.closes == 1 && h.connectionState == Disconnected)
      && (forall h | h in created :: h.variant == variant)
    }

    /** `h` is looked after by exactly one timer node, and can be handled. */
    ghost predicate Timed(h: HttpData)
      reads this, h, h.TimerFrame()
    {
      && h.timer != null && h.timer in queue && h.timer.ownHttp == h
      && !h.error && h.Abs().Steady() && NoIdleOutput(h.Abs())
    }

    /** A node is either deleted and empty, or the one timer of a registered connection. */
    ghost predicate NodeOk(n: TimerNode)
      reads this, n, created
    {
      && n.alive && (n.deleted <==> n.ownHttp == null)
      && (n.ownHttp != null ==> n.ownHttp in created && Registered(n.ownHttp) && n.ownHttp.timer == n)
    }

    /** The invariant, but for the connection `ex` whose handler is running and which no node owns. */
    ghost predicate ValidBut(ex: HttpData?)
      reads this, queue, created
    {
      && Tables()
      && (forall n | n in queue :: NodeOk(n))
      && (forall h | h in created && Registered(h) && h != ex :: h.timer != null && h.timer in queue && Timed(h))
      && (ex != null ==> ex in created && Registered(ex) && ex.timer == null)
    }

    ghost predicate Valid()
      reads this, queue, created
    {
      ValidBut(null)
    }

    /** Every connection was sent only answers and error pages, and the kernel listens for what it waits for. */
    ghost predicate Sound()
      reads this, created
    {
      forall h | h in created :: Honest(files, h.Abs()) && (Registered(h) ==> h.fd in interest && ListensFor(interest[h.fd], h.Abs()))
    }

    /** A connection as the loop sees it. */
    ghost function Of(h: HttpData): Client
      reads this, h
    {
      if Registered(h) then
        Client(h.Abs(), if h.fd in interest then interest[h.fd] else {}, if h.timer == null then 0 else h.timer.expiredTime, true)
      else Client(h.Abs(), {}, 0, false)
    }

    ghost function All(): (clients: map<HttpData, Client>)
      requires Valid()
      reads this, queue, created
      ensures clients.Keys == created && forall h | h in created :: clients[h].Fit()
    {
      assert forall h | h in created && Registered(h) :: Timed(h);
      map h | h in created :: Of(h)
    }

    /** Only `h`, and of the tables only what stands at its descriptor, has changed. */
    twostate predicate Apart(h: HttpData)
      reads this, h, created
    {
      && created == old(created) + {h} && (forall g | g in old(created) && g != h :: unchanged(g))
      && (forall fd | fd != h.fd :: (fd in channels <==> fd in old(channels)) && (fd in interest <==> fd in old(interest)))
      && (forall fd | fd in channels && fd != h.fd :: channels[fd] == old(channels)[fd])
      && (forall fd | fd in interest && fd != h.fd :: interest[fd] == old(interest)[fd])
      && (h.fd in httpdatas ==> httpdatas[h.fd] == h) && (h.fd in old(httpdatas) ==> old(httpdatas)[h.fd] == h)
    }

    twostate lemma OthersStay(h: HttpData)
      requires old(Valid()) && Valid() && Apart(h)
      ensures All() == old(All())[h := Of(h)]
    {
      forall g | g in created && g != h ensures Of(g) == old(Of(g)) {
        assert g in old(created);
        if g.fd == h.fd {
          assert !Registered(g) && !old(Registered(g));
        } else {
          assert Registered(g) <==> old(Registered(g));
        }
      }
    }

    /** What happens elsewhere does not matter here. */
    twostate lemma Undisturbed()
      requires old(Valid()) && unchanged(this) && unchanged(queue) && unchanged(created)
      ensures Valid() && All() == old(All()) && (old(Sound()) ==> Sound())
    {}

    /** No connection and no entry of one has changed. */
    twostate predicate Untouched()
      reads this, created
    {
      && created == old(created) && (forall g | g in created :: unchanged(g)) && httpdatas == old(httpdatas)
      && (forall fd | fd in httpdatas :: fd in interest && fd in old(interest) && interest[fd] == old(interest)[fd])
    }

    twostate lemma AllStay()
      requires old(Valid()) && Valid() && Untouched()
      ensures All() == old(All())
    {
      assert forall g | g in created :: Of(g) == old(Of(g));
    }

    constructor (variant: Variant, polling: Variant, files: Files)
      ensures Valid() && Sound() && this.variant == variant && this.polling == polling && this.files == files && fresh(queue) && created == {}
      ensures channels == map[] && httpdatas == map[] && interest == map[]
    {
      this.variant, this.polling, this.files := variant, polling, files;
      channels, httpdatas, interest, queue, created := map[], map[], map[], {}, {};
    }

    /** A node with a strong reference goes into the heap; the connection keeps a weak one. */
    method AddTimer(h: HttpData, timeout: nat, now: nat)
      modifies this`queue, h`timer
      ensures h.timer != null && fresh(h.timer) && queue == old(queue) + {h.timer}
      ensures h.timer.ownHttp == h && !h.timer.deleted && h.timer.alive
      ensures h.timer.expiredTime == Deadline(now, timeout)
    {
      var node := new TimerNode(h, Deadline(now, timeout));
      queue := queue + {node};
      h.timer := node;
    }

    /** For a connection `timeout` is positive; the asserts of the code are the preconditions. */
    method AddChannel(h: HttpData, timeout: nat, now: nat)
      requires h.fd > 0 && h.events != {} && h.fd !in interest && timeout > 0
      modifies this`queue, this`channels, this`httpdatas, this`interest, h`timer
      ensures h.timer != null && fresh(h.timer) && queue == old(queue) + {h.timer}
      ensures h.timer.ownHttp == h && !h.timer.deleted && h.timer.alive
      ensures h.timer.expiredTime == Deadline(now, timeout)
      ensures channels == old(channels)[h.fd := h] && httpdatas == old(httpdatas)[h.fd := h]
      ensures interest == old(interest)[h.fd := h.events]
    {
      httpdatas := httpdatas[h.fd := h];
      AddTimer(h, timeout, now);
      interest := interest[h.fd := h.events];
      channels := channels[h.fd := h];
    }

    /** A channel without HttpData, `timeout` 0. */
    method AddPlainChannel(fd: int, events: Mask)
      requires Valid() && fd > 0 && fd !in interest && events != {}
      modifies this`channels, this`interest
      ensures Valid() && channels == old(channels)[fd := null] && interest == old(interest)[fd := events]
      ensures All() == old(All()) && (old(Sound()) ==> Sound())
    {
      EnterPlain(fd, events);
      AllStay();
      if old(Sound()) { PlainSound(fd); }
    }

    method EnterPlain(fd: int, events: Mask)
      requires Valid() && fd > 0 && fd !in interest && events != {}
      modifies this`channels, this`interest
      ensures Valid() && channels == old(channels)[fd := null] && interest == old(interest)[fd := events]
    {
      interest := interest[fd := events];
      channels := channels[fd := null];
    }

    method UpdatePlainChannel(fd: int, events: Mask)
      requires Valid() && fd in channels && channels[fd] == null && events != {}
      modifies this`interest
      ensures Valid() && interest == old(interest)[fd := events]
      ensures All() == old(All()) && (old(Sound()) ==> Sound())
    {
      ListenPlain(fd, events);
      AllStay();
      if old(Sound()) { PlainSound(fd); }
    }

    method ListenPlain(fd: int, events: Mask)
      requires Valid() && fd in channels && channels[fd] == null && events != {}
      modifies this`interest
      ensures Valid() && interest == old(interest)[fd := events]
    {
      interest := interest[fd := events];
    }

    /** Channels without HttpData have entries of their own. */
    twostate lemma PlainSound(fd: int)
      requires old(Sound()) && fd !in httpdatas && unchanged(this`httpdatas, this`created)
      requires forall g | g in created :: unchanged(g)
      requires forall k | k != fd && k in old(interest) :: k in interest && interest[k] == old(interest)[k]
      ensures Sound()
    {
      forall g | g in created
        ensures Honest(files, g.Abs()) && (Registered(g) ==> g.fd in interest && ListensFor(interest[g.fd], g.Abs()))
      {
        assert old(Honest(files, g.Abs())) && g.Abs() == old(g.Abs());
      }
    }

    /** Nothing has happened but that some connections are gone. */
    twostate lemma StaysSound()
      requires old(Valid()) && old(Sound()) && Valid() && created == old(created)
      requires forall g | g in created :: g.Abs() == old(g.Abs()) || g.Abs() == old(g.Abs()).(connection := Disconnected)
      requires forall g | g in created && Registered(g) ::
        old(Registered(g)) && g.fd in interest && interest[g.fd] == old(interest[g.fd]) && g.Abs() == old(g.Abs())
      ensures Sound()
    {
      forall g | g in created
        ensures Honest(files, g.Abs()) && (Registered(g) ==> g.fd in interest && ListensFor(interest[g.fd], g.Abs()))
      {
        assert old(Honest(files, g.Abs()));
        HonestElsewhere(files, old(g.Abs()), Disconnected, {});
      }
    }

    /** A dispatch has changed one connection and its entry in the interest set. */
    twostate lemma DispatchedSound(h: HttpData)
      requires old(Valid()) && old(Sound()) && Valid() && Apart(h) && h in old(created)
      requires Honest(files, Of(h).conn) && (Of(h).open ==> ListensFor(Of(h).mask, Of(h).conn))
      ensures Sound()
    {
      forall g | g in created
        ensures Honest(files, g.Abs()) && (Registered(g) ==> g.fd in interest && ListensFor(interest[g.fd], g.Abs()))
      {
        if g != h {
          assert old(Honest(files, g.Abs())) && g.Abs() == old(g.Abs());
          if Registered(g) {
            assert g.fd in channels && channels[g.fd] == g;
            assert g.fd in old(httpdatas) && old(httpdatas)[g.fd] == g;
            assert g.fd in interest && interest[g.fd] == old(interest)[g.fd];
          }
        }
      }
    }

    method UpdateChannel(h: HttpData, timeout: nat, now: nat)
      requires h.fd > 0 && h.events != {} && h.fd in interest && timeout > 0
      modifies this`queue, this`channels, this`httpdatas, this`interest, h`timer
      ensures h.timer != null && fresh(h.timer) && queue == old(queue) + {h.timer}
      ensures h.timer.ownHttp == h && !h.timer.deleted && h.timer.alive
      ensures h.timer.expiredTime == Deadline(now, timeout)
      ensures channels == old(channels)[h.fd := h] && httpdatas == old(httpdatas)[h.fd := h]
      ensures interest == old(interest)[h.fd := h.events]
    {
      AddTimer(h, timeout, now);
      httpdatas := httpdatas[h.fd := h];
      interest := interest[h.fd := h.events];
      channels := channels[h.fd := h];
    }

    method RemoveChannel(h: HttpData)
      requires h.fd > 0 && h.fd in interest
      modifies this`channels, this`httpdatas, this`interest
      ensures channels == old(channels) - {h.fd} && httpdatas == old(httpdatas) - {h.fd} && interest == old(interest) - {h.fd}
    {
      interest := interest - {h.fd};
      channels := channels - {h.fd};
      httpdatas := httpdatas - {h.fd};
    }

    /** `HttpData::handleClose`. */
    method HandleClose(h: HttpData)
      requires h.fd > 0 && h.fd in interest
      modifies this`channels, this`httpdatas, this`interest, h`connectionState, h`closes
      ensures channels == old(channels) - {h.fd} && httpdatas == old(httpdatas) - {h.fd} && interest == old(interest) - {h.fd}
      ensures h.connectionState == Disconnected && h.closes == old(h.closes) + 1
    {
      h.connectionState := Disconnected;
      h.closes := h.closes + 1;
      RemoveChannel(h);
    }

    /** `HttpData::newEvent`, run by the loop for a connection the acceptor handed over. */
    method NewEvent(h: HttpData, now: nat)
      requires Valid() && h.fd > 0 && h.fd !in interest && h !in created && h.closes == 0 && h.variant == variant
      requires h.timer == null && h.Abs().Steady() && NoIdleOutput(h.Abs()) && !h.error
      modifies this, h`timer, h`events
      ensures Valid() && created == old(created) + {h} && Registered(h)
      ensures fresh(queue - old(queue)) && old(queue) <= queue
      ensures channels == old(channels)[h.fd := h] && interest == old(interest)[h.fd := DEFAULT_EVENT]
      ensures h.Abs() == old(h.Abs()).(events := DEFAULT_EVENT) && h.timer != null && h.timer.expiredTime == Deadline(now, EXPIRED_TIME)
      ensures All() == old(All())[h := Client(h.Abs(), DEFAULT_EVENT, Deadline(now, EXPIRED_TIME), true)]
      ensures old(Sound()) && old(Honest(files, h.Abs())) && h.outBuffer == "" ==> Sound()
    {
      EnterNew(h, now);
      OthersStay(h);
      if old(Sound()) && old(Honest(files, h.Abs())) && h.outBuffer == "" { IntroducedSound(h); }
    }

    method EnterNew(h: HttpData, now: nat)
      requires Valid() && h.fd > 0 && h.fd !in interest && h !in created && h.closes == 0 && h.variant == variant
      requires h.timer == null && h.Abs().Steady() && NoIdleOutput(h.Abs()) && !h.error
      modifies this, h`timer, h`events
      ensures Valid() && created == old(created) + {h} && fresh(queue - old(queue)) && old(queue) <= queue
      ensures channels == old(channels)[h.fd := h] && httpdatas == old(httpdatas)[h.fd := h] && interest == old(interest)[h.fd := DEFAULT_EVENT]
      ensures h.Abs() == old(h.Abs()).(events := DEFAULT_EVENT) && h.timer != null && h.timer.expiredTime == Deadline(now, EXPIRED_TIME)
    {
      h.events := DEFAULT_EVENT;
      assert EPOLLIN in h.events;
      AddChannel(h, EXPIRED_TIME, now);
      created := created + {h};
      Introduced(h);
    }

    twostate lemma IntroducedSound(h: HttpData)
      requires old(Valid()) && old(Sound()) && Valid() && h !in old(created) && created == old(created) + {h}
      requires old(Honest(files, h.Abs())) && h.Abs() == old(h.Abs()).(events := DEFAULT_EVENT) && h.outBuffer == "" && h.fd !in old(interest)
      requires httpdatas == old(httpdatas)[h.fd := h] && interest == old(interest)[h.fd := DEFAULT_EVENT]
      requires forall g | g in old(created) :: unchanged(g)
      ensures Sound()
    {
      HonestElsewhere(files, old(h.Abs()), Connected, DEFAULT_EVENT);
      forall g | g in created
        ensures Honest(files, g.Abs()) && (Registered(g) ==> g.fd in interest && ListensFor(interest[g.fd], g.Abs()))
      {
        if g != h { assert old(Honest(files, g.Abs())) && g.Abs() == old(g.Abs()); }
      }
    }

    /** A new connection with a node of its own disturbs nobody. */
    twostate lemma Introduced(h: HttpData)
      requires old(Valid()) && h.fd > 0 && h.fd !in old(interest) && h !in old(created) && created == old(created) + {h}
      requires h.timer != null && queue == old(queue) + {h.timer} && fresh(h.timer)
      requires h.timer.ownHttp == h && !h.timer.deleted && h.timer.alive
      requires channels == old(channels)[h.fd := h] && httpdatas == old(httpdatas)[h.fd := h] && interest == old(interest)[h.fd := h.events]
      requires forall n | n in old(queue) :: unchanged(n)
      requires forall g | g in old(created) :: unchanged(g)
      requires h.closes == 0 && h.variant == variant && !h.error && h.Abs().Steady() && NoIdleOutput(h.Abs())
      ensures Valid()
    {
      forall n | n in queue ensures NodeOk(n) {
        if n in old(queue) { assert old(NodeOk(n)); }
      }
      forall g | g in created && Registered(g)
        ensures g.timer != null && g.timer in queue && Timed(g)
      {
        if g != h { assert old(Timed(g)); }
      }
    }

    /** Closing ends the responsibility of whoever ran the handler. */
    method CloseHandled(h: HttpData)
      requires ValidBut(h) && h in created && h.fd > 0
      modifies this`channels, this`httpdatas, this`interest, h`connectionState, h`closes
      ensures Valid() && !Registered(h) && h.closes == 1 && h.connectionState == Disconnected
      ensures channels == old(channels) - {h.fd} && httpdatas == old(httpdatas) - {h.fd} && interest == old(interest) - {h.fd}
    {
      HandleClose(h);
    }

    method UpdateHandled(h: HttpData, timeout: nat, now: nat)
      requires ValidBut(h) && h in created && h.fd > 0 && h.events != {} && timeout > 0
      requires !h.error && h.Abs().Steady() && NoIdleOutput(h.Abs())
      modifies this`queue, this`channels, this`httpdatas, this`interest, h`timer
      ensures Valid() && Registered(h) && fresh(queue - old(queue)) && old(queue) <= queue
      ensures h.timer != null && h.timer.expiredTime == Deadline(now, timeout)
      ensures channels == old(channels) && httpdatas == old(httpdatas)
      ensures interest == old(interest)[h.fd := h.events]
    {
      UpdateChannel(h, timeout, now);
      Rearmed(h);
    }

    /** A connection that no node owned gets a node of its own. */
    twostate lemma Rearmed(h: HttpData)
      requires old(ValidBut(h)) && h in created && unchanged(this`created) && !h.error && h.Abs().Steady() && NoIdleOutput(h.Abs())
      requires h.timer != null && queue == old(queue) + {h.timer} && fresh(h.timer)
      requires h.timer.ownHttp == h && !h.timer.deleted && h.timer.alive
      requires channels == old(channels) && httpdatas == old(httpdatas) && interest.Keys == old(interest).Keys
      requires forall n | n in old(queue) :: unchanged(n)
      requires forall g | g in created && g != h :: unchanged(g)
      requires h.closes == old(h.closes) && h.connectionState == old(h.connectionState)
      ensures Valid()
    {
      forall n | n in queue ensures NodeOk(n) {
        if n in old(queue) { assert old(NodeOk(n)); }
      }
      forall g | g in created && Registered(g)
        ensures g.timer != null && g.timer in queue && Timed(g)
      {
        if g != h { assert old(Timed(g)); }
      }
    }

    /** Only one node of the heap owns a given connection, the one it points to. */
    lemma OneTimer(h: HttpData, n: TimerNode)
      requires Valid() && h in created && n in queue
      ensures Registered(h) ==> (n.ownHttp == h <==> n == h.timer)
      ensures !Registered(h) ==> n.ownHttp != h
    {
      assert NodeOk(n);
    }

    /** Emptying the node of one connection and working on that connection disturbs nothing else. */
    twostate lemma Released(h: HttpData)
      requires old(Valid()) && h in created && Registered(h) && unchanged(this)
      requires forall n | n in queue && n != old(h.timer) :: unchanged(n)
      requires forall g | g in created && g != h :: unchanged(g)
      requires h.timer == null && h.closes == old(h.closes)
      requires old(h.timer) != null && old(h.timer).ownHttp == null && old(h.timer).deleted && old(h.timer).alive
      ensures ValidBut(h)
    {
      var node := old(h.timer);
      forall n | n in queue ensures NodeOk(n) {
        assert old(NodeOk(n));
      }
      forall g | g in created && Registered(g) && g != h
        ensures g.timer != null && g.timer in queue && Timed(g)
      {
        assert old(Timed(g));
      }
    }

    /** The first `handleRead` of a dispatch takes the connection from its timer. */
    method ReadTimed(h: HttpData, env: Env) returns (env': Env)
      requires Valid() && h in created && Registered(h)
      modifies h, h.TimerFrame()
      ensures ValidBut(h) && h.closes == old(h.closes) && h.timer == null
      ensures (h.Abs(), env') == Connection.HandleRead(variant, files, old(h.Abs()), env)
    {
      assert Timed(h) && NodeOk(h.timer);
      env' := h.HandleRead(files, env);
      Released(h);
    }

    /** A second one finds no timer. */
    method ReadUntimed(h: HttpData, env: Env) returns (env': Env)
      requires ValidBut(h) && h in created && h.Abs().Steady()
      modifies h
      ensures ValidBut(h) && h.closes == old(h.closes)
      ensures (h.Abs(), env') == Connection.HandleRead(variant, files, old(h.Abs()), env)
    {
      env' := h.HandleRead(files, env);
      Worked(h);
    }

    /** A handler at work on a connection that no node owns disturbs nothing else. */
    twostate lemma Worked(h: HttpData)
      requires old(ValidBut(h)) && h in created && unchanged(this)
      requires forall n | n in queue :: unchanged(n)
      requires forall g | g in created && g != h :: unchanged(g)
      requires h.timer == null && h.closes == old(h.closes)
      ensures ValidBut(h)
    {
      forall n | n in queue ensures NodeOk(n) {
        assert old(NodeOk(n));
      }
      forall g | g in created && Registered(g) && g != h
        ensures g.timer != null && g.timer in queue && Timed(g)
      {
        assert old(Timed(g));
      }
    }

    /** `handleRead`, once per direction that is ready. */
    method RunCallbacks(h: HttpData, revents: Mask, env: Env)
      requires Valid() && h in created && Registered(h) && (Readable(revents) || EPOLLOUT in revents)
      modifies h, h.TimerFrame()
      ensures ValidBut(h) && h.closes == old(h.closes) && h.timer == null
      ensures h.Abs() == Callbacks(variant, files, old(h.Abs()), revents, env).0
    {
      assert Timed(h);
      if Readable(revents) {
        var env' := ReadTimed(h, env);
        if EPOLLOUT in revents { env' := ReadUntimed(h, env'); }
      } else {
        var env' := ReadTimed(h, env);
      }
    }

    /** `handleConn`: re-register with a fresh timer, or close. */
    method HandleConn(h: HttpData, now: nat)
      requires ValidBut(h) && h in created && h.Abs().Steady() && h.connectionState == Connected
      requires !h.error ==> Prepared(h.Abs())
      modifies this`queue, this`channels, this`httpdatas, this`interest, h`timer, h`events, h`connectionState, h`closes
      ensures Valid() && fresh(queue - old(queue)) && old(queue) <= queue
      ensures var (d, o) := Connection.HandleConn(old(h.Abs()));
        && h.Abs() == (if o.Close? then d.(connection := Disconnected) else d)
        && (Registered(h) <==> !o.Close?)
        && (o.Update? ==> h.timer != null && h.timer.expiredTime == Deadline(now, o.timeout))
        && interest == (if o.Close? then old(interest) - {h.fd} else old(interest)[h.fd := h.events])
      ensures forall fd | fd != h.fd :: fd in channels <==> fd in old(channels)
      ensures forall fd | fd in channels :: fd in old(channels) && channels[fd] == old(channels)[fd]
    {
      if !h.error { RearmHandled(h, now); } else { CloseHandled(h); }
    }

    method RearmHandled(h: HttpData, now: nat)
      requires ValidBut(h) && h in created && h.Abs().Steady() && h.connectionState == Connected
      requires !h.error && Prepared(h.Abs())
      modifies this`queue, this`channels, this`httpdatas, this`interest, h`timer, h`events
      ensures Valid() && Registered(h) && fresh(queue - old(queue)) && old(queue) <= queue
      ensures channels == old(channels) && interest == old(interest)[h.fd := h.events] && h.timer != null
      ensures (h.Abs(), Update(if h.isKeepAlive then KEEP_ALIVE_TIME else EXPIRED_TIME)) == Connection.HandleConn(old(h.Abs()))
      ensures h.timer.expiredTime == Deadline(now, if h.isKeepAlive then KEEP_ALIVE_TIME else EXPIRED_TIME)
    {
      var timeout := h.PrepareMask();
      UpdateHandled(h, timeout, now);
    }

    twostate lemma HangUpKeeps(h: HttpData)
      requires old(Valid()) && h in created && Registered(h) && unchanged(this)
      requires forall n | n in queue :: unchanged(n)
      requires forall g | g in created && g != h :: unchanged(g)
      requires h.timer == old(h.timer) && h.closes == old(h.closes) && h.Abs() == old(h.Abs()).(events := {})
      ensures Valid()
    {
      forall n | n in queue ensures NodeOk(n) {
        assert old(NodeOk(n));
      }
      forall g | g in created && Registered(g)
        ensures g.timer != null && g.timer in queue && Timed(g)
      {
        assert old(Timed(g));
      }
    }

    /**
      `handleConn` of a dispatch in which no tested bit was set: no handler has taken the connection
      from its timer, and a second live node is armed for it.
     */
    method HandleConnUntested(h: HttpData, now: nat)
      requires Valid() && h in created && Registered(h)
      modifies this`queue, this`channels, this`httpdatas, this`interest, h`timer, h`events
      ensures !Valid()
      ensures old(h.timer) != null && h.timer != null && old(h.timer) != h.timer
      ensures queue == old(queue) + {h.timer} && old(h.timer).ownHttp == h && h.timer.ownHttp == h
    {
      assert Timed(h);
      var timeout := h.PrepareMask();
      UpdateChannel(h, timeout, now);
      assert !NodeOk(old(h.timer));
    }

    /** The part of a dispatch behind the two early returns. */
    method HandleReady(h: HttpData, revents: Mask, env: Env, now: nat)
      requires Valid() && h in created && Registered(h) && (Readable(revents) || EPOLLOUT in revents)
      requires NoIdleOutput(h.Abs()) && !h.error && h.Abs().Steady()
      modifies this`queue, this`channels, this`httpdatas, this`interest, h, h.TimerFrame()
      ensures Valid() && fresh(queue - old(queue)) && old(queue) <= queue
      ensures var (d, o) := Connection.HandleConn(Callbacks(variant, files, old(h.Abs()), revents, env).0);
        && h.Abs() == (if o.Close? then d.(connection := Disconnected) else d)
        && (Registered(h) <==> !o.Close?)
        && (o.Update? ==> h.timer != null && h.timer.expiredTime == Deadline(now, o.timeout))
        && interest == (if o.Close? then old(interest) - {h.fd} else old(interest)[h.fd := h.events])
      ensures forall fd | fd != h.fd :: fd in channels <==> fd in old(channels)
      ensures forall fd | fd in channels :: fd in old(channels) && channels[fd] == old(channels)[fd]
    {
      CallbacksPrepare(variant, files, h.Abs(), revents, env);
      RunCallbacks(h, revents, env);
      HandleConn(h, now);
    }

    /**
      `Channel::handleEvents` on a connection. The division of responsibility survives exactly when
      some tested bit is set, which epoll guarantees for the masks registered here.
     */
    method HandleEvents(h: HttpData, revents: Mask, env: Env, now: nat)
      requires Valid() && h in created && Registered(h)
      modifies this`queue, this`channels, this`httpdatas, this`interest, h, h.TimerFrame()
      ensures Valid() <==> Tested(revents)
      ensures Tested(revents) ==> fresh(queue - old(queue)) && old(queue) <= queue
      ensures Tested(revents) ==> var (d, o) := Connection.HandleEvents(variant, files, old(h.Abs()), revents, env);
        && h.Abs() == (if o.Close? then d.(connection := Disconnected) else d)
        && (Registered(h) <==> !o.Close?)
        && (o.Update? ==> h.timer != null && h.timer.expiredTime == Deadline(now, o.timeout))
        && (o.Ignore? ==> h.timer == old(h.timer))
        && interest == (if o.Close? then old(interest) - {h.fd} else if o.Update? then old(interest)[h.fd := h.events] else old(interest))
      ensures Tested(revents) ==> forall fd | fd != h.fd :: fd in channels <==> fd in old(channels)
      ensures Tested(revents) ==> forall fd | fd in channels :: fd in old(channels) && channels[fd] == old(channels)[fd]
    {
      assert Timed(h);
      if EPOLLHUP in revents && EPOLLIN !in revents {
        h.events := {};
        HangUpKeeps(h);
        return;
      }
      if EPOLLERR in revents { return; }
      if Readable(revents) || EPOLLOUT in revents { HandleReady(h, revents, env, now); } else { HandleConnUntested(h, now); }
    }

    /** A dispatch that epoll can report, on a poller whose connections are all right. */
    method HandleSoundly(h: HttpData, revents: Mask, env: Env, now: nat)
      requires Valid() && Sound() && h in created && Registered(h) && Tested(revents)
      modifies this`queue, this`channels, this`httpdatas, this`interest, h, h.TimerFrame()
      ensures Valid() && Sound() && fresh(queue - old(queue)) && old(queue) <= queue
      ensures All() == old(All())[h := Dispatched(variant, files, old(All())[h], Some(Event(h.fd, revents, env, now)))]
      ensures Apart(h)
      ensures forall fd | fd != h.fd :: fd in channels <==> fd in old(channels)
      ensures forall fd | fd in channels :: fd in old(channels) && channels[fd] == old(channels)[fd]
    {
      assert Timed(h);
      DispatchedHonest(variant, files, Of(h), Event(h.fd, revents, env, now));
      HandleTested(h, revents, env, now);
      DispatchedSound(h);
      OthersStay(h);
    }

    method HandleTested(h: HttpData, revents: Mask, env: Env, now: nat)
      requires Valid() && h in created && Registered(h) && Tested(revents)
      modifies this`queue, this`channels, this`httpdatas, this`interest, h, h.TimerFrame()
      ensures Valid() && fresh(queue - old(queue)) && old(queue) <= queue && Apart(h)
      ensures old(Of(h)).Fit() && Of(h) == Dispatched(variant, files, old(Of(h)), Some(Event(h.fd, revents, env, now)))
      ensures forall fd | fd in channels :: fd in old(channels) && channels[fd] == old(channels)[fd]
    {
      assert Timed(h);
      HandleApart(h, revents, env, now);
    }

    method HandleApart(h: HttpData, revents: Mask, env: Env, now: nat)
      requires Valid() && h in created && Registered(h) && Tested(revents) && h.Abs().Steady()
      modifies this`queue, this`channels, this`httpdatas, this`interest, h, h.TimerFrame()
      ensures Valid() && fresh(queue - old(queue)) && old(queue) <= queue && Apart(h)
      ensures var (d, o) := Connection.HandleEvents(variant, files, old(h.Abs()), revents, env);
        && h.Abs() == (if o.Close? then d.(connection := Disconnected) else d)
        && (Registered(h) <==> !o.Close?)
        && (o.Update? ==> h.timer != null && h.timer.expiredTime == Deadline(now, o.timeout) && h.fd in interest && interest[h.fd] == h.events)
        && (o.Ignore? ==> h.timer == old(h.timer) && h.fd in interest && interest[h.fd] == old(interest)[h.fd])
      ensures forall fd | fd in channels :: fd in old(channels) && channels[fd] == old(channels)[fd]
    {
      HandleEvents(h, revents, env, now);
    }

    /** Popping a deleted node; its destructor finds nothing to close. */
    method Discard(top: TimerNode)
      requires Valid() && top in queue && top.deleted
      modifies this`queue, top`alive
      ensures Valid() && queue == old(queue) - {top} && All() == old(All())
      ensures old(Sound()) ==> Sound()
    {
      assert NodeOk(top);
      queue := queue - {top};
      top.alive := false;
      PoppedEmpty(top);
      AllStay();
      if old(Sound()) { StaysSound(); }
    }

    twostate lemma PoppedEmpty(top: TimerNode)
      requires old(Valid()) && top in old(queue) && top.ownHttp == null && queue == old(queue) - {top}
      requires old(top.ownHttp) == null
      requires unchanged(this`channels, this`httpdatas, this`interest, this`created)
      requires forall n | n in queue :: unchanged(n)
      requires forall g | g in created :: unchanged(g)
      ensures Valid()
    {
      forall n | n in queue ensures NodeOk(n) {
        assert old(NodeOk(n));
      }
      forall g | g in created && Registered(g)
        ensures g.timer != null && g.timer in queue && Timed(g)
      {
        assert old(Timed(g));
      }
    }

    /** Popping an expired live node: `isVaild` marks it, its destructor closes the connection. */
    method Expire(top: TimerNode)
      requires Valid() && top in queue && top.ownHttp != null
      modifies this`queue, this`channels, this`httpdatas, this`interest, top, top.ownHttp`connectionState, top.ownHttp`closes
      ensures Valid() && queue == old(queue) - {top}
      ensures var h := old(top.ownHttp);
        && h.connectionState == Disconnected && !Registered(h) && h.closes == 1
        && channels == old(channels) - {h.fd} && httpdatas == old(httpdatas) - {h.fd}
      ensures old(channels)[old(top.ownHttp).fd] == old(top.ownHttp)
      ensures ClosedOne(old(All()), All(), old(top.ownHttp), top.expiredTime)
      ensures old(Sound()) ==> Sound()
    {
      assert NodeOk(top);
      var h: HttpData := top.ownHttp;
      Shut(top);
      OthersStay(h);
      if old(Sound()) { ClosedSound(h); }
    }

    twostate lemma ClosedSound(h: HttpData)
      requires old(Valid()) && old(Sound()) && Valid() && Apart(h) && h in old(created) && !Registered(h)
      requires h.Abs() == old(h.Abs()).(connection := Disconnected)
      ensures Sound()
    {
      assert created == old(created);
      forall g | g in created && Registered(g)
        ensures old(Registered(g)) && g.fd in interest && interest[g.fd] == old(interest[g.fd]) && g.Abs() == old(g.Abs())
      {
        assert g != h && unchanged(g);
      }
      StaysSound();
    }

    method Shut(top: TimerNode)
      requires Valid() && top in queue && top.ownHttp != null
      modifies this`queue, this`channels, this`httpdatas, this`interest, top, top.ownHttp`connectionState, top.ownHttp`closes
      ensures Valid() && queue == old(queue) - {top} && Apart(old(top.ownHttp))
      ensures var h := old(top.ownHttp);
        && h.connectionState == Disconnected && old(Registered(h)) && !Registered(h) && h.closes == 1
        && channels == old(channels) - {h.fd} && httpdatas == old(httpdatas) - {h.fd} && interest == old(interest) - {h.fd}
        && old(channels)[h.fd] == h && old(h in created) && Of(h) == Closed(old(Of(h))) && old(Of(h)).deadline == top.expiredTime
    {
      assert NodeOk(top);
      var h: HttpData := top.ownHttp;
      top.deleted := true;
      queue := queue - {top};
      HandleClose(h);
      top.ownHttp := null;
      top.alive := false;
      Expired(top);
    }

    twostate lemma Expired(top: TimerNode)
      requires old(Valid()) && top in old(queue) && old(top.ownHttp) != null && queue == old(queue) - {top}
      requires var h := old(top.ownHttp);
        && old(h in created) && old(Registered(h))
        && channels == old(channels) - {h.fd} && httpdatas == old(httpdatas) - {h.fd} && interest == old(interest) - {h.fd}
        && h.closes == old(h.closes) + 1 && h.connectionState == Disconnected
      requires unchanged(this`created)
      requires forall n | n in queue :: unchanged(n)
      requires forall g | g in created && g != old(top.ownHttp) :: unchanged(g)
      ensures Valid()
    {
      forall n | n in queue ensures NodeOk(n) {
        assert old(NodeOk(n)) && old(NodeOk(top));
      }
      forall g | g in created && Registered(g)
        ensures g.timer != null && g.timer in queue && Timed(g)
      {
        assert old(Timed(g)) && old(NodeOk(top));
      }
    }

    /**
      `Timer::handleExpiredEvent`, with the k-th look at the clock giving `clock(k)`. The lazily
      deleted nodes do not show: with a clock that does not go back, the connections closed are
      exactly those whose deadline had come at the last look, and nothing that is due stays.
     */
    method HandleExpiredEvent(clock: nat -> nat) returns (looks: nat)
      requires Valid()
      modifies this`queue, this`channels, this`httpdatas, this`interest, queue, created
      ensures Valid() && queue <= old(queue)
      ensures forall fd | fd in old(channels) && old(channels)[fd] == null :: fd in channels && channels[fd] == null
      ensures old(Sound()) ==> Sound()
      ensures forall n | n in queue :: n.ownHttp == old(n.ownHttp)
      ensures forall n | n in old(queue) && old(n.ownHttp) != null ::
        if n in queue then Registered(old(n.ownHttp))
        else !Registered(old(n.ownHttp)) && old(n.ownHttp).connectionState == Disconnected
      ensures SomeClosed(old(All()), All(), clock, looks) && forall n | n in queue :: looks > 0 && n.expiredTime > clock(looks - 1)
      ensures Monotone(clock) ==>
        && (forall n | n in old(queue) && old(n.ownHttp) != null ::
              n !in queue <==> looks > 0 && n.expiredTime <= clock(looks - 1))
        && (forall h | h in created :: All()[h] == Swept(old(All())[h], Overdue(old(All())[h], looks, clock)))
    {
      ghost var start := All();
      looks := SweepNodes(clock);
      if Monotone(clock) { SweptAll(start, clock, looks); }
    }

    method SweepNodes(clock: nat -> nat) returns (looks: nat)
      requires Valid()
      modifies this`queue, this`channels, this`httpdatas, this`interest, queue, created
      ensures Valid() && queue <= old(queue) && SomeClosed(old(All()), All(), clock, looks)
      ensures forall fd | fd in old(channels) && old(channels)[fd] == null :: fd in channels && channels[fd] == null
      ensures old(Sound()) ==> Sound()
      ensures forall n | n in queue :: n.ownHttp == old(n.ownHttp) && looks > 0 && n.expiredTime > clock(looks - 1)
      ensures forall n | n in old(queue) && old(n.ownHttp) != null ::
        if n in queue then Registered(old(n.ownHttp))
        else !Registered(old(n.ownHttp)) && old(n.ownHttp).connectionState == Disconnected
      ensures Monotone(clock) ==>
        forall n | n in old(queue) && old(n.ownHttp) != null :: n !in queue <==> looks > 0 && n.expiredTime <= clock(looks - 1)
    {
      ghost var owner, plain := SweepStarts(clock);
      looks := SweepFrom(clock, owner, plain, All());
      assert forall n | n in old(queue) :: owner[n] == old(n.ownHttp);
    }

    method SweepFrom(clock: nat -> nat, ghost owner: map<TimerNode, HttpData?>, ghost plain: set<int>, ghost start: map<HttpData, Client>)
      returns (looks: nat)
      requires owner.Keys == queue && Owners(owner, created) && SweptSo(clock, owner, plain, start, 0)
      modifies this`queue, this`channels, this`httpdatas, this`interest, queue, created
      ensures SweptSo(clock, owner, plain, start, looks) && (old(Sound()) ==> Sound())
      ensures forall n | n in queue :: looks > 0 && n.expiredTime > clock(looks - 1)
      ensures forall n | n in owner && owner[n] != null ::
        if n in queue then Registered(owner[n]) else !Registered(owner[n]) && owner[n].connectionState == Disconnected
    {
      looks := Sweep(clock, owner, plain, start);
      OwnersGone(owner);
    }

    /** Who owns what before the sweep; no two nodes own the same connection. */
    lemma SweepStarts(clock: nat -> nat) returns (owner: map<TimerNode, HttpData?>, plain: set<int>)
      requires Valid()
      ensures owner.Keys == queue && (forall n | n in queue :: owner[n] == n.ownHttp) && Owners(owner, created)
      ensures plain == (set fd | fd in channels && channels[fd] == null)
      ensures SweptSo(clock, owner, plain, All(), 0)
    {
      owner := map n | n in queue :: n.ownHttp;
      plain := set fd | fd in channels && channels[fd] == null;
      assert forall n | n in queue :: NodeOk(n);
    }

    /**
      The same in real time. When the live nodes were armed in the period in which the clock is read and
      none crosses its end, the connections closed are exactly those whose real time has come.
     */
    method ExpireOnTime(time: nat -> nat, ghost period: nat, ghost armed: map<TimerNode, Arming>) returns (looks: nat)
      requires Valid() && Monotone(time) && forall k: nat :: time(k) / PERIOD == period
      requires forall n | n in queue && n.ownHttp != null :: n in armed && ArmedBy(n, armed[n], period)
      modifies this`queue, this`channels, this`httpdatas, this`interest, queue, created
      ensures Valid() && queue <= old(queue)
      ensures forall n | n in old(queue) && old(n.ownHttp) != null ::
        var due := looks > 0 && armed[n].at + armed[n].timeout <= time(looks - 1);
        && (Registered(old(n.ownHttp)) <==> !due)
        && (due ==> old(n.ownHttp).connectionState == Disconnected)
    {
      forall i: nat, j: nat | i <= j ensures time(i) % PERIOD <= time(j) % PERIOD {
        assert time(i) / PERIOD == time(j) / PERIOD;
      }
      looks := HandleExpiredEvent(k => time(k) % PERIOD);
      forall n | n in old(queue) && old(n.ownHttp) != null && looks > 0
        ensures n.expiredTime <= time(looks - 1) % PERIOD <==> armed[n].at + armed[n].timeout <= time(looks - 1)
      {
        ExactWithinPeriod(armed[n].at, armed[n].timeout, time(looks - 1));
      }
    }

    /** What the sweep has done so far, against the owners and the plain channels that were there before it. */
    ghost predicate SweptSo(clock: nat -> nat, owner: map<TimerNode, HttpData?>, plain: set<int>, start: map<HttpData, Client>, looks: nat)
      reads this, queue, created
    {
      && Valid() && SomeClosed(start, All(), clock, looks)
      && queue <= owner.Keys && (forall n | n in queue :: n.ownHttp == owner[n])
      && (forall fd | fd in plain :: fd in channels && channels[fd] == null)
      && (Monotone(clock) ==> Due(clock, owner, queue, looks))
    }

    method Sweep(clock: nat -> nat, ghost owner: map<TimerNode, HttpData?>, ghost plain: set<int>, ghost start: map<HttpData, Client>) returns (looks: nat)
      requires owner.Keys == queue && SweptSo(clock, owner, plain, start, 0)
      modifies this`queue, this`channels, this`httpdatas, this`interest, queue, created
      ensures SweptSo(clock, owner, plain, start, looks) && (old(Sound()) ==> Sound())
      ensures forall n | n in queue :: looks > 0 && n.expiredTime > clock(looks - 1)
    {
      looks := 0;
      var stop := false;
      while queue != {} && !stop
        invariant SweptSo(clock, owner, plain, start, looks) && (old(Sound()) ==> Sound())
        invariant stop ==> queue != {} && looks > 0 && forall n | n in queue :: n.expiredTime > clock(looks - 1)
        decreases queue, !stop
      {
        stop, looks := SweepNext(clock, owner, plain, start, looks);
      }
    }

    method SweepNext(clock: nat -> nat, ghost owner: map<TimerNode, HttpData?>, ghost plain: set<int>, ghost start: map<HttpData, Client>, looks: nat)
      returns (stop: bool, looks': nat)
      requires queue != {} && SweptSo(clock, owner, plain, start, looks)
      modifies this`queue, this`channels, this`httpdatas, this`interest, queue, created
      ensures SweptSo(clock, owner, plain, start, looks') && (old(Sound()) ==> Sound())
      ensures stop ==> queue == old(queue) && looks' == looks + 1 && forall n | n in queue :: n.expiredTime > clock(looks)
      ensures !stop ==> queue < old(queue)
    {
      ghost var top;
      ghost var before := All();
      stop, looks', top := SweepOne(clock, looks);
      assert top in old(queue) && old(top.ownHttp) == owner[top] && (!stop ==> top !in queue);
      assert forall n | n in queue :: n in old(queue) && n.ownHttp == old(n.ownHttp) && old(n.ownHttp) == owner[n];
      assert forall fd | fd in plain :: fd in old(channels) && old(channels)[fd] == null;
      SomeClosedOn(clock, start, before, All(), old(top.ownHttp), looks, looks');
      if Monotone(clock) { DueOn(clock, owner, old(queue), queue, top, looks, looks'); }
    }

    /** Unless the sweep stops at it, a node has left the heap, and with a live one its connection is closed. */
    twostate predicate Popped(top: TimerNode, stop: bool)
      requires old(Valid()) && top in old(queue)
      reads this, queue, created, top
    {
      && Valid() && queue == (if stop then old(queue) else old(queue) - {top}) && (forall n | n in queue :: n.ownHttp == old(n.ownHttp))
      && (forall fd | fd in old(channels) && old(channels)[fd] == null :: fd in channels && channels[fd] == null)
      && (old(Sound()) ==> Sound())
      && if stop || old(top.ownHttp) == null then All() == old(All()) else ClosedOne(old(All()), All(), old(top.ownHttp), top.expiredTime)
    }

    method Pop(top: TimerNode)
      requires Valid() && top in queue
      modifies this`queue, this`channels, this`httpdatas, this`interest, queue, created
      ensures Popped(top, false)
    {
      assert NodeOk(top);
      if top.deleted { Discard(top); } else { Expire(top); }
    }

    /** One turn of the loop on a least node: `stop` when it is live and not yet due. */
    method SweepOne(clock: nat -> nat, looks: nat) returns (stop: bool, looks': nat, ghost top: TimerNode)
      requires Valid() && queue != {}
      modifies this`queue, this`channels, this`httpdatas, this`interest, queue, created
      ensures top in old(queue) && looks' == looks + if old(top.ownHttp) != null then 1 else 0
      ensures stop <==> old(top.ownHttp) != null && clock(looks) < top.expiredTime
      ensures Popped(top, stop) && (stop ==> forall n | n in queue :: n.expiredTime > clock(looks))
    {
      stop, looks' := false, looks;
      MinNode(queue);
      var node :| node in queue && forall n | n in queue :: node.expiredTime <= n.expiredTime;
      top := node;
      assert NodeOk(node);
      if !node.deleted {
        var reading := clock(looks);
        looks' := looks + 1;
        if reading < node.expiredTime { stop := true; } else { Pop(node); }
      } else {
        Pop(node);
      }
    }

    lemma SweptAll(start: map<HttpData, Client>, clock: nat -> nat, looks: nat)
      requires Valid() && Monotone(clock) && SomeClosed(start, All(), clock, looks)
      requires forall n | n in queue :: looks > 0 && n.expiredTime > clock(looks - 1)
      ensures forall h | h in created :: All()[h] == Swept(start[h], Overdue(start[h], looks, clock))
    {
      forall h | h in created ensures All()[h] == Swept(start[h], Overdue(start[h], looks, clock)) {
        if Registered(h) { assert Timed(h); }
        ReachedExact(start[h], looks, clock);
      }
    }

    /** A connection whose node has left the heap has been closed. */
    lemma OwnersGone(owner: map<TimerNode, HttpData?>)
      requires Valid() && queue <= owner.Keys
      requires forall n | n in queue :: n.ownHttp == owner[n]
      requires Owners(owner, created)
      ensures forall n | n in owner && owner[n] != null ::
        if n in queue then Registered(owner[n]) else !Registered(owner[n]) && owner[n].connectionState == Disconnected
    {
      forall n | n in owner && owner[n] != null
        ensures if n in queue then Registered(owner[n]) else !Registered(owner[n]) && owner[n].connectionState == Disconnected
      {
        var h: HttpData := owner[n];
        if n in queue { assert NodeOk(n); }
        if Registered(h) { assert owner[h.timer] == h && n == h.timer; }
      }
    }
  }

  /** When a node was armed in real time, and for how long. */
  datatype Arming = Arming(at: nat, timeout: nat)

  predicate ArmedBy(n: TimerNode, a: Arming, period: nat) {
    n.expiredTime == Deadline(a.at, a.timeout) && !Wraps(a.at, a.timeout) && a.at / PERIOD == period
  }

  /** The live nodes that have left the heap were due at the last look. */
  ghost predicate Due(clock: nat -> nat, owner: map<TimerNode, HttpData?>, queue: set<TimerNode>, looks: nat) {
    forall n | n in owner && n !in queue && owner[n] != null :: looks > 0 && n.expiredTime <= clock(looks - 1)
  }

  ghost predicate Owners(owner: map<TimerNode, HttpData?>, created: set<HttpData>) {
    && (forall n | n in owner && owner[n] != null :: owner[n] in created)
    && (forall m, n | m in owner && n in owner && owner[m] == owner[n] && owner[n] != null :: m == n)
  }

  /** One connection that was open has been closed, and its deadline was not after `now`. */
  ghost predicate ClosedOne(before: map<HttpData, Client>, after: map<HttpData, Client>, h: HttpData?, now: nat) {
    h != null && h in before && before[h].open && before[h].deadline <= now && after == before[h := Closed(before[h])]
  }

  /** The sweep has closed some connections, each when its deadline had come. */
  ghost predicate SomeClosed(start: map<HttpData, Client>, clients: map<HttpData, Client>, clock: nat -> nat, looks: nat) {
    && clients.Keys == start.Keys
    && forall h | h in start ::
      (clients[h] == start[h]
        || (start[h].open && clients[h] == Closed(start[h]) && Reached(start[h], looks, clock)))
  }

  lemma SomeClosedOn(clock: nat -> nat, start: map<HttpData, Client>, before: map<HttpData, Client>, after: map<HttpData, Client>,
    h: HttpData?, looks: nat, looks': nat)
    requires SomeClosed(start, before, clock, looks) && looks <= looks'
    requires after == before || (looks' == looks + 1 && ClosedOne(before, after, h, clock(looks)))
    ensures SomeClosed(start, after, clock, looks')
  {
    forall g | g in start && after[g] != start[g] ensures start[g].open && after[g] == Closed(start[g]) && Reached(start[g], looks', clock) {
      if before[g] != start[g] {
        var j: nat :| j < looks && start[g].deadline <= clock(j);
        assert j < looks';
      } else {
        assert looks < looks' && start[g].deadline <= clock(looks);
      }
    }
  }

  lemma DueOn(clock: nat -> nat, owner: map<TimerNode, HttpData?>, before: set<TimerNode>, after: set<TimerNode>,
    top: TimerNode, looks: nat, looks': nat)
    requires Monotone(clock) && Due(clock, owner, before, looks) && looks <= looks' && (after == before || after == before - {top})
    requires top in owner && owner[top] != null && top !in after ==> looks' == looks + 1 && top.expiredTime <= clock(looks)
    ensures Due(clock, owner, after, looks')
  {
    assert looks > 0 ==> clock(looks - 1) <= clock(looks' - 1);
    assert forall n | n in before && n !in after :: n == top;
  }

  lemma {:induction false} MinNode(s: set<TimerNode>)
    requires s != {}
    ensures exists m | m in s :: forall n | n in s :: m.expiredTime <= n.expiredTime
    decreases |s|
  {
    var x :| x in s;
    if s == {x} {
    } else {
      var rest := s - {x};
      MinNode(rest);
      var m :| m in rest && forall n | n in rest :: m.expiredTime <= n.expiredTime;
      var best := if x.expiredTime < m.expiredTime then x else m;
      assert best in s && forall n | n in s :: best.expiredTime <= n.expiredTime;
    }
  }
}
