/**
 * The event loop of the server (uio-server/src/main.rs): a table of connected
 * clients keyed by the file descriptor of their channel, the set of keys
 * registered with the epoll instance, and the dispatch of each polled message.
 *
 * Every `expect`, `assert!` and `panic!` of the loop ends the process; the model
 * records the first one as a `Panicked` status, after which nothing changes.
 */
module Server {
  import opened Wrappers
  import opened SeqLemmas
  import opened Epoll

  /** A file descriptor as the kernel hands it out: a non-negative `i32`. */
  type RawFd = x: int | 0 <= x < 0x8000_0000

  /** The key the server registers each file with. */
  datatype PollId = Socket | Client(fd: RawFd)

  const SocketKey: U64 := 0xFFFF_FFFF_FFFF_FFFF

  /** The `u64` form of a key, as `Epoll::add` stores it. */
  function EncodeKey(id: PollId): (u: U64)
    ensures DecodeKey(u) == Some(id)
  {
    match id
    case Socket => SocketKey
    case Client(fd) => fd
  }

  /** The conversion back, which `Epoll::poll` applies to every event. */
  function DecodeKey(u: U64): (r: Option<PollId>)
    ensures r == Some(Socket) <==> u == SocketKey
    ensures r.Some? && r.value.Client? ==> r.value.fd == u
  {
    if u == SocketKey then Some(Socket)
    else if u < 0x8000_0000 then Some(Client(u))
    else None
  }

  /** Decoding accepts exactly the encoded keys. */
  lemma DecodeKeyExact(u: U64)
    ensures DecodeKey(u).Some? <==> exists id :: EncodeKey(id) == u
    ensures DecodeKey(u).Some? ==> EncodeKey(DecodeKey(u).value) == u
  {
    if DecodeKey(u).Some? {
      assert EncodeKey(DecodeKey(u).value) == u;
    }
  }

  /** Events carrying registered keys never make `poll` panic. */
  lemma RegisteredKeysNeverPanic(evs: seq<RawEvent>)
    requires forall i :: 0 <= i < |evs| ==> exists id :: EncodeKey(id) == evs[i].data
    ensures PollSpec(evs, DecodeKey).Some?
  {
    PollPanicIff(evs, DecodeKey);
    forall i | 0 <= i < |evs|
      ensures DecodeKey(evs[i].data).Some?
    {
      DecodeKeyExact(evs[i].data);
    }
  }

  /** Why the server stopped. */
  datatype Fatal =
    | PollFailed     // `poll` returned an error (main.rs:52-53)
    | BadKey         // an event's data was not a key (epoll.rs:94-97)
    | AcceptFailed   // `accept` failed (main.rs:66)
    | FdInUse        // the accepted descriptor was already in the table (main.rs:80)
    | SocketBroken   // error or hang-up on the listening socket (main.rs:90)

  datatype Status = Running | Panicked(reason: Fatal)

  /** What `accept` returns on the listening socket: a new client and its descriptor. */
  datatype Accept<C> = Refused | Accepted(fd: RawFd, client: C)

  datatype ServerState<C> = ServerState(clients: map<RawFd, C>, registered: set<PollId>, status: Status)

  /**
   * The listening socket is registered, and a client key is registered exactly
   * when its descriptor is in the table.
   */
  predicate Consistent<C>(s: ServerState<C>) {
    && Socket in s.registered
    && forall fd: RawFd :: fd in s.clients <==> Client(fd) in s.registered
  }

  /** The state right after setup: only the listening socket registered (main.rs:40, 48). */
  function Initial<C>(): (s: ServerState<C>)
    ensures Consistent(s) && s.status == Running
  {
    ServerState(map[], {Socket}, Running)
  }

  /** Error or hang-up on a key. */
  function Closed<C>(s: ServerState<C>, id: PollId): (r: ServerState<C>)
    ensures Consistent(s) ==> Consistent(r)
    ensures id.Client? ==> r.clients == s.clients - {id.fd} && r.status == s.status
    ensures id.Socket? ==> r.status == Panicked(SocketBroken)
  {
    match id
    case Client(fd) =>
      if fd in s.clients then s.(clients := s.clients - {fd}, registered := s.registered - {Client(fd)})
      else s
    case Socket => s.(status := Panicked(SocketBroken))
  }

  /**
   * One message of the loop. `accept` is what accepting on the listening socket
   * yields if the message asks for it, and `handle` is the client's handler.
   */
  function Dispatch<C>(s: ServerState<C>, msg: Message<PollId>, accept: Accept<C>, handle: C -> C): (r: ServerState<C>)
    ensures Consistent(s) ==> Consistent(r)
  {
    if !s.status.Running? then s
    else match msg
      case Ready(Client(fd)) =>
        if fd in s.clients then s.(clients := s.clients[fd := handle(s.clients[fd])]) else s
      case Ready(Socket) =>
        (match accept
         case Refused => s.(status := Panicked(AcceptFailed))
         case Accepted(fd, client) =>
           var t := s.(clients := s.clients[fd := client], registered := s.registered + {Client(fd)});
           if fd in s.clients then t.(status := Panicked(FdInUse)) else t)
      case Broken(id) => Closed(s, id)
      case Hup(id) => Closed(s, id)
  }

  /** A ready client with no table entry is skipped. */
  lemma ReadyUnknownSkipped<C>(s: ServerState<C>, fd: RawFd, accept: Accept<C>, handle: C -> C)
    requires fd !in s.clients
    ensures Dispatch(s, Ready(Client(fd)), accept, handle) == s
  {
  }

  /** A ready client is handled, and no other entry, key or the status changes. */
  lemma ReadyHandlesOnlyItsClient<C>(s: ServerState<C>, fd: RawFd, accept: Accept<C>, handle: C -> C)
    requires s.status.Running? && fd in s.clients
    ensures var r := Dispatch(s, Ready(Client(fd)), accept, handle);
            && r.clients.Keys == s.clients.Keys
            && r.clients[fd] == handle(s.clients[fd])
            && (forall g :: g in s.clients && g != fd ==> r.clients[g] == s.clients[g])
            && r.registered == s.registered && r.status == Running
  {
  }

  /**
   * A new connection on a consistent table: it is registered and inserted, and the
   * server keeps running exactly when its descriptor was not registered before.
   */
  lemma AcceptRegisters<C>(s: ServerState<C>, fd: RawFd, client: C, handle: C -> C)
    requires s.status.Running? && Consistent(s)
    ensures var r := Dispatch(s, Ready(Socket), Accepted(fd, client), handle);
            && r.clients == s.clients[fd := client]
            && r.registered == s.registered + {Client(fd)}
            && (r.status.Running? <==> Client(fd) !in s.registered)
            && (r.status.Panicked? ==> r.status == Panicked(FdInUse))
  {
  }

  /** A failed accept stops the server. */
  lemma AcceptRefusedFatal<C>(s: ServerState<C>, handle: C -> C)
    requires s.status.Running?
    ensures Dispatch(s, Ready(Socket), Refused, handle) == s.(status := Panicked(AcceptFailed))
  {
  }

  /** A broken or hung-up client leaves the table and the epoll, whether or not it was there. */
  lemma CloseRemoves<C>(s: ServerState<C>, msg: Message<PollId>, accept: Accept<C>, handle: C -> C)
    requires s.status.Running? && Consistent(s)
    requires !msg.Ready? && msg.key.Client?
    ensures var r := Dispatch(s, msg, accept, handle);
            && r.clients == s.clients - {msg.key.fd}
            && r.registered == s.registered - {Client(msg.key.fd)}
            && r.status == Running
  {
    var fd := msg.key.fd;
    if fd !in s.clients {
      assert s.clients - {fd} == s.clients;
      assert s.registered - {Client(fd)} == s.registered;
    }
  }

  /** Closing the same client twice, by error or hang-up, is closing it once. */
  lemma CloseIdempotent<C>(s: ServerState<C>, m1: Message<PollId>, m2: Message<PollId>, a1: Accept<C>, a2: Accept<C>, handle: C -> C)
    requires !m1.Ready? && !m2.Ready? && m1.key.Client? && m2.key == m1.key
    ensures var r := Dispatch(s, m1, a1, handle);
            Dispatch(r, m2, a2, handle) == r
  {
  }

  /** An error or hang-up on the listening socket stops the server. */
  lemma SocketBrokenFatal<C>(s: ServerState<C>, msg: Message<PollId>, accept: Accept<C>, handle: C -> C)
    requires s.status.Running? && !msg.Ready? && msg.key == Socket
    ensures Dispatch(s, msg, accept, handle) == s.(status := Panicked(SocketBroken))
  {
  }

  /**
   * The messages of one poll, dispatched in order; `accepts[i]` is what accepting
   * would yield while handling `events[i]`.
   */
  function DispatchAll<C>(s: ServerState<C>, events: seq<Message<PollId>>, accepts: seq<Accept<C>>, handle: C -> C): (r: ServerState<C>)
    requires |accepts| >= |events|
    decreases |events|
    ensures r.status.Running? ==> s.status.Running?
  {
    if events == [] then s
    else DispatchAll(Dispatch(s, events[0], accepts[0], handle), events[1..], accepts[1..], handle)
  }

  /** Every sequence of messages keeps the table consistent. */
  lemma {:induction false} DispatchAllConsistent<C>(s: ServerState<C>, events: seq<Message<PollId>>, accepts: seq<Accept<C>>, handle: C -> C)
    requires |accepts| >= |events| && Consistent(s)
    decreases |events|
    ensures Consistent(DispatchAll(s, events, accepts, handle))
  {
    if events != [] {
      DispatchAllConsistent(Dispatch(s, events[0], accepts[0], handle), events[1..], accepts[1..], handle);
    }
  }

  /** After a panic nothing happens any more. */
  lemma {:induction false} PanicIsFinal<C>(s: ServerState<C>, events: seq<Message<PollId>>, accepts: seq<Accept<C>>, handle: C -> C)
    requires |accepts| >= |events| && s.status.Panicked?
    decreases |events|
    ensures DispatchAll(s, events, accepts, handle) == s
  {
    if events != [] {
      PanicIsFinal(s, events[1..], accepts[1..], handle);
    }
  }

  /** Messages are handled one after the other: a batch is its two halves in sequence. */
  lemma {:induction false} DispatchAllAppend<C>(s: ServerState<C>, e1: seq<Message<PollId>>, e2: seq<Message<PollId>>,
                                               a1: seq<Accept<C>>, a2: seq<Accept<C>>, handle: C -> C)
    requires |a1| == |e1| && |a2| >= |e2|
    decreases |e1|
    ensures DispatchAll(s, e1 + e2, a1 + a2, handle) == DispatchAll(DispatchAll(s, e1, a1, handle), e2, a2, handle)
  {
    if e1 == [] {
      EmptyUnit(e2);
      EmptyUnit(a2);
    } else {
      var t := Dispatch(s, e1[0], a1[0], handle);
      DispatchAllAppend(t, e1[1..], e2, a1[1..], a2, handle);
      assert (e1 + e2)[0] == e1[0] && (e1 + e2)[1..] == e1[1..] + e2;
      assert (a1 + a2)[0] == a1[0] && (a1 + a2)[1..] == a1[1..] + a2;
    }
  }

  /**
   * One turn of the main loop: poll the kernel's events, then dispatch the
   * messages; a failed poll or an undecodable key stops the server.
   */
  function Round<C>(s: ServerState<C>, evs: seq<RawEvent>, numEvents: int, accepts: seq<Accept<C>>, handle: C -> C): (r: ServerState<C>)
    requires numEvents <= |evs| && |accepts| >= |evs|
    ensures !s.status.Running? ==> r == s
    ensures r.status.Running? ==> 0 <= numEvents && PollSpec(evs[..numEvents], DecodeKey).Some?
  {
    if !s.status.Running? then s
    else if numEvents < 0 then s.(status := Panicked(PollFailed))
    else match PollSpec(evs[..numEvents], DecodeKey)
      case None => s.(status := Panicked(BadKey))
      case Some(ms) => DispatchAll(s, ms, accepts, handle)
  }

  /** Every turn of the loop keeps the table consistent. */
  lemma RoundConsistent<C>(s: ServerState<C>, evs: seq<RawEvent>, numEvents: int, accepts: seq<Accept<C>>, handle: C -> C)
    requires numEvents <= |evs| && |accepts| >= |evs| && Consistent(s)
    ensures Consistent(Round(s, evs, numEvents, accepts, handle))
  {
    if 0 <= numEvents {
      var p := PollSpec(evs[..numEvents], DecodeKey);
      if p.Some? {
        DispatchAllConsistent(s, p.value, accepts, handle);
      }
    }
  }

  /** The server's mutable state: the client table and the epoll registrations. */
  class EventLoop<C> {
    var clients: map<RawFd, C>
    var registered: set<PollId>
    var status: Status

    function State(): ServerState<C>
      reads this
    {
      ServerState(clients, registered, status)
    }

    predicate Valid()
      reads this
    {
      Consistent(State())
    }

    /** Register the listening socket and start with no clients (main.rs:39-48). */
    constructor()
      ensures State() == Initial() && Valid()
    {
      clients := map[];
      registered := {Socket};
      status := Running;
    }

    /** Error or hang-up on a key (main.rs:83-91). */
    method Close(id: PollId)
      requires status.Running?
      modifies this
      ensures State() == Closed(old(State()), id)
    {
      match id {
        case Client(fd) =>
          if fd !in clients {
            return;
          }
          clients := clients - {fd};
          registered := registered - {Client(fd)};
        case Socket =>
          status := Panicked(SocketBroken);
      }
    }

    /** The body of the `for event in events` loop (main.rs:57-92). */
    method HandleEvent(msg: Message<PollId>, accept: Accept<C>, handle: C -> C)
      modifies this
      ensures State() == Dispatch(old(State()), msg, accept, handle)
      ensures old(Valid()) ==> Valid()
    {
      if !status.Running? {
        return;
      }
      match msg {
        case Ready(Client(fd)) =>
          if fd !in clients {
            return;
          }
          clients := clients[fd := handle(clients[fd])];
        case Ready(Socket) =>
          if accept.Refused? {
            status := Panicked(AcceptFailed);
            return;
          }
          var fd := accept.fd;
          registered := registered + {Client(fd)};
          var wasInUse := fd in clients;
          clients := clients[fd := accept.client];
          if wasInUse {
            status := Panicked(FdInUse);
          }
        case Broken(id) =>
          Close(id);
        case Hup(id) =>
          Close(id);
      }
    }

    /** The messages of one poll, in order, until the first panic (main.rs:56-93). */
    method HandleEvents(events: seq<Message<PollId>>, accepts: seq<Accept<C>>, handle: C -> C)
      requires |accepts| >= |events|
      modifies this
      ensures State() == DispatchAll(old(State()), events, accepts, handle)
    {
      var i := 0;
      while i < |events|
        invariant 0 <= i <= |events|
        invariant DispatchAll(old(State()), events, accepts, handle)
                  == DispatchAll(State(), events[i..], accepts[i..], handle)
      {
        if !status.Running? {
          PanicIsFinal(State(), events[i..], accepts[i..], handle);
          return;
        }
        assert events[i..][1..] == events[i + 1..] && accepts[i..][1..] == accepts[i + 1..];
        HandleEvent(events[i], accepts[i], handle);
        i := i + 1;
      }
    }

    /** One turn of the `loop` in `main` (main.rs:51-93). */
    method RunOnce(eventList: array<RawEvent>, numEvents: int, accepts: seq<Accept<C>>, handle: C -> C)
      requires eventList.Length == BufferLen && numEvents <= BufferLen && |accepts| >= BufferLen
      modifies this
      ensures State() == Round(old(State()), eventList[..], numEvents, accepts, handle)
      ensures old(Valid()) ==> Valid()
    {
      if !status.Running? {
        return;
      }
      ghost var before := State();
      var polled := Poll(eventList, numEvents, DecodeKey);
      match polled {
        case WaitFailed =>
          status := Panicked(PollFailed);
        case KeyPanic =>
          PollPanicIff(eventList[..numEvents], DecodeKey);
          status := Panicked(BadKey);
        case Polled(ms) =>
          HandleEvents(ms, accepts, handle);
      }
      if 0 <= numEvents {
        assert eventList[..][..numEvents] == eventList[..numEvents];
      }
      if Consistent(before) {
        RoundConsistent(before, eventList[..], numEvents, accepts, handle);
      }
    }
  }
}
