/** The dispatcher and the acceptor as the program runs them. Sockets stand for the program's socket pointers. */
module Registries {
  import opened MachineWords
  import opened Bytes
  import opened Packets
  import opened WireFormat
  import opened Codec

  type SocketRef = nat

  datatype Route = Dropped | ToAcceptor | ToSocket(socket: SocketRef)

  /** Whom a datagram is for: by the destination id alone. */
  function RouteOf(sockets: map<u32, SocketRef>, hasAcceptor: bool, b: seq<byte>): Route {
    match DecodeDestinationSocketId(b)
    case None => Dropped
    case Some(id) =>
      if id == 0 then (if hasAcceptor then ToAcceptor else Dropped)
      else if id in sockets then ToSocket(sockets[id])
      else Dropped
  }

  class Dispatcher {
    var acceptor: Acceptor?
    var sockets: map<u32, SocketRef>

    constructor ()
      ensures sockets == map[] && acceptor == null
    {
      acceptor, sockets := null, map[];
    }

    method SetAcceptor(a: Acceptor?)
      requires a == null || acceptor == null
      modifies this`acceptor
      ensures acceptor == a
    {
      acceptor := a;
    }

    /** Draws random numbers until one is usable as an id; `draws` are the numbers that come up. */
    method AddSocket(socket: SocketRef, draws: seq<u32>) returns (id: u32)
      requires exists d <- draws :: d != 0 && d !in sockets
      modifies this`sockets
      ensures id != 0 && id !in old(sockets) && id in draws
      ensures sockets == old(sockets)[id := socket]
    {
      id := 0;
      var i := 0;
      while id == 0 || id in sockets
        invariant i <= |draws| && sockets == old(sockets)
        invariant id == 0 || (i > 0 && id == draws[i - 1])
        invariant id == 0 || id in sockets ==> exists d <- draws[i..] :: d != 0 && d !in sockets
        decreases |draws| - i
      {
        ghost var d :| d in draws[i..] && d != 0 && d !in sockets;
        assert draws[i..] == [draws[i]] + draws[i + 1..];
        id := draws[i];
        i := i + 1;
        assert id == 0 || id in sockets ==> d in draws[i..];
      }
      sockets := sockets[id := socket];
    }

    method RemoveSocket(id: u32)
      modifies this`sockets
      ensures sockets == if id != 0 then old(sockets) - {id} else old(sockets)
    {
      if id != 0 {
        sockets := sockets - {id};
      }
    }

    method HandleReceiveFrom(b: seq<byte>) returns (route: Route)
      ensures route == RouteOf(sockets, acceptor != null, b)
    {
      hide U32Of;
      route := Dropped;
      if |b| >= 16 {
        var id := U32At(b, 12);
        if id == 0 {
          if acceptor != null {
            route := ToAcceptor;
          }
        } else {
          if id in sockets {
            route := ToSocket(sockets[id]);
          }
        }
      }
    }
  }

  /** Every packet sent to an open socket's id reaches that socket, and a request reaches the acceptor. */
  lemma SentReachesRegistered(sockets: map<u32, SocketRef>, hasAcceptor: bool, data: DataPacket, t: PacketType,
                              h: Header, rest: seq<byte>)
    ensures data.destination != 0 && data.destination in sockets ==>
              RouteOf(sockets, hasAcceptor, DataBytes(data)) == ToSocket(sockets[data.destination])
    ensures RouteOf(sockets, hasAcceptor, HeaderBytes(t, h) + rest) ==
            if h.destination == 0 then (if hasAcceptor then ToAcceptor else Dropped)
            else if h.destination in sockets then ToSocket(sockets[h.destination]) else Dropped
  {
    hide DecodeDestinationSocketId, DataBytes, HeaderBytes;
    RoutedToDestination(data, t, h, rest);
  }

  /** A connection request: the remote socket's id and endpoint. */
  datatype Request = Request(remoteId: u32, endpoint: int)

  datatype AcceptorState = AcceptorState(waiting: Option<SocketRef>, pending: seq<Request>)

  /** A socket offers to accept: it is given the oldest request, or waits. */
  function HandleOffer(a: AcceptorState, socket: SocketRef): (r: (AcceptorState, Option<Request>)) {
    if a.pending != [] then (a.(pending := a.pending[1..]), Some(a.pending[0]))
    else (a.(waiting := Some(socket)), None)
  }

  /** A request comes in: the waiting socket is given it, or it queues up. */
  function HandleRequest(a: AcceptorState, r: Request): (res: (AcceptorState, Option<(SocketRef, Request)>)) {
    if a.waiting.Some? then (a.(waiting := None), Some((a.waiting.value, r)))
    else (a.(pending := a.pending + [r]), None)
  }

  class Acceptor {
    const dispatcher: Dispatcher
    var waiting: Option<SocketRef>
    var pending: seq<Request>

    function State(): AcceptorState
      reads this
    {
      AcceptorState(waiting, pending)
    }

    /** Registers itself as the dispatcher's acceptor. */
    constructor (dispatcher: Dispatcher)
      requires dispatcher.acceptor == null
      modifies dispatcher`acceptor
      ensures State() == AcceptorState(None, []) && this.dispatcher == dispatcher && IsOpen()
    {
      this.dispatcher := dispatcher;
      waiting, pending := None, [];
      new;
      dispatcher.SetAcceptor(this);
    }

    predicate IsOpen()
      reads this, dispatcher
    {
      dispatcher.acceptor == this
    }

    method StartAccept(socket: SocketRef) returns (given: Option<Request>)
      requires waiting == None
      modifies this
      ensures (State(), given) == HandleOffer(old(State()), socket)
    {
      given := None;
      if pending != [] {
        given := Some(pending[0]);
        pending := pending[1..];
      } else {
        waiting := Some(socket);
      }
    }

    /**
     `given` is the socket whose peer is set to the request's, if one waits; datagrams that are no
     handshakes are ignored.
     */
    method HandleReceiveFrom(b: seq<byte>, endpoint: int) returns (given: Option<(SocketRef, Request)>)
      modifies this
      ensures match DecodeHandshake(b)
              case None => State() == old(State()) && given == None
              case Some(p) => (State(), given) == HandleRequest(old(State()), Request(p.socketId, endpoint))
    {
      hide U32Of;
      given := None;
      var packet := DecodeHandshake(b);
      if packet.Some? {
        if waiting.Some? {
          given := Some((waiting.value, Request(packet.value.socketId, endpoint)));
          waiting := None;
        } else {
          pending := pending + [Request(packet.value.socketId, endpoint)];
        }
      }
    }

    /** Drops the requests that queue and takes no more; a waiting socket stays recorded. */
    method Close()
      modifies this, dispatcher`acceptor
      ensures State() == AcceptorState(old(waiting), []) && !IsOpen()
      ensures dispatcher.acceptor == if old(IsOpen()) then null else old(dispatcher.acceptor)
    {
      pending := [];
      if IsOpen() {
        dispatcher.SetAcceptor(null);
      }
    }
  }
}

/** All sockets of a host over its lifetime: which are registered, and who is given which request. */
module HostProtocol {
  import opened MachineWords
  import opened Bytes
  import opened Packets
  import opened SessionSpec
  import opened Registries

  /** `arrived` and `handed` record the requests that came in and were given out. */
  datatype Host = Host(
    config: Config,
    registry: map<u32, SocketRef>,
    sockets: map<SocketRef, SessionState>,
    acceptor: AcceptorState,
    arrived: seq<Request>,
    handed: seq<Request>)

  datatype Step =
    | Create(socket: SocketRef)
    | Connect(socket: SocketRef, id: u32, sending: u32, mode: Mode)
    | Offer(socket: SocketRef)
    | RequestArrives(request: Request)
    | Handshake(id: u32, packet: HandshakePacket)
    | Shutdown(id: u32)
    | CloseSocket(socket: SocketRef)

  const UNUSED := SessionState(0, 0, 0, 0, 0, Client, Closed)

  predicate Enabled(h: Host, step: Step) {
    match step
    case Create(socket) => socket !in h.sockets
    case Connect(socket, id, _, _) =>
      socket in h.sockets && h.sockets[socket].phase == Closed && id != 0 && id !in h.registry
    case Offer(socket) => socket in h.sockets && h.sockets[socket].phase == Closed && h.acceptor.waiting.None?
    case RequestArrives(_) => true
    case Handshake(id, _) => id in h.registry && h.registry[id] in h.sockets
    case Shutdown(id) => id in h.registry && h.registry[id] in h.sockets
    case CloseSocket(socket) => socket in h.sockets
  }

  /** The socket's Close: an open socket is taken out of the registry under its session's id. */
  function Closing(h: Host, socket: SocketRef): Host
    requires socket in h.sockets
  {
    var s := h.sockets[socket];
    h.(registry := if s.phase != Closed then h.registry - {s.id} else h.registry,
       sockets := h.sockets[socket := Close(s)])
  }

  /** A request given to a socket sets its peer. */
  function Given(h: Host, socket: SocketRef, r: Request): Host {
    h.(sockets := if socket in h.sockets then h.sockets[socket := h.sockets[socket].(peerId := r.remoteId)]
                  else h.sockets,
       handed := h.handed + [r])
  }

  function Apply(h: Host, step: Step): Host
    requires Enabled(h, step)
  {
    match step
    case Create(socket) => h.(sockets := h.sockets[socket := UNUSED])
    case Connect(socket, id, sending, mode) =>
      h.(registry := h.registry[id := socket],
         sockets := h.sockets[socket := Open(h.sockets[socket], id, sending, mode, h.config).0])
    case Offer(socket) =>
      var (a, given) := HandleOffer(h.acceptor, socket);
      var h' := h.(acceptor := a);
      if given.Some? then Given(h', socket, given.value) else h'
    case RequestArrives(request) =>
      var (a, given) := HandleRequest(h.acceptor, request);
      var h' := h.(acceptor := a, arrived := h.arrived + [request]);
      if given.Some? then Given(h', given.value.0, given.value.1) else h'
    case Handshake(id, packet) =>
      var socket := h.registry[id];
      h.(sockets := h.sockets[socket := HandleHandshake(h.sockets[socket], packet, h.config).0])
    case Shutdown(id) => Closing(h, h.registry[id])
    case CloseSocket(socket) => Closing(h, socket)
  }

  predicate Init(h: Host) {
    && h.registry == map[] && h.sockets == map[] && h.acceptor == AcceptorState(None, [])
    && h.arrived == [] && h.handed == []
  }

  ghost predicate Run(hosts: seq<Host>, steps: seq<Step>) {
    && |hosts| == |steps| + 1
    && Init(hosts[0])
    && forall i :: 0 <= i < |steps| ==> Enabled(hosts[i], steps[i]) && hosts[i + 1] == Apply(hosts[i], steps[i])
  }

  /** The registry holds exactly the open sockets, each under its own non-zero id. */
  ghost predicate RegistryOk(h: Host) {
    && (forall id <- h.registry :: id != 0 && h.registry[id] in h.sockets
          && h.sockets[h.registry[id]].phase != Closed && h.sockets[h.registry[id]].id == id)
    && (forall k <- h.sockets :: h.sockets[k].phase != Closed ==>
          h.sockets[k].id in h.registry && h.registry[h.sockets[k].id] == k)
  }

  /** Requests are handed out once each in the order of arrival, and a socket only waits when none is queued. */
  ghost predicate QueueOk(h: Host) {
    && h.handed + h.acceptor.pending == h.arrived
    && (h.acceptor.waiting.Some? ==> h.acceptor.pending == [])
  }

  lemma HandshakeKeepsOpen(s: SessionState, p: HandshakePacket, c: Config)
    requires s.phase != Closed
    ensures var s' := HandleHandshake(s, p, c).0;
            s'.phase != Closed && s'.id == s.id
  {
  }

  lemma StepKeepsRegistry(h: Host, step: Step)
    requires RegistryOk(h) && Enabled(h, step)
    ensures RegistryOk(Apply(h, step))
  {
    hide HandleHandshake;
    if step.Handshake? {
      HandshakeKeepsOpen(h.sockets[h.registry[step.id]], step.packet, h.config);
    }
  }

  lemma StepKeepsQueue(h: Host, step: Step)
    requires QueueOk(h) && Enabled(h, step)
    ensures QueueOk(Apply(h, step))
  {
    hide HandleHandshake;
    if step.Offer? && h.acceptor.pending != [] {
      Assoc(h.handed, [h.acceptor.pending[0]], h.acceptor.pending[1..]);
      assert [h.acceptor.pending[0]] + h.acceptor.pending[1..] == h.acceptor.pending;
    } else if step.RequestArrives? {
      if h.acceptor.waiting.Some? {
        assert h.handed + [] == h.handed;
        assert h.handed + [step.request] + [] == h.handed + [step.request];
      } else {
        Assoc(h.handed, h.acceptor.pending, [step.request]);
      }
    }
  }

  /** Over every run: the registry is exact, and the acceptor is a fair queue. */
  lemma {:induction false} HostInv(hosts: seq<Host>, steps: seq<Step>, i: nat)
    requires Run(hosts, steps) && i < |hosts|
    ensures RegistryOk(hosts[i]) && QueueOk(hosts[i])
  {
    hide RegistryOk, QueueOk, Apply, Enabled;
    if i == 0 {
      InitOk(hosts[0]);
    } else {
      HostInv(hosts, steps, i - 1);
      StepKeepsRegistry(hosts[i - 1], steps[i - 1]);
      StepKeepsQueue(hosts[i - 1], steps[i - 1]);
    }
  }

  lemma InitOk(h: Host)
    requires Init(h)
    ensures RegistryOk(h) && QueueOk(h)
  {
  }

  /** Only a connect by its owner opens a socket: no packet reopens a closed one. */
  lemma ClosedStaysClosed(hosts: seq<Host>, steps: seq<Step>, i: nat, socket: SocketRef)
    requires Run(hosts, steps) && i < |steps|
    requires socket in hosts[i].sockets && hosts[i].sockets[socket].phase == Closed
    requires !(steps[i].Connect? && steps[i].socket == socket)
    ensures socket in hosts[i + 1].sockets && hosts[i + 1].sockets[socket].phase == Closed
  {
    HostInv(hosts, steps, i);
    var h, step := hosts[i], steps[i];
    assert Enabled(h, step) && hosts[i + 1] == Apply(h, step);
    hide HandleHandshake;
  }

  /** A session handed one handshake after another. */
  function Fed(s: SessionState, packets: seq<HandshakePacket>, c: Config): SessionState
    decreases |packets|
  {
    if packets == [] then s else Fed(HandleHandshake(s, packets[0], c).0, packets[1..], c)
  }

  lemma {:induction false} StaysConnected(s: SessionState, packets: seq<HandshakePacket>, c: Config)
    requires s.phase == Connected
    ensures Fed(s, packets, c).phase == Connected
    decreases |packets|
  {
    if packets != [] {
      StaysConnected(HandleHandshake(s, packets[0], c).0, packets[1..], c);
    }
  }

  /**
   Which is due to the registry alone: handed whatever handshakes, a closed session opens
   again exactly when it was a server's and one of them brings the cookie; it then connects.
   */
  lemma {:induction false} SessionAloneReopens(s: SessionState, packets: seq<HandshakePacket>, c: Config)
    requires s.phase == Closed
    ensures Fed(s, packets, c).phase ==
            if s.mode == Server && exists p <- packets :: p.synCookie == 1 then Connected else Closed
    decreases |packets|
  {
    if packets != [] {
      var s' := HandleHandshake(s, packets[0], c).0;
      assert packets == [packets[0]] + packets[1..];
      if s'.phase == Connected {
        StaysConnected(s', packets[1..], c);
      } else {
        SessionAloneReopens(s', packets[1..], c);
      }
    }
  }

  /** A closed socket has forgotten its peer: used again, it answers whoever challenges it. */
  lemma ReusedSocketForgets(s: SessionState, id: u32, sending: u32, p: HandshakePacket, c: Config)
    requires p.connectionType != ACCEPTED
    ensures var (s', response) := HandleHandshake(Open(Close(s), id, sending, Client, c).0, p, c);
            && s'.peerId == p.socketId && s'.phase == Handshaking
            && response.Some? && response.value.header.destination == p.socketId && response.value.socketId == id
  {
  }
}
