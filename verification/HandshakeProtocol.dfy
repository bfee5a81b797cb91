/**
 Handshakes between the sockets of a client host and those of a server host, over a
 network that may lose, duplicate, delay and reorder packets. Every connection
 request that arrives makes the acceptor open another server socket.
 */
module HandshakeProtocol {
  import opened MachineWords
  import opened Parameters
  import opened SequenceNumbers
  import opened SlidingWindows
  import opened Bytes
  import opened Packets
  import opened SessionSpec
  import StreamProtocol

  /** A client socket, with the server socket it settled on (a record kept for the statements). */
  datatype ClientEnd = ClientEnd(session: SessionState, chosen: Option<u32>)

  /** A server socket, with the client it was opened for and whether it has ever been connected. */
  datatype ServerEnd = ServerEnd(session: SessionState, party: u32, once: bool)

  datatype World = World(
    clientConfig: Config,
    serverConfig: Config,
    clients: map<u32, ClientEnd>,
    servers: map<u32, ServerEnd>,
    toServer: set<HandshakePacket>,
    toClient: set<HandshakePacket>)

  datatype Step =
    | OpenClient(id: u32, sending: u32)
    | ClientTick(id: u32)
    | Accept(request: HandshakePacket, id: u32, sending: u32)
    | HearAtServer(packet: HandshakePacket)
    | HearAtClient(packet: HandshakePacket)
    | CloseClient(id: u32)
    | CloseServer(id: u32)
    | Lose(toServer: set<HandshakePacket>, toClient: set<HandshakePacket>)

  /** The dispatcher knows a socket, by a non-zero id that is never given out twice, while it is open. */
  predicate OpenHere(w: World, side: Mode, id: u32) {
    if side == Client then id in w.clients && w.clients[id].session.phase != Closed
    else id in w.servers && w.servers[id].session.phase != Closed
  }

  predicate Enabled(w: World, step: Step) {
    match step
    case OpenClient(id, _) => id != 0 && id !in w.clients
    case ClientTick(id) => OpenHere(w, Client, id)
    case Accept(request, id, _) =>
      request in w.toServer && request.header.destination == 0 && id != 0 && id !in w.servers
    case HearAtServer(packet) => packet in w.toServer && OpenHere(w, Server, packet.header.destination)
    case HearAtClient(packet) => packet in w.toClient && OpenHere(w, Client, packet.header.destination)
    case CloseClient(id) => OpenHere(w, Client, id)
    case CloseServer(id) => OpenHere(w, Server, id)
    case Lose(_, _) => true
  }

  const FRESH := SessionState(0, 0, 0, 0, 0, Client, Closed)

  function Posted(sent: Option<HandshakePacket>): set<HandshakePacket> {
    if sent.Some? then {sent.value} else {}
  }

  function Apply(w: World, step: Step): World
    requires Enabled(w, step)
  {
    match step
    case OpenClient(id, sending) =>
      var (s, request) := Open(FRESH, id, sending, Client, w.clientConfig);
      w.(clients := w.clients[id := ClientEnd(s, None)], toServer := w.toServer + {request})
    case ClientTick(id) =>
      w.(toServer := w.toServer + Posted(HandleTick(w.clients[id].session, w.clientConfig)))
    case Accept(request, id, sending) =>
      var (s, challenge) := Open(FRESH.(peerId := request.socketId), id, sending, Server, w.serverConfig);
      w.(servers := w.servers[id := ServerEnd(s, request.socketId, false)], toClient := w.toClient + {challenge})
    case HearAtServer(packet) =>
      var end := w.servers[packet.header.destination];
      var (s, sent) := HandleHandshake(end.session, packet, w.serverConfig);
      var end' := end.(session := s, once := end.once || s.phase == Connected);
      w.(servers := w.servers[packet.header.destination := end'],
         toClient := w.toClient + Posted(sent))
    case HearAtClient(packet) =>
      var end := w.clients[packet.header.destination];
      var (s, sent) := HandleHandshake(end.session, packet, w.clientConfig);
      var end' := ClientEnd(s, if end.chosen.None? then Some(s.peerId) else end.chosen);
      w.(clients := w.clients[packet.header.destination := end'],
         toServer := w.toServer + Posted(sent))
    case CloseClient(id) => w.(clients := w.clients[id := w.clients[id].(session := Close(w.clients[id].session))])
    case CloseServer(id) => w.(servers := w.servers[id := w.servers[id].(session := Close(w.servers[id].session))])
    case Lose(toServer, toClient) => w.(toServer := w.toServer - toServer, toClient := w.toClient - toClient)
  }

  predicate Init(w: World) {
    w.clients == map[] && w.servers == map[] && w.toServer == {} && w.toClient == {}
  }

  ghost predicate Run(worlds: seq<World>, steps: seq<Step>) {
    && |worlds| == |steps| + 1
    && Init(worlds[0])
    && forall i :: 0 <= i < |steps| ==> Enabled(worlds[i], steps[i]) && worlds[i + 1] == Apply(worlds[i], steps[i])
  }

  // The invariant

  ghost predicate ClientOk(w: World, id: u32)
    requires id in w.clients
  {
    var end := w.clients[id];
    var s := end.session;
    && id != 0 && s.id == id && s.mode == Client
    && (s.phase == Probing <==> s.phase != Closed && end.chosen.None?)
    && (s.phase != Closed ==> s.peerId == if end.chosen.Some? then end.chosen.value else 0)
    && (end.chosen.Some? ==> Opened(w, end.chosen.value, id) && s.peerType == w.serverConfig.connectionType)
    && (s.phase == Connected ==>
          && w.servers[end.chosen.value].once
          && s.receiving == w.servers[end.chosen.value].session.sending)
  }

  /** A server socket that was opened for the given client. */
  predicate Opened(w: World, server: u32, client: u32) {
    server != 0 && server in w.servers && w.servers[server].party == client
  }

  ghost predicate ServerOk(w: World, id: u32)
    requires id in w.servers
  {
    var end := w.servers[id];
    var s := end.session;
    && id != 0 && s.id == id && s.mode == Server
    && end.party != 0 && end.party in w.clients
    && (s.phase != Closed ==> s.peerId == end.party)
    && s.phase != Probing
    && (s.phase == Handshaking ==> !end.once)
    && (s.phase == Connected ==> end.once)
    && (end.once ==>
          && w.clients[end.party].chosen == Some(id)
          && s.receiving == w.clients[end.party].session.sending
          && s.peerType == w.clientConfig.connectionType)
  }

  /** Towards the server there are requests, for the acceptor, and cookie responses to the server chosen. */
  ghost predicate ToServerOk(w: World, p: HandshakePacket) {
    && p.socketId != 0 && p.socketId in w.clients
    && (p.header.destination != 0 ==>
          && w.clients[p.socketId].chosen == Some(p.header.destination)
          && p.initialSeqnum == w.clients[p.socketId].session.sending
          && p.synCookie == 1 && p.connectionType == w.clientConfig.connectionType)
  }

  /** Towards the client there are challenges, and acceptances from servers that are or were connected. */
  ghost predicate ToClientOk(w: World, p: HandshakePacket) {
    && Opened(w, p.socketId, p.header.destination)
    && (p.connectionType == ACCEPTED ==>
          w.servers[p.socketId].once && p.initialSeqnum == w.servers[p.socketId].session.sending)
    && (p.connectionType != ACCEPTED ==> p.connectionType == w.serverConfig.connectionType)
  }

  ghost predicate Inv(w: World) {
    && w.serverConfig.connectionType != ACCEPTED
    && (forall id <- w.clients :: ClientOk(w, id))
    && (forall id <- w.servers :: ServerOk(w, id))
    && (forall p <- w.toServer :: ToServerOk(w, p))
    && (forall p <- w.toClient :: ToClientOk(w, p))
  }

  // Every step keeps it

  ghost predicate ClientGrows(c: ClientEnd, c': ClientEnd) {
    c'.session.sending == c.session.sending && (c.chosen.Some? ==> c'.chosen == c.chosen)
  }

  ghost predicate ServerGrows(s: ServerEnd, s': ServerEnd) {
    s'.session.sending == s.session.sending && s'.party == s.party && (s.once ==> s'.once)
  }

  /** Choices, numbers and past connections are never taken back. */
  ghost predicate Grows(w: World, w': World) {
    && w'.clientConfig == w.clientConfig && w'.serverConfig == w.serverConfig
    && (forall id <- w.clients :: id in w'.clients && ClientGrows(w.clients[id], w'.clients[id]))
    && (forall id <- w.servers :: id in w'.servers && ServerGrows(w.servers[id], w'.servers[id]))
  }

  lemma ClientFrame(w: World, w': World, id: u32)
    requires Grows(w, w') && id in w.clients && w'.clients[id] == w.clients[id] && ClientOk(w, id)
    ensures ClientOk(w', id)
  {
  }

  lemma ServerFrame(w: World, w': World, id: u32)
    requires Grows(w, w') && id in w.servers && w'.servers[id] == w.servers[id] && ServerOk(w, id)
    ensures ServerOk(w', id)
  {
  }

  lemma PacketFrame(w: World, w': World, p: HandshakePacket)
    requires Grows(w, w')
    ensures ToServerOk(w, p) ==> ToServerOk(w', p)
    ensures ToClientOk(w, p) ==> ToClientOk(w', p)
  {
  }

  /** It is enough to look at what the step touched. */
  lemma InvFrame(w: World, w': World)
    requires Inv(w) && Grows(w, w')
    requires forall id <- w'.clients :: (id in w.clients && w'.clients[id] == w.clients[id]) || ClientOk(w', id)
    requires forall id <- w'.servers :: (id in w.servers && w'.servers[id] == w.servers[id]) || ServerOk(w', id)
    requires forall p <- w'.toServer :: p in w.toServer || ToServerOk(w', p)
    requires forall p <- w'.toClient :: p in w.toClient || ToClientOk(w', p)
    ensures Inv(w')
  {
    hide ClientOk, ServerOk, ToServerOk, ToClientOk, Grows;
    assert w'.serverConfig == w.serverConfig by {
      ConfigKept(w, w');
    }
    forall id <- w'.clients ensures ClientOk(w', id) {
      if id in w.clients && w'.clients[id] == w.clients[id] {
        ClientFrame(w, w', id);
      }
    }
    forall id <- w'.servers ensures ServerOk(w', id) {
      if id in w.servers && w'.servers[id] == w.servers[id] {
        ServerFrame(w, w', id);
      }
    }
    forall p <- w'.toServer ensures ToServerOk(w', p) {
      PacketFrame(w, w', p);
    }
    forall p <- w'.toClient ensures ToClientOk(w', p) {
      PacketFrame(w, w', p);
    }
  }

  lemma ConfigKept(w: World, w': World)
    requires Grows(w, w')
    ensures w'.serverConfig == w.serverConfig
  {
  }

  lemma OpenClientKeeps(w: World, id: u32, sending: u32)
    requires Inv(w) && Enabled(w, OpenClient(id, sending))
    ensures Inv(Apply(w, OpenClient(id, sending)))
  {
    var w' := Apply(w, OpenClient(id, sending));
    assert ClientOk(w', id);
    InvFrame(w, w');
  }

  lemma ClientTickKeeps(w: World, id: u32)
    requires Inv(w) && Enabled(w, ClientTick(id))
    ensures Inv(Apply(w, ClientTick(id)))
  {
    assert ClientOk(w, id);
    InvFrame(w, Apply(w, ClientTick(id)));
  }

  lemma AcceptKeeps(w: World, request: HandshakePacket, id: u32, sending: u32)
    requires Inv(w) && Enabled(w, Accept(request, id, sending))
    ensures Inv(Apply(w, Accept(request, id, sending)))
  {
    var w' := Apply(w, Accept(request, id, sending));
    assert ToServerOk(w, request);
    assert ServerOk(w', id);
    InvFrame(w, w');
  }

  lemma HearAtServerKeeps(w: World, packet: HandshakePacket)
    requires Inv(w) && Enabled(w, HearAtServer(packet))
    ensures Inv(Apply(w, HearAtServer(packet)))
  {
    var w' := Apply(w, HearAtServer(packet));
    var id := packet.header.destination;
    assert ToServerOk(w, packet) && ServerOk(w, id) && ClientOk(w, packet.socketId);
    assert ServerOk(w', id);
    InvFrame(w, w');
  }

  /** What a handshake does to the client that hears it. */
  lemma ClientHears(w: World, packet: HandshakePacket)
    requires Inv(w) && Enabled(w, HearAtClient(packet))
    ensures var w' := Apply(w, HearAtClient(packet));
            ClientOk(w', packet.header.destination)
            && ClientGrows(w.clients[packet.header.destination], w'.clients[packet.header.destination])
            && forall p <- w'.toServer :: p in w.toServer || ToServerOk(w', p)
  {
    assert ToClientOk(w, packet) && ClientOk(w, packet.header.destination) && ServerOk(w, packet.socketId);
    hide Inv;
  }

  lemma HearAtClientKeeps(w: World, packet: HandshakePacket)
    requires Inv(w) && Enabled(w, HearAtClient(packet))
    ensures Inv(Apply(w, HearAtClient(packet)))
  {
    ClientHears(w, packet);
    hide Inv, ClientOk, ServerOk, ToServerOk, ToClientOk, ClientGrows, HandleHandshake;
    var w' := Apply(w, HearAtClient(packet));
    GrowsBut(w, w', packet.header.destination);
    InvFrame(w, w');
  }

  /** Only the given client has changed, and only by growing. */
  lemma GrowsBut(w: World, w': World, client: u32)
    requires w' == w.(clients := w'.clients, toServer := w'.toServer) && w'.clients.Keys == w.clients.Keys
    requires client in w.clients && ClientGrows(w.clients[client], w'.clients[client])
    requires forall id <- w.clients :: id != client ==> w'.clients[id] == w.clients[id]
    ensures Grows(w, w')
  {
  }

  lemma CloseClientKeeps(w: World, id: u32)
    requires Inv(w) && Enabled(w, CloseClient(id))
    ensures Inv(Apply(w, CloseClient(id)))
  {
    assert ClientOk(w, id) && ClientOk(Apply(w, CloseClient(id)), id);
    InvFrame(w, Apply(w, CloseClient(id)));
  }

  lemma CloseServerKeeps(w: World, id: u32)
    requires Inv(w) && Enabled(w, CloseServer(id))
    ensures Inv(Apply(w, CloseServer(id)))
  {
    assert ServerOk(w, id) && ServerOk(Apply(w, CloseServer(id)), id);
    InvFrame(w, Apply(w, CloseServer(id)));
  }

  lemma LoseKeeps(w: World, toServer: set<HandshakePacket>, toClient: set<HandshakePacket>)
    requires Inv(w)
    ensures Inv(Apply(w, Lose(toServer, toClient)))
  {
    InvFrame(w, Apply(w, Lose(toServer, toClient)));
  }

  lemma StepKeeps(w: World, step: Step)
    requires Inv(w) && Enabled(w, step)
    ensures Inv(Apply(w, step))
  {
    hide Inv, Apply, Enabled;
    match step
    case OpenClient(id, sending) => OpenClientKeeps(w, id, sending);
    case ClientTick(id) => ClientTickKeeps(w, id);
    case Accept(request, id, sending) => AcceptKeeps(w, request, id, sending);
    case HearAtServer(packet) => HearAtServerKeeps(w, packet);
    case HearAtClient(packet) => HearAtClientKeeps(w, packet);
    case CloseClient(id) => CloseClientKeeps(w, id);
    case CloseServer(id) => CloseServerKeeps(w, id);
    case Lose(toServer, toClient) => LoseKeeps(w, toServer, toClient);
  }

  lemma {:induction false} RunInv(worlds: seq<World>, steps: seq<Step>, i: nat)
    requires Run(worlds, steps) && i < |worlds| && worlds[0].serverConfig.connectionType != ACCEPTED
    ensures Inv(worlds[i])
  {
    if i > 0 {
      RunInv(worlds, steps, i - 1);
      hide Inv, Apply;
      StepKeeps(worlds[i - 1], steps[i - 1]);
    }
  }

  // What it gives

  /**
   Agreement: a connected client's peer is the one server socket opened for it that
   was ever connected, still is unless it has closed since, each side receives from the
   number the other sends from, and each has learned the other's connection type.
   */
  lemma Agreement(worlds: seq<World>, steps: seq<Step>, i: nat, client: u32)
    requires Run(worlds, steps) && i < |worlds| && worlds[0].serverConfig.connectionType != ACCEPTED
    requires client in worlds[i].clients && worlds[i].clients[client].session.phase == Connected
    ensures var w := worlds[i];
            var c := w.clients[client].session;
            && c.peerId in w.servers
            && (var s := w.servers[c.peerId];
                && s.party == client && s.once
                && (s.session.phase == Connected || s.session.phase == Closed)
                && (s.session.phase == Connected ==> s.session.peerId == client)
                && c.receiving == s.session.sending
                && s.session.receiving == c.sending
                && c.peerType == w.serverConfig.connectionType
                && s.session.peerType == w.clientConfig.connectionType)
            && forall id <- w.servers :: w.servers[id].party == client && w.servers[id].once ==> id == c.peerId
  {
    var w := worlds[i];
    RunInv(worlds, steps, i);
    assert ClientOk(w, client);
    assert ServerOk(w, w.clients[client].chosen.value);
    forall id <- w.servers
      ensures w.servers[id].party == client && w.servers[id].once ==> id == w.clients[client].session.peerId
    {
      assert ServerOk(w, id);
    }
  }

  /**
   The same from the server's side: a server socket that was ever connected is the one
   its client settled on and receives from the client's number; and if that client is
   connected, it receives from this socket's number.
   */
  lemma ServerAgreement(worlds: seq<World>, steps: seq<Step>, i: nat, server: u32)
    requires Run(worlds, steps) && i < |worlds| && worlds[0].serverConfig.connectionType != ACCEPTED
    requires server in worlds[i].servers && worlds[i].servers[server].once
    ensures var w := worlds[i];
            var s := w.servers[server];
            && s.party in w.clients
            && (var c := w.clients[s.party];
                && c.chosen == Some(server)
                && s.session.receiving == c.session.sending
                && (c.session.phase == Connected ==>
                    c.session.peerId == server && c.session.receiving == s.session.sending))
  {
    var w := worlds[i];
    RunInv(worlds, steps, i);
    assert ServerOk(w, server);
    assert ClientOk(w, w.servers[server].party);
  }

  /** The stream state that one side's sender and the other side's receiver start from. */
  ghost predicate StartsAt(stream: StreamProtocol.World, sending: u32, receiving: u32) {
    && stream.first == stream.announced == sending
    && stream.sender.unacked == Window(sending, [], DEFAULT_WINDOW)
    && stream.receiver.unread == Window(receiving, [], DEFAULT_WINDOW)
    && stream.receiver.acks.items == [] && stream.receiver.acks.limit == DEFAULT_WINDOW
    && stream.receiver.lastAck == receiving
    && stream.log == [] && stream.accepted == [] && stream.delivered == []
    && stream.data == {} && stream.acks == {} && stream.answered == {} && stream.points == []
  }

  /** Hence, when they connect, both directions of the stream start out in step. */
  lemma StreamsStartTogether(worlds: seq<World>, steps: seq<Step>, i: nat, client: u32,
                             out: StreamProtocol.World, back: StreamProtocol.World)
    requires Run(worlds, steps) && i < |worlds| && worlds[0].serverConfig.connectionType != ACCEPTED
    requires client in worlds[i].clients && worlds[i].clients[client].session.phase == Connected
    requires worlds[i].clients[client].session.peerId in worlds[i].servers
    requires var c := worlds[i].clients[client].session;
             var s := worlds[i].servers[c.peerId].session;
             && c.sending < MODULUS && s.sending < MODULUS
             && StartsAt(out, c.sending, s.receiving) && StartsAt(back, s.sending, c.receiving)
    ensures StreamProtocol.Init(out) && StreamProtocol.Init(back)
  {
    Agreement(worlds, steps, i, client);
  }

  /** With the reserved value configured at the server, a challenge passes for an acceptance. */
  lemma ReservedTypeBreaksAgreement(near: Config, far: Config) returns (worlds: seq<World>, steps: seq<Step>)
    requires far.connectionType == ACCEPTED
    ensures Run(worlds, steps) && worlds[0].clientConfig == near && worlds[0].serverConfig == far && |worlds| == 4
    ensures 1 in worlds[3].clients && worlds[3].clients[1].session.phase == Connected
    ensures worlds[3].clients[1].session.peerId in worlds[3].servers
    ensures !worlds[3].servers[worlds[3].clients[1].session.peerId].once
  {
    var w0 := World(near, far, map[], map[], {}, {});
    var request := HandshakePacket(Header(0, 0, 0), 4, 0, 0, 0, 0, 1, 1, 0, near.address);
    var challenge := HandshakePacket(Header(0, 0, 1), 4, 0, 0, 0, 0, ACCEPTED, 2, 1, far.address);
    var w1 := Apply(w0, OpenClient(1, 5));
    var w2 := Apply(w1, Accept(request, 2, 9));
    assert challenge in w2.toClient;
    var w3 := Apply(w2, HearAtClient(challenge));
    worlds, steps := [w0, w1, w2, w3], [OpenClient(1, 5), Accept(request, 2, 9), HearAtClient(challenge)];
  }
}
