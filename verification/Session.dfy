/** One end of the connection handshake, as a function of values. */
module SessionSpec {
  import opened MachineWords
  import opened Parameters
  import opened Bytes
  import opened Packets

  datatype Mode = Client | Server

  datatype Phase = Closed | Probing | Handshaking | Connected

  /** `peerId` belongs to the socket's peer object, which the session shares. */
  datatype SessionState = SessionState(
    id: u32,
    peerId: u32,
    sending: u32,
    receiving: u32,
    peerType: u32,
    mode: Mode,
    phase: Phase)

  /** The configured connection type, and the address written into handshakes (opaque here). */
  datatype Config = Config(connectionType: u32, address: seq<byte>)

  const ACCEPTED: u32 := 0xffff_ffff

  function ConnectionRequest(s: SessionState, c: Config): HandshakePacket {
    HandshakePacket(Header(0, 0, 0), 4, 0, 0, 0, 0, 1, s.id, 0, c.address)
  }

  function CookieChallenge(s: SessionState, c: Config): HandshakePacket {
    HandshakePacket(Header(0, 0, s.peerId), 4, 0, 0, 0, 0, c.connectionType, s.id, 1, c.address)
  }

  function CookieResponse(s: SessionState, c: Config): HandshakePacket {
    HandshakePacket(
      Header(0, 0, s.peerId), 4, 0, s.sending, MAX_SIZE, MAXIMUM_WINDOW, c.connectionType, s.id, 1, c.address)
  }

  function ConnectionAccepted(s: SessionState, c: Config): HandshakePacket {
    HandshakePacket(Header(0, 0, s.peerId), 4, 0, s.sending, MAX_SIZE, MAXIMUM_WINDOW, ACCEPTED, s.id, 0, c.address)
  }

  function Open(s: SessionState, id: u32, sending: u32, mode: Mode, c: Config): (r: (SessionState, HandshakePacket)) {
    if mode == Client then
      var s' := s.(id := id, sending := sending, mode := mode, phase := Probing);
      (s', ConnectionRequest(s', c))
    else
      var s' := s.(id := id, sending := sending, mode := mode, phase := Handshaking);
      (s', CookieChallenge(s', c))
  }

  function HandleHandshake(s: SessionState, p: HandshakePacket, c: Config):
    (r: (SessionState, Option<HandshakePacket>))
  {
    var s := if s.peerId == 0 then s.(peerId := p.socketId) else s;
    if s.mode == Client then
      if s.phase == Probing || s.phase == Handshaking then
        if p.connectionType == ACCEPTED then (s.(phase := Connected, receiving := p.initialSeqnum), None)
        else
          var s' := s.(phase := Handshaking, peerType := p.connectionType);
          (s', Some(CookieResponse(s', c)))
      else (s, None)
    else if s.phase == Connected then (s, Some(ConnectionAccepted(s, c)))
    else if p.synCookie == 1 then
      var s' := s.(phase := Connected, peerType := p.connectionType, receiving := p.initialSeqnum);
      (s', Some(ConnectionAccepted(s', c)))
    else (s, Some(CookieChallenge(s, c)))
  }

  function HandleTick(s: SessionState, c: Config): Option<HandshakePacket> {
    if s.mode == Client && s.phase == Probing then Some(ConnectionRequest(s, c))
    else if s.mode == Client && s.phase == Handshaking then Some(CookieResponse(s, c))
    else None
  }

  /** The socket's close: the session closes and forgets its peer. */
  function Close(s: SessionState): SessionState {
    s.(phase := Closed, peerId := 0)
  }
}

/** One end of the connection handshake, as the program runs it. */
module Sessions {
  import opened MachineWords
  import opened Bytes
  import opened Packets
  import opened SessionSpec

  class Session {
    const config: Config
    var id: u32
    var peerId: u32
    var sending: u32
    var receiving: u32
    var peerType: u32
    var mode: Mode
    var phase: Phase

    constructor (config: Config)
      ensures State() == SessionState(0, 0, 0, 0, 0, Client, Closed) && this.config == config
    {
      this.config := config;
      id, peerId, sending, receiving, peerType := 0, 0, 0, 0, 0;
      mode, phase := Client, Closed;
    }

    function State(): SessionState
      reads this
    {
      SessionState(id, peerId, sending, receiving, peerType, mode, phase)
    }

    method Open(id: u32, sending: u32, mode: Mode) returns (sent: HandshakePacket)
      requires id != 0
      modifies this
      ensures (State(), sent) == SessionSpec.Open(old(State()), id, sending, mode, config)
    {
      this.id := id;
      this.sending := sending;
      this.mode := mode;
      if mode == Client {
        phase := Probing;
        sent := ConnectionRequest(State(), config);
      } else {
        phase := Handshaking;
        sent := CookieChallenge(State(), config);
      }
    }

    method HandleHandshake(p: HandshakePacket) returns (sent: Option<HandshakePacket>)
      modifies this
      ensures (State(), sent) == SessionSpec.HandleHandshake(old(State()), p, config)
    {
      sent := None;
      if peerId == 0 {
        peerId := p.socketId;
      }
      if mode == Client {
        if phase == Probing || phase == Handshaking {
          phase := Handshaking;
          if p.connectionType == ACCEPTED {
            phase := Connected;
            receiving := p.initialSeqnum;
          } else {
            peerType := p.connectionType;
            sent := Some(CookieResponse(State(), config));
          }
        }
      } else {
        if phase == Connected {
          sent := Some(ConnectionAccepted(State(), config));
        } else if p.synCookie == 1 {
          phase := Connected;
          peerType := p.connectionType;
          receiving := p.initialSeqnum;
          sent := Some(ConnectionAccepted(State(), config));
        } else {
          sent := Some(CookieChallenge(State(), config));
        }
      }
    }

    /** What the socket does to its session and peer when it closes. */
    method Close()
      modifies this
      ensures State() == SessionSpec.Close(old(State()))
    {
      phase := Closed;
      peerId := 0;
    }

    method HandleTick() returns (sent: Option<HandshakePacket>)
      ensures sent == SessionSpec.HandleTick(State(), config)
    {
      sent := None;
      if mode == Client {
        if phase == Probing {
          sent := Some(ConnectionRequest(State(), config));
        } else if phase == Handshaking {
          sent := Some(CookieResponse(State(), config));
        }
      }
    }
  }
}
