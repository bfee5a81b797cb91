/** Exactly which clients can still get connected, whatever packets have been lost. */
module HandshakeProgress {
  import opened MachineWords
  import opened Bytes
  import opened Packets
  import opened SessionSpec
  import opened HandshakeProtocol

  function Final(worlds: seq<World>): World
    requires worlds != []
  {
    worlds[|worlds| - 1]
  }

  /** On by ticks of clients, acceptances and deliveries alone. */
  ghost predicate GoesOn(worlds: seq<World>, steps: seq<Step>, more: seq<World>, moreSteps: seq<Step>) {
    && Run(worlds, steps) && Run(more, moreSteps) && [] < worlds <= more && steps <= moreSteps
    && forall i :: |steps| <= i < |moreSteps| ==>
         moreSteps[i].ClientTick? || moreSteps[i].Accept? || moreSteps[i].HearAtServer? || moreSteps[i].HearAtClient?
  }

  lemma GoesOnTrans(w1: seq<World>, s1: seq<Step>, w2: seq<World>, s2: seq<Step>, w3: seq<World>, s3: seq<Step>)
    requires GoesOn(w1, s1, w2, s2) && GoesOn(w2, s2, w3, s3)
    ensures GoesOn(w1, s1, w3, s3)
  {
    hide Run;
    forall i | |s1| <= i < |s3|
      ensures s3[i].ClientTick? || s3[i].Accept? || s3[i].HearAtServer? || s3[i].HearAtClient?
    {
      assert i < |s2| ==> s3[i] == s2[i];
    }
  }

  lemma StepOn(worlds: seq<World>, steps: seq<Step>, step: Step) returns (more: seq<World>, moreSteps: seq<Step>)
    requires Run(worlds, steps) && Enabled(Final(worlds), step)
    requires step.ClientTick? || step.Accept? || step.HearAtServer? || step.HearAtClient?
    ensures GoesOn(worlds, steps, more, moreSteps) && Final(more) == Apply(Final(worlds), step)
  {
    hide Apply, Enabled, Init;
    more, moreSteps := worlds + [Apply(Final(worlds), step)], steps + [step];
    assert more[0] == worlds[0];
    forall i | 0 <= i < |moreSteps|
      ensures Enabled(more[i], moreSteps[i]) && more[i + 1] == Apply(more[i], moreSteps[i])
    {
      if i < |steps| {
        assert more[i] == worlds[i] && more[i + 1] == worlds[i + 1] && moreSteps[i] == steps[i];
      }
    }
  }

  lemma FinalInv(worlds: seq<World>, steps: seq<Step>)
    requires Run(worlds, steps) && worlds[0].serverConfig.connectionType != ACCEPTED
    ensures Inv(Final(worlds))
  {
    RunInv(worlds, steps, |worlds| - 1);
  }

  /** An acceptance is on its way to the client. */
  ghost predicate Accepting(w: World, client: u32) {
    exists p <- w.toClient :: p.connectionType == ACCEPTED && p.header.destination == client
  }

  ghost predicate In(w: World, client: u32, phase: Phase) {
    client in w.clients && w.clients[client].session.phase == phase
  }

  /** The client has settled on a server socket that is open. */
  ghost predicate Settled(w: World, client: u32) {
    && client in w.clients && w.clients[client].chosen.Some?
    && OpenHere(w, Server, w.clients[client].chosen.value)
  }

  /** Its peer has been connected, and still is if it is open. */
  ghost predicate Paired(w: World, client: u32) {
    && In(w, client, Connected) && w.clients[client].session.peerId in w.servers
    && w.servers[w.clients[client].session.peerId].once
  }

  // Probing

  lemma Requests(w: World, client: u32)
    requires Inv(w) && In(w, client, Probing)
    ensures Enabled(w, ClientTick(client))
    ensures var w' := Apply(w, ClientTick(client));
            var request := ConnectionRequest(w.clients[client].session, w.clientConfig);
            && w'.clients == w.clients && w'.servers == w.servers && request in w'.toServer
            && request.header.destination == 0 && request.socketId == client
  {
    assert ClientOk(w, client);
  }

  lemma Challenges(w: World, request: HandshakePacket, unused: u32, sending: u32) returns (challenge: HandshakePacket)
    requires w.serverConfig.connectionType != ACCEPTED
    requires request in w.toServer && request.header.destination == 0 && unused != 0 && unused !in w.servers
    ensures Enabled(w, Accept(request, unused, sending))
    ensures var w' := Apply(w, Accept(request, unused, sending));
            && w'.clients == w.clients && OpenHere(w', Server, unused) && challenge in w'.toClient
            && challenge.header.destination == request.socketId && challenge.socketId == unused
            && challenge.connectionType != ACCEPTED
  {
    challenge := Open(FRESH.(peerId := request.socketId), unused, sending, Server, w.serverConfig).1;
  }

  lemma Settles(w: World, client: u32, challenge: HandshakePacket)
    requires Inv(w) && In(w, client, Probing) && challenge in w.toClient && challenge.connectionType != ACCEPTED
    requires challenge.header.destination == client && OpenHere(w, Server, challenge.socketId)
    ensures Enabled(w, HearAtClient(challenge))
    ensures var w' := Apply(w, HearAtClient(challenge));
            In(w', client, Handshaking) && Settled(w', client)
  {
    assert ClientOk(w, client);
  }

  lemma ProbeOn(worlds: seq<World>, steps: seq<Step>, client: u32, unused: u32, sending: u32)
    returns (more: seq<World>, moreSteps: seq<Step>)
    requires Run(worlds, steps) && worlds[0].serverConfig.connectionType != ACCEPTED
    requires In(Final(worlds), client, Probing) && unused != 0 && unused !in Final(worlds).servers
    ensures GoesOn(worlds, steps, more, moreSteps)
    ensures In(Final(more), client, Handshaking) && Settled(Final(more), client)
  {
    var w := Final(worlds);
    FinalInv(worlds, steps);
    Requests(w, client);
    var w1, s1 := StepOn(worlds, steps, ClientTick(client));
    FinalInv(w1, s1);
    var request := ConnectionRequest(w.clients[client].session, w.clientConfig);
    hide Run, Apply, Enabled, ConnectionRequest, Settled;
    InvServerType(Final(w1));
    var challenge := Challenges(Final(w1), request, unused, sending);
    var w2, s2 := StepOn(w1, s1, Accept(request, unused, sending));
    GoesOnTrans(worlds, steps, w1, s1, w2, s2);
    FinalInv(w2, s2);
    hide Inv;
    Settles(Final(w2), client, challenge);
    more, moreSteps := StepOn(w2, s2, HearAtClient(challenge));
    GoesOnTrans(worlds, steps, w2, s2, more, moreSteps);
  }

  lemma InvServerType(w: World)
    requires Inv(w)
    ensures w.serverConfig.connectionType != ACCEPTED
  {
  }

  // Shaking hands

  lemma RepeatsResponse(w: World, client: u32)
    requires Inv(w) && In(w, client, Handshaking) && Settled(w, client)
    ensures Enabled(w, ClientTick(client))
    ensures var w' := Apply(w, ClientTick(client));
            var response := CookieResponse(w.clients[client].session, w.clientConfig);
            && w'.clients == w.clients && w'.servers == w.servers && response in w'.toServer
            && response.header.destination == w.clients[client].chosen.value && response.synCookie == 1
  {
    assert ClientOk(w, client);
  }

  lemma Accepts(w: World, client: u32, response: HandshakePacket) returns (acceptance: HandshakePacket)
    requires Inv(w) && In(w, client, Handshaking) && Settled(w, client) && response in w.toServer
    requires response.header.destination == w.clients[client].chosen.value && response.synCookie == 1
    ensures Enabled(w, HearAtServer(response))
    ensures var w' := Apply(w, HearAtServer(response));
            && w'.clients == w.clients && acceptance in w'.toClient && acceptance.connectionType == ACCEPTED
            && acceptance.header.destination == client
            && (var server := w.clients[client].chosen.value;
                server in w'.servers && w'.servers[server].session.phase == Connected)
  {
    var server := w.clients[client].chosen.value;
    assert ClientOk(w, client) && ServerOk(w, server);
    acceptance := HandleHandshake(w.servers[server].session, response, w.serverConfig).1.value;
  }

  /** An acceptance that reaches an open client connects it, to a server that has been connected. */
  lemma AcceptanceConnects(w: World, client: u32, acceptance: HandshakePacket)
    requires Inv(w) && client in w.clients && w.clients[client].session.phase != Closed
    requires acceptance in w.toClient && acceptance.connectionType == ACCEPTED
    requires acceptance.header.destination == client
    ensures Enabled(w, HearAtClient(acceptance))
    ensures var w' := Apply(w, HearAtClient(acceptance));
            && w'.servers == w.servers && In(w', client, Connected)
            && w.clients[client].chosen.Some? && w'.clients[client].chosen == w.clients[client].chosen
  {
    assert ToClientOk(w, acceptance) && ClientOk(w, client) && ServerOk(w, acceptance.socketId);
  }

  lemma ShakeOn(worlds: seq<World>, steps: seq<Step>, client: u32) returns (more: seq<World>, moreSteps: seq<Step>)
    requires Run(worlds, steps) && worlds[0].serverConfig.connectionType != ACCEPTED
    requires In(Final(worlds), client, Handshaking) && Settled(Final(worlds), client)
    ensures GoesOn(worlds, steps, more, moreSteps)
    ensures In(Final(more), client, Connected) && Settled(Final(more), client)
  {
    var w := Final(worlds);
    FinalInv(worlds, steps);
    RepeatsResponse(w, client);
    var w1, s1 := StepOn(worlds, steps, ClientTick(client));
    var response := CookieResponse(w.clients[client].session, w.clientConfig);
    FinalInv(w1, s1);
    hide Run, Apply, Enabled, CookieResponse;
    var acceptance := Accepts(Final(w1), client, response);
    var w2, s2 := StepOn(w1, s1, HearAtServer(response));
    GoesOnTrans(worlds, steps, w1, s1, w2, s2);
    FinalInv(w2, s2);
    hide Inv;
    AcceptanceConnects(Final(w2), client, acceptance);
    more, moreSteps := StepOn(w2, s2, HearAtClient(acceptance));
    GoesOnTrans(worlds, steps, w2, s2, more, moreSteps);
  }

  // Together

  /** The client has settled on a server socket that is closed, and no acceptance is left on its way. */
  ghost predicate Deserted(w: World, client: u32) {
    && client in w.clients && w.clients[client].session.phase != Connected
    && w.clients[client].chosen.Some? && !Settled(w, client) && !Accepting(w, client)
  }

  lemma ConnectedPaired(worlds: seq<World>, steps: seq<Step>, client: u32)
    requires Run(worlds, steps) && worlds[0].serverConfig.connectionType != ACCEPTED
    requires In(Final(worlds), client, Connected)
    ensures Paired(Final(worlds), client)
    ensures Settled(Final(worlds), client) ==>
              Final(worlds).servers[Final(worlds).clients[client].session.peerId].session.phase == Connected
  {
    var w := Final(worlds);
    FinalInv(worlds, steps);
    assert ClientOk(w, client);
    assert ServerOk(w, w.clients[client].session.peerId);
  }

  /**
   The handshake succeeds: whatever has been lost, from every reachable state an open
   client that is not deserted can get connected, by ticks, acceptances and deliveries,
   to a server socket that has been connected; and if the one it settled on is open, or
   it has not settled yet, to one that is connected.
   */
  lemma Connects(worlds: seq<World>, steps: seq<Step>, client: u32, unused: u32, sending: u32)
    returns (more: seq<World>, moreSteps: seq<Step>)
    requires Run(worlds, steps) && worlds[0].serverConfig.connectionType != ACCEPTED
    requires client in Final(worlds).clients && Final(worlds).clients[client].session.phase != Closed
    requires !Deserted(Final(worlds), client) && unused != 0 && unused !in Final(worlds).servers
    ensures GoesOn(worlds, steps, more, moreSteps) && Paired(Final(more), client)
    ensures Final(worlds).clients[client].chosen.None? || Settled(Final(worlds), client) ==>
              Final(more).servers[Final(more).clients[client].session.peerId].session.phase == Connected
  {
    var w := Final(worlds);
    FinalInv(worlds, steps);
    assert ClientOk(w, client);
    more, moreSteps := worlds, steps;
    if w.clients[client].session.phase == Probing {
      more, moreSteps := ProbeOn(worlds, steps, client, unused, sending);
    }
    if Settled(Final(more), client) && !In(Final(more), client, Connected) {
      var w1, s1 := ShakeOn(more, moreSteps, client);
      GoesOnTrans(worlds, steps, more, moreSteps, w1, s1);
      more, moreSteps := w1, s1;
    } else if !In(Final(more), client, Connected) {
      var acceptance :| acceptance in w.toClient && acceptance.connectionType == ACCEPTED
                        && acceptance.header.destination == client;
      AcceptanceConnects(w, client, acceptance);
      more, moreSteps := StepOn(worlds, steps, HearAtClient(acceptance));
    }
    ConnectedPaired(more, moreSteps, client);
  }

  /** An acceptance comes from the server socket the client settled on. */
  lemma AcceptanceFrom(w: World, p: HandshakePacket)
    requires Inv(w) && p in w.toClient && p.connectionType == ACCEPTED
    ensures p.header.destination in w.clients && w.clients[p.header.destination].chosen == Some(p.socketId)
  {
    assert ToClientOk(w, p);
    assert ServerOk(w, p.socketId);
  }

  /** Only an open server socket sends one. */
  lemma AcceptanceSent(w: World, step: Step, p: HandshakePacket)
    requires Inv(w) && Enabled(w, step) && p in Apply(w, step).toClient && p.connectionType == ACCEPTED
    ensures p in w.toClient || OpenHere(w, Server, p.socketId)
  {
    if step.HearAtServer? {
      assert ServerOk(w, step.packet.header.destination);
    }
  }

  lemma ChosenKept(w: World, step: Step, client: u32)
    requires Inv(w) && Enabled(w, step) && client in w.clients && w.clients[client].chosen.Some?
    ensures var w' := Apply(w, step);
            && client in w'.clients && w'.clients[client].chosen == w.clients[client].chosen
            && (Settled(w', client) ==> Settled(w, client))
            && (w'.clients[client].session.phase == Connected ==>
                  w.clients[client].session.phase == Connected || Accepting(w, client))
  {
    assert ClientOk(w, client);
    assert w.clients[client].chosen.value in w.servers;
    hide Inv, ClientOk;
  }

  lemma StepDeserts(w: World, step: Step, client: u32)
    requires Inv(w) && Enabled(w, step) && Deserted(w, client)
    ensures Deserted(Apply(w, step), client)
  {
    var w' := Apply(w, step);
    StepKeeps(w, step);
    ChosenKept(w, step, client);
    hide Inv, Apply, Enabled;
    forall p <- w'.toClient | p.connectionType == ACCEPTED ensures p.header.destination != client || p in w.toClient {
      AcceptanceFrom(w', p);
      AcceptanceSent(w, step, p);
    }
  }

  /** And only such a client can: a deserted one never gets connected, in any run. */
  lemma {:induction false} DesertedNeverConnects(worlds: seq<World>, steps: seq<Step>, i: nat, j: nat, client: u32)
    requires Run(worlds, steps) && worlds[0].serverConfig.connectionType != ACCEPTED && i <= j < |worlds|
    requires Deserted(worlds[i], client)
    ensures Deserted(worlds[j], client)
  {
    hide Inv, Apply, Enabled, Deserted, Init;
    if i < j {
      DesertedNeverConnects(worlds, steps, i, j - 1, client);
      RunInv(worlds, steps, j - 1);
      StepDeserts(worlds[j - 1], steps[j - 1], client);
    }
  }
}
