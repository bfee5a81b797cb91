/** Every packet of a stream is addressed to the peer, so that the peer's dispatcher hands it to the right socket. */
module StreamRouting {
  import opened MachineWords
  import opened Packets
  import opened WireFormat
  import opened Codec
  import opened SenderSpec
  import opened ReceiverSpec
  import opened StreamProtocol
  import StreamLedger
  import opened Registries

  /** The sender's peer is socket `p`, the receiver's socket `q`. */
  predicate Between(step: Step, p: u32, q: u32) {
    && (step.Write? ==> step.env.peerId == p)
    && (step.ReceiverTick? ==> step.readings.peerId == q)
  }

  ghost predicate SlotsTo(s: SenderState, p: u32) {
    forall i :: 0 <= i < |s.unacked.items| ==> s.unacked.items[i].packet.destination == p
  }

  ghost predicate Addressed(w: World, p: u32, q: u32) {
    && SlotsTo(w.sender, p)
    && (forall f <- w.data :: f.packet.destination == p)
    && (forall a <- w.acks :: a.packet.header.destination == q)
  }

  /** What is sent is one of the packets kept. */
  lemma SendsOwn(w: World, s: SenderState, env: Env, p: u32, q: u32)
    requires Addressed(w, p, q) && SlotsTo(s, p)
    ensures Addressed(Sent(w, DoSend(s, env)), p, q)
  {
    hide FirstSendable;
  }

  lemma StepAddressed(w: World, step: Step, w': World, p: u32, q: u32)
    requires Addressed(w, p, q) && Between(step, p, q) && Stepped(w, step, w')
    ensures Addressed(w', p, q)
  {
    hide DoSend, SequenceNumbers.Wire, SequenceNumbers.Distance, Acknowledges, Overdue, NamedBy, HandleData, ReadData,
      ReceiverSpec.HandleAckOfAck, Restamp, AckDue, AckPoint, ReceiverSpec.AvailableBufferSize;
    var s := w.sender;
    match step
    case Write(bytes, windowSize, dataSize, env) =>
      var u := SendLimit(s.unacked, windowSize);
      SendsOwn(w, s.(unacked := u.Push(Slots(Chunks(bytes, dataSize, u.Room()), u.Top(), env.peerId))), env, p, q);
    case HearAck(ack, env) =>
      if Acknowledges(s.unacked, ack.packet.seqnum) {
        StreamLedger.DropWithin(s.unacked, ack.packet.seqnum);
        var k := SequenceNumbers.Distance(s.unacked.base, ack.packet.seqnum);
        SendsOwn(w, s.(unacked := s.unacked.Drop(k)), env, p, q);
      }
    case HearNack(words, env) => SendsOwn(w, s.(unacked := Mark(s.unacked, NamedBy(words))), env, p, q);
    case SenderTick(env) =>
      SendsOwn(w, SenderState(Mark(s.unacked, Overdue(s.unacked, env)), PosInfin), env, p, q);
      SendsOwn(w, s, env, p, q);
    case _ =>
  }

  lemma {:induction false} RunAddressed(worlds: seq<World>, steps: seq<Step>, i: nat, p: u32, q: u32)
    requires Run(worlds, steps) && i < |worlds| && forall k :: 0 <= k < |steps| ==> Between(steps[k], p, q)
    ensures Addressed(worlds[i], p, q)
  {
    if i > 0 {
      hide Stepped, Addressed, Init;
      RunAddressed(worlds, steps, i - 1, p, q);
      StepAddressed(worlds[i - 1], steps[i - 1], worlds[i], p, q);
    }
  }

  /**
   In every run between two sockets, the peer's dispatcher routes the bytes of every data
   packet to the socket registered under the sender's peer id, and those of every
   acknowledgement to the one under the receiver's.
   */
  lemma ReachesThePeer(worlds: seq<World>, steps: seq<Step>, i: nat, p: u32, q: u32,
                       there: map<u32, SocketRef>, here: map<u32, SocketRef>, hasAcceptor: bool)
    requires Run(worlds, steps) && i < |worlds| && forall k :: 0 <= k < |steps| ==> Between(steps[k], p, q)
    requires p != 0 && p in there && q != 0 && q in here
    ensures forall f <- worlds[i].data :: RouteOf(there, hasAcceptor, DataBytes(f.packet)) == ToSocket(there[p])
    ensures forall a <- worlds[i].acks :: RouteOf(here, hasAcceptor, AckBytes(a.packet)) == ToSocket(here[q])
  {
    RunAddressed(worlds, steps, i, p, q);
    hide RouteOf, DataBytes, HeaderBytes, WordBytes, Run;
    var none := DataPacket(0, false, false, false, 0, 0, 0, []);
    forall f <- worlds[i].data ensures RouteOf(there, hasAcceptor, DataBytes(f.packet)) == ToSocket(there[p]) {
      SentReachesRegistered(there, hasAcceptor, f.packet, ACK_TYPE, Header(0, 0, 0), []);
    }
    forall a <- worlds[i].acks ensures RouteOf(here, hasAcceptor, AckBytes(a.packet)) == ToSocket(here[q]) {
      SentReachesRegistered(here, hasAcceptor, none, ACK_TYPE, a.packet.header, WordBytes(AckWords(a.packet)));
    }
  }

  /** The same of the sender's answers and the receiver's loss reports, whatever they say. */
  lemma RepliesReachThePeer(ack: AckPacket, words: seq<u32>, p: u32, q: u32,
                            there: map<u32, SocketRef>, here: map<u32, SocketRef>, hasAcceptor: bool)
    requires p != 0 && p in there && q != 0 && q in here
    ensures RouteOf(there, hasAcceptor, AckOfAckBytes(AnswerTo(ack, p))) == ToSocket(there[p])
    ensures RouteOf(here, hasAcceptor, NackBytes(Header(0, 0, q), words)) == ToSocket(here[q])
  {
    hide RouteOf, HeaderBytes, WordBytes;
    var none := DataPacket(0, false, false, false, 0, 0, 0, []);
    assert AckOfAckBytes(AnswerTo(ack, p)) == HeaderBytes(ACK_OF_ACK_TYPE, AnswerTo(ack, p).header) + [];
    SentReachesRegistered(there, hasAcceptor, none, ACK_OF_ACK_TYPE, AnswerTo(ack, p).header, []);
    SentReachesRegistered(here, hasAcceptor, none, NEGATIVE_ACK_TYPE, Header(0, 0, q), WordBytes(words));
  }
}
