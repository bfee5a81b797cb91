/** What every run of the stream protocol guarantees. */
module StreamTheorems {
  import opened Parameters
  import opened SequenceNumbers
  import opened SlidingWindows
  import opened Bytes
  import opened Packets
  import opened SenderSpec
  import opened ReceiverSpec
  import opened StreamProtocol
  import opened StreamSafety

  lemma {:induction false} RunInv(worlds: seq<World>, steps: seq<Step>, i: nat)
    requires Run(worlds, steps) && i < |worlds|
    ensures Inv(worlds[i])
  {
    hide Inv, Apply;
    if i == 0 {
      InitInv(worlds[0]);
    } else {
      RunInv(worlds, steps, i - 1);
      assert Stepped(worlds[i - 1], steps[i - 1], worlds[i]);
      StepKeeps(worlds[i - 1], steps[i - 1]);
    }
  }

  /**
   Reliable in-order delivery: whatever the network does, at every moment the bytes
   read so far are a prefix of the bytes accepted for sending.
   */
  lemma ReliableDelivery(worlds: seq<World>, steps: seq<Step>, i: nat)
    requires Run(worlds, steps) && i < |worlds|
    ensures worlds[i].delivered <= worlds[i].accepted
  {
    hide Apply, Enabled, SenderOk, ReceiverOk, FlightsOk, PointsOk, Readable, Flatten, AckPoint;
    var w := worlds[i];
    RunInv(worlds, steps, i);
    var k := w.Point() - w.first;
    FlattenConcat(w.log[..k], w.log[k..]);
    assert w.log[..k] + w.log[k..] == w.log;
  }

  /** The ack point never moves back, and bytes delivered stay delivered. */
  lemma {:induction false} NothingGoesBack(worlds: seq<World>, steps: seq<Step>, i: nat, j: nat)
    requires Run(worlds, steps) && i <= j < |worlds|
    ensures worlds[i].Point() <= worlds[j].Point()
    ensures worlds[i].delivered <= worlds[j].delivered
    ensures worlds[i].accepted <= worlds[j].accepted
  {
    hide Inv, Apply, AckPoint;
    if i < j {
      NothingGoesBack(worlds, steps, i, j - 1);
      RunInv(worlds, steps, j - 1);
      assert Stepped(worlds[j - 1], steps[j - 1], worlds[j]);
      StepKeeps(worlds[j - 1], steps[j - 1]);
      StreamsGrow(worlds[j - 1], steps[j - 1]);
    }
  }

  lemma StreamsGrow(w: World, step: Step)
    requires w.sender.unacked.Bounded() && w.receiver.unread.Bounded()
    ensures w.delivered <= Apply(w, step).delivered && w.accepted <= Apply(w, step).accepted
  {
    hide AddData, HandleAck, HandleNegativeAck, HandleTick, SendAck, HandleData, ReadData, FirstBytes, Last,
      Restamp, Chunks, ReceiverSpec.HandleAckOfAck;
  }

  /**
   Ack safety: the sender's window starts no later than the ack point, so it still
   holds every packet the peer lacks, and the receiver never runs ahead of the sender.
   */
  lemma AckSafety(worlds: seq<World>, steps: seq<Step>, i: nat)
    requires Run(worlds, steps) && i < |worlds|
    ensures var w := worlds[i];
            w.sender.unacked.base <= w.Point() <= w.receiver.unread.Top() <= w.sender.unacked.Top()
  {
    hide Apply, Enabled, StreamOk, FlightsOk, PointsOk;
    RunInv(worlds, steps, i);
    PointInWindow(worlds[i]);
  }

  /**
   The unanswered acknowledgements were made for ack points that never go back, and none is beyond
   the present one.
   */
  lemma AckPointsInOrder(worlds: seq<World>, steps: seq<Step>, i: nat)
    requires Run(worlds, steps) && i < |worlds|
    ensures Matched(worlds[i].receiver.acks.items, worlds[i].points, worlds[i].Point())
  {
    RunInv(worlds, steps, i);
  }

  /**
   Answering entry number `a` retires exactly the entries up to and including it; a number not in the
   window, nothing.
   */
  lemma AckOfAckExact(acks: Window<AckEntry>, a: nat)
    requires acks.Bounded() && acks.Top() - MODULUS <= a < acks.base + MODULUS
    ensures var left := ReceiverSpec.HandleAckOfAck(acks, Wire(a));
            if acks.base <= a < acks.Top()
            then left.base == a + 1 && left.Top() == acks.Top() && left.items == acks.items[a + 1 - acks.base..]
            else left == acks
  {
    HasExact(acks, a);
    hide Wire, Distance;
  }

  /** A tick that is not too early leaves nothing unannounced: the ack point is the last one sent, or is sent now. */
  lemma TickAnnounces(r: ReceiverState, env: Readings)
    requires r.ackSentTime < env.now
    ensures var (r', ack) := SendAck(r, env);
            && r'.lastAck == Wire(AckPoint(r.unread))
            && (Wire(AckPoint(r.unread)) != r.lastAck ==> ack.Some?)
            && (ack.Some? ==> ack.value.seqnum == Wire(AckPoint(r.unread)) && r'.acks.items != []
                              && r'.acks.items[|r'.acks.items| - 1] == AckEntry(ack.value, env.now)
                              && ack.value.header.additionalInfo == Wire(r'.acks.Top() - 1))
  {
    hide Wire, Ready;
  }

  /** A flushed sender's peer holds every accepted byte: read, or readable without a gap. */
  lemma FlushedMeansReceived(worlds: seq<World>, steps: seq<Step>, i: nat)
    requires Run(worlds, steps) && i < |worlds| && worlds[i].sender.unacked.items == []
    ensures worlds[i].delivered + Readable(worlds[i].receiver.unread.items) == worlds[i].accepted
  {
    var w := worlds[i];
    RunInv(worlds, steps, i);
    PointInWindow(w);
    assert w.log[..w.Point() - w.first] == w.log;
  }

  /** No unfillable hole: every slot the receiver waits for is still in the sender's window, with its bytes. */
  lemma NoUnfillableHole(worlds: seq<World>, steps: seq<Step>, i: nat, a: nat)
    requires Run(worlds, steps) && i < |worlds|
    requires var u := worlds[i].receiver.unread;
             u.base <= a < u.Top() && u.At(a).lost
    ensures var w := worlds[i];
            && w.sender.unacked.base <= a < w.sender.unacked.Top()
            && Carries(w, w.sender.unacked.At(a).packet, a)
  {
    var w := worlds[i];
    RunInv(worlds, steps, i);
    hide Wire, Distance;
    var s := w.sender.unacked;
    assert w.Point() <= a;
    assert Carries(w, s.items[a - s.base].packet, s.base + (a - s.base));
  }

  /**
   Window geometry: a packet the sender may send is, by its wire number alone, one
   the receiver has consumed, has a slot for, or recognises as coming soon.
   */
  lemma WindowGeometry(worlds: seq<World>, steps: seq<Step>, i: nat, a: nat)
    requires Run(worlds, steps) && i < |worlds|
    requires worlds[i].sender.unacked.base <= a < worlds[i].sender.unacked.Top()
    ensures var u := worlds[i].receiver.unread;
            if a < u.base then !u.Has(Wire(a)) && !u.Soon(Wire(a))
            else if a < u.Top() then u.Has(Wire(a)) && !u.Soon(Wire(a)) && Distance(u.base, Wire(a)) == a - u.base
            else !u.Has(Wire(a)) && u.Soon(Wire(a))
  {
    var w := worlds[i];
    RunInv(worlds, steps, i);
    SpanBounded(w);
    PointInWindow(w);
    hide Wire, Distance, Inv;
    HasExact(w.receiver.unread, a);
    SoonExact(w.receiver.unread, a);
  }

  /** Hence outstanding data is only ever refused for want of room: else it is consumed, or in its slot afterwards. */
  lemma RefusedOnlyWhenFull(worlds: seq<World>, steps: seq<Step>, i: nat, a: nat, windowSize: nat, now: int)
    requires Run(worlds, steps) && i < |worlds|
    requires worlds[i].sender.unacked.base <= a < worlds[i].sender.unacked.Top()
    ensures var w := worlds[i];
            var u := HandleData(w.receiver.unread, w.sender.unacked.At(a).packet, windowSize, now);
            a < u.base || (a < u.Top() && !u.At(a).lost) || u.Full()
  {
    var w := worlds[i];
    RunInv(worlds, steps, i);
    SpanBounded(w);
    PointInWindow(w);
    var s := w.sender.unacked;
    assert Carries(w, s.items[a - s.base].packet, s.base + (a - s.base));
    hide Inv, Wire, Distance;
    Lands(w.receiver.unread, s.At(a).packet, a, windowSize, now);
  }

  /** Where a packet numbered `a`, not more than a window behind or ahead, ends up. */
  lemma Lands(w: Window<Unread>, packet: DataPacket, a: nat, windowSize: nat, now: int)
    requires w.Bounded() && packet.seqnum == Wire(a)
    requires w.Top() - MODULUS / 2 <= a < w.Top() + MAXIMUM_WINDOW
    ensures var u := HandleData(w, packet, windowSize, now);
            && u.base == w.base && u.limit == w.Resize(windowSize).limit
            && |u.items| == |w.items| + (if a < w.Top() then 0 else Min(a - w.Top() + 1, w.Resize(windowSize).Room()))
            && (a < u.base || (a < u.Top() && !u.At(a).lost) || (u.Full() && u.Top() <= a))
            && forall i :: 0 <= i < |w.items| && !w.items[i].lost ==> u.items[i] == w.items[i]
  {
    hide Wire, Distance;
    var r := w.Resize(windowSize);
    SoonExact(r, a);
    var u := Reserve(r, packet.seqnum, now);
    HasExact(u, a);
  }
}
