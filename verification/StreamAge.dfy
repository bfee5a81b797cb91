/**
 How old a packet may be. Numbers come round again after 2^31 packets, so a packet
 that is delivered late enough is taken for another. Here is exactly when that is
 harmless, and that the bounds in `Enabled` cannot be relaxed.
 */
module StreamAge {
  import opened MachineWords
  import opened Parameters
  import opened SequenceNumbers
  import opened SlidingWindows
  import opened Bytes
  import opened Packets
  import opened SenderSpec
  import opened ReceiverSpec
  import opened StreamProtocol
  import opened StreamSafety

  // Data packets

  /** Of old numbers within a cycle, the receiver's window recognises as old exactly those that meet the bound. */
  lemma OldIgnoredExactly(u: Window<Unread>, a: int)
    requires u.Bounded() && u.base - MODULUS <= a < u.base
    ensures (!u.Has(Wire(a)) && !u.Soon(Wire(a))) <==> u.Top() + MAXIMUM_WINDOW <= a + MODULUS
  {
    hide Wire, Distance;
    DistanceOfOldWire(u.base, a);
    if u.Top() <= a + MODULUS {
      DistanceOfOldWire(u.Top(), a);
    }
  }

  /** The number the receiver takes a packet for: the first from its window's start on that looks the same. */
  function TakenFor(u: Window<Unread>, n: u32): nat {
    u.base + Distance(u.base, n)
  }

  /** Where the receiver's window ends once it has made room for a packet taken for number `b`. */
  function TopFor(u: Window<Unread>, b: nat): nat {
    if u.Top() <= b < u.Top() + MAXIMUM_WINDOW then u.Top() + Min(b - u.Top() + 1, u.Room()) else u.Top()
  }

  lemma TopForExact(u: Window<Unread>, n: SeqNum)
    requires u.Bounded()
    ensures u.Top() + Reserved(u, n) == TopFor(u, TakenFor(u, n))
  {
    hide Wire, Distance;
    DistanceShifts(u.base, n, |u.items|);
  }

  /** The packet makes the window grow beyond what has been sent, or its bytes fill the slot of a packet with others. */
  ghost predicate Misread(w: World, packet: DataPacket, windowSize: nat)
    requires ReceiverOk(w)
  {
    var u := w.receiver.unread.Resize(windowSize);
    var b := TakenFor(u, packet.seqnum);
    || TopFor(u, b) > w.Top()
    || (b < TopFor(u, b) && (b < u.Top() ==> u.At(b).lost) && packet.data != w.log[b - w.first])
  }

  /** Delivering a packet ever sent, of whatever age, is sound exactly when it is not misread. */
  lemma DeliveryExact(w: World, flight: DataFlight, windowSize: nat, now: int)
    requires Inv(w) && flight in w.data
    ensures w.sender.unacked.Bounded() && w.receiver.unread.Bounded() && ReceiverOk(w)
    ensures Inv(Apply(w, HearData(flight, windowSize, now))) <==> !Misread(w, flight.packet, windowSize)
  {
    assert Carries(w, flight.packet, flight.number);
    if Misread(w, flight.packet, windowSize) {
      MisreadBreaks(w, flight.packet, windowSize, now);
    } else {
      NotMisreadKeeps(w, flight.packet, windowSize, now);
    }
  }

  lemma NotMisreadKeeps(w: World, packet: DataPacket, windowSize: nat, now: int)
    requires Inv(w) && packet.seqnum < MODULUS && !Misread(w, packet, windowSize)
    ensures Inv(WithUnread(w, HandleData(w.receiver.unread, packet, windowSize, now)))
  {
    var u := w.receiver.unread.Resize(windowSize);
    var n := packet.seqnum;
    TopForExact(u, n);
    assert u.Bounded();
    DistanceReaches(u.base, n);
    assert w.first <= u.base;
    hide Inv, Wire, Distance, Ready, Store, Reserved;
    ReserveKeeps(w, windowSize, n, now);
    StoreKeeps(WithUnread(w, Reserve(u, n, now)), packet);
  }

  lemma MisreadBreaks(w: World, packet: DataPacket, windowSize: nat, now: int)
    requires Inv(w) && packet.seqnum < MODULUS && Misread(w, packet, windowSize)
    ensures !ReceiverOk(WithUnread(w, HandleData(w.receiver.unread, packet, windowSize, now)))
  {
    var u := w.receiver.unread.Resize(windowSize);
    var n := packet.seqnum;
    var v := HandleData(w.receiver.unread, packet, windowSize, now);
    TopForExact(u, n);
    hide Wire, Distance, Ready, Reserved, StreamOk, SenderOk, FlightsOk, PointsOk;
    if TopFor(u, TakenFor(u, n)) <= w.Top() {
      var i := Distance(u.base, n);
      assert v.items[i].packet == packet && !v.items[i].lost;
      assert !Carries(WithUnread(w, v), v.items[i].packet, v.base + i);
    }
  }

  /**
   The bound cannot be relaxed: to a receiver that has all there is and has room, any
   packet up to a cycle old that does not meet it is misread.
   */
  lemma DataBoundTight(w: World, flight: DataFlight, windowSize: nat, now: int)
    requires Inv(w) && flight in w.data && w.receiver.unread.Top() == w.Top()
    requires |w.receiver.unread.items| < Min(windowSize, MAXIMUM_WINDOW)
    requires w.Top() <= flight.number + MODULUS
    ensures w.sender.unacked.Bounded() && w.receiver.unread.Bounded()
    ensures Inv(Apply(w, HearData(flight, windowSize, now))) <==> FreshData(w, flight.number)
  {
    assert Carries(w, flight.packet, flight.number);
    DeliveryExact(w, flight, windowSize, now);
    hide Wire, Distance, Inv;
    var u := w.receiver.unread;
    if flight.number < u.base {
      DistanceOfOldWire(u.base, flight.number);
    } else {
      DistanceOfWire(u.base, flight.number);
    }
  }

  // Acknowledgements

  /** Of old ack points within a cycle, the sender recognises as old exactly those that meet the bound. */
  lemma OldAckIgnoredExactly(u: Window<Unacked>, p: int)
    requires u.Bounded() && u.base - MODULUS <= p < u.base
    ensures !Acknowledges(u, Wire(p)) <==> u.Top() < p + MODULUS
  {
    hide Wire, Distance;
    DistanceOfOldWire(u.base, p);
    DistanceOfWire(u.base, u.Top());
    DistanceReaches(u.base, Wire(p));
    assert u.base + (p + MODULUS - u.base) == p + MODULUS;
  }

  /**
   Hearing an acknowledgement ever sent, of whatever age, is sound exactly when the
   number it is taken for is not between the ack point and the end of the window.
   */
  lemma HearingExact(w: World, ack: AckFlight, env: Env)
    requires Inv(w) && ack in w.acks
    ensures w.sender.unacked.Bounded() && w.receiver.unread.Bounded()
    ensures var u := w.sender.unacked;
            var k := Distance(u.base, ack.packet.seqnum);
            Inv(Apply(w, HearAck(ack, env))) <==> !(k <= |u.items| && u.base + k > w.Point())
  {
    var u := w.sender.unacked;
    var k := Distance(u.base, ack.packet.seqnum);
    assert u.Bounded() && ack.packet.seqnum == Wire(ack.point);
    AcknowledgesExactly(u, ack.packet.seqnum);
    hide Wire, Distance, DoSend, AckPoint, Readable, Flatten, Acknowledges, Inv;
    if !Acknowledges(u, ack.packet.seqnum) {
      assert Sent(w, (w.sender, None)) == w;
      NetworkFrame(w, Apply(w, HearAck(ack, env)));
    } else if u.base + k <= w.Point() {
      DropKeeps(w, k);
      DoSendKeeps(w.(sender := w.sender.(unacked := u.Drop(k))), env);
      NetworkFrame(Sent(w, HandleAck(w.sender, ack.packet.seqnum, env)), Apply(w, HearAck(ack, env)));
    } else {
      SendKeepsBase(w.sender.(unacked := u.Drop(k)), env);
      BaseBeyondPoint(Apply(w, HearAck(ack, env)));
    }
  }

  /**
   The bound cannot be relaxed: within a cycle of the ack point, an acknowledgement is
   heard soundly exactly when it meets the bound; otherwise the sender forgets packets
   that the receiver has not got, from the one it waits for.
   */
  lemma AckBoundTight(w: World, ack: AckFlight, env: Env)
    requires Inv(w) && ack in w.acks && w.Point() < ack.point + MODULUS
    ensures w.sender.unacked.Bounded() && w.receiver.unread.Bounded()
    ensures var w' := Apply(w, HearAck(ack, env));
            && (Inv(w') <==> FreshAck(w, ack.point))
            && (!FreshAck(w, ack.point) ==>
                  w.sender.unacked.base <= w.Point() < w'.sender.unacked.base == ack.point + MODULUS)
  {
    var u := w.sender.unacked;
    assert u.Bounded() && ack.packet.seqnum == Wire(ack.point) && u.base <= w.Point() && u.Top() == w.Top();
    assert ack.point <= w.Point();
    HearingExact(w, ack, env);
    AcknowledgesExactly(u, ack.packet.seqnum);
    hide Inv, Wire, Distance, DoSend, AckPoint, Acknowledges;
    if ack.point < u.base {
      DistanceOfOldWire(u.base, ack.point);
      if !FreshAck(w, ack.point) {
        SendKeepsBase(w.sender.(unacked := u.Drop(Distance(u.base, ack.packet.seqnum))), env);
      }
    } else {
      DistanceOfWire(u.base, ack.point);
    }
  }

  lemma AcknowledgesExactly(u: Window<Unacked>, n: SeqNum)
    requires u.Bounded()
    ensures Acknowledges(u, n) <==> Distance(u.base, n) <= |u.items|
  {
    hide Wire, Distance;
    DistanceOfWire(u.base, u.Top());
    DistanceReaches(u.base, n);
  }

  lemma SendKeepsBase(s: SenderState, env: Env)
    ensures DoSend(s, env).0.unacked.base == s.unacked.base
  {
    hide FirstSendable;
  }

  lemma BaseBeyondPoint(w: World)
    requires w.sender.unacked.base > w.Point()
    ensures !Inv(w)
  {
  }
}
