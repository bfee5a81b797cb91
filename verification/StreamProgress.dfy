/** What retransmission achieves when the network is kind. */
module StreamProgress {
  import opened MachineWords
  import opened Parameters
  import opened SequenceNumbers
  import opened SlidingWindows
  import opened Bytes
  import opened Packets
  import opened SenderSpec
  import opened ReceiverSpec
  import opened StreamProtocol
  import opened StreamSafety
  import opened StreamTheorems
  import opened NackExchange

  // Sending what is lost

  /** The packets waiting to be sent, in sequence order. */
  function Waiting(items: seq<Unacked>): seq<DataPacket> {
    if items == [] then []
    else if items[0].lost then [items[0].packet] + Waiting(items[1..])
    else Waiting(items[1..])
  }

  /** `k` calls of DoSend in a row: the final state and what went out. */
  function SendRepeatedly(s: SenderState, env: Env, k: nat): (r: (SenderState, seq<DataPacket>))
    decreases k
  {
    if k == 0 then (s, [])
    else
      var (s', sent) := DoSend(s, env);
      var (s'', more) := SendRepeatedly(s', env, k - 1);
      (s'', (if sent.Some? then [sent.value] else []) + more)
  }

  lemma {:induction false} SendTakesFirst(items: seq<Unacked>, sends: DataPacket -> bool, now: int)
    requires forall p :: sends(p)
    ensures var i := FirstSendable(items, sends);
            if i < |items| then
              Waiting(items) == [items[i].packet] + Waiting(items[i := items[i].(lost := false, lastSend := At(now))])
            else Waiting(items) == []
  {
    var i := FirstSendable(items, sends);
    if items != [] {
      if items[0].lost {
        assert items[0 := items[0].(lost := false, lastSend := At(now))][1..] == items[1..];
      } else {
        SendTakesFirst(items[1..], sends, now);
        assert i == 1 + FirstSendable(items[1..], sends);
        if i < |items| {
          var u := items[i].(lost := false, lastSend := At(now));
          assert items[i := u][0] == items[0] && items[i := u][1..] == items[1..][i - 1 := u];
        }
      }
    }
  }

  /** If sends succeed, exactly as many calls as there are lost packets send them all, in sequence order. */
  lemma {:induction false} AllWaitingSent(s: SenderState, env: Env)
    requires forall p :: env.sends(p)
    ensures var (s', sent) := SendRepeatedly(s, env, |Waiting(s.unacked.items)|);
            && sent == Waiting(s.unacked.items)
            && Waiting(s'.unacked.items) == []
            && DoSend(s', env).1 == None
    decreases |Waiting(s.unacked.items)|
  {
    var items := s.unacked.items;
    SendTakesFirst(items, env.sends, env.now);
    if Waiting(items) != [] {
      var (s', sent) := DoSend(s, env);
      AllWaitingSent(s', env);
    }
  }

  lemma {:induction false} LostWaits(items: seq<Unacked>, i: nat)
    requires i < |items| && items[i].lost
    ensures items[i].packet in Waiting(items)
  {
    if i > 0 {
      LostWaits(items[1..], i - 1);
    }
  }

  /**
   A tick after the timeout puts every overdue packet back in line: what it sends and what still
   waits are those in line.
   */
  lemma TickResends(s: SenderState, env: Env)
    requires forall p :: env.sends(p)
    requires TimedOut(s.sendTimeout, env) || (s.sendTimeout.At? && s.sendTimeout.time <= env.now)
    ensures var (s', sent) := SenderSpec.HandleTick(s, env);
            var line := Mark(s.unacked, Overdue(s.unacked, env)).items;
            && (if sent.Some? then [sent.value] else []) + Waiting(s'.unacked.items) == Waiting(line)
            && forall i :: 0 <= i < |s.unacked.items| ==>
                 line[i].packet == s.unacked.items[i].packet &&
                 (line[i].lost <==> s.unacked.items[i].lost
                                    || StrictlyTimedOut(s.unacked.items[i].lastSend.Plus(env.timeout), env))
  {
    assert TimedOut(s.sendTimeout, env);
    hide TimedOut, StrictlyTimedOut, Waiting, FirstSendable, Overdue;
    var line := Mark(s.unacked, Overdue(s.unacked, env)).items;
    SendTakesFirst(line, env.sends, env.now);
    assert [] + Waiting(line) == Waiting(line);
    forall i | 0 <= i < |s.unacked.items|
      ensures line[i].lost <==> s.unacked.items[i].lost
                                || StrictlyTimedOut(s.unacked.items[i].lastSend.Plus(env.timeout), env)
    {
      OverdueAt(s.unacked, env, i);
    }
  }

  /** A tick before the timeout puts nothing back in line. */
  lemma TickEarly(s: SenderState, env: Env)
    requires (forall p :: env.sends(p)) && s.sendTimeout.At? && env.now < s.sendTimeout.time
    ensures var (s', sent) := SenderSpec.HandleTick(s, env);
            (if sent.Some? then [sent.value] else []) + Waiting(s'.unacked.items) == Waiting(s.unacked.items)
  {
    assert !TimedOut(s.sendTimeout, env);
    SendTakesFirst(s.unacked.items, env.sends, env.now);
    hide Waiting, FirstSendable, TimedOut;
    assert [] + Waiting(s.unacked.items) == Waiting(s.unacked.items);
  }

  /**
   A packet on its own, sent at time `t` and with the timeout set by it, is sent again by a
   tick exactly when more than the timeout has passed since.
   */
  lemma LoneResentExactly(s: SenderState, env: Env, t: int)
    requires (forall p :: env.sends(p)) && |s.unacked.items| == 1
    requires s.unacked.items[0].lastSend == At(t) && !s.unacked.items[0].lost && s.sendTimeout == At(t + env.timeout)
    ensures SenderSpec.HandleTick(s, env).1 ==
            if env.now - t > env.timeout then Some(s.unacked.items[0].packet) else None
  {
    OverdueAt(s.unacked, env, 0);
    hide Overdue;
  }

  /**
   Repair: when the receiver's loss report reaches the sender of the same moment, the
   packets it then sends include, for every slot reported missing, that slot's bytes.
   */
  lemma ReportedHolesResent(worlds: seq<World>, steps: seq<Step>, i: nat, words: seq<u32>, readings: Readings,
                            env: Env, a: nat)
    requires Run(worlds, steps) && i < |worlds| && (forall p :: env.sends(p))
    requires Reports(words, worlds[i].receiver.unread, readings)
    requires var u := worlds[i].receiver.unread;
             u.base <= a < u.Top() && u.At(a).Missing(readings.now, readings.receiveTimeout)
    ensures var w := worlds[i];
            var marked := w.sender.(unacked := Mark(w.sender.unacked, NamedBy(words)));
            exists p <- SendRepeatedly(marked, env, |Waiting(marked.unacked.items)|).1 :: Carries(w, p, a)
  {
    var w := worlds[i];
    var s := w.sender.unacked;
    RunInv(worlds, steps, i);
    NoUnfillableHole(worlds, steps, i, a);
    SpanBounded(w);
    InvWindows(w);
    PointInWindow(w);
    hide Inv, Mark, NamedBy, Reports, Carries, Waiting, SendRepeatedly, Run;
    ReportMarksExactly(words, w.receiver.unread, readings, s, a);
    var marked := w.sender.(unacked := Mark(s, NamedBy(words)));
    LostWaits(marked.unacked.items, a - s.base);
    AllWaitingSent(marked, env);
  }

  // Delivering a window

  /** The receiver is done with number `a`, or has it. */
  ghost predicate Got(u: Window<Unread>, a: nat) {
    a < u.base || (a < u.Top() && !u.At(a).lost)
  }

  /** The receiver's limit leaves room for everything the sender has numbered. */
  ghost predicate HasRoom(w: World, windowSize: nat) {
    w.Top() <= w.receiver.unread.base + Min(windowSize, MAXIMUM_WINDOW)
  }

  lemma HearDataGets(w: World, flight: DataFlight, windowSize: nat, now: int)
    requires Inv(w) && Enabled(w, HearData(flight, windowSize, now)) && HasRoom(w, windowSize)
    requires w.sender.unacked.base <= flight.number
    ensures var w' := Apply(w, HearData(flight, windowSize, now));
            && Inv(w') && HasRoom(w', windowSize)
            && w'.sender == w.sender && w'.log == w.log && w'.first == w.first && w'.data == w.data
            && Got(w'.receiver.unread, flight.number)
            && forall a: nat :: Got(w.receiver.unread, a) ==> Got(w'.receiver.unread, a)
  {
    HearDataKeeps(w, flight, windowSize, now);
    assert Carries(w, flight.packet, flight.number);
    SpanBounded(w);
    PointInWindow(w);
    InvWindows(w);
    hide Inv, Wire, Distance, HandleData, Got, Carries;
    LandsGot(w.receiver.unread, flight.packet, flight.number, windowSize, now, w.Top());
  }

  lemma LandsGot(w: Window<Unread>, packet: DataPacket, a: nat, windowSize: nat, now: int, top: nat)
    requires w.Bounded() && packet.seqnum == Wire(a)
    requires w.Top() - MODULUS / 2 <= a < top <= w.base + Min(windowSize, MAXIMUM_WINDOW)
    ensures var u := HandleData(w, packet, windowSize, now);
            && u.base == w.base && Got(u, a)
            && forall b: nat :: Got(w, b) ==> Got(u, b)
  {
    hide Wire, Distance, HandleData;
    Lands(w, packet, a, windowSize, now);
    var u := HandleData(w, packet, windowSize, now);
    forall b: nat | Got(w, b) ensures Got(u, b) {
      if w.base <= b {
        assert u.items[b - w.base] == w.items[b - w.base];
      }
    }
  }

  /** Deliveries, in the given order. */
  ghost function DeliverAll(w: World, flights: seq<DataFlight>, windowSize: nat, now: int): World
    requires w.sender.unacked.Bounded() && w.receiver.unread.Bounded()
    decreases |flights|
  {
    if flights == [] then w
    else
      var w' := Apply(w, HearData(flights[0], windowSize, now));
      if w'.receiver.unread.Bounded() then DeliverAll(w', flights[1..], windowSize, now) else w'
  }

  ghost predicate Outstanding(w: World, f: DataFlight) {
    f in w.data && w.sender.unacked.base <= f.number
  }

  lemma {:induction false} DeliverAllGets(w: World, flights: seq<DataFlight>, windowSize: nat, now: int)
    requires Inv(w) && HasRoom(w, windowSize) && forall f <- flights :: Outstanding(w, f)
    ensures w.sender.unacked.Bounded() && w.receiver.unread.Bounded()
    ensures var w' := DeliverAll(w, flights, windowSize, now);
            && Inv(w') && w'.sender == w.sender && w'.log == w.log && w'.first == w.first
            && (forall f <- flights :: Got(w'.receiver.unread, f.number))
            && forall a: nat :: Got(w.receiver.unread, a) ==> Got(w'.receiver.unread, a)
    decreases |flights|
  {
    hide Got, HasRoom, Inv, Apply, FreshData;
    InvWindows(w);
    if flights != [] {
      var f := flights[0];
      assert Outstanding(w, f);
      OutstandingFresh(w, f);
      HearDataGets(w, f, windowSize, now);
      var w' := Apply(w, HearData(f, windowSize, now));
      InvWindows(w');
      forall g <- flights[1..] ensures Outstanding(w', g) {
        assert Outstanding(w, g);
      }
      DeliverAllGets(w', flights[1..], windowSize, now);
      assert flights == [f] + flights[1..];
    }
  }

  lemma OutstandingFresh(w: World, f: DataFlight)
    requires Inv(w) && Outstanding(w, f)
    ensures FreshData(w, f.number)
  {
  }

  ghost predicate Includes(flights: seq<DataFlight>, a: nat) {
    exists f <- flights :: f.number == a
  }

  /** A receiver that has all there is acknowledges all there is. */
  lemma HavingAll(w: World)
    requires Inv(w)
    requires forall a: nat :: w.sender.unacked.base <= a < w.sender.unacked.Top() ==> Got(w.receiver.unread, a)
    ensures w.Point() == w.Top()
  {
    hide StreamOk, FlightsOk, PointsOk;
    PointInWindow(w);
    assert !Got(w.receiver.unread, w.Point());
  }

  lemma FinalAckFlushes(s: SenderState, env: Env)
    requires s.unacked.Bounded()
    ensures SenderSpec.HandleAck(s, Wire(s.unacked.Top()), env).0.unacked.items == []
  {
    hide Wire;
    DistanceOfWire(s.unacked.base, s.unacked.Top());
  }

  /**
   Once every outstanding packet has been delivered, in any order and any number of
   times, to a receiver with room, the acknowledgement of its ack point flushes the sender.
   */
  lemma DeliveryFlushes(w: World, flights: seq<DataFlight>, windowSize: nat, now: int, env: Env)
    requires Inv(w) && HasRoom(w, windowSize) && forall f <- flights :: Outstanding(w, f)
    requires forall a: nat :: w.sender.unacked.base <= a < w.sender.unacked.Top() ==> Includes(flights, a)
    requires w.sender.unacked.Bounded() && w.receiver.unread.Bounded()
    ensures var w' := DeliverAll(w, flights, windowSize, now);
            && w'.Point() == w.Top()
            && SenderSpec.HandleAck(w.sender, Wire(w'.Point()), env).0.unacked.items == []
  {
    DeliverAllGets(w, flights, windowSize, now);
    var w' := DeliverAll(w, flights, windowSize, now);
    assert w.sender.unacked.Top() == w.Top();
    hide DeliverAll, Got, HasRoom, Inv, Wire, Distance, SenderSpec.HandleAck, AckPoint;
    forall a: nat | w'.sender.unacked.base <= a < w'.sender.unacked.Top() ensures Got(w'.receiver.unread, a) {
      assert Includes(flights, a);
    }
    HavingAll(w');
    FinalAckFlushes(w.sender, env);
  }
}
