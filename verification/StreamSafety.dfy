/** Every step keeps the invariant of the stream protocol. */
module StreamSafety {
  import opened MachineWords
  import opened Parameters
  import opened SequenceNumbers
  import opened SlidingWindows
  import opened Bytes
  import opened Packets
  import opened SenderSpec
  import opened ReceiverSpec
  import opened StreamFacts
  import opened StreamProtocol

  // Sender steps

  /** Sending puts a packet of the window on the network, under its own number. */
  lemma LaunchedCarries(w: World, env: Env)
    requires SenderOk(w)
    ensures var (s, sent) := DoSend(w.sender, env);
            && s.unacked.base == w.sender.unacked.base && s.unacked.limit == w.sender.unacked.limit
            && |s.unacked.items| == |w.sender.unacked.items|
            && (forall i :: 0 <= i < |s.unacked.items| ==>
                s.unacked.items[i].packet == w.sender.unacked.items[i].packet)
            && forall f <- Launched(s, sent) :: Carries(w, f.packet, f.number)
  {
    hide Wire, Distance, FirstSendable, Carries;
    var u := w.sender.unacked;
    var i := FirstSendable(u.items, env.sends);
    if i < |u.items| {
      assert Carries(w, u.items[i].packet, u.base + i);
      CarriedNumber(w, u.items[i].packet, u.base + i);
      DistanceOfWire(u.base, u.base + i);
    }
  }

  lemma CarriedNumber(w: World, packet: DataPacket, a: nat)
    requires Carries(w, packet, a)
    ensures packet.seqnum == Wire(a)
  {
  }

  lemma DoSendKeeps(w: World, env: Env)
    requires Inv(w)
    ensures Inv(Sent(w, DoSend(w.sender, env)))
  {
    hide Wire, Distance, AckPoint, Readable, Flatten, Carries, DoSend, Launched, ReceiverOk, PointsOk;
    LaunchedCarries(w, env);
    var w' := Sent(w, DoSend(w.sender, env));
    CarriesGrows(w, w');
    ReceiverFrame(w, w');
  }

  /** Marking packets lost changes no packet. */
  lemma MarkKeeps(w: World, which: iset<nat>, timeout: Stamp)
    requires Inv(w)
    ensures Inv(w.(sender := SenderState(Mark(w.sender.unacked, which), timeout)))
  {
    hide Wire, Distance, AckPoint, Readable, Flatten;
    var w' := w.(sender := SenderState(Mark(w.sender.unacked, which), timeout));
    assert forall p, a :: Carries(w, p, a) ==> Carries(w', p, a);
  }

  lemma HearNackKeeps(w: World, words: seq<u32>, env: Env)
    requires Inv(w)
    ensures Inv(Apply(w, HearNack(words, env)))
  {
    hide Inv, DoSend, Mark;
    MarkKeeps(w, NamedBy(words), w.sender.sendTimeout);
    DoSendKeeps(w.(sender := SenderState(Mark(w.sender.unacked, NamedBy(words)), w.sender.sendTimeout)), env);
  }

  lemma SenderTickKeeps(w: World, env: Env)
    requires Inv(w)
    ensures Inv(Apply(w, SenderTick(env)))
  {
    hide Inv, DoSend, Mark;
    var which := Overdue(w.sender.unacked, env);
    MarkKeeps(w, which, PosInfin);
    DoSendKeeps(w.(sender := SenderState(Mark(w.sender.unacked, which), PosInfin)), env);
    DoSendKeeps(w, env);
  }

  /** An acknowledgement that is not too old drops packets up to its ack point, or nothing. */
  lemma AckDrops(w: World, ack: AckFlight)
    requires Inv(w) && ack in w.acks && FreshAck(w, ack.point)
    ensures var u := w.sender.unacked;
            && (Acknowledges(u, ack.packet.seqnum) <==> u.base <= ack.point)
            && (u.base <= ack.point ==> Distance(u.base, ack.packet.seqnum) == ack.point - u.base <= |u.items|)
  {
    var u := w.sender.unacked;
    hide Wire, Distance, AckPoint, Readable, Flatten;
    assert ack.point <= w.Top() == u.Top();
    HasExact(u, ack.point);
    DistanceOfWire(u.base, u.Top());
    if u.base <= ack.point {
      DistanceOfWire(u.base, ack.point);
    } else {
      DistanceOfOldWire(u.Top(), ack.point);
      DistanceOfWire(u.Top(), u.Top());
    }
  }

  lemma DropKeeps(w: World, k: nat)
    requires Inv(w) && k <= |w.sender.unacked.items| && w.sender.unacked.base + k <= w.Point()
    ensures Inv(w.(sender := w.sender.(unacked := w.sender.unacked.Drop(k))))
  {
    hide Wire, Distance, AckPoint, Readable, Flatten;
    var w' := w.(sender := w.sender.(unacked := w.sender.unacked.Drop(k)));
    assert forall p, a :: Carries(w, p, a) ==> Carries(w', p, a);
  }

  lemma HearAckKeeps(w: World, ack: AckFlight, env: Env)
    requires Inv(w) && Enabled(w, HearAck(ack, env))
    ensures Inv(Apply(w, HearAck(ack, env)))
  {
    AckDrops(w, ack);
    hide Wire, Distance, DoSend, AckPoint, Readable, Flatten, Acknowledges, SenderOk, ReceiverOk, StreamOk, PointsOk;
    var u := w.sender.unacked;
    if Acknowledges(u, ack.packet.seqnum) {
      DropKeeps(w, ack.point - u.base);
      DoSendKeeps(w.(sender := w.sender.(unacked := u.Drop(ack.point - u.base))), env);
    } else {
      assert Sent(w, (w.sender, None)) == w;
    }
    NetworkFrame(Sent(w, HandleAck(w.sender, ack.packet.seqnum, env)), Apply(w, HearAck(ack, env)));
  }

  /** Fewer packets on the network, and another record of what was answered, change nothing else. */
  lemma NetworkFrame(w: World, w': World)
    requires Inv(w) && w' == w.(data := w'.data, acks := w'.acks, answered := w'.answered)
    requires w'.data <= w.data && w'.acks <= w.acks
    ensures Inv(w') && w'.Point() == w.Point()
  {
    CarriesGrows(w, w');
    ReceiverFrame(w, w');
    SenderFrame(w, w');
    hide Carries, Wire, AckPoint, Readable, Flatten, ReceiverOk, PointsOk, SenderOk;
  }

  lemma SenderFrame(w: World, w': World)
    requires SenderOk(w) && w'.first == w.first && w'.log == w.log && w'.sender == w.sender
    ensures SenderOk(w')
  {
    CarriesGrows(w, w');
    hide Carries;
  }

  lemma LoseKeeps(w: World, data: set<DataFlight>, acks: set<AckFlight>)
    requires Inv(w)
    ensures Inv(Apply(w, Lose(data, acks))) && Apply(w, Lose(data, acks)).Point() == w.Point()
  {
    hide Inv, AckPoint;
    assert w.sender.unacked.Bounded() && w.receiver.unread.Bounded() by {
      InvWindows(w);
    }
    NetworkFrame(w, Apply(w, Lose(data, acks)));
  }

  lemma InvWindows(w: World)
    requires Inv(w)
    ensures w.sender.unacked.Bounded() && w.receiver.unread.Bounded()
  {
  }

  lemma WriteKeeps(w: World, bytes: seq<byte>, windowSize: nat, dataSize: nat, env: Env)
    requires Inv(w)
    ensures Inv(Apply(w, Write(bytes, windowSize, dataSize, env)))
  {
    assert w.sender.unacked.Bounded();
    hide Wire, Distance, DoSend, Inv, Slots, Flatten;
    var u := SendLimit(w.sender.unacked, windowSize);
    var chunks := Chunks(bytes, dataSize, u.Room());
    var mid := w.(sender := w.sender.(unacked := u.Push(Slots(chunks, u.Top(), env.peerId))),
                  log := w.log + chunks, accepted := w.accepted + Flatten(chunks));
    EnqueueKeeps(w, u, chunks, env.peerId);
    DoSendKeeps(mid, env);
    assert FirstBytes(bytes, |Flatten(chunks)|) == Flatten(chunks);
  }

  /** What a packet carries stays so as the log grows. */
  lemma CarriesGrows(w: World, w': World)
    requires w'.first == w.first && w.log <= w'.log
    ensures forall p, a :: Carries(w, p, a) ==> Carries(w', p, a)
  {
  }

  /** Nothing the receiver relies on is lost while the log grows. */
  lemma ReceiverFrame(w: World, w': World)
    requires ReceiverOk(w) && PointsOk(w)
    requires w'.first == w.first && w.log <= w'.log && w'.receiver == w.receiver && w'.points == w.points
    ensures ReceiverOk(w') && PointsOk(w')
  {
    CarriesGrows(w, w');
    hide Wire, AckPoint, Carries;
  }

  lemma NewSlotCarries(w: World, w': World, chunks: seq<seq<byte>>, peerId: u32, j: nat)
    requires w'.first == w.first && w'.log == w.log + chunks && j < |chunks|
    ensures Carries(w', Slots(chunks, w.Top(), peerId)[j].packet, w.Top() + j)
  {
    hide Wire;
    assert w'.log[|w.log| + j] == chunks[j];
  }

  lemma EnqueueKeepsSender(w: World, w': World, u: Window<Unacked>, chunks: seq<seq<byte>>, peerId: u32)
    requires SenderOk(w) && u.base == w.sender.unacked.base && u.items == w.sender.unacked.items
    requires u.Bounded() && |chunks| <= u.Room()
    requires w'.first == w.first && w'.log == w.log + chunks
    requires w'.sender.unacked == u.Push(Slots(chunks, u.Top(), peerId))
    ensures SenderOk(w')
  {
    CarriesGrows(w, w');
    hide Wire, Distance, Carries, Slots;
    var slots := Slots(chunks, u.Top(), peerId);
    forall i | 0 <= i < |u.items + slots| ensures Carries(w', (u.items + slots)[i].packet, u.base + i) {
      if i >= |u.items| {
        NewSlotCarries(w, w', chunks, peerId, i - |u.items|);
        assert u.base + i == w.Top() + (i - |u.items|);
      } else {
        assert Carries(w, u.items[i].packet, u.base + i);
      }
    }
  }

  lemma EnqueueKeeps(w: World, u: Window<Unacked>, chunks: seq<seq<byte>>, peerId: u32)
    requires Inv(w) && u.base == w.sender.unacked.base && u.items == w.sender.unacked.items
    requires u.Bounded() && |chunks| <= u.Room()
    ensures Inv(w.(sender := w.sender.(unacked := u.Push(Slots(chunks, u.Top(), peerId))),
                   log := w.log + chunks, accepted := w.accepted + Flatten(chunks)))
  {
    hide Wire, Distance, AckPoint, Readable, Flatten, Carries, Slots, SenderOk, StreamOk, ReceiverOk, PointsOk;
    var w' := w.(sender := w.sender.(unacked := u.Push(Slots(chunks, u.Top(), peerId))),
                 log := w.log + chunks, accepted := w.accepted + Flatten(chunks));
    EnqueueKeepsSender(w, w', u, chunks, peerId);
    EnqueueKeepsStream(w, w', chunks);
    ReceiverFrame(w, w');
    CarriesGrows(w, w');
  }

  lemma EnqueueKeepsStream(w: World, w': World, chunks: seq<seq<byte>>)
    requires StreamOk(w) && w'.first == w.first && w'.receiver == w.receiver && w'.delivered == w.delivered
    requires w'.log == w.log + chunks && w'.accepted == w.accepted + Flatten(chunks)
    ensures StreamOk(w')
  {
    hide AckPoint, Readable, Flatten;
    FlattenConcat(w.log, chunks);
    assert w'.log[..w.Point() - w.first] == w.log[..w.Point() - w.first];
  }

  // Receiver steps

  function WithUnread(w: World, u: Window<Unread>): World {
    w.(receiver := w.receiver.(unread := u))
  }

  lemma PointsFrame(w: World, w': World)
    requires PointsOk(w)
    requires w'.receiver.acks.items == w.receiver.acks.items && w'.points == w.points && w.Point() <= w'.Point()
    ensures PointsOk(w')
  {
    hide Wire, AckPoint;
    assert Matched(w.receiver.acks.items, w.points, w.Point());
  }

  /** A receiver step is sound when it keeps its window in order and accounts for the bytes up to the new ack point. */
  lemma ReceiverStep(w: World, w': World)
    requires Inv(w) && w'.sender == w.sender && w'.first == w.first && w'.log == w.log && w'.accepted == w.accepted
    requires w'.data == w.data && w'.acks == w.acks && w'.points == w.points
    requires w'.receiver.acks.items == w.receiver.acks.items
    requires ReceiverOk(w') && w.Point() <= w'.Point()
    requires w'.delivered + Readable(w'.receiver.unread.items) == Flatten(w'.log[..w'.Point() - w'.first])
    ensures Inv(w')
  {
    hide Wire, Distance, Readable, Flatten, Carries, PointsOk, AckPoint, ReceiverOk;
    PointsFrame(w, w');
    CarriesGrows(w, w');
    PointInWindow(w');
  }

  lemma PointInWindow(w: World)
    requires ReceiverOk(w)
    ensures w.first <= w.receiver.unread.base <= w.Point() <= w.receiver.unread.Top() <= w.Top()
  {
  }

  lemma ReadKeepsWindow(w: World, w': World, room: nat)
    requires ReceiverOk(w) && w'.first == w.first && w'.log == w.log
    requires w'.receiver.unread == ReadData(w.receiver.unread, room).0
    ensures ReceiverOk(w')
  {
    hide Wire, Carries, Drain;
    var items := w.receiver.unread.items;
    var left := Drain(items, room).0;
    var k := |items| - |left|;
    DrainLeaves(items, room);
    CarriesGrows(w, w');
    forall i | 0 <= i < |left| && !left[i].lost
      ensures Carries(w', left[i].packet, w'.receiver.unread.base + i)
      ensures i > 0 ==> left[i].bytesRead == 0
    {
      assert left[i].packet == items[k + i].packet && !items[k + i].lost;
      assert Carries(w, items[k + i].packet, w.receiver.unread.base + (k + i));
    }
  }

  lemma ReadKeeps(w: World, room: nat)
    requires Inv(w)
    ensures Inv(Apply(w, Read(room)))
    ensures Apply(w, Read(room)).Point() == w.Point()
  {
    assert w.sender.unacked.Bounded() && w.receiver.unread.Bounded();
    hide ReceiverOk, Drain, Readable, Flatten, Ready, SenderOk, FlightsOk, PointsOk;
    var u := w.receiver.unread;
    var w' := Apply(w, Read(room));
    ReadKeepsWindow(w, w', room);
    DrainKeepsAckPoint(u.items, room);
    DrainTakes(u.items, room);
    Assoc(w.delivered, Drain(u.items, room).1, Readable(w'.receiver.unread.items));
    ReceiverStep(w, w');
  }

  /** Room is made for the packet, but never beyond the highest number sent. */
  lemma ReservedBelowTop(w: World, u: Window<Unread>, a: nat)
    requires u.Top() <= w.Top() && u.Top() + MAXIMUM_WINDOW <= a + MODULUS && a < w.Top() <= u.Top() + MODULUS
    ensures u.Top() + Reserved(u, Wire(a)) <= w.Top()
  {
    SoonExact(u, a);
    hide Wire, Distance;
  }

  lemma PushKeepsWindow(w: World, u: Window<Unread>, blanks: seq<Unread>)
    requires ReceiverOk(w) && u.Bounded() && u.base == w.receiver.unread.base && u.items == w.receiver.unread.items
    requires |blanks| <= u.Room() && u.Top() + |blanks| <= w.Top() && forall b <- blanks :: b.lost
    ensures ReceiverOk(WithUnread(w, u.Push(blanks)))
  {
    CarriesGrows(w, WithUnread(w, u.Push(blanks)));
    hide Wire, Carries;
  }

  lemma ReserveKeeps(w: World, windowSize: nat, n: u32, now: int)
    requires Inv(w)
    requires var u := w.receiver.unread.Resize(windowSize);
             u.Top() + Reserved(u, n) <= w.Top()
    ensures var w' := WithUnread(w, Reserve(w.receiver.unread.Resize(windowSize), n, now));
            Inv(w') && w'.Point() == w.Point()
  {
    assert w.receiver.unread.Bounded();
    hide Wire, Distance, Readable, Flatten, Ready, Carries, Reserved, ReceiverOk, SenderOk, FlightsOk, PointsOk;
    var u := w.receiver.unread.Resize(windowSize);
    var blanks := seq(Reserved(u, n), _ => Blank(now));
    PushKeepsWindow(w, u, blanks);
    ReadingIgnoresBlanks(u.items, blanks);
    ReceiverStep(w, WithUnread(w, u.Push(blanks)));
  }

  /** The numbers either end may still meet span less than four windows. */
  lemma SpanBounded(w: World)
    requires Inv(w)
    ensures w.Top() <= w.receiver.unread.base + 2 * MAXIMUM_WINDOW
    ensures w.Top() <= w.Point() + MAXIMUM_WINDOW
  {
    PointInWindow(w);
  }

  /** A packet lands in the slot of its own number, or nowhere. */
  lemma StoreLands(w: World, packet: DataPacket, a: nat)
    requires Inv(w) && Carries(w, packet, a) && w.receiver.unread.Top() <= a + MODULUS
    ensures var u := w.receiver.unread;
            && (u.Has(packet.seqnum) <==> u.base <= a < u.Top())
            && (u.Has(packet.seqnum) ==> Distance(u.base, packet.seqnum) == a - u.base)
  {
    SpanBounded(w);
    hide Wire, Distance;
    HasExact(w.receiver.unread, a);
  }

  lemma FillKeepsWindow(w: World, packet: DataPacket, i: nat)
    requires ReceiverOk(w) && i < |w.receiver.unread.items| && Carries(w, packet, w.receiver.unread.base + i)
    ensures var u := w.receiver.unread;
            ReceiverOk(WithUnread(w, u.(items := Filled(u.items, i, packet))))
  {
    var u := w.receiver.unread;
    CarriesGrows(w, WithUnread(w, u.(items := Filled(u.items, i, packet))));
    hide Wire, Carries;
  }

  /** Behind the slot that closes the gap, the contiguous packets are the next ones of the log. */
  lemma FillReadsLog(w: World, packet: DataPacket, i: nat)
    requires Inv(w) && i < |w.receiver.unread.items| && w.receiver.unread.items[i].lost
    requires Carries(w, packet, w.receiver.unread.base + i)
    ensures var u := w.receiver.unread;
            var w' := WithUnread(w, u.(items := Filled(u.items, i, packet)));
            && w.Point() <= w'.Point()
            && w.first <= w'.Point() <= w.Top()
            && w'.delivered + Readable(w'.receiver.unread.items) == Flatten(w.log[..w'.Point() - w.first])
  {
    hide Wire, SenderOk, FlightsOk, PointsOk, Readable, Flatten;
    var u := w.receiver.unread;
    FillingReads(u.items, i, packet);
    if i == Ready(u.items) {
      LaterReads(w, i);
      var later := u.items[i + 1..];
      PrefixGrows(w.log, w.Point() - w.first, Ready(later), w.delivered, Readable(u.items), Readable(later));
    }
  }

  lemma PrefixGrows(log: seq<seq<byte>>, o: nat, r: nat, delivered: seq<byte>, readable: seq<byte>, later: seq<byte>)
    requires o + 1 + r <= |log| && delivered + readable == Flatten(log[..o]) && later == Flatten(log[o + 1..o + 1 + r])
    ensures delivered + (readable + (log[o] + later)) == Flatten(log[..o + 1 + r])
  {
    hide Flatten;
    FlattenSnoc(log[..o], log[o]);
    FlattenConcat(log[..o] + [log[o]], log[o + 1..o + 1 + r]);
    assert log[..o + 1 + r] == log[..o] + [log[o]] + log[o + 1..o + 1 + r];
    Assoc(Flatten(log[..o]), log[o], later);
    Assoc(delivered, readable, log[o] + later);
  }

  lemma LaterReads(w: World, i: nat)
    requires ReceiverOk(w) && i < |w.receiver.unread.items|
    ensures var u := w.receiver.unread;
            var o := u.base + i + 1 - w.first;
            var r := Ready(u.items[i + 1..]);
            && o + r <= |w.log|
            && Readable(u.items[i + 1..]) == Flatten(w.log[o..o + r])
  {
    hide Wire, Readable, Flatten;
    var u := w.receiver.unread;
    var o := u.base + i + 1 - w.first;
    var later := u.items[i + 1..];
    forall j | 0 <= j < |later| && !later[j].lost
      ensures later[j].packet.data == w.log[o..][j] && later[j].bytesRead == 0
    {
      assert later[j] == u.items[i + 1 + j];
      assert Carries(w, u.items[i + 1 + j].packet, u.base + (i + 1 + j));
    }
    UntouchedReads(later, w.log[o..]);
    assert w.log[o..][..Ready(later)] == w.log[o..o + Ready(later)];
  }

  lemma StoreKeeps(w: World, packet: DataPacket)
    requires Inv(w)
    requires var u := w.receiver.unread;
             u.Has(packet.seqnum) && u.items[Distance(u.base, packet.seqnum)].lost ==>
               Carries(w, packet, u.base + Distance(u.base, packet.seqnum))
    ensures var w' := WithUnread(w, Store(w.receiver.unread, packet));
            Inv(w') && w.Point() <= w'.Point()
  {
    hide Inv, Carries, Wire, Distance, Readable, Flatten, Ready;
    var u := w.receiver.unread;
    if u.Has(packet.seqnum) && u.items[Distance(u.base, packet.seqnum)].lost {
      StoringKeeps(w, packet, Distance(u.base, packet.seqnum));
    } else {
      assert WithUnread(w, Store(u, packet)) == w;
    }
  }

  lemma StoringKeeps(w: World, packet: DataPacket, i: nat)
    requires Inv(w) && i < |w.receiver.unread.items| && w.receiver.unread.items[i].lost
    requires Carries(w, packet, w.receiver.unread.base + i)
    ensures var u := w.receiver.unread;
            var w' := WithUnread(w, u.(items := Filled(u.items, i, packet)));
            Inv(w') && w.Point() <= w'.Point()
  {
    hide Carries, Wire, Distance, Readable, Flatten, Ready, SenderOk, StreamOk, ReceiverOk, PointsOk, FlightsOk;
    var u := w.receiver.unread;
    FillKeepsWindow(w, packet, i);
    FillReadsLog(w, packet, i);
    ReceiverStep(w, WithUnread(w, u.(items := Filled(u.items, i, packet))));
  }

  lemma HearDataKeeps(w: World, flight: DataFlight, windowSize: nat, now: int)
    requires Inv(w) && Enabled(w, HearData(flight, windowSize, now))
    ensures Inv(Apply(w, HearData(flight, windowSize, now)))
    ensures w.Point() <= Apply(w, HearData(flight, windowSize, now)).Point()
  {
    assert Carries(w, flight.packet, flight.number) && w.sender.unacked.Bounded() && w.receiver.unread.Bounded();
    hide Inv, Wire, Distance, AckPoint, Store, Carries, Reserve;
    FreshReserves(w, flight.packet, flight.number, windowSize, now);
    var mid := WithUnread(w, Reserve(w.receiver.unread.Resize(windowSize), flight.packet.seqnum, now));
    StoreLands(mid, flight.packet, flight.number);
    StoreKeeps(mid, flight.packet);
  }

  /** Making room for a packet that meets the age bound is sound, and leaves it within a cycle of the window. */
  lemma FreshReserves(w: World, packet: DataPacket, a: nat, windowSize: nat, now: int)
    requires Inv(w) && Carries(w, packet, a) && FreshData(w, a)
    ensures var mid := WithUnread(w, Reserve(w.receiver.unread.Resize(windowSize), packet.seqnum, now));
            && Inv(mid) && mid.Point() == w.Point() && Carries(mid, packet, a)
            && mid.receiver.unread.Top() <= a + MODULUS
  {
    SpanBounded(w);
    PointInWindow(w);
    CarriedNumber(w, packet, a);
    assert a < w.Top() && w.receiver.unread.Bounded();
    var u := w.receiver.unread.Resize(windowSize);
    var mid := WithUnread(w, Reserve(u, packet.seqnum, now));
    CarriesGrows(w, mid);
    hide Inv, Wire, Distance, Ready, Carries, Reserved;
    ReservedBelowTop(w, u, a);
    ReserveKeeps(w, windowSize, packet.seqnum, now);
  }

  // Acknowledgement bookkeeping

  lemma MatchedSuffix(items: seq<AckEntry>, points: seq<nat>, bound: nat, k: nat)
    requires Matched(items, points, bound) && k <= |items|
    ensures Matched(items[k..], points[k..], bound)
  {
    hide Wire;
  }

  lemma MatchedSnoc(items: seq<AckEntry>, points: seq<nat>, bound: nat, entry: AckEntry)
    requires Matched(items, points, bound) && entry.packet.seqnum == Wire(bound)
    ensures Matched(items + [entry], points + [bound], bound)
  {
    hide Wire;
  }

  /** A step that leaves the stream alone is sound when its acknowledgements are for the ack point. */
  lemma AckSideStep(w: World, w': World)
    requires Inv(w) && w'.sender == w.sender && w'.first == w.first && w'.log == w.log
    requires w'.accepted == w.accepted && w'.delivered == w.delivered && w'.data == w.data
    requires ReceiverOk(w') && PointsOk(w') && w'.Point() == w.Point()
    requires Readable(w'.receiver.unread.items) == Readable(w.receiver.unread.items)
    requires forall a <- w'.acks :: a in w.acks || (a.point == w.Point() && a.packet.seqnum == Wire(a.point))
    ensures Inv(w')
  {
    CarriesGrows(w, w');
    hide Wire, Distance, Readable, Flatten, Carries, PointsOk, ReceiverOk, AckPoint;
  }

  lemma HearAckOfAckKeeps(w: World, n: u32)
    requires Inv(w)
    ensures Inv(Apply(w, HearAckOfAck(n)))
    ensures Apply(w, HearAckOfAck(n)).Point() == w.Point()
  {
    assert w.sender.unacked.Bounded() && w.receiver.unread.Bounded();
    hide Wire, Distance, Readable, Flatten, AckPoint, ReceiverOk, SenderOk, Matched, StreamOk, FlightsOk;
    var w' := Apply(w, HearAckOfAck(n));
    var k := |w.receiver.acks.items| - |w'.receiver.acks.items|;
    MatchedSize(w.receiver.acks.items, w.points, w.Point());
    MatchedSuffix(w.receiver.acks.items, w.points, w.Point(), k);
    assert w'.receiver.acks.items == w.receiver.acks.items[k..] && w'.points == w.points[k..];
    UnreadFrame(w, w');
    AckSideStep(w, w');
  }

  lemma MatchedSize(items: seq<AckEntry>, points: seq<nat>, bound: nat)
    requires Matched(items, points, bound)
    ensures |items| == |points|
  {
  }

  lemma UnreadFrame(w: World, w': World)
    requires ReceiverOk(w) && w'.first == w.first && w'.log == w.log && w'.receiver.unread == w.receiver.unread
    ensures ReceiverOk(w')
  {
    CarriesGrows(w, w');
    hide Carries, Wire;
  }

  lemma ReceiverTickKeeps(w: World, env: Readings)
    requires Inv(w)
    ensures Inv(Apply(w, ReceiverTick(env)))
    ensures Apply(w, ReceiverTick(env)).Point() == w.Point()
  {
    assert w.sender.unacked.Bounded() && w.receiver.unread.Bounded();
    hide Wire, Distance, Readable, Flatten, ReceiverOk, SenderOk, Matched, StreamOk, FlightsOk, Restamp, AckDue;
    var w' := Apply(w, ReceiverTick(env));
    RestampKeeps(w, w', env);
    TickKeepsPoints(w, w', env);
    AckSideStep(w, w');
  }

  lemma RestampKeeps(w: World, w': World, env: Readings)
    requires ReceiverOk(w) && w'.first == w.first && w'.log == w.log
    requires w'.receiver.unread == Restamp(w.receiver.unread, env)
    ensures ReceiverOk(w') && w'.Point() == w.Point()
    ensures Readable(w'.receiver.unread.items) == Readable(w.receiver.unread.items)
  {
    hide Wire, Carries, Ready, Readable;
    var was, now := w.receiver.unread.items, w'.receiver.unread.items;
    assert forall i :: 0 <= i < |was| ==> SameSlot(was[i], now[i]);
    ReadingIgnoresTimes(was, now);
    CarriesGrows(w, w');
  }

  /** A tick adds one entry, for the ack point, after dropping at most one, or leaves the entries alone. */
  lemma SendAckShape(r: ReceiverState, env: Readings)
    ensures var (r', ack) := SendAck(r, env);
            && r'.unread == r.unread
            && (ack.None? ==> r'.acks == r.acks)
            && (ack.Some? ==>
                  && ack.value.seqnum == Wire(AckPoint(r.unread))
                  && 0 < |r'.acks.items| <= |r.acks.items| + 1
                  && r'.acks.items ==
                     r.acks.items[|r.acks.items| + 1 - |r'.acks.items|..] + [AckEntry(ack.value, env.now)])
  {
    hide Wire, Distance, Ready, AckDue, ReceiverSpec.AvailableBufferSize;
    assert r.acks.items[0..] == r.acks.items;
  }

  lemma TickKeepsPoints(w: World, w': World, env: Readings)
    requires PointsOk(w) && w'.Point() == w.Point()
    requires var (r, ack) := SendAck(w.receiver, env);
             && w'.receiver.acks == r.acks
             && w'.points == if ack.Some? then Last(w.points, |r.acks.items| - 1) + [w.Point()] else w.points
    ensures PointsOk(w')
  {
    hide Wire, AckPoint, SendAck, Matched;
    var items := w.receiver.acks.items;
    MatchedSize(items, w.points, w.Point());
    SendAckShape(w.receiver, env);
    var (r, ack) := SendAck(w.receiver, env);
    if ack.Some? {
      var k := |items| + 1 - |r.acks.items|;
      MatchedSuffix(items, w.points, w.Point(), k);
      MatchedSnoc(items[k..], w.points[k..], w.Point(), AckEntry(ack.value, env.now));
    }
  }

  // All of them

  lemma StepKeeps(w: World, step: Step)
    requires Inv(w) && Enabled(w, step)
    ensures Inv(Apply(w, step)) && w.Point() <= Apply(w, step).Point()
  {
    match step
    case Write(bytes, windowSize, dataSize, env) => WriteKeeps(w, bytes, windowSize, dataSize, env);
    case HearAck(ack, env) => HearAckKeeps(w, ack, env);
    case HearNack(words, env) => HearNackKeeps(w, words, env);
    case SenderTick(env) => SenderTickKeeps(w, env);
    case HearData(flight, windowSize, now) => HearDataKeeps(w, flight, windowSize, now);
    case Read(room) => ReadKeeps(w, room);
    case HearAckOfAck(n) => HearAckOfAckKeeps(w, n);
    case ReceiverTick(readings) => ReceiverTickKeeps(w, readings);
    case Lose(data, acks) => LoseKeeps(w, data, acks);
  }
}
