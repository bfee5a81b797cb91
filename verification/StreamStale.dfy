/**
 Runs that go wrong when packets are delivered too late: beyond the bounds on their
 age, a data packet is read as another and an acknowledgement loses what it does not
 acknowledge.
 */
module StreamStale {
  import opened MachineWords
  import opened Parameters
  import opened SequenceNumbers
  import opened SlidingWindows
  import opened Bytes
  import opened Packets
  import opened SenderSpec
  import opened ReceiverSpec
  import opened StreamProtocol
  import opened StreamSafety
  import opened StreamTheorems
  import opened StreamLedger
  import opened StreamCompletion

  // Quiet runs

  /** Everything written has been read and acknowledged. */
  ghost predicate Quiescent(w: World) {
    && w.sender.unacked.items == [] && w.receiver.unread.items == []
    && w.delivered == w.accepted
    && w.sender.unacked.base == w.receiver.unread.base == w.Top() == w.announced
    && w.receiver.lastAck == Wire(w.announced)
    && (w.Top() == w.first || HasAck(w.answered, w.Top())) && w.answered <= w.acks
  }

  lemma QuiescentAfter(worlds: seq<World>, steps: seq<Step>)
    requires HonestRun(worlds, steps)
    requires Final(worlds).sender.unacked.items == [] && Final(worlds).receiver.unread.items == []
    requires Final(worlds).delivered == Final(worlds).accepted && Final(worlds).answered <= Final(worlds).acks
    ensures Quiescent(Final(worlds))
  {
    FinalInv(worlds, steps);
    PointInWindow(Final(worlds));
    hide Wire, HasAck;
  }

  /** A byte written to a sender with nothing outstanding is numbered and sent at once, whatever the sizes. */
  lemma WriteOne(w: World, x: byte, windowSize: nat, dataSize: nat, env: Env)
    requires w.sender.unacked.Bounded() && w.receiver.unread.Bounded() && w.sender.unacked.items == []
    requires dataSize > 0 && (forall p :: env.sends(p))
    requires w.sender.unacked.base == w.Top()
    ensures var w' := Apply(w, Write([x], windowSize, dataSize, env));
            var packet := NewPacket(Wire(w.Top()), [x], env.peerId);
            && w'.first == w.first && w'.log == w.log + [[x]] && w'.accepted == w.accepted + [x]
            && |w'.sender.unacked.items| == 1 && w'.sender.unacked.base == w.Top() && w'.sender.unacked.Bounded()
            && w'.data == w.data + {DataFlight(w.Top(), packet)}
            && w'.receiver == w.receiver && w'.delivered == w.delivered && w'.acks == w.acks
            && w'.answered == w.answered && w'.announced == w.announced
  {
    hide Wire, Distance;
    var u := SendLimit(w.sender.unacked, windowSize);
    ChunkOne(x, dataSize, u.Room());
    var packet := NewPacket(Wire(w.Top()), [x], env.peerId);
    assert Slots([[x]], u.Top(), env.peerId) == [Unacked(packet, true, Unset)];
    DistanceOfWire(w.Top(), w.Top());
  }

  lemma ChunkOne(x: byte, size: nat, room: nat)
    requires size > 0 && room > 0
    ensures Chunks([x], size, room) == [[x]] && Flatten([[x]]) == [x]
  {
    assert [x][..1] == [x] && [x][1..] == [];
    assert [[x]][1..] == [];
  }

  /** A byte is written, in the surroundings that are due. */
  lemma WriteOn(around: nat -> Surroundings, worlds: seq<World>, steps: seq<Step>, x: byte)
    returns (more: seq<World>, moreSteps: seq<Step>)
    requires Path(worlds, steps) && Kind(around)
    requires Final(worlds).sender.unacked.Bounded() && Final(worlds).receiver.unread.Bounded()
    ensures var s := around(|steps|);
            && Onward(around, worlds, steps, more, moreSteps)
            && Final(more) == Apply(Final(worlds), Write([x], s.sendWindow, s.dataSize, s.env))
  {
    assert Path(worlds, steps) ==> worlds != [];
    hide Path, Apply, Kind, Onward;
    var s := around(|steps|);
    more, moreSteps := StepOnward(around, worlds, steps, Write([x], s.sendWindow, s.dataSize, s.env));
  }

  /** Write a byte and wait until it has been read and acknowledged; what was sent stays on the network. */
  lemma Round(around: nat -> Surroundings, worlds: seq<World>, steps: seq<Step>, x: byte)
    returns (more: seq<World>, moreSteps: seq<Step>, flight: DataFlight)
    requires HonestRun(worlds, steps) && Kind(around) && Quiescent(Final(worlds))
    ensures Onward(around, worlds, steps, more, moreSteps) && HonestRun(more, moreSteps) && Quiescent(Final(more))
    ensures var w, w' := Final(worlds), Final(more);
            && w'.first == w.first && w'.log == w.log + [[x]] && w.data <= w'.data && w.acks <= w'.acks
            && flight in w'.data && flight.number == w.Top() && flight.packet.data == [x]
  {
    var w := Final(worlds);
    var s := around(|steps|);
    FinalInv(worlds, steps);
    WriteOne(w, x, s.sendWindow, s.dataSize, s.env);
    flight := DataFlight(w.Top(), NewPacket(Wire(w.Top()), [x], s.env.peerId));
    hide Apply, Path, Init, Honest, Inv, Ledger, Quiescent, Kind, SuitsFrom, Wire;
    var w1, s1 := WriteOn(around, worlds, steps, x);
    StillRuns(around, worlds, steps, w1, s1);
    more, moreSteps := Completes(around, w1, s1);
    OnwardTrans(around, worlds, steps, w1, s1, more, moreSteps);
    QuiescentAfter(more, moreSteps);
  }

  /** `k` rounds more. */
  lemma {:induction false} Rounds(around: nat -> Surroundings, worlds: seq<World>, steps: seq<Step>, x: byte, k: nat)
    returns (more: seq<World>, moreSteps: seq<Step>)
    requires HonestRun(worlds, steps) && Kind(around) && Quiescent(Final(worlds))
    ensures Onward(around, worlds, steps, more, moreSteps) && HonestRun(more, moreSteps) && Quiescent(Final(more))
    ensures var w, w' := Final(worlds), Final(more);
            w'.first == w.first && w'.Top() == w.Top() + k && w.data <= w'.data && w.acks <= w'.acks
    decreases k
  {
    if k == 0 {
      more, moreSteps := worlds, steps;
    } else {
      hide Path, Init, Honest, Quiescent, Kind;
      var mid, midSteps, _ := Round(around, worlds, steps, x);
      more, moreSteps := Rounds(around, mid, midSteps, x, k - 1);
      OnwardTrans(around, worlds, steps, mid, midSteps, more, moreSteps);
    }
  }

  lemma StartQuiescent(start: World)
    requires Init(start)
    ensures HonestRun([start], []) && Quiescent(start)
  {
  }

  // An old data packet

  /** The receiver waits for `gap` packets, behind which it has a packet with the one byte `x`. */
  ghost predicate Gap(u: Window<Unread>, gap: nat, x: byte) {
    && u.Bounded()
    && |u.items| == gap + 1 && (forall i :: 0 <= i < gap ==> u.items[i].lost)
    && !u.items[gap].lost && u.items[gap].bytesRead == 0 && u.items[gap].packet.data == [x]
  }

  /** Nobody has written the bytes for those packets. */
  ghost predicate Poisoned(w: World, gap: nat, x: byte) {
    && w.sender.unacked.Bounded() && Gap(w.receiver.unread, gap, x)
    && w.delivered == w.accepted && w.receiver.unread.base == w.Top()
  }

  /** The sender is flushed, and its last acknowledgement was announced. */
  ghost predicate Idle(w: World) {
    && w.sender.unacked.items == [] && w.sender.unacked.base == w.Top()
    && w.receiver.lastAck == Wire(w.Top())
  }

  /** One packet is outstanding that the receiver has read but not acknowledged. */
  ghost predicate Unanswered(w: World) {
    && |w.sender.unacked.items| == 1 && w.sender.unacked.Top() == w.Top()
    && w.receiver.lastAck == Wire(w.sender.unacked.base)
  }

  /** An old packet up to a cycle old leaves a gap of as many packets as it is short of a cycle. */
  lemma StalePoisons(w: World, flight: DataFlight, windowSize: nat, now: int, x: byte)
    requires Inv(w) && flight in w.data && flight.packet.data == [x] && Quiescent(w)
    requires w.Top() <= flight.number + MODULUS < w.Top() + Min(windowSize, MAXIMUM_WINDOW)
    ensures w.sender.unacked.Bounded() && w.receiver.unread.Bounded()
    ensures var w' := Apply(w, HearData(flight, windowSize, now));
            Poisoned(w', flight.number + MODULUS - w.Top(), x) && Idle(w')
  {
    assert Carries(w, flight.packet, flight.number);
    assert w.sender.unacked.Bounded() && w.receiver.unread.Bounded();
    DistanceOfOldWire(w.Top(), flight.number);
    hide Inv, Wire, Distance, HasAck;
    var u := w.receiver.unread.Resize(windowSize);
    var gap := flight.number + MODULUS - w.Top();
    assert Reserved(u, flight.packet.seqnum) == gap + 1;
  }

  /** A byte has been written, and its packet is what the receiver waits for. */
  ghost predicate Awaited(w: World, gap: nat, x: byte, flight: DataFlight, y: byte) {
    && w.sender.unacked.Bounded() && Gap(w.receiver.unread, gap, x)
    && |w.sender.unacked.items| == 1 && w.sender.unacked.Top() == w.Top()
    && flight in w.data && flight.number == w.receiver.unread.base == w.sender.unacked.base
    && flight.packet.seqnum == Wire(flight.number) && flight.packet.data == [y]
    && w.accepted == w.delivered + [y] && w.receiver.lastAck == Wire(flight.number)
  }

  /** It fills the first slot of the gap. */
  lemma AwaitedFills(u: Window<Unread>, gap: nat, x: byte, packet: DataPacket, y: byte, windowSize: nat, now: int)
    requires Gap(u, gap, x) && gap > 0 && packet.seqnum == Wire(u.base) && packet.data == [y]
    ensures var v := HandleData(u, packet, windowSize, now);
            && v.Bounded() && ReadData(v, 1).1 == [y]
            && ReadData(v, 1).0.base == u.base + 1 && Gap(ReadData(v, 1).0, gap - 1, x)
  {
    var r := u.Resize(windowSize);
    SoonExact(r, u.base);
    HasExact(r, u.base);
    hide Wire, Distance;
    var items := r.items[0 := r.items[0].(packet := packet, lost := false, bytesRead := 0)];
    assert HandleData(u, packet, windowSize, now).items == items;
    DrainOne(items, y);
  }

  lemma DrainOne(items: seq<Unread>, y: byte)
    requires items != [] && !items[0].lost && items[0].Rest() == [y]
    ensures Drain(items, 1) == (items[1..], [y])
  {
    assert Drain(items[1..], 0) == (items[1..], []);
    assert [y] + [] == [y];
  }

  lemma AwaitedRead(w: World, gap: nat, x: byte, flight: DataFlight, y: byte, windowSize: nat, now: int)
    requires Awaited(w, gap, x, flight, y) && gap > 0
    ensures w.sender.unacked.Bounded() && w.receiver.unread.Bounded()
    ensures Enabled(w, HearData(flight, windowSize, now))
    ensures var w1 := Apply(w, HearData(flight, windowSize, now));
            && w1.sender.unacked.Bounded() && w1.receiver.unread.Bounded()
            && Poisoned(Apply(w1, Read(1)), gap - 1, x) && Unanswered(Apply(w1, Read(1)))
  {
    AwaitedFills(w.receiver.unread, gap, x, flight.packet, y, windowSize, now);
    hide Wire, HandleData, ReadData;
  }

  lemma WriteAwaited(w: World, gap: nat, x: byte, y: byte, s: Surroundings) returns (flight: DataFlight)
    requires Poisoned(w, gap, x) && Idle(w)
    requires s.dataSize > 0 && forall p :: s.env.sends(p)
    ensures Awaited(Apply(w, Write([y], s.sendWindow, s.dataSize, s.env)), gap, x, flight, y)
  {
    PoisonedBounded(w, gap, x);
    hide Wire, Gap, Apply;
    WriteOne(w, y, s.sendWindow, s.dataSize, s.env);
    flight := DataFlight(w.Top(), NewPacket(Wire(w.Top()), [y], s.env.peerId));
  }

  /** Write, deliver, read: the gap is shorter by one. */
  lemma ShortenGap(around: nat -> Surroundings, worlds: seq<World>, steps: seq<Step>, gap: nat, x: byte, y: byte)
    returns (more: seq<World>, moreSteps: seq<Step>)
    requires Path(worlds, steps) && Kind(around) && Poisoned(Final(worlds), gap, x) && Idle(Final(worlds)) && gap > 0
    ensures Onward(around, worlds, steps, more, moreSteps)
    ensures Poisoned(Final(more), gap - 1, x) && Unanswered(Final(more))
  {
    var flight := WriteAwaited(Final(worlds), gap, x, y, around(|steps|));
    hide Path, Kind, SuitsFrom, Apply, Enabled, Poisoned, Unanswered, Awaited, Idle;
    PoisonedBounded(Final(worlds), gap, x);
    var w1, s1 := WriteOn(around, worlds, steps, y);
    var t := around(|s1|);
    AwaitedRead(Final(w1), gap, x, flight, y, t.receiveWindow, t.readings.now);
    var w2, s2 := StepOnward(around, w1, s1, HearData(flight, t.receiveWindow, t.readings.now));
    OnwardTrans(around, worlds, steps, w1, s1, w2, s2);
    ReadEnabled(Final(w2), 1);
    more, moreSteps := StepOnward(around, w2, s2, Read(1));
    OnwardTrans(around, worlds, steps, w2, s2, more, moreSteps);
  }

  lemma ReadEnabled(w: World, room: nat)
    ensures Enabled(w, Read(room))
  {
  }

  /** While there is a gap, the packet read is acknowledged as usual. */
  lemma AnswerGap(around: nat -> Surroundings, worlds: seq<World>, steps: seq<Step>, gap: nat, x: byte)
    returns (more: seq<World>, moreSteps: seq<Step>)
    requires Path(worlds, steps) && Kind(around)
    requires Poisoned(Final(worlds), gap, x) && Unanswered(Final(worlds)) && gap > 0
    ensures Onward(around, worlds, steps, more, moreSteps)
    ensures Poisoned(Final(more), gap, x) && Idle(Final(more))
  {
    var w := Final(worlds);
    hide Path, Kind, SuitsFrom, Wire, Poisoned, Unanswered, Idle, Apply;
    PoisonedBounded(w, gap, x);
    var w1, s1 := Wait(around, worlds, steps, w.receiver.ackSentTime);
    var readings := around(|s1|).readings;
    var ack := PoisonTicks(w, gap, x, readings);
    var w2, s2 := StepOnward(around, w1, s1, ReceiverTick(readings));
    OnwardTrans(around, worlds, steps, w1, s1, w2, s2);
    var env := around(|s2|).env;
    PoisonHears(Final(w2), gap, x, ack, env);
    more, moreSteps := StepOnward(around, w2, s2, HearAck(ack, env));
    OnwardTrans(around, worlds, steps, w2, s2, more, moreSteps);
  }

  lemma PoisonedBounded(w: World, gap: nat, x: byte)
    requires Poisoned(w, gap, x)
    ensures w.sender.unacked.Bounded() && w.receiver.unread.Bounded()
  {
  }

  lemma PoisonTicks(w: World, gap: nat, x: byte, readings: Readings) returns (ack: AckFlight)
    requires Poisoned(w, gap, x) && Unanswered(w) && gap > 0 && w.receiver.ackSentTime < readings.now
    ensures w.sender.unacked.Bounded() && w.receiver.unread.Bounded()
    ensures var w' := Apply(w, ReceiverTick(readings));
            && Poisoned(w', gap, x) && w'.sender == w.sender && w'.sender.unacked.Top() == w'.Top()
            && ack in w'.acks && ack.point == w'.Top() && ack.packet.seqnum == Wire(w'.Top())
            && w'.receiver.lastAck == Wire(w'.Top())
  {
    DistanceOfWire(w.sender.unacked.base, w.sender.unacked.base);
    DistanceOfWire(w.sender.unacked.base, w.Top());
    assert w.Point() == w.Top();
    hide Wire, Distance, SendAck, AckPoint;
    TickAnnounces(w.receiver, readings);
    SendAckShape(w.receiver, readings);
    var r := SendAck(w.receiver, readings).0;
    ack := AckFlight(w.Point(), r.acks.Top() - 1, SendAck(w.receiver, readings).1.value);
  }

  lemma PoisonHears(w: World, gap: nat, x: byte, ack: AckFlight, env: Env)
    requires Poisoned(w, gap, x) && ack in w.acks && ack.point == w.Top() && ack.packet.seqnum == Wire(w.Top())
    requires w.sender.unacked.Top() == w.Top() && w.receiver.lastAck == Wire(w.Top())
    ensures w.sender.unacked.Bounded() && w.receiver.unread.Bounded() && Enabled(w, HearAck(ack, env))
    ensures var w' := Apply(w, HearAck(ack, env));
            Poisoned(w', gap, x) && Idle(w')
  {
    var u := w.sender.unacked;
    DistanceOfWire(u.base, u.Top());
    hide Wire, Distance;
  }

  /** Round by round the gap closes, and the byte behind it is read as the next. */
  lemma {:induction false} GapCloses(around: nat -> Surroundings,
                                     worlds: seq<World>, steps: seq<Step>, gap: nat, x: byte, y: byte)
    returns (more: seq<World>, moreSteps: seq<Step>)
    requires Path(worlds, steps) && Kind(around) && Poisoned(Final(worlds), gap, x) && (gap == 0 || Idle(Final(worlds)))
    ensures Onward(around, worlds, steps, more, moreSteps)
    ensures Final(more).delivered == Final(more).accepted + [x]
    decreases gap
  {
    if gap == 0 {
      DrainOne(Final(worlds).receiver.unread.items, x);
      more, moreSteps := StepOnward(around, worlds, steps, Read(1));
    } else {
      hide Path, Kind, SuitsFrom, Poisoned, Idle, Unanswered;
      var w1, s1 := ShortenGap(around, worlds, steps, gap, x, y);
      if gap > 1 {
        var w2, s2 := AnswerGap(around, w1, s1, gap - 1, x);
        OnwardTrans(around, worlds, steps, w1, s1, w2, s2);
        w1, s1 := w2, s2;
      }
      more, moreSteps := GapCloses(around, w1, s1, gap - 1, x, y);
      OnwardTrans(around, worlds, steps, w1, s1, more, moreSteps);
    }
  }

  /**
   Without the bound on data packets, delivery goes wrong, at every age beyond it up to
   a cycle and in any kind surroundings: from every initial state there is a run after
   which everything accepted has been delivered, and a packet of that age sent in it
   that, delivered once more to a window with room for it, leads on to a state in which
   a byte has been read that nobody wrote there.
   */
  lemma StalePacketCorrupts(start: World, around: nat -> Surroundings, age: nat, windowSize: nat, now: int,
                            after: nat -> Surroundings, x: byte)
    returns (worlds: seq<World>, steps: seq<Step>, flight: DataFlight, more: seq<World>, moreSteps: seq<Step>)
    requires Init(start) && Kind(around) && Kind(after)
    requires MODULUS - MAXIMUM_WINDOW < age <= MODULUS && MODULUS - age < windowSize
    ensures HonestRun(worlds, steps) && worlds[0] == start && SuitsFrom(around, steps, 0)
    ensures var w := Final(worlds);
            && flight in w.data && w.Top() == flight.number + age
            && w.sender.unacked.Bounded() && w.receiver.unread.Bounded() && w.delivered == w.accepted
            && Path(more, moreSteps) && SuitsFrom(after, moreSteps, 0)
            && more[0] == Apply(w, HearData(flight, windowSize, now))
            && Final(more).delivered == Final(more).accepted + [x]
  {
    worlds, steps, flight := AgedRun(start, around, age, x);
    var w := Final(worlds);
    FinalInv(worlds, steps);
    hide HonestRun, Kind, Inv, Ledger, Quiescent, Poisoned, Idle, Apply;
    StalePoisons(w, flight, windowSize, now, x);
    var w1 := Apply(w, HearData(flight, windowSize, now));
    assert Path([w1], []);
    more, moreSteps := GapCloses(after, [w1], [], MODULUS - age, x, 0);
    QuiescentDelivered(w);
  }

  lemma QuiescentDelivered(w: World)
    requires Quiescent(w)
    ensures w.delivered == w.accepted
  {
  }

  /** A run after which all is quiet, and one of its packets is of the given age. */
  lemma AgedRun(start: World, around: nat -> Surroundings, age: nat, x: byte)
    returns (worlds: seq<World>, steps: seq<Step>, flight: DataFlight)
    requires Init(start) && Kind(around) && age > 0
    ensures HonestRun(worlds, steps) && worlds[0] == start && SuitsFrom(around, steps, 0) && Quiescent(Final(worlds))
    ensures var w := Final(worlds);
            && flight in w.data && flight.packet.data == [x]
            && w.first == start.first && flight.number == w.first && w.Top() == flight.number + age
            && exists a <- w.acks :: a.point == w.first + 1
  {
    StartQuiescent(start);
    assert start.Top() == start.first;
    var w1, s1;
    w1, s1, flight := Round(around, [start], [], x);
    var ack := AckAtTop(Final(w1));
    hide HonestRun, Kind, Quiescent, Init;
    worlds, steps := Rounds(around, w1, s1, 0, age - 1);
    OnwardTrans(around, [start], [], w1, s1, worlds, steps);
    assert ack in Final(worlds).acks;
  }

  // An old acknowledgement

  lemma AckAtTop(w: World) returns (ack: AckFlight)
    requires Quiescent(w) && w.Top() != w.first
    ensures ack in w.acks && ack.point == w.Top()
  {
    ack :| ack in w.acks && ack.point == w.Top();
  }

  /**
   Without the bound on acknowledgements, bytes are lost, in any kind surroundings: from
   every initial state there is a run, and an acknowledgement of it one cycle old that,
   heard once more, leaves the sender flushed and the receiver empty, though the byte
   written last has not been delivered.
   */
  lemma StaleAckLoses(start: World, around: nat -> Surroundings, env: Env, x: byte)
    returns (worlds: seq<World>, steps: seq<Step>, ack: AckFlight)
    requires Init(start) && Kind(around)
    ensures HonestRun(worlds, steps) && worlds[0] == start && SuitsFrom(around, steps, 0)
    ensures var w := Final(worlds);
            && ack in w.acks && w.Top() == ack.point + MODULUS
            && w.sender.unacked.Bounded() && w.receiver.unread.Bounded()
            && (var w' := Apply(w, HearAck(ack, env));
                && w'.sender.unacked.items == [] && w'.receiver.unread.items == []
                && w'.accepted == w'.delivered + [x])
  {
    var w1, s1, _ := AgedRun(start, around, MODULUS, 0);
    var w := Final(w1);
    var s := around(|s1|);
    ack :| ack in w.acks && ack.point == w.first + 1;
    FinalInv(w1, s1);
    WriteOne(w, x, s.sendWindow, s.dataSize, s.env);
    worlds, steps := WriteOn(around, w1, s1, x);
    hide Kind;
    StillRuns(around, w1, s1, worlds, steps);
    FinalInv(worlds, steps);
    StaleAckFlushes(Final(worlds), ack, env);
    assert SuitsFrom(around, steps, 0);
  }

  lemma StaleAckFlushes(w: World, ack: AckFlight, env: Env)
    requires Inv(w) && ack in w.acks && w.Top() == ack.point + MODULUS
    ensures w.sender.unacked.Bounded() && w.receiver.unread.Bounded()
    ensures var w' := Apply(w, HearAck(ack, env));
            w'.sender.unacked.items == [] && w' == w.(sender := w'.sender, answered := w'.answered)
  {
    assert w.sender.unacked.Bounded() && w.receiver.unread.Bounded();
    assert ack.packet.seqnum == Wire(ack.point);
    var u := w.sender.unacked;
    DistanceOfWire(u.base, u.Top());
    assert Wire(ack.point) == Wire(u.Top());
    hide Inv, Wire, Distance;
  }
}
