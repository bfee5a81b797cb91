/**
 A second invariant of the stream protocol, on which completion rests: what the two
 ends remember of packets, acknowledgements and answers is enough to repeat whatever
 the network has lost.
 */
module StreamLedger {
  import opened MachineWords
  import opened Parameters
  import opened SequenceNumbers
  import opened SlidingWindows
  import opened Bytes
  import opened SenderSpec
  import opened ReceiverSpec
  import opened StreamProtocol
  import opened StreamSafety
  import opened StreamTheorems

  // What has been sent since a given moment

  /** Every outstanding packet that does not wait to be sent is on the network. */
  ghost predicate SentOk(w: World) {
    var u := w.sender.unacked;
    forall i :: 0 <= i < |u.items| && !u.items[i].lost ==> DataFlight(u.base + i, u.items[i].packet) in w.data
  }

  lemma DoSendSent(w: World, env: Env)
    requires SenderOk(w) && SentOk(w)
    ensures SentOk(Sent(w, DoSend(w.sender, env)))
  {
    hide Wire, Distance, FirstSendable;
    var u := w.sender.unacked;
    var i := FirstSendable(u.items, env.sends);
    if i < |u.items| {
      assert Carries(w, u.items[i].packet, u.base + i);
      DistanceOfWire(u.base, u.base + i);
    }
  }

  lemma MarkSent(w: World, which: iset<nat>, timeout: Stamp)
    requires SentOk(w)
    ensures SentOk(w.(sender := SenderState(Mark(w.sender.unacked, which), timeout)))
  {
  }

  lemma DropSent(w: World, k: nat)
    requires SentOk(w) && k <= |w.sender.unacked.items|
    ensures SentOk(w.(sender := w.sender.(unacked := w.sender.unacked.Drop(k))))
  {
    var u := w.sender.unacked;
    forall i | 0 <= i < |u.items[k..]| && !u.items[k..][i].lost
      ensures DataFlight(u.base + k + i, u.items[k..][i].packet) in w.data
    {
      assert u.items[k..][i] == u.items[k + i];
      assert DataFlight(u.base + (k + i), u.items[k + i].packet) in w.data;
    }
  }

  lemma EnqueueSent(w: World, w': World, u: Window<Unacked>, chunks: seq<seq<byte>>, peerId: u32)
    requires SentOk(w) && u.base == w.sender.unacked.base && u.items == w.sender.unacked.items
    requires w'.data == w.data && w'.sender.unacked == u.Push(Slots(chunks, u.Top(), peerId))
    ensures SentOk(w')
  {
    hide Wire;
  }

  lemma WriteSent(w: World, bytes: seq<byte>, windowSize: nat, dataSize: nat, env: Env)
    requires Inv(w) && SentOk(w)
    ensures SentOk(Apply(w, Write(bytes, windowSize, dataSize, env)))
  {
    assert w.sender.unacked.Bounded();
    hide Wire, Distance, DoSend, Inv, Slots, Flatten, SentOk;
    var u := SendLimit(w.sender.unacked, windowSize);
    var chunks := Chunks(bytes, dataSize, u.Room());
    var mid := w.(sender := w.sender.(unacked := u.Push(Slots(chunks, u.Top(), env.peerId))),
                  log := w.log + chunks, accepted := w.accepted + Flatten(chunks));
    EnqueueKeeps(w, u, chunks, env.peerId);
    InvSenderOk(mid);
    EnqueueSent(w, mid, u, chunks, env.peerId);
    DoSendSent(mid, env);
    SentFrame(Sent(mid, DoSend(mid.sender, env)), Apply(w, Write(bytes, windowSize, dataSize, env)));
  }

  lemma SentFrame(w: World, w': World)
    requires SentOk(w) && w'.sender == w.sender && w.data <= w'.data
    ensures SentOk(w')
  {
  }

  lemma InvSenderOk(w: World)
    requires Inv(w)
    ensures SenderOk(w) && w.sender.unacked.Bounded() && w.receiver.unread.Bounded()
  {
  }

  /** Once that is so, it stays so while nothing is lost. */
  lemma StepSent(w: World, step: Step)
    requires Inv(w) && SentOk(w) && Enabled(w, step) && !step.Lose?
    ensures SentOk(Apply(w, step))
  {
    InvSenderOk(w);
    match step
    case Write(bytes, windowSize, dataSize, env) => WriteSent(w, bytes, windowSize, dataSize, env);
    case HearAck(ack, env) => HearAckSent(w, ack, env);
    case HearNack(words, env) => MarkedSent(w, NamedBy(words), w.sender.sendTimeout, env);
    case SenderTick(env) =>
      MarkedSent(w, Overdue(w.sender.unacked, env), PosInfin, env);
      DoSendSent(w, env);
    case Lose(_, _) => assert false;
    case _ => SentFrame(w, Apply(w, step));
  }

  lemma MarkedSent(w: World, which: iset<nat>, timeout: Stamp, env: Env)
    requires Inv(w) && SentOk(w)
    ensures SentOk(Sent(w, DoSend(SenderState(Mark(w.sender.unacked, which), timeout), env)))
  {
    hide Inv, DoSend, Mark, SentOk;
    var mid := w.(sender := SenderState(Mark(w.sender.unacked, which), timeout));
    MarkKeeps(w, which, timeout);
    InvSenderOk(mid);
    MarkSent(w, which, timeout);
    DoSendSent(mid, env);
    SentFrame(Sent(mid, DoSend(mid.sender, env)), Sent(w, DoSend(mid.sender, env)));
  }

  lemma HearAckSent(w: World, ack: AckFlight, env: Env)
    requires Inv(w) && SentOk(w) && Enabled(w, HearAck(ack, env))
    ensures w.sender.unacked.Bounded() && w.receiver.unread.Bounded()
    ensures SentOk(Apply(w, HearAck(ack, env)))
  {
    InvSenderOk(w);
    AckDrops(w, ack);
    AckWithin(w, ack);
    hide Wire, Distance, DoSend, Inv, SentOk, Acknowledges;
    var u := w.sender.unacked;
    if Acknowledges(u, ack.packet.seqnum) {
      var mid := w.(sender := w.sender.(unacked := u.Drop(ack.point - u.base)));
      DropKeeps(w, ack.point - u.base);
      InvSenderOk(mid);
      DropSent(w, ack.point - u.base);
      DoSendSent(mid, env);
      SentFrame(Sent(mid, DoSend(mid.sender, env)), Apply(w, HearAck(ack, env)));
    } else {
      SentFrame(w, Apply(w, HearAck(ack, env)));
    }
  }

  lemma AckWithin(w: World, ack: AckFlight)
    requires Inv(w) && ack in w.acks
    ensures ack.point <= w.Point()
  {
  }

  // What the sender remembers

  /** A packet that does not wait to be sent has the time it was sent at. */
  ghost predicate StampedOk(s: SenderState) {
    forall i :: 0 <= i < |s.unacked.items| && !s.unacked.items[i].lost ==> s.unacked.items[i].lastSend.At?
  }

  lemma DoSendStamps(s: SenderState, env: Env)
    requires StampedOk(s)
    ensures StampedOk(DoSend(s, env).0)
  {
    hide FirstSendable;
  }

  lemma StepStamps(w: World, step: Step)
    requires w.sender.unacked.Bounded() && w.receiver.unread.Bounded() && StampedOk(w.sender)
    ensures StampedOk(Apply(w, step).sender)
  {
    hide DoSend, Wire, Distance, Acknowledges, Launched, Overdue, NamedBy, ReceiverSpec.HandleData,
      ReceiverSpec.ReadData, ReceiverSpec.HandleAckOfAck, SendAck, Restamp;
    var s := w.sender;
    match step
    case Write(bytes, windowSize, dataSize, env) =>
      var u := SendLimit(s.unacked, windowSize);
      DoSendStamps(s.(unacked := u.Push(Slots(Chunks(bytes, dataSize, u.Room()), u.Top(), env.peerId))), env);
    case HearAck(ack, env) =>
      if Acknowledges(s.unacked, ack.packet.seqnum) {
        DropWithin(s.unacked, ack.packet.seqnum);
        DoSendStamps(s.(unacked := s.unacked.Drop(Distance(s.unacked.base, ack.packet.seqnum))), env);
      }
    case HearNack(words, env) => DoSendStamps(s.(unacked := Mark(s.unacked, NamedBy(words))), env);
    case SenderTick(env) =>
      DoSendStamps(SenderState(Mark(s.unacked, Overdue(s.unacked, env)), PosInfin), env);
      DoSendStamps(s, env);
    case _ =>
  }

  lemma DropWithin(u: Window<Unacked>, n: u32)
    requires u.Bounded() && Acknowledges(u, n)
    ensures Distance(u.base, n) <= |u.items|
  {
    DistanceOfWire(u.base, u.Top());
  }

  // What has been announced and answered

  ghost predicate HasAck(acks: set<AckFlight>, point: nat) {
    exists a <- acks :: a.point == point
  }

  /** The last announced ack point is remembered by its wire number, and bounds what the sender may drop. */
  ghost predicate AnnouncedOk(w: World) {
    && w.first <= w.announced <= w.Point()
    && w.receiver.lastAck == Wire(w.announced)
    && w.sender.unacked.base <= w.announced
    && (forall a <- w.acks :: a.point <= w.announced)
  }

  /** The acknowledgement carries its own number, and the newest is for the ack point announced last. */
  ghost predicate EntryOk(w: World, a: AckFlight) {
    && a.entry < w.receiver.acks.Top()
    && a.packet.header.additionalInfo == Wire(a.entry)
    && (a.entry + 1 == w.receiver.acks.Top() ==> a.point == w.announced)
  }

  ghost predicate EntriesOk(w: World) {
    && |w.receiver.acks.items| <= w.receiver.acks.limit == DEFAULT_WINDOW
    && (forall a <- w.acks :: EntryOk(w, a))
    && (forall a <- w.answered :: EntryOk(w, a))
  }

  /** The sender has dropped exactly up to the furthest ack point it has answered. */
  ghost predicate AnsweredOk(w: World) {
    && (forall a <- w.answered :: a.point <= w.sender.unacked.base)
    && (w.sender.unacked.base == w.first || HasAck(w.answered, w.sender.unacked.base))
  }

  ghost predicate Ledger(w: World) {
    StampedOk(w.sender) && AnnouncedOk(w) && EntriesOk(w) && AnsweredOk(w)
  }

  /** What a step does to the books: only ticks announce, only acknowledgements move the sender's window on. */
  lemma StepBooks(w: World, step: Step)
    requires Inv(w) && Enabled(w, step)
    ensures w.sender.unacked.Bounded() && w.receiver.unread.Bounded()
    ensures var w' := Apply(w, step);
            && w'.first == w.first
            && w'.sender.unacked.base ==
               (if step.HearAck? && w.sender.unacked.base <= step.ack.point then step.ack.point
                else w.sender.unacked.base)
            && w'.answered == w.answered + (if step.HearAck? then {step.ack} else {})
            && (!step.ReceiverTick? ==> w'.acks <= w.acks && w'.announced == w.announced
                                        && w'.receiver.lastAck == w.receiver.lastAck)
            && (!step.ReceiverTick? && !step.HearAckOfAck? ==> w'.receiver.acks == w.receiver.acks)
            && (step.HearAckOfAck? ==> w'.receiver.acks == ReceiverSpec.HandleAckOfAck(w.receiver.acks, step.n))
  {
    InvSenderOk(w);
    hide Wire, Distance, FirstSendable, Inv, Chunks, Slots, ReceiverSpec.HandleData, ReceiverSpec.ReadData,
      ReceiverSpec.HandleAckOfAck, Restamp, SendAck;
    if step.HearAck? {
      AckDrops(w, step.ack);
    }
  }

  lemma AnnouncedFrame(w: World, w': World)
    requires AnnouncedOk(w) && w'.first == w.first && w'.acks <= w.acks && w'.announced == w.announced
    requires w'.receiver.lastAck == w.receiver.lastAck && w.Point() <= w'.Point()
    requires w'.sender.unacked.base == w.sender.unacked.base || HasAck(w.acks, w'.sender.unacked.base)
    ensures AnnouncedOk(w')
  {
    hide Wire, AckPoint;
  }

  lemma EntriesFrame(w: World, w': World)
    requires EntriesOk(w) && w'.acks <= w.acks && w'.answered <= w.answered + w.acks && w'.announced == w.announced
    requires w'.receiver.acks.Top() == w.receiver.acks.Top() && w'.receiver.acks.limit == w.receiver.acks.limit
    requires |w'.receiver.acks.items| <= |w.receiver.acks.items|
    ensures EntriesOk(w')
  {
    hide Wire;
    forall a | a in w'.acks || a in w'.answered ensures EntryOk(w', a) {
      assert EntryOk(w, a);
    }
  }

  lemma AnsweredFrame(w: World, w': World, heard: set<AckFlight>)
    requires AnsweredOk(w) && w'.first == w.first && w'.answered == w.answered + heard
    requires w.sender.unacked.base <= w'.sender.unacked.base && (forall a <- heard :: a.point <= w'.sender.unacked.base)
    requires w'.sender.unacked.base == w.sender.unacked.base || HasAck(heard, w'.sender.unacked.base)
    ensures AnsweredOk(w')
  {
    assert HasAck(w.answered, w.sender.unacked.base) ==> HasAck(w'.answered, w.sender.unacked.base);
    assert HasAck(heard, w'.sender.unacked.base) ==> HasAck(w'.answered, w'.sender.unacked.base);
  }

  lemma RetiringKeepsTop(acks: Window<AckEntry>, n: u32)
    ensures var left := ReceiverSpec.HandleAckOfAck(acks, n);
            left.Top() == acks.Top() && left.limit == acks.limit && |left.items| <= |acks.items|
  {
    hide Distance;
  }

  lemma StepKeepsBooks(w: World, step: Step)
    requires Inv(w) && Enabled(w, step) && AnnouncedOk(w) && EntriesOk(w) && AnsweredOk(w)
    ensures w.sender.unacked.Bounded() && w.receiver.unread.Bounded()
    ensures var w' := Apply(w, step);
            AnnouncedOk(w') && EntriesOk(w') && AnsweredOk(w')
  {
    StepBooks(w, step);
    StepKeeps(w, step);
    if step.ReceiverTick? {
      TickKeepsBooks(w, step.readings);
    } else {
      var w' := Apply(w, step);
      var heard := if step.HearAck? then {step.ack} else {};
      assert step.HearAck? ==> step.ack in w.acks && step.ack in heard;
      if step.HearAckOfAck? {
        RetiringKeepsTop(w.receiver.acks, step.n);
      }
      hide Inv, Wire, AckPoint, Apply, AnnouncedOk, EntriesOk, AnsweredOk, Enabled, ReceiverSpec.HandleAckOfAck;
      AnnouncedFrame(w, w');
      EntriesFrame(w, w');
      AnsweredFrame(w, w', heard);
    }
  }

  /** A tick that sends an acknowledgement gives it a number and makes it the newest. */
  lemma TickMakesEntry(r: ReceiverState, env: Readings)
    requires |r.acks.items| <= r.acks.limit == DEFAULT_WINDOW
    ensures var (r', ack) := SendAck(r, env);
            && r'.acks.limit == r.acks.limit && |r'.acks.items| <= r'.acks.limit
            && (ack.None? ==> r'.acks == r.acks && r'.lastAck == r.lastAck)
            && (ack.Some? ==>
                  && r'.acks.Top() == r.acks.Top() + 1
                  && ack.value.header.additionalInfo == Wire(r.acks.Top())
                  && r'.lastAck == Wire(AckPoint(r.unread)))
  {
    hide Wire, AckPoint, AckDue, ReceiverSpec.AvailableBufferSize;
  }

  lemma TickKeepsBooks(w: World, env: Readings)
    requires Inv(w) && AnnouncedOk(w) && EntriesOk(w) && AnsweredOk(w)
    ensures w.sender.unacked.Bounded() && w.receiver.unread.Bounded()
    ensures var w' := Apply(w, ReceiverTick(env));
            AnnouncedOk(w') && EntriesOk(w') && AnsweredOk(w')
  {
    InvSenderOk(w);
    ReceiverTickKeeps(w, env);
    TickMakesEntry(w.receiver, env);
    hide Inv, Wire, AckPoint, SendAck, Restamp, AnsweredOk, EntriesOk, AnnouncedOk;
    var w' := Apply(w, ReceiverTick(env));
    var (r, ack) := SendAck(w.receiver, env);
    AnsweredFrame(w, w', {});
    if ack.Some? {
      var made := AckFlight(w.Point(), w.receiver.acks.Top(), ack.value);
      assert w'.acks == w.acks + {made};
      NewEntry(w, w', made);
    } else {
      AnnouncedFrame(w, w');
      EntriesFrame(w, w');
    }
  }

  /** An acknowledgement made for the ack point, under the next number, is announced and is the newest. */
  lemma NewEntry(w: World, w': World, made: AckFlight)
    requires AnnouncedOk(w) && EntriesOk(w) && w'.first == w.first && w'.sender == w.sender && w'.Point() == w.Point()
    requires w'.acks == w.acks + {made} && w'.answered == w.answered && w'.announced == made.point == w.Point()
    requires made.entry == w.receiver.acks.Top() && made.packet.header.additionalInfo == Wire(made.entry)
    requires w'.receiver.acks.Top() == w.receiver.acks.Top() + 1 && w'.receiver.lastAck == Wire(w.Point())
    requires |w'.receiver.acks.items| <= w'.receiver.acks.limit == w.receiver.acks.limit
    ensures AnnouncedOk(w') && EntriesOk(w')
  {
    hide Wire, AckPoint;
    forall a | a in w'.acks || a in w'.answered ensures EntryOk(w', a) {
      assert a in w.acks || a in w.answered ==> EntryOk(w, a);
    }
  }

  lemma InitLedger(w: World)
    requires Init(w)
    ensures Ledger(w)
  {
  }

  lemma StepLedger(w: World, step: Step, w': World)
    requires Inv(w) && Ledger(w) && Stepped(w, step, w')
    ensures Ledger(w')
  {
    hide Inv, Apply, Enabled, StampedOk, AnnouncedOk, EntriesOk, AnsweredOk;
    StepKeepsBooks(w, step);
    StepStamps(w, step);
  }

  lemma {:induction false} RunLedger(worlds: seq<World>, steps: seq<Step>, i: nat)
    requires Run(worlds, steps) && i < |worlds|
    ensures Inv(worlds[i]) && Ledger(worlds[i])
  {
    hide Inv, Ledger, Init, Stepped;
    RunInv(worlds, steps, i);
    if i == 0 {
      InitLedger(worlds[0]);
    } else {
      RunLedger(worlds, steps, i - 1);
      StepLedger(worlds[i - 1], steps[i - 1], worlds[i]);
    }
  }

  // Honest answers

  /** Number `n` is that of an answer the sender has given, and not so old as to pass for another. */
  ghost predicate Answers(w: World, n: u32) {
    exists a <- w.answered :: IsAnswer(w, n, a)
  }

  predicate IsAnswer(w: World, n: u32, a: AckFlight) {
    AnswerTo(a.packet, 0).header.additionalInfo == n && w.receiver.acks.Top() <= a.entry + MODULUS
  }

  /** The receiver is only told of acknowledgements that the sender has answered. */
  ghost predicate Honest(worlds: seq<World>, steps: seq<Step>)
    requires |steps| < |worlds|
  {
    forall i :: 0 <= i < |steps| && steps[i].HearAckOfAck? ==> Answers(worlds[i], steps[i].n)
  }

  ghost predicate HonestRun(worlds: seq<World>, steps: seq<Step>) {
    Run(worlds, steps) && Honest(worlds, steps)
  }

  /** With no acknowledgement unanswered, the sender has dropped all that was announced. */
  ghost predicate UnansweredOk(w: World) {
    w.receiver.acks.items == [] ==> w.sender.unacked.base == w.announced
  }

  lemma StepUnanswered(w: World, step: Step, w': World)
    requires Inv(w) && Ledger(w) && UnansweredOk(w) && Stepped(w, step, w')
    requires step.HearAckOfAck? ==> Answers(w, step.n)
    ensures UnansweredOk(w')
  {
    StepBooks(w, step);
    StepKeepsBooks(w, step);
    if step.ReceiverTick? {
      TickLeavesEntry(w.receiver, step.readings);
    } else if step.HearAckOfAck? {
      AnswerRetires(w, step.n);
    }
  }

  lemma TickLeavesEntry(r: ReceiverState, env: Readings)
    ensures var (r', ack) := SendAck(r, env);
            if ack.Some? then r'.acks.items != [] else r'.acks == r.acks
  {
    hide Wire, AckPoint, AckDue, ReceiverSpec.AvailableBufferSize;
  }

  /** An honest answer to the newest acknowledgement means that the sender has dropped all that was announced. */
  lemma AnswerRetires(w: World, n: u32)
    requires Ledger(w) && UnansweredOk(w) && Answers(w, n)
    ensures ReceiverSpec.HandleAckOfAck(w.receiver.acks, n).items == [] ==> w.sender.unacked.base == w.announced
  {
    var a :| a in w.answered && IsAnswer(w, n, a);
    assert EntryOk(w, a);
    hide Wire, AckPoint, StampedOk;
    AckOfAckExact(w.receiver.acks, a.entry);
  }

  /** In every honest run. */
  lemma {:induction false} RunUnanswered(worlds: seq<World>, steps: seq<Step>, i: nat)
    requires HonestRun(worlds, steps) && i < |worlds|
    ensures UnansweredOk(worlds[i])
  {
    if i > 0 {
      hide Inv, Ledger, Init, Stepped, UnansweredOk, Answers;
      RunUnanswered(worlds, steps, i - 1);
      RunLedger(worlds, steps, i - 1);
      StepUnanswered(worlds[i - 1], steps[i - 1], worlds[i]);
    }
  }

  /** A flushed receiver's peer has heard it: the sender has dropped every packet that was received without a gap. */
  lemma FlushedMeansHeard(worlds: seq<World>, steps: seq<Step>, i: nat)
    requires HonestRun(worlds, steps) && i < |worlds|
    requires worlds[i].receiver.acks.items == [] && Wire(worlds[i].Point()) == worlds[i].receiver.lastAck
    ensures worlds[i].sender.unacked.base == worlds[i].Point()
  {
    RunLedger(worlds, steps, i);
    RunUnanswered(worlds, steps, i);
    PointAnnounced(worlds[i]);
  }

  /** The ack point is near enough to the last announced one for wire numbers to tell them apart. */
  lemma PointAnnounced(w: World)
    requires Inv(w) && AnnouncedOk(w)
    ensures Wire(w.Point()) == w.receiver.lastAck <==> w.Point() == w.announced
  {
    SpanBounded(w);
    DistanceOfWire(w.announced, w.announced);
    assert w.announced <= w.Point() <= w.Top() <= w.sender.unacked.base + MAXIMUM_WINDOW;
    DistanceOfWire(w.announced, w.Point());
    hide Wire, Distance, AckPoint, Inv;
  }

  /**
   A tick sends an acknowledgement, for the ack point, exactly when it is not too early
   and the ack point is new or the oldest unanswered acknowledgement is due again.
   */
  lemma TickSendsAck(w: World, env: Readings)
    requires Inv(w) && Ledger(w)
    ensures w.sender.unacked.Bounded() && w.receiver.unread.Bounded()
    ensures var w' := Apply(w, ReceiverTick(env));
            var entries := w.receiver.acks.items;
            var due := w.Point() != w.announced || (entries != [] && entries[0].sendTime + env.ackTimeout <= env.now);
            if w.receiver.ackSentTime < env.now && due
            then HasAck(w'.acks - w.acks, w.Point()) else w'.acks == w.acks
  {
    InvSenderOk(w);
    PointAnnounced(w);
    TickMakesEntry(w.receiver, env);
    SendsWhenDue(w.receiver, env);
    assert forall b <- w.acks :: b.entry < w.receiver.acks.Top();
    hide Inv, Ledger, Wire, AckPoint, Restamp, SendAck;
    var w' := Apply(w, ReceiverTick(env));
    if SendAck(w.receiver, env).1.Some? {
      var a := AckFlight(w.Point(), w.receiver.acks.Top(), SendAck(w.receiver, env).1.value);
      assert a in w'.acks - w.acks;
    }
  }

  lemma SendsWhenDue(r: ReceiverState, env: Readings)
    ensures SendAck(r, env).1.Some? <==>
              && r.ackSentTime < env.now
              && (Wire(AckPoint(r.unread)) != r.lastAck
                  || (r.acks.items != [] && r.acks.items[0].sendTime + env.ackTimeout <= env.now))
  {
    hide Wire, AckPoint, ReceiverSpec.AvailableBufferSize;
  }

  /** So it is in every run. */
  lemma AckSentExactly(worlds: seq<World>, steps: seq<Step>, i: nat, env: Readings)
    requires Run(worlds, steps) && i < |worlds|
    ensures worlds[i].sender.unacked.Bounded() && worlds[i].receiver.unread.Bounded()
    ensures var w, w' := worlds[i], Apply(worlds[i], ReceiverTick(env));
            var entries := w.receiver.acks.items;
            w'.acks != w.acks <==>
              && w.receiver.ackSentTime < env.now
              && (w.Point() != w.announced || (entries != [] && entries[0].sendTime + env.ackTimeout <= env.now))
  {
    hide Run, Inv, Ledger, Apply, AckPoint;
    RunLedger(worlds, steps, i);
    TickSendsAck(worlds[i], env);
  }

  // How often it is announced

  lemma StepAckTime(w: World, step: Step, w': World)
    requires Stepped(w, step, w')
    ensures w'.receiver.ackSentTime ==
            if step.ReceiverTick? && w.receiver.ackSentTime < step.readings.now
            then step.readings.now + step.readings.ackInterval else w.receiver.ackSentTime
    ensures step.ReceiverTick? && w'.acks != w.acks ==> w.receiver.ackSentTime < step.readings.now
  {
    hide Wire, AckPoint, AckDue, Restamp, AddData, HandleAck, HandleNegativeAck, HandleTick, ReceiverSpec.HandleData,
      ReceiverSpec.ReadData, ReceiverSpec.HandleAckOfAck, Launched, Chunks, ReceiverSpec.AvailableBufferSize;
  }

  ghost predicate Spaced(steps: seq<Step>) {
    forall k :: 0 <= k < |steps| && steps[k].ReceiverTick? ==> steps[k].readings.ackInterval >= 0
  }

  lemma {:induction false} AckTimeGrows(worlds: seq<World>, steps: seq<Step>, i: nat, j: nat)
    requires Path(worlds, steps) && Spaced(steps) && i <= j < |worlds|
    ensures worlds[i].receiver.ackSentTime <= worlds[j].receiver.ackSentTime
  {
    hide Stepped;
    if i < j {
      AckTimeGrows(worlds, steps, i, j - 1);
      StepAckTime(worlds[j - 1], steps[j - 1], worlds[j]);
    }
  }

  /** Two acknowledgements are further apart than the interval, however often the receiver ticks. */
  lemma AcksSpaced(worlds: seq<World>, steps: seq<Step>, i: nat, j: nat)
    requires Path(worlds, steps) && Spaced(steps) && i < j < |steps| && steps[i].ReceiverTick? && steps[j].ReceiverTick?
    requires worlds[i + 1].acks != worlds[i].acks && worlds[j + 1].acks != worlds[j].acks
    ensures steps[i].readings.now + steps[i].readings.ackInterval < steps[j].readings.now
  {
    hide Stepped;
    AckTimeGrows(worlds, steps, i + 1, j);
    StepAckTime(worlds[i], steps[i], worlds[i + 1]);
    StepAckTime(worlds[j], steps[j], worlds[j + 1]);
  }
}
