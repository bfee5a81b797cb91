/**
 Completion: from every reachable state, whatever the network has lost, there is a way
 on, by ticks, deliveries and reads alone, to a state in which everything accepted has
 been delivered and acknowledged. The surroundings are given, step by step, and not
 chosen.
 */
module StreamCompletion {
  import opened SequenceNumbers
  import opened SlidingWindows
  import opened Bytes
  import opened Packets
  import opened SenderSpec
  import opened ReceiverSpec
  import opened StreamProtocol
  import opened StreamSafety
  import opened StreamTheorems
  import opened StreamProgress
  import opened StreamLedger

  // Surroundings

  /** What the two ends find when a step is taken: clocks, timeouts, the UDP socket and the controller's sizes. */
  datatype Surroundings = Surroundings(
    env: Env, readings: Readings, sendWindow: nat, dataSize: nat, receiveWindow: nat)

  /** The step is taken in these surroundings. */
  ghost predicate Suits(step: Step, s: Surroundings) {
    match step
    case Write(_, windowSize, dataSize, env) => windowSize == s.sendWindow && dataSize == s.dataSize && env == s.env
    case HearAck(_, env) => env == s.env
    case HearNack(_, env) => env == s.env
    case SenderTick(env) => env == s.env
    case HearData(_, windowSize, now) => windowSize == s.receiveWindow && now == s.readings.now
    case ReceiverTick(readings) => readings == s.readings
    case _ => true
  }

  /** Both clocks are later than `t`, by more than the timeouts. */
  predicate Late(s: Surroundings, t: int) {
    && t < s.readings.now && t + s.readings.ackTimeout <= s.readings.now
    && t < s.env.now && t + s.env.timeout < s.env.now
  }

  ghost predicate LateFrom(around: nat -> Surroundings, t: int, n: nat) {
    forall k: nat :: n <= k ==> Late(around(k), t)
  }

  ghost predicate Passes(around: nat -> Surroundings, t: int) {
    exists n: nat :: LateFrom(around, t, n)
  }

  /** Surroundings in which sends succeed, data size and receive window are not zero, and time passes. */
  ghost predicate Kind(around: nat -> Surroundings) {
    && (forall n: nat, p :: around(n).env.sends(p))
    && (forall n: nat :: around(n).dataSize > 0 && around(n).receiveWindow > 0)
    && forall t: int :: Passes(around, t)
  }

  ghost predicate SuitsFrom(around: nat -> Surroundings, steps: seq<Step>, n: nat) {
    forall i :: n <= i < |steps| ==> Suits(steps[i], around(i))
  }

  // Going on

  function Final(worlds: seq<World>): World
    requires worlds != []
  {
    worlds[|worlds| - 1]
  }

  /** A step of the two ends or a delivery: no write, no loss, and nothing forged. */
  predicate Plain(step: Step) {
    step.SenderTick? || step.HearAck? || step.HearData? || step.Read? || step.ReceiverTick?
  }

  /** `more` and `moreSteps` go on from where `worlds` and `steps` end, in the given surroundings. */
  ghost predicate Onward(around: nat -> Surroundings,
                         worlds: seq<World>, steps: seq<Step>, more: seq<World>, moreSteps: seq<Step>) {
    && Path(worlds, steps) && Path(more, moreSteps)
    && [] < worlds <= more && steps <= moreSteps
    && SuitsFrom(around, moreSteps, |steps|)
    && forall i :: |steps| <= i < |moreSteps| ==> Plain(moreSteps[i]) || moreSteps[i].Write?
  }

  /** Nothing has been written in between, and what was sent stays sent. */
  ghost predicate Later(w: World, w': World) {
    && w'.first == w.first && w'.log == w.log && w'.accepted == w.accepted
    && w.data <= w'.data && w.acks <= w'.acks
    && (w.answered <= w.acks ==> w'.answered <= w'.acks)
  }

  /** On by steps other than writes. */
  ghost predicate GoesOn(around: nat -> Surroundings,
                         worlds: seq<World>, steps: seq<Step>, more: seq<World>, moreSteps: seq<Step>) {
    && Onward(around, worlds, steps, more, moreSteps)
    && (forall i :: |steps| <= i < |moreSteps| ==> !moreSteps[i].Write?)
    && Later(Final(worlds), Final(more))
  }

  lemma FinalInv(worlds: seq<World>, steps: seq<Step>)
    requires HonestRun(worlds, steps)
    ensures Inv(Final(worlds)) && Ledger(Final(worlds)) && UnansweredOk(Final(worlds))
    ensures Final(worlds).sender.unacked.Bounded() && Final(worlds).receiver.unread.Bounded()
  {
    RunLedger(worlds, steps, |worlds| - 1);
    RunUnanswered(worlds, steps, |worlds| - 1);
  }

  lemma StandsStill(around: nat -> Surroundings, worlds: seq<World>, steps: seq<Step>)
    requires Path(worlds, steps)
    ensures GoesOn(around, worlds, steps, worlds, steps)
  {
  }

  lemma OnwardTrans(around: nat -> Surroundings,
                    w1: seq<World>, s1: seq<Step>, w2: seq<World>, s2: seq<Step>, w3: seq<World>, s3: seq<Step>)
    requires Onward(around, w1, s1, w2, s2) && Onward(around, w2, s2, w3, s3)
    ensures Onward(around, w1, s1, w3, s3)
  {
    hide Path, Suits, Plain;
    forall i | |s1| <= i < |s3| ensures Suits(s3[i], around(i)) && (Plain(s3[i]) || s3[i].Write?) {
      if i < |s2| {
        assert s3[i] == s2[i];
      }
    }
  }

  lemma GoesOnTrans(around: nat -> Surroundings,
                    w1: seq<World>, s1: seq<Step>, w2: seq<World>, s2: seq<Step>, w3: seq<World>, s3: seq<Step>)
    requires GoesOn(around, w1, s1, w2, s2) && GoesOn(around, w2, s2, w3, s3)
    ensures GoesOn(around, w1, s1, w3, s3)
  {
    OnwardTrans(around, w1, s1, w2, s2, w3, s3);
    hide Path, SuitsFrom;
    forall i | |s1| <= i < |s3| ensures !s3[i].Write? {
      if i < |s2| {
        assert s3[i] == s2[i];
      }
    }
  }

  /** What goes on from an honest run is an honest run. */
  lemma StillRuns(around: nat -> Surroundings,
                  worlds: seq<World>, steps: seq<Step>, more: seq<World>, moreSteps: seq<Step>)
    requires HonestRun(worlds, steps) && Onward(around, worlds, steps, more, moreSteps)
    ensures HonestRun(more, moreSteps) && more[0] == worlds[0]
  {
    LengthsMatch(worlds, steps);
    LengthsMatch(more, moreSteps);
    hide Path, Init, SuitsFrom, Answers;
    forall i | 0 <= i < |moreSteps| && moreSteps[i].HearAckOfAck? ensures Answers(more[i], moreSteps[i].n) {
      assert i < |steps| ==> more[i] == worlds[i] && moreSteps[i] == steps[i];
    }
  }

  lemma LengthsMatch(worlds: seq<World>, steps: seq<Step>)
    requires Path(worlds, steps)
    ensures |worlds| == |steps| + 1
  {
  }

  lemma OneMore(worlds: seq<World>, steps: seq<Step>, step: Step, w': World)
    requires Path(worlds, steps) && Stepped(Final(worlds), step, w')
    ensures Path(worlds + [w'], steps + [step])
  {
    hide Stepped;
    var more, moreSteps := worlds + [w'], steps + [step];
    forall i | 0 <= i < |moreSteps| ensures Stepped(more[i], moreSteps[i], more[i + 1]) {
      if i < |steps| {
        assert more[i] == worlds[i] && more[i + 1] == worlds[i + 1] && moreSteps[i] == steps[i];
      }
    }
  }

  /** One step, in the surroundings that are due. */
  lemma StepOnward(around: nat -> Surroundings, worlds: seq<World>, steps: seq<Step>, step: Step)
    returns (more: seq<World>, moreSteps: seq<Step>)
    requires Path(worlds, steps) && Enabled(Final(worlds), step) && Suits(step, around(|steps|))
    requires Plain(step) || step.Write?
    requires Final(worlds).sender.unacked.Bounded() && Final(worlds).receiver.unread.Bounded()
    ensures Onward(around, worlds, steps, more, moreSteps) && |moreSteps| == |steps| + 1
    ensures moreSteps[|steps|] == step && Final(more) == Apply(Final(worlds), step)
  {
    LengthsMatch(worlds, steps);
    hide Path, Stepped, Suits, Apply, Enabled, Plain;
    var w' := Apply(Final(worlds), step);
    StepsTo(Final(worlds), step);
    OneMore(worlds, steps, step, w');
    more, moreSteps := worlds + [w'], steps + [step];
    assert worlds <= more && steps <= moreSteps;
  }

  lemma StepsTo(w: World, step: Step)
    requires w.sender.unacked.Bounded() && w.receiver.unread.Bounded() && Enabled(w, step)
    ensures Stepped(w, step, Apply(w, step))
  {
    hide Enabled, Apply;
  }

  /** One step that writes nothing. */
  lemma StepOn(around: nat -> Surroundings, worlds: seq<World>, steps: seq<Step>, step: Step)
    returns (more: seq<World>, moreSteps: seq<Step>)
    requires Path(worlds, steps) && Enabled(Final(worlds), step) && Suits(step, around(|steps|)) && Plain(step)
    requires Final(worlds).sender.unacked.Bounded() && Final(worlds).receiver.unread.Bounded()
    ensures GoesOn(around, worlds, steps, more, moreSteps) && |moreSteps| == |steps| + 1
    ensures moreSteps[|steps|] == step && Final(more) == Apply(Final(worlds), step)
  {
    assert Path(worlds, steps) ==> worlds != [];
    ApplyLater(Final(worlds), step);
    hide Path, Apply, Enabled, Suits, SuitsFrom;
    more, moreSteps := StepOnward(around, worlds, steps, step);
  }

  lemma ApplyLater(w: World, step: Step)
    requires w.sender.unacked.Bounded() && w.receiver.unread.Bounded() && Plain(step) && Enabled(w, step)
    ensures Later(w, Apply(w, step))
  {
    hide HandleAck, HandleNegativeAck, HandleTick, HandleData, ReadData, SendAck, Restamp, Launched,
      ReceiverSpec.HandleAckOfAck;
  }

  /** Waiting until both clocks are late enough: reads of nothing. */
  lemma Wait(around: nat -> Surroundings, worlds: seq<World>, steps: seq<Step>, t: int)
    returns (more: seq<World>, moreSteps: seq<Step>)
    requires Path(worlds, steps) && Kind(around)
    requires Final(worlds).sender.unacked.Bounded() && Final(worlds).receiver.unread.Bounded()
    ensures GoesOn(around, worlds, steps, more, moreSteps) && Final(more) == Final(worlds)
    ensures Late(around(|moreSteps|), t) && Ticking(moreSteps, |steps|)
  {
    assert Path(worlds, steps) ==> worlds != [];
    assert Passes(around, t);
    hide Path, GoesOn;
    var n: nat :| LateFrom(around, t, n);
    more, moreSteps := WaitUntil(around, worlds, steps, n);
  }

  lemma {:induction false} WaitUntil(around: nat -> Surroundings, worlds: seq<World>, steps: seq<Step>, n: nat)
    returns (more: seq<World>, moreSteps: seq<Step>)
    requires Path(worlds, steps)
    requires Final(worlds).sender.unacked.Bounded() && Final(worlds).receiver.unread.Bounded()
    ensures GoesOn(around, worlds, steps, more, moreSteps) && Final(more) == Final(worlds)
    ensures n <= |moreSteps| && Ticking(moreSteps, |steps|)
    decreases n - |steps|
  {
    if n <= |steps| {
      more, moreSteps := worlds, steps;
      StandsStill(around, worlds, steps);
    } else {
      ReadNothing(Final(worlds));
      hide Path, Apply;
      var mid, midSteps := StepOn(around, worlds, steps, Read(0));
      more, moreSteps := WaitUntil(around, mid, midSteps, n);
      GoesOnTrans(around, worlds, steps, mid, midSteps, more, moreSteps);
    }
  }

  /** From step `n` on, only the sender ticks, or nothing happens. */
  predicate Ticking(steps: seq<Step>, n: nat) {
    forall i :: n <= i < |steps| ==> steps[i].SenderTick? || (steps[i].Read? && steps[i].room == 0)
  }

  lemma ReadNothing(w: World)
    requires w.sender.unacked.Bounded() && w.receiver.unread.Bounded()
    ensures Apply(w, Read(0)) == w
  {
    assert w.delivered + [] == w.delivered;
  }

  // Sending what waits

  /** While something waits, a tick sends one packet, and the timeout goes off at most once. */
  lemma TickSends(w: World, env: Env)
    requires w.sender.unacked.Bounded() && w.receiver.unread.Bounded()
    requires (forall p :: env.sends(p)) && Waiting(w.sender.unacked.items) != []
    ensures var w' := Apply(w, SenderTick(env));
            && w'.receiver == w.receiver && w'.delivered == w.delivered
            && (if TimedOut(w.sender.sendTimeout, env) then w'.sender.sendTimeout.PosInfin?
                else w'.sender.sendTimeout == w.sender.sendTimeout
                     && |Waiting(w'.sender.unacked.items)| == |Waiting(w.sender.unacked.items)| - 1)
  {
    hide Waiting, TimedOut, Overdue, Launched;
    var items := w.sender.unacked.items;
    SendTakesFirst(items, env.sends, env.now);
    var marked := Mark(w.sender.unacked, Overdue(w.sender.unacked, env)).items;
    var i := FirstSendable(items, env.sends);
    assert marked[i].lost && env.sends(marked[i].packet);
  }

  /** After enough ticks, nothing waits any more. */
  lemma {:induction false} SendAll(around: nat -> Surroundings, worlds: seq<World>, steps: seq<Step>)
    returns (more: seq<World>, moreSteps: seq<Step>)
    requires HonestRun(worlds, steps) && Kind(around)
    ensures GoesOn(around, worlds, steps, more, moreSteps) && HonestRun(more, moreSteps) && Ticking(moreSteps, |steps|)
    ensures Final(more).receiver == Final(worlds).receiver && Final(more).delivered == Final(worlds).delivered
    ensures Waiting(Final(more).sender.unacked.items) == []
    ensures SentOk(Final(worlds)) ==> SentOk(Final(more))
    decreases !Final(worlds).sender.sendTimeout.PosInfin?, |Waiting(Final(worlds).sender.unacked.items)|
  {
    var w := Final(worlds);
    FinalInv(worlds, steps);
    if Waiting(w.sender.unacked.items) == [] {
      more, moreSteps := worlds, steps;
      StandsStill(around, worlds, steps);
    } else {
      var env := around(|steps|).env;
      hide Path, Apply, Waiting, Inv, Ledger, Init, SentOk, Honest;
      TickSends(w, env);
      var mid, midSteps := StepOn(around, worlds, steps, SenderTick(env));
      if SentOk(w) {
        StepSent(w, SenderTick(env));
      }
      StillRuns(around, worlds, steps, mid, midSteps);
      more, moreSteps := SendAll(around, mid, midSteps);
      GoesOnTrans(around, worlds, steps, mid, midSteps, more, moreSteps);
      assert moreSteps[|steps|] == midSteps[|steps|];
    }
  }

  /** Every outstanding packet is on the network. */
  ghost predicate AllSent(w: World) {
    var u := w.sender.unacked;
    forall i :: 0 <= i < |u.items| ==> DataFlight(u.base + i, u.items[i].packet) in w.data
  }

  lemma {:induction false} NoneWaits(items: seq<Unacked>, i: nat)
    requires Waiting(items) == [] && i < |items|
    ensures !items[i].lost
  {
    if items[0].lost {
      assert false;
    } else if i > 0 {
      NoneWaits(items[1..], i - 1);
    }
  }

  lemma NoneWaitsAllSent(w: World)
    requires SentOk(w) && Waiting(w.sender.unacked.items) == []
    ensures AllSent(w)
  {
    hide Waiting;
    var u := w.sender.unacked;
    forall i | 0 <= i < |u.items| ensures DataFlight(u.base + i, u.items[i].packet) in w.data {
      NoneWaits(u.items, i);
    }
  }

  // Sending it again

  function Latest(items: seq<Unacked>): int {
    if items == [] then 0
    else
      var t := Latest(items[1..]);
      if items[0].lastSend.At? && items[0].lastSend.time > t then items[0].lastSend.time else t
  }

  lemma {:induction false} NoneLater(items: seq<Unacked>, i: nat)
    requires i < |items| && items[i].lastSend.At?
    ensures items[i].lastSend.time <= Latest(items)
  {
    if i > 0 {
      NoneLater(items[1..], i - 1);
    }
  }

  /** When nothing waits and the timeout is not due, a tick sets it by the front packet. */
  lemma TickArms(w: World, env: Env)
    requires Inv(w) && StampedOk(w.sender) && Waiting(w.sender.unacked.items) == [] && w.sender.unacked.items != []
    requires (forall p :: env.sends(p)) && !TimedOut(w.sender.sendTimeout, env)
    ensures w.sender.unacked.Bounded() && w.receiver.unread.Bounded()
    ensures Apply(w, SenderTick(env)) == w.(sender := Apply(w, SenderTick(env)).sender)
    ensures Apply(w, SenderTick(env)).sender == w.sender.(
              sendTimeout := At(w.sender.unacked.items[0].lastSend.time + env.timeout))
  {
    InvWindows(w);
    NoneWaits(w.sender.unacked.items, 0);
    SendTakesFirst(w.sender.unacked.items, env.sends, env.now);
    hide Inv, Waiting, TimedOut;
  }

  /** When it is due for all of them, a tick puts all in line again and sends the first. */
  lemma TickTimesOut(w: World, env: Env)
    requires Inv(w) && StampedOk(w.sender) && Waiting(w.sender.unacked.items) == [] && w.sender.unacked.items != []
    requires (forall p :: env.sends(p)) && TimedOut(w.sender.sendTimeout, env)
    requires Latest(w.sender.unacked.items) + env.timeout < env.now
    ensures w.sender.unacked.Bounded() && w.receiver.unread.Bounded()
    ensures var w' := Apply(w, SenderTick(env));
            SentOk(w') && w'.receiver == w.receiver && w'.delivered == w.delivered
  {
    hide Inv, Wire, Distance, Waiting, TimedOut, Latest, Overdue, Mark, DoSend, StampedOk, SentOk;
    InvWindows(w);
    FrontNumber(w);
    var u := w.sender.unacked;
    var s := SenderState(Mark(u, Overdue(u, env)), PosInfin);
    AllOverdue(w.sender, env);
    SendsFront(s, env);
    var w' := Apply(w, SenderTick(env));
    assert w' == Sent(w, DoSend(s, env));
    FrontSent(w', u.items[0].packet);
  }

  lemma FrontSent(w: World, packet: DataPacket)
    requires var u := w.sender.unacked;
             && u.items != [] && u.items[0].packet == packet && DataFlight(u.base, packet) in w.data
             && forall i :: 1 <= i < |u.items| ==> u.items[i].lost
    ensures SentOk(w)
  {
  }

  lemma FrontNumber(w: World)
    requires Inv(w) && w.sender.unacked.items != []
    ensures Distance(w.sender.unacked.base, w.sender.unacked.items[0].packet.seqnum) == 0
  {
    var u := w.sender.unacked;
    assert Carries(w, u.items[0].packet, u.base + 0);
    DistanceOfWire(u.base, u.base);
  }

  lemma AllOverdue(s: SenderState, env: Env)
    requires StampedOk(s) && Waiting(s.unacked.items) == [] && Latest(s.unacked.items) + env.timeout < env.now
    ensures var marked := Mark(s.unacked, Overdue(s.unacked, env));
            && marked.base == s.unacked.base && |marked.items| == |s.unacked.items|
            && forall i :: 0 <= i < |marked.items| ==>
                 marked.items[i].lost && marked.items[i].packet == s.unacked.items[i].packet
  {
    hide Waiting, Latest, Overdue;
    var u := s.unacked;
    var marked := Mark(u, Overdue(u, env));
    forall i | 0 <= i < |u.items| ensures marked.items[i].lost && marked.items[i].packet == u.items[i].packet {
      NoneWaits(u.items, i);
      NoneLater(u.items, i);
      OverdueAt(u, env, i);
    }
  }

  lemma SendsFront(s: SenderState, env: Env)
    requires s.unacked.items != [] && s.unacked.items[0].lost && (forall p :: env.sends(p))
    ensures var (s', sent) := DoSend(s, env);
            && s'.unacked.base == s.unacked.base && |s'.unacked.items| == |s.unacked.items|
            && (forall i :: 1 <= i < |s.unacked.items| ==> s'.unacked.items[i] == s.unacked.items[i])
            && s'.unacked.items[0].packet == s.unacked.items[0].packet && sent == Some(s.unacked.items[0].packet)
  {
  }

  /** A time after which every outstanding packet is overdue and the timeout is due. */
  function Horizon(s: SenderState): int {
    var t := Latest(s.unacked.items);
    if s.sendTimeout.At? && s.sendTimeout.time > t then s.sendTimeout.time else t
  }

  lemma TickLate(w: World, env: Env)
    requires Inv(w) && StampedOk(w.sender) && Waiting(w.sender.unacked.items) == [] && w.sender.unacked.items != []
    requires (forall p :: env.sends(p)) && Horizon(w.sender) < env.now && Horizon(w.sender) + env.timeout < env.now
    ensures w.sender.unacked.Bounded() && w.receiver.unread.Bounded()
    ensures var w' := Apply(w, SenderTick(env));
            && w'.receiver == w.receiver && w'.delivered == w.delivered
            && (|| SentOk(w')
                || (&& !w.sender.sendTimeout.At? && w'.sender.sendTimeout.At?
                    && w'.sender.unacked == w.sender.unacked))
  {
    hide Inv, StampedOk, Waiting, Latest, SentOk, Apply;
    if TimedOut(w.sender.sendTimeout, env) {
      TickTimesOut(w, env);
    } else {
      TickArms(w, env);
    }
  }

  /** The sender ticks, in the surroundings that are due. */
  lemma TickOn(around: nat -> Surroundings, worlds: seq<World>, steps: seq<Step>)
    returns (more: seq<World>, moreSteps: seq<Step>)
    requires HonestRun(worlds, steps)
    ensures Final(worlds).sender.unacked.Bounded() && Final(worlds).receiver.unread.Bounded()
    ensures GoesOn(around, worlds, steps, more, moreSteps) && HonestRun(more, moreSteps) && Ticking(moreSteps, |steps|)
    ensures Final(more) == Apply(Final(worlds), SenderTick(around(|steps|).env))
  {
    FinalInv(worlds, steps);
    hide Path, Init, Honest, Inv, Ledger, Apply, SuitsFrom;
    more, moreSteps := StepOn(around, worlds, steps, SenderTick(around(|steps|).env));
    StillRuns(around, worlds, steps, more, moreSteps);
  }

  lemma WaitOn(around: nat -> Surroundings, worlds: seq<World>, steps: seq<Step>, t: int)
    returns (more: seq<World>, moreSteps: seq<Step>)
    requires HonestRun(worlds, steps) && Kind(around)
    ensures GoesOn(around, worlds, steps, more, moreSteps) && HonestRun(more, moreSteps) && Ticking(moreSteps, |steps|)
    ensures Final(more) == Final(worlds) && Late(around(|moreSteps|), t)
  {
    FinalInv(worlds, steps);
    hide Path, Init, Honest, Inv, Ledger, SuitsFrom, Kind;
    more, moreSteps := Wait(around, worlds, steps, t);
    StillRuns(around, worlds, steps, more, moreSteps);
  }

  lemma GoesOnLengths(around: nat -> Surroundings,
                      worlds: seq<World>, steps: seq<Step>, more: seq<World>, moreSteps: seq<Step>)
    requires GoesOn(around, worlds, steps, more, moreSteps)
    ensures worlds != [] && more != [] && steps <= moreSteps
  {
  }

  lemma SenderStamped(worlds: seq<World>, steps: seq<Step>)
    requires HonestRun(worlds, steps)
    ensures Inv(Final(worlds)) && StampedOk(Final(worlds).sender)
  {
    FinalInv(worlds, steps);
  }

  lemma KindSends(around: nat -> Surroundings, n: nat)
    requires Kind(around)
    ensures forall p :: around(n).env.sends(p)
  {
  }

  /** One late tick: all are put in line again, or the timeout is set. */
  lemma LateTick(around: nat -> Surroundings, worlds: seq<World>, steps: seq<Step>)
    returns (more: seq<World>, moreSteps: seq<Step>)
    requires HonestRun(worlds, steps) && Kind(around)
    requires Waiting(Final(worlds).sender.unacked.items) == [] && Final(worlds).sender.unacked.items != []
    ensures GoesOn(around, worlds, steps, more, moreSteps) && HonestRun(more, moreSteps) && Ticking(moreSteps, |steps|)
    ensures Final(more).receiver == Final(worlds).receiver && Final(more).delivered == Final(worlds).delivered
    ensures || SentOk(Final(more))
            || (&& !Final(worlds).sender.sendTimeout.At? && Final(more).sender.sendTimeout.At?
                && Final(more).sender.unacked == Final(worlds).sender.unacked)
  {
    var w := Final(worlds);
    hide HonestRun, Kind, GoesOn, Ticking, Inv, StampedOk, Waiting, Horizon, SentOk, Apply;
    SenderStamped(worlds, steps);
    var mid, midSteps := WaitOn(around, worlds, steps, Horizon(w.sender));
    KindSends(around, |midSteps|);
    TickLate(w, around(|midSteps|).env);
    more, moreSteps := TickOn(around, mid, midSteps);
    GoesOnLengths(around, worlds, steps, mid, midSteps);
    GoesOnLengths(around, mid, midSteps, more, moreSteps);
    GoesOnTrans(around, worlds, steps, mid, midSteps, more, moreSteps);
    TickingOn(midSteps, moreSteps, |steps|);
  }

  lemma TickingOn(mid: seq<Step>, steps: seq<Step>, n: nat)
    requires n <= |mid| && mid <= steps && Ticking(mid, n) && Ticking(steps, |mid|)
    ensures Ticking(steps, n)
  {
    forall i | n <= i < |steps| ensures steps[i].SenderTick? || (steps[i].Read? && steps[i].room == 0) {
      assert i < |mid| ==> steps[i] == mid[i];
    }
  }

  /**
   Retransmission: whatever has been lost, ticks of the sender alone put every
   outstanding packet on the network again.
   */
  lemma ResendAll(around: nat -> Surroundings, worlds: seq<World>, steps: seq<Step>)
    returns (more: seq<World>, moreSteps: seq<Step>)
    requires HonestRun(worlds, steps) && Kind(around)
    ensures GoesOn(around, worlds, steps, more, moreSteps) && HonestRun(more, moreSteps) && Ticking(moreSteps, |steps|)
    ensures Final(more).receiver == Final(worlds).receiver && Final(more).delivered == Final(worlds).delivered
    ensures AllSent(Final(more))
  {
    hide HonestRun, Path, Kind, SuitsFrom, Plain, Waiting, SentOk, AllSent, Ticking;
    more, moreSteps := SendAll(around, worlds, steps);
    if Final(more).sender.unacked.items == [] {
      NothingToSend(Final(more));
      return;
    }
    var w2, s2 := LateTick(around, more, moreSteps);
    GoesOnTrans(around, worlds, steps, more, moreSteps, w2, s2);
    TickingOn(moreSteps, s2, |steps|);
    if !SentOk(Final(w2)) {
      var w3, s3 := LateTick(around, w2, s2);
      GoesOnTrans(around, worlds, steps, w2, s2, w3, s3);
      TickingOn(s2, s3, |steps|);
      w2, s2 := w3, s3;
    }
    more, moreSteps := SendAll(around, w2, s2);
    GoesOnTrans(around, worlds, steps, w2, s2, more, moreSteps);
    TickingOn(s2, moreSteps, |steps|);
    NoneWaitsAllSent(Final(more));
  }

  lemma NothingToSend(w: World)
    requires w.sender.unacked.items == []
    ensures AllSent(w)
  {
  }

  // Reading what is there

  /** With room to spare, reading takes everything before the first gap. */
  lemma {:induction false} DrainEverything(items: seq<Unread>, room: nat)
    requires room > |Readable(items)|
    ensures Drain(items, room) == (items[Ready(items)..], Readable(items))
  {
    if items != [] && !items[0].lost {
      var rest, r := items[0].Rest(), Ready(items[1..]);
      assert |Readable(items)| == |rest| + |Readable(items[1..])|;
      DrainEverything(items[1..], room - |rest|);
      assert items[1..][r..] == items[1 + r..];
    } else {
      assert items[0..] == items;
    }
  }

  /** A read with room to spare leaves the receiver's window starting at the ack point. */
  lemma ReadAll(w: World, room: nat)
    requires Inv(w) && room > |Readable(w.receiver.unread.items)|
    ensures w.sender.unacked.Bounded() && w.receiver.unread.Bounded()
    ensures var w' := Apply(w, Read(room));
            w'.sender == w.sender && w'.receiver.unread.base == w'.Point() == w.Point()
  {
    hide Inv, ReadData, Readable, AckPoint;
    InvWindows(w);
    ReadKeeps(w, room);
    ReadToPoint(w.receiver.unread, room);
  }

  lemma ReadToPoint(u: Window<Unread>, room: nat)
    requires room > |Readable(u.items)|
    ensures ReadData(u, room).0.base == AckPoint(u)
  {
    hide Drain, Readable, Ready;
    DrainEverything(u.items, room);
  }

  lemma ReadOn(around: nat -> Surroundings, worlds: seq<World>, steps: seq<Step>)
    returns (more: seq<World>, moreSteps: seq<Step>)
    requires HonestRun(worlds, steps)
    ensures GoesOn(around, worlds, steps, more, moreSteps) && HonestRun(more, moreSteps)
    ensures Final(more).sender == Final(worlds).sender
    ensures Final(more).receiver.unread.base == Final(more).Point() == Final(worlds).Point()
  {
    FinalInv(worlds, steps);
    hide Path, Init, Honest, Inv, Ledger, Apply, Readable, AckPoint, SuitsFrom;
    var room := |Readable(Final(worlds).receiver.unread.items)| + 1;
    ReadAll(Final(worlds), room);
    more, moreSteps := StepOn(around, worlds, steps, Read(room));
    StillRuns(around, worlds, steps, more, moreSteps);
  }

  // Delivering what is sent

  /** Everything outstanding has been sent, and everything before the first gap has been read. */
  ghost predicate Abreast(w: World) {
    AllSent(w) && w.receiver.unread.base == w.Point()
  }

  lemma AllSentFrame(w: World, w': World)
    requires AllSent(w) && w'.sender == w.sender && w.data <= w'.data
    ensures AllSent(w')
  {
  }

  lemma NextFlight(w: World) returns (flight: DataFlight)
    requires Inv(w) && AllSent(w) && w.Point() < w.Top()
    ensures flight.number == w.Point() && Outstanding(w, flight)
  {
    var u := w.sender.unacked;
    var i := w.Point() - u.base;
    assert u.Top() == w.Top();
    flight := DataFlight(u.base + i, u.items[i].packet);
  }

  /** A receiver that has read all it can takes the next packet, however small its window. */
  lemma TakesNext(w: World, flight: DataFlight, windowSize: nat, now: int)
    requires Inv(w) && w.receiver.unread.base == w.Point() == flight.number && Outstanding(w, flight) && windowSize > 0
    ensures Enabled(w, HearData(flight, windowSize, now))
    ensures w.sender.unacked.Bounded() && w.receiver.unread.Bounded()
    ensures Apply(w, HearData(flight, windowSize, now)).Point() > w.Point()
  {
    OutstandingFresh(w, flight);
    SpanBounded(w);
    PointInWindow(w);
    assert Carries(w, flight.packet, flight.number);
    hide Inv, Wire, Distance, HandleData;
    Lands(w.receiver.unread, flight.packet, flight.number, windowSize, now);
  }

  lemma DeliverNext(around: nat -> Surroundings, worlds: seq<World>, steps: seq<Step>)
    returns (more: seq<World>, moreSteps: seq<Step>)
    requires HonestRun(worlds, steps) && Kind(around)
    requires Abreast(Final(worlds)) && Final(worlds).Point() < Final(worlds).Top()
    ensures GoesOn(around, worlds, steps, more, moreSteps) && HonestRun(more, moreSteps)
    ensures Abreast(Final(more)) && Final(more).Point() > Final(worlds).Point()
  {
    var w := Final(worlds);
    FinalInv(worlds, steps);
    var flight := NextFlight(w);
    var s := around(|steps|);
    hide Path, Init, Honest, Apply, Enabled, Inv, Ledger, AllSent, AckPoint;
    TakesNext(w, flight, s.receiveWindow, s.readings.now);
    var mid, midSteps := StepOn(around, worlds, steps, HearData(flight, s.receiveWindow, s.readings.now));
    StillRuns(around, worlds, steps, mid, midSteps);
    SenderStays(w, HearData(flight, s.receiveWindow, s.readings.now));
    more, moreSteps := ReadOn(around, mid, midSteps);
    GoesOnTrans(around, worlds, steps, mid, midSteps, more, moreSteps);
    AllSentFrame(w, Final(more));
  }

  lemma SenderStays(w: World, step: Step)
    requires w.sender.unacked.Bounded() && w.receiver.unread.Bounded() && (step.HearData? || step.ReceiverTick?)
    ensures Apply(w, step).sender == w.sender
  {
    hide HandleData, SendAck;
  }

  lemma {:induction false} DeliverAllOn(around: nat -> Surroundings, worlds: seq<World>, steps: seq<Step>)
    returns (more: seq<World>, moreSteps: seq<Step>)
    requires HonestRun(worlds, steps) && Kind(around) && Abreast(Final(worlds))
    ensures GoesOn(around, worlds, steps, more, moreSteps) && HonestRun(more, moreSteps)
    ensures Final(more).receiver.unread.base == Final(more).Point() == Final(more).Top()
    decreases Final(worlds).Top() - Final(worlds).Point()
  {
    FinalInv(worlds, steps);
    PointInWindow(Final(worlds));
    if Final(worlds).Point() == Final(worlds).Top() {
      more, moreSteps := worlds, steps;
      StandsStill(around, worlds, steps);
    } else {
      hide Path, Init, Honest, Inv, Ledger, AllSent, AckPoint;
      var mid, midSteps := DeliverNext(around, worlds, steps);
      more, moreSteps := DeliverAllOn(around, mid, midSteps);
      GoesOnTrans(around, worlds, steps, mid, midSteps, more, moreSteps);
    }
  }

  // Acknowledging it

  /** A time after which an acknowledgement is due if any is unanswered. */
  function AckHorizon(r: ReceiverState): int {
    if r.acks.items != [] && r.acks.items[0].sendTime > r.ackSentTime then r.acks.items[0].sendTime else r.ackSentTime
  }

  /** While the sender has packets that have all arrived, a late tick acknowledges them, again if need be. */
  lemma LateTickAcks(w: World, env: Readings)
    requires Inv(w) && Ledger(w) && UnansweredOk(w) && w.Point() == w.Top() && w.sender.unacked.items != []
    requires AckHorizon(w.receiver) < env.now && AckHorizon(w.receiver) + env.ackTimeout <= env.now
    ensures w.sender.unacked.Bounded() && w.receiver.unread.Bounded()
    ensures var w' := Apply(w, ReceiverTick(env));
            && HasAck(w'.acks, w.Point()) && w'.Point() == w.Point() && w'.Top() == w.Top()
            && w'.receiver.unread.base == w.receiver.unread.base
  {
    hide Inv, Ledger, AckPoint, Apply, HasAck;
    SenderBehind(w);
    TickSendsAck(w, env);
    ReceiverTickKeeps(w, env);
    TickKeepsWindow(w, env);
    var w' := Apply(w, ReceiverTick(env));
    HasAckGrows(w'.acks - w.acks, w'.acks, w.Point());
  }

  lemma SenderBehind(w: World)
    requires Inv(w) && w.Point() == w.Top() && w.sender.unacked.items != []
    ensures w.sender.unacked.base < w.Point()
  {
    hide AckPoint;
  }

  lemma TickKeepsWindow(w: World, env: Readings)
    requires w.sender.unacked.Bounded() && w.receiver.unread.Bounded()
    ensures var w' := Apply(w, ReceiverTick(env));
            w'.receiver.unread.base == w.receiver.unread.base && w'.Top() == w.Top()
  {
    hide Wire, AckPoint, AckDue, ReceiverSpec.AvailableBufferSize;
  }

  lemma HasAckGrows(some: set<AckFlight>, all: set<AckFlight>, point: nat)
    requires some <= all && HasAck(some, point)
    ensures HasAck(all, point)
  {
  }

  lemma AcknowledgeOn(around: nat -> Surroundings, worlds: seq<World>, steps: seq<Step>)
    returns (more: seq<World>, moreSteps: seq<Step>)
    requires HonestRun(worlds, steps) && Kind(around)
    requires Final(worlds).Point() == Final(worlds).Top() && Final(worlds).sender.unacked.items != []
    ensures GoesOn(around, worlds, steps, more, moreSteps) && HonestRun(more, moreSteps)
    ensures Final(more).receiver.unread.base == Final(worlds).receiver.unread.base
    ensures Final(more).Point() == Final(more).Top() && HasAck(Final(more).acks, Final(more).Point())
  {
    var w := Final(worlds);
    FinalInv(worlds, steps);
    hide Path, Init, Honest, Inv, Ledger, AckPoint, HasAck, Apply;
    var mid, midSteps := Wait(around, worlds, steps, AckHorizon(w.receiver));
    var readings := around(|midSteps|).readings;
    LateTickAcks(w, readings);
    more, moreSteps := StepOn(around, mid, midSteps, ReceiverTick(readings));
    GoesOnTrans(around, worlds, steps, mid, midSteps, more, moreSteps);
    StillRuns(around, worlds, steps, more, moreSteps);
  }

  lemma FlushOn(around: nat -> Surroundings, worlds: seq<World>, steps: seq<Step>)
    returns (more: seq<World>, moreSteps: seq<Step>)
    requires HonestRun(worlds, steps)
    requires Final(worlds).Point() == Final(worlds).Top() && HasAck(Final(worlds).acks, Final(worlds).Point())
    ensures GoesOn(around, worlds, steps, more, moreSteps) && HonestRun(more, moreSteps)
    ensures Final(more).receiver == Final(worlds).receiver
    ensures Final(more).sender.unacked.items == []
  {
    var w := Final(worlds);
    FinalInv(worlds, steps);
    var ack :| ack in w.acks && ack.point == w.Point();
    assert ack.packet.seqnum == Wire(w.sender.unacked.Top());
    var env := around(|steps|).env;
    FinalAckFlushes(w.sender, env);
    hide Path, Init, Honest, Inv, Ledger, HandleAck, Wire, AckPoint;
    more, moreSteps := StepOn(around, worlds, steps, HearAck(ack, env));
    StillRuns(around, worlds, steps, more, moreSteps);
  }

  /**
   In any kind surroundings, from every state reachable with honest answers, whatever
   has been lost, there is a finite continuation without writes after which the sender
   is flushed and exactly the accepted bytes have been delivered.
   */
  lemma Completes(around: nat -> Surroundings, worlds: seq<World>, steps: seq<Step>)
    returns (more: seq<World>, moreSteps: seq<Step>)
    requires HonestRun(worlds, steps) && Kind(around)
    ensures GoesOn(around, worlds, steps, more, moreSteps) && HonestRun(more, moreSteps)
    ensures Final(more).sender.unacked.items == [] && Final(more).receiver.unread.items == []
    ensures Final(more).delivered == Final(more).accepted == Final(worlds).accepted
  {
    hide HonestRun, Path, Kind, SuitsFrom, Plain, Waiting, AckPoint, AllSent, HasAck, Ticking;
    var w1, s1 := ResendAll(around, worlds, steps);
    var w2, s2 := ReadOn(around, w1, s1);
    GoesOnTrans(around, worlds, steps, w1, s1, w2, s2);
    AllSentFrame(Final(w1), Final(w2));
    more, moreSteps := DeliverAllOn(around, w2, s2);
    GoesOnTrans(around, worlds, steps, w2, s2, more, moreSteps);
    if Final(more).sender.unacked.items != [] {
      var w4, s4 := AcknowledgeOn(around, more, moreSteps);
      GoesOnTrans(around, worlds, steps, more, moreSteps, w4, s4);
      more, moreSteps := FlushOn(around, w4, s4);
      GoesOnTrans(around, worlds, steps, w4, s4, more, moreSteps);
    }
    AllDelivered(more, moreSteps);
  }

  lemma AllDelivered(worlds: seq<World>, steps: seq<Step>)
    requires HonestRun(worlds, steps)
    requires var w := Final(worlds);
             w.sender.unacked.items == [] && w.receiver.unread.base == w.Point() == w.Top()
    ensures Final(worlds).receiver.unread.items == []
    ensures Final(worlds).delivered == Final(worlds).accepted
  {
    var w := Final(worlds);
    FinalInv(worlds, steps);
    PointInWindow(w);
    FlushedMeansReceived(worlds, steps, |worlds| - 1);
    assert w.receiver.unread.items == [];
    assert w.delivered + [] == w.delivered;
  }
}
