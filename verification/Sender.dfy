/** The sending side as a function of values: the specification of the Sender class. */
module SenderSpec {
  import opened MachineWords
  import opened Parameters
  import opened SequenceNumbers
  import opened SlidingWindows
  import opened Bytes
  import opened Packets
  import opened NegativeAcks

  /** A time that may be unset (not-a-date-time) or infinitely far. */
  datatype Stamp = Unset | At(time: int) | PosInfin {
    function Plus(d: int): Stamp {
      if At? then At(time + d) else this
    }
  }

  datatype Unacked = Unacked(packet: DataPacket, lost: bool, lastSend: Stamp)

  datatype SenderState = SenderState(unacked: Window<Unacked>, sendTimeout: Stamp)

  /**
   What a call reads from its surroundings: the peer's id, one clock reading, the
   retransmission timeout, which packets the UDP socket takes, and how the date
   library orders an unset time against the clock.
   */
  datatype Env = Env(peerId: u32, now: int, timeout: int, sends: DataPacket -> bool, unsetIsPast: bool)

  predicate TimedOut(t: Stamp, env: Env) {
    match t
    case Unset => env.unsetIsPast
    case At(time) => time <= env.now
    case PosInfin => false
  }

  predicate StrictlyTimedOut(t: Stamp, env: Env) {
    match t
    case Unset => env.unsetIsPast
    case At(time) => time < env.now
    case PosInfin => false
  }

  function NewPacket(n: SeqNum, data: seq<byte>, peerId: u32): DataPacket {
    DataPacket(n, true, true, true, 0, 0, peerId, data)
  }

  /** Cuts at most `room` pieces of at most `size` bytes off the front of `data`. */
  function Chunks(data: seq<byte>, size: nat, room: nat): (chunks: seq<seq<byte>>)
    ensures |chunks| <= room
    ensures Flatten(chunks) <= data
    ensures forall c <- chunks :: |c| <= size
    decreases room
  {
    if room == 0 || data == [] then []
    else
      var k := Min(size, |data|);
      [data[..k]] + Chunks(data[k..], size, room - 1)
  }

  lemma ChunksUnfold(data: seq<byte>, size: nat, room: nat)
    requires room != 0 && data != []
    ensures var k := Min(size, |data|);
            var rest := Chunks(data[k..], size, room - 1);
            && |Chunks(data, size, room)| == 1 + |rest|
            && Flatten(Chunks(data, size, room)) == data[..k] + Flatten(rest)
  {
  }

  /** Nothing is held back: either all of the data is cut up, or every slot is used. */
  lemma {:induction false} ChunksFill(data: seq<byte>, size: nat, room: nat)
    requires size > 0
    ensures Flatten(Chunks(data, size, room)) == data || |Chunks(data, size, room)| == room
    ensures |Flatten(Chunks(data, size, room))| == Taken(|data|, size, room)
    decreases room
  {
    hide Chunks, Flatten, Taken;
    TakenStep(|data|, size, room);
    if room == 0 || data == [] {
      ChunksNothing(data, size, room);
    } else {
      var k := Min(size, |data|);
      ChunksFill(data[k..], size, room - 1);
      ChunksUnfold(data, size, room);
      assert data[..k] + data[k..] == data;
    }
  }

  lemma ChunksNothing(data: seq<byte>, size: nat, room: nat)
    requires room == 0 || data == []
    ensures Chunks(data, size, room) == [] && Flatten([]) == []
  {
  }

  /** How many of `n` bytes fit into `room` pieces. */
  function Taken(n: nat, size: nat, room: nat): int {
    Min(n, size * room)
  }

  lemma TakenStep(n: nat, size: nat, room: nat)
    ensures Taken(0, size, room) == 0 && Taken(n, size, 0) == 0
    ensures room > 0 ==> Taken(n, size, room) == Min(size, n) + Taken(n - Min(size, n), size, room - 1)
  {
    assert size * room >= 0 && size * 0 == 0;
    if room > 0 {
      assert size * room == size * (room - 1) + size;
      assert size * (room - 1) >= 0;
    }
  }

  /** Window slots for the given payloads, numbered upwards from `top` and waiting to be sent. */
  function Slots(chunks: seq<seq<byte>>, top: nat, peerId: u32): (slots: seq<Unacked>)
    ensures |slots| == |chunks|
  {
    seq(|chunks|, i requires 0 <= i < |chunks| => Unacked(NewPacket(Wire(top + i), chunks[i], peerId), true, Unset))
  }

  /** `chunks` are the first pieces of a cut that has consumed `k` bytes. */
  ghost predicate CutSoFar(data: seq<byte>, size: nat, room: nat, chunks: seq<seq<byte>>, k: nat) {
    && k == |Flatten(chunks)| <= |data|
    && |chunks| <= room
    && Chunks(data, size, room) == chunks + Chunks(data[k..], size, room - |chunks|)
  }

  lemma CutStart(data: seq<byte>, size: nat, room: nat)
    ensures CutSoFar(data, size, room, [], 0)
  {
    assert data[0..] == data;
  }

  lemma CutOne(data: seq<byte>, size: nat, room: nat, k: nat)
    requires k < |data| && room > 0
    ensures var c := data[k..k + Min(size, |data| - k)];
            Chunks(data[k..], size, room) == [c] + Chunks(data[k + |c|..], size, room - 1)
  {
    hide Flatten, Chunks;
    var c := data[k..k + Min(size, |data| - k)];
    SubSlice(data, k, |data|, 0, |c|);
    SubSlice(data, k, |data|, |c|, |data| - k);
    assert data[k..][..|c|] == c && data[k..][|c|..] == data[k + |c|..];
    ChunksFirst(data[k..], size, room);
  }

  lemma ChunksFirst(data: seq<byte>, size: nat, room: nat)
    requires data != [] && room > 0
    ensures var n := Min(size, |data|);
            Chunks(data, size, room) == [data[..n]] + Chunks(data[n..], size, room - 1)
  {
    hide Flatten;
  }

  lemma CutStep(data: seq<byte>, size: nat, room: nat, chunks: seq<seq<byte>>, k: nat)
    requires CutSoFar(data, size, room, chunks, k) && k < |data| && |chunks| < room
    ensures var c := data[k..k + Min(size, |data| - k)];
            CutSoFar(data, size, room, chunks + [c], k + |c|)
  {
    hide Flatten, Chunks;
    var c := data[k..k + Min(size, |data| - k)];
    FlattenSnoc(chunks, c);
    CutOne(data, size, room - |chunks|, k);
    Assoc(chunks, [c], Chunks(data[k + |c|..], size, room - |chunks| - 1));
  }

  lemma CutDone(data: seq<byte>, size: nat, room: nat, chunks: seq<seq<byte>>, k: nat)
    requires CutSoFar(data, size, room, chunks, k) && (k == |data| || |chunks| == room)
    ensures Chunks(data, size, room) == chunks && k == |Flatten(chunks)|
  {
  }

  lemma SlotsSnoc(chunks: seq<seq<byte>>, c: seq<byte>, top: nat, peerId: u32)
    ensures Slots(chunks + [c], top, peerId) ==
            Slots(chunks, top, peerId) + [Unacked(NewPacket(Wire(top + |chunks|), c, peerId), true, Unset)]
  {
  }

  /** The limit AddData works under: a zero send window is overridden when nothing is outstanding. */
  function SendLimit(w: Window<Unacked>, windowSize: nat): Window<Unacked> {
    w.Resize(if windowSize == 0 && |w.items| == 0 then DEFAULT_WINDOW else windowSize)
  }

  function AddData(s: SenderState, data: seq<byte>, windowSize: nat, dataSize: nat, env: Env):
    (r: (SenderState, nat, Option<DataPacket>))
  {
    var w := SendLimit(s.unacked, windowSize);
    var chunks := Chunks(data, dataSize, w.Room());
    var (s', sent) := DoSend(s.(unacked := w.Push(Slots(chunks, w.Top(), env.peerId))), env);
    (s', |Flatten(chunks)|, sent)
  }

  lemma AcceptedWithin(s: SenderState, data: seq<byte>, windowSize: nat, dataSize: nat, env: Env)
    ensures AddData(s, data, windowSize, dataSize, env).1 <= |data|
  {
    hide DoSend, Slots, Flatten;
  }

  /**
   Flow control: writing to a sender with nothing outstanding is never refused, not even
   under a window of zero; otherwise no more is outstanding than the window allows or was
   before; and data is left over only when the window is full.
   */
  lemma AddDataFlows(s: SenderState, data: seq<byte>, windowSize: nat, dataSize: nat, env: Env)
    requires s.unacked.Bounded() && dataSize > 0
    ensures var (s', accepted, _) := AddData(s, data, windowSize, dataSize, env);
            var before, now := |s.unacked.items|, |s'.unacked.items|;
            && (before == 0 && data != [] ==> accepted > 0)
            && (before != 0 || windowSize > 0 ==> now <= before || now <= windowSize)
            && (accepted < |data| ==> now >= Min(windowSize, MAXIMUM_WINDOW))
  {
    var w := SendLimit(s.unacked, windowSize);
    var chunks := Chunks(data, dataSize, w.Room());
    ChunksFill(data, dataSize, w.Room());
    SendKeepsCount(s.(unacked := w.Push(Slots(chunks, w.Top(), env.peerId))), env);
    if w.Room() > 0 {
      MulAtLeast(dataSize, w.Room());
    }
    hide Chunks, Flatten, DoSend, Slots;
  }

  lemma SendKeepsCount(s: SenderState, env: Env)
    ensures |DoSend(s, env).0.unacked.items| == |s.unacked.items|
  {
    hide FirstSendable;
  }

  lemma MulAtLeast(a: nat, b: nat)
    requires a > 0 && b > 0
    ensures a * b >= 1
  {
  }

  /** The first slot that waits to be sent and that the socket takes. */
  function FirstSendable(items: seq<Unacked>, sends: DataPacket -> bool): (i: nat)
    ensures i <= |items|
    ensures i < |items| ==> items[i].lost && sends(items[i].packet)
    ensures forall j :: 0 <= j < i ==> !(items[j].lost && sends(items[j].packet))
  {
    if items == [] || (items[0].lost && sends(items[0].packet)) then 0
    else 1 + FirstSendable(items[1..], sends)
  }

  function DoSend(s: SenderState, env: Env): (r: (SenderState, Option<DataPacket>)) {
    var items := s.unacked.items;
    var i := FirstSendable(items, env.sends);
    if i < |items| then
      (s.(unacked := s.unacked.(items := items[i := items[i].(lost := false, lastSend := At(env.now))])),
       Some(items[i].packet))
    else if items == [] then (s, None)
    else (s.(sendTimeout := items[0].lastSend.Plus(env.timeout)), None)
  }

  /** An acknowledgement is acted upon when it names a packet of the window or the one that comes next. */
  predicate Acknowledges(w: Window<Unacked>, n: u32) {
    w.Has(n) || Wire(w.Top()) == n
  }

  function HandleAck(s: SenderState, n: u32, env: Env): (r: (SenderState, Option<DataPacket>))
    requires s.unacked.Bounded()
  {
    if Acknowledges(s.unacked, n) then
      DistanceOfWire(s.unacked.base, s.unacked.Top());
      DoSend(s.(unacked := s.unacked.Drop(Distance(s.unacked.base, n))), env)
    else (s, None)
  }

  /** What the sender answers to an acknowledgement, whether or not it acts upon it. */
  function AnswerTo(packet: AckPacket, peerId: u32): AckOfAckPacket {
    AckOfAckPacket(Header(packet.header.additionalInfo, 0, peerId))
  }

  /** Marks the slots selected by `which` (by absolute number) as waiting to be sent again. */
  ghost function Mark(w: Window<Unacked>, which: iset<nat>): Window<Unacked> {
    w.(items := seq(|w.items|, i requires 0 <= i < |w.items| =>
      if w.base + i in which then w.items[i].(lost := true) else w.items[i]))
  }

  ghost function NamedBy(words: seq<u32>): iset<nat> {
    iset a: nat | Names(words, Wire(a))
  }

  ghost function HandleNegativeAck(s: SenderState, words: seq<u32>, env: Env): (SenderState, Option<DataPacket>) {
    DoSend(s.(unacked := Mark(s.unacked, NamedBy(words))), env)
  }

  ghost function Overdue(w: Window<Unacked>, env: Env): iset<nat> {
    iset a: nat | w.base <= a < w.Top() && StrictlyTimedOut(w.At(a).lastSend.Plus(env.timeout), env)
  }

  lemma OverdueAt(w: Window<Unacked>, env: Env, i: nat)
    requires i < |w.items|
    ensures w.base + i in Overdue(w, env) <==> StrictlyTimedOut(w.items[i].lastSend.Plus(env.timeout), env)
  {
    assert w.At(w.base + i) == w.items[i];
  }

  ghost function HandleTick(s: SenderState, env: Env): (SenderState, Option<DataPacket>) {
    if TimedOut(s.sendTimeout, env) then
      DoSend(SenderState(Mark(s.unacked, Overdue(s.unacked, env)), PosInfin), env)
    else DoSend(s, env)
  }
}

/** The sending side as the program runs it. */
module Senders {
  import opened MachineWords
  import opened Parameters
  import opened SequenceNumbers
  import opened SlidingWindows
  import opened Bytes
  import opened Packets
  import opened NegativeAcks
  import opened SenderSpec

  class Sender {
    const window: SlidingWindow<Unacked>
    var sendTimeout: Stamp

    ghost predicate Valid()
      reads this, window
    {
      window.Valid()
    }

    ghost function State(): SenderState
      reads this, window
    {
      SenderState(window.Value(), sendTimeout)
    }

    constructor (initial: SeqNum)
      ensures Valid() && fresh(window)
      ensures State() == SenderState(Window(initial, [], DEFAULT_WINDOW), Unset)
    {
      window := new SlidingWindow(initial);
      sendTimeout := Unset;
    }

    predicate Flushed()
      reads this, window
    {
      window.IsEmpty()
    }

    method AddData(data: seq<byte>, windowSize: nat, dataSize: nat, env: Env)
      returns (accepted: nat, sent: Option<DataPacket>)
      requires Valid()
      modifies this, window
      ensures Valid()
      ensures (State(), accepted, sent) == SenderSpec.AddData(old(State()), data, windowSize, dataSize, env)
    {
      if windowSize == 0 && |window.items| == 0 {
        window.SetMaximumSize(DEFAULT_WINDOW);
      } else {
        window.SetMaximumSize(windowSize);
      }
      accepted := Enqueue(data, dataSize, env.peerId);
      sent := DoSend(env);
    }

    method AppendPacket(data: seq<byte>, peerId: u32)
      requires Valid() && !window.IsFull()
      modifies window
      ensures Valid()
      ensures var w := old(window.Value());
              window.Value() == w.Push([Unacked(NewPacket(Wire(w.Top()), data, peerId), true, Unset)])
    {
      hide Wire, Distance;
      var n := window.Append(Unacked(NewPacket(0, [], 0), false, Unset));
      window.Walk(|window.items| - 1);
      window.Set(n, Unacked(NewPacket(n, data, peerId), true, Unset));
    }

    /** The chunking loop of AddData. */
    method Enqueue(data: seq<byte>, dataSize: nat, peerId: u32) returns (accepted: nat)
      requires Valid()
      modifies window
      ensures Valid()
      ensures var w := old(window.Value());
              var chunks := Chunks(data, dataSize, w.Room());
              && window.Value() == w.Push(Slots(chunks, w.Top(), peerId))
              && accepted == |Flatten(chunks)|
    {
      hide Wire, Distance, Slots, CutSoFar, Flatten, Chunks;
      ghost var w := window.Value();
      ghost var room := w.Room();
      ghost var chunks: seq<seq<byte>> := [];
      accepted := 0;
      CutStart(data, dataSize, room);
      while !window.IsFull() && accepted < |data|
        invariant Valid()
        invariant |chunks| <= room && accepted <= |data|
        invariant window.Value() == w.Push(Slots(chunks, w.Top(), peerId))
        invariant CutSoFar(data, dataSize, room, chunks, accepted)
        decreases MAXIMUM_WINDOW - |window.items|
      {
        var length := Min(dataSize, |data| - accepted);
        var c := data[accepted..accepted + length];
        CutStep(data, dataSize, room, chunks, accepted);
        SlotsSnoc(chunks, c, w.Top(), peerId);
        AppendPacket(c, peerId);
        chunks := chunks + [c];
        accepted := accepted + length;
      }
      CutDone(data, dataSize, room, chunks, accepted);
    }

    method DoSend(env: Env) returns (sent: Option<DataPacket>)
      requires Valid()
      modifies this, window
      ensures Valid()
      ensures (State(), sent) == SenderSpec.DoSend(old(State()), env)
    {
      hide Wire, Distance;
      var n := window.begin;
      ghost var i := 0;
      while n != window.end
        invariant Valid() && State() == old(State())
        invariant i <= |window.items| == |old(window.items)| && n == Wire(window.base + i)
        invariant i <= FirstSendable(window.items, env.sends)
        decreases |window.items| - i
      {
        window.Walk(i);
        var p := window.Get(n);
        if p.lost {
          if env.sends(p.packet) {
            window.Set(n, p.(lost := false, lastSend := At(env.now)));
            return Some(p.packet);
          }
        }
        n := Next(n);
        i := i + 1;
      }
      window.Walk(i);
      if !window.IsEmpty() {
        sendTimeout := window.Front().lastSend.Plus(env.timeout);
      }
      return None;
    }

    /** Also answers with the acknowledgement of the acknowledgement. */
    method HandleAck(packet: AckPacket, env: Env) returns (response: AckOfAckPacket, sent: Option<DataPacket>)
      requires Valid()
      modifies this, window
      ensures Valid()
      ensures (State(), sent) == SenderSpec.HandleAck(old(State()), packet.seqnum, env)
      ensures response == AnswerTo(packet, env.peerId)
    {
      hide Wire, Distance, SenderSpec.DoSend;
      var n := packet.seqnum;
      response := AckOfAckPacket(Header(packet.header.additionalInfo, 0, env.peerId));
      sent := None;
      if window.Contains(n) || window.end == n {
        ghost var was := window.Value();
        ghost var d, k := Distance(was.base, n), 0;
        DistanceOfWire(was.base, was.Top());
        DistanceReaches(was.base, n);
        while window.begin != n
          invariant Valid() && sendTimeout == old(sendTimeout)
          invariant k <= d <= |was.items| && window.Value() == was.Drop(k)
          decreases d - k
        {
          assert k < d;
          window.Remove();
          k := k + 1;
        }
        window.Walk(d - k);
        assert window.Value() == was.Drop(d);
        sent := DoSend(env);
      }
    }

    method HandleNegativeAck(packet: NegativeAck, env: Env) returns (sent: Option<DataPacket>)
      requires Valid()
      modifies this, window
      ensures Valid()
      ensures (State(), sent) == SenderSpec.HandleNegativeAck(old(State()), packet.words, env)
    {
      hide Wire, Distance, SenderSpec.DoSend;
      ghost var which := NamedBy(packet.words);
      var n := window.begin;
      ghost var i := 0;
      while n != window.end
        invariant Valid() && sendTimeout == old(sendTimeout) && packet.words == old(packet.words)
        invariant i <= |window.items| == |old(window.items)| && n == Wire(window.base + i)
        invariant MarkedUpTo(old(window.Value()), which, i, window.Value())
        decreases |window.items| - i
      {
        window.Walk(i);
        var named := packet.ContainsSequenceNumber(n);
        if named {
          var p := window.Get(n);
          window.Set(n, p.(lost := true));
        }
        n := Next(n);
        i := i + 1;
      }
      window.Walk(i);
      assert window.items == Mark(old(window.Value()), which).items;
      sent := DoSend(env);
    }

    /** `now` equals the first `k` slots of `was` marked, and the rest untouched. */
    static ghost predicate MarkedUpTo(was: Window<Unacked>, which: iset<nat>, k: nat, now: Window<Unacked>)
    {
      && now.base == was.base && now.limit == was.limit && |now.items| == |was.items|
      && forall j: nat :: j < |was.items| ==>
           now.items[j] == if j < k && was.base + j in which then was.items[j].(lost := true) else was.items[j]
    }

    method HandleTick(env: Env) returns (sent: Option<DataPacket>)
      requires Valid()
      modifies this, window
      ensures Valid()
      ensures (State(), sent) == SenderSpec.HandleTick(old(State()), env)
    {
      hide Wire, Distance, SenderSpec.DoSend;
      if TimedOut(sendTimeout, env) {
        sendTimeout := PosInfin;
        MarkOverdue(env);
      }
      sent := DoSend(env);
    }

    method MarkOverdue(env: Env)
      requires Valid()
      modifies window
      ensures Valid() && window.Value() == Mark(old(window.Value()), Overdue(old(window.Value()), env))
    {
      hide Wire, Distance, Overdue, StrictlyTimedOut;
      ghost var was := window.Value();
      ghost var which := Overdue(was, env);
      var n := window.begin;
      ghost var i := 0;
      while n != window.end
        invariant Valid()
        invariant i <= |was.items| && n == Wire(window.base + i)
        invariant MarkedUpTo(was, which, i, window.Value())
        decreases |was.items| - i
      {
        window.Walk(i);
        var p := window.Get(n);
        OverdueAt(was, env, i);
        if StrictlyTimedOut(p.lastSend.Plus(env.timeout), env) {
          window.Set(n, p.(lost := true));
        }
        n := Next(n);
        i := i + 1;
      }
      window.Walk(i);
      assert window.items == Mark(was, which).items;
    }
  }
}
