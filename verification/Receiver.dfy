/** The receiving side as a function of values: the specification of the Receiver class. */
module ReceiverSpec {
  import opened MachineWords
  import opened Parameters
  import opened SequenceNumbers
  import opened SlidingWindows
  import opened Bytes
  import opened Packets
  import opened NegativeAcks

  datatype Unread = Unread(packet: DataPacket, lost: bool, bytesRead: nat, reserveTime: int) {
    function Rest(): seq<byte> {
      if bytesRead <= |packet.data| then packet.data[bytesRead..] else []
    }

    predicate Missing(now: int, timeout: int) {
      lost && reserveTime + timeout < now
    }
  }

  datatype AckEntry = AckEntry(packet: AckPacket, sendTime: int)

  datatype ReceiverState = ReceiverState(
    unread: Window<Unread>, acks: Window<AckEntry>, lastAck: u32, ackSentTime: int)

  /**
   What a tick reads from its surroundings: one clock reading, the peer's id and the congestion
   controller's values.
   */
  datatype Readings = Readings(
    now: int,
    peerId: u32,
    ackInterval: int,
    ackTimeout: int,
    receiveTimeout: int,
    rtt: u32,
    rttVariance: u32,
    receivingRate: u32,
    linkCapacity: u32)

  const EMPTY_PACKET := DataPacket(0, false, false, false, 0, 0, 0, [])

  /** A slot reserved for a packet that has not arrived. */
  function Blank(now: int): Unread {
    Unread(EMPTY_PACKET, true, 0, now)
  }

  /** How many packets at the front have arrived without a gap. */
  function Ready(items: seq<Unread>): (k: nat)
    ensures k <= |items|
    ensures forall j :: 0 <= j < k ==> !items[j].lost
    ensures k < |items| ==> items[k].lost
  {
    if items == [] || items[0].lost then 0 else 1 + Ready(items[1..])
  }

  /** The absolute number an acknowledgement names: everything before it has arrived. */
  function AckPoint(w: Window<Unread>): nat {
    w.base + Ready(w.items)
  }

  /** The bytes that can be read now: the unread part of the packets before the first gap. */
  function Readable(items: seq<Unread>): seq<byte> {
    if items == [] || items[0].lost then [] else items[0].Rest() + Readable(items[1..])
  }

  /** Reads up to `room` bytes: the slots left and the bytes delivered. */
  function Drain(items: seq<Unread>, room: nat): (r: (seq<Unread>, seq<byte>))
    ensures |r.0| <= |items|
  {
    if items == [] || room == 0 || items[0].lost then (items, [])
    else
      var rest := items[0].Rest();
      if room < |rest| then
        ([items[0].(bytesRead := items[0].bytesRead + room)] + items[1..], rest[..room])
      else
        var (left, out) := Drain(items[1..], room - |rest|);
        (left, rest + out)
  }

  /** One round of reading: what the front packet, which has arrived, contributes. */
  function TakeFront(items: seq<Unread>, room: nat): (r: (seq<Unread>, seq<byte>))
    requires items != []
    ensures |r.0| <= |items| && |r.1| <= room
  {
    var rest := items[0].Rest();
    if room < |rest| then
      ([items[0].(bytesRead := items[0].bytesRead + room)] + items[1..], rest[..room])
    else (items[1..], rest)
  }

  lemma DrainFront(items: seq<Unread>, room: nat)
    requires items != [] && !items[0].lost && room > 0
    ensures var (left, out) := TakeFront(items, room);
            && Drain(items, room).0 == Drain(left, room - |out|).0
            && Drain(items, room).1 == out + Drain(left, room - |out|).1
  {
    assert room < |items[0].Rest()| ==> items[0].Rest()[..room] + [] == items[0].Rest()[..room];
  }

  /** After `out` has been delivered, `items` with `room` bytes to go is what remains of the reading. */
  ghost predicate DrainedTo(whole: (seq<Unread>, seq<byte>), out: seq<byte>, items: seq<Unread>, room: nat) {
    whole.0 == Drain(items, room).0 && whole.1 == out + Drain(items, room).1
  }

  lemma DrainStart(items: seq<Unread>, room: nat)
    ensures DrainedTo(Drain(items, room), [], items, room)
  {
    assert [] + Drain(items, room).1 == Drain(items, room).1;
  }

  lemma DrainMore(whole: (seq<Unread>, seq<byte>), out: seq<byte>, items: seq<Unread>, room: nat)
    requires DrainedTo(whole, out, items, room) && items != [] && !items[0].lost && room > 0
    ensures var (left, more) := TakeFront(items, room);
            DrainedTo(whole, out + more, left, room - |more|)
  {
    hide TakeFront, Drain;
    DrainFront(items, room);
    var (left, more) := TakeFront(items, room);
    Assoc(out, more, Drain(left, room - |more|).1);
  }

  lemma DrainDone(whole: (seq<Unread>, seq<byte>), out: seq<byte>, items: seq<Unread>, room: nat)
    requires DrainedTo(whole, out, items, room) && (items == [] || room == 0 || items[0].lost)
    ensures whole == (items, out)
  {
    assert out + [] == out;
  }

  function ReadData(w: Window<Unread>, room: nat): (r: (Window<Unread>, seq<byte>)) {
    var (left, out) := Drain(w.items, room);
    (Window(w.base + |w.items| - |left|, left, w.limit), out)
  }

  /** `chunk` is what a read of up to `room` bytes takes from the window `was`, and `now` is what it leaves. */
  ghost predicate Took(was: Window<Unread>, room: nat, chunk: seq<byte>, now: Window<Unread>) {
    (now, chunk) == ReadData(was, room)
  }

  lemma TookNothing(w: Window<Unread>)
    ensures Took(w, 0, [], w)
  {
  }

  /**
   Reading is taking: as many bytes as fit and are there, from the front, and what
   was delivered followed by what is left is what was there.
   */
  lemma {:induction false} DrainTakes(items: seq<Unread>, room: nat)
    ensures var (left, out) := Drain(items, room);
            && |out| == Min(room, |Readable(items)|)
            && out + Readable(left) == Readable(items)
  {
    if items == [] || items[0].lost || room == 0 {
      assert [] + Readable(items) == Readable(items);
    } else {
      var rest, later := items[0].Rest(), Readable(items[1..]);
      var (left, out) := Drain(items, room);
      if room < |rest| {
        assert left[0].Rest() == rest[room..] && left[1..] == items[1..];
        assert rest[..room] + rest[room..] == rest;
        Assoc(rest[..room], rest[room..], later);
      } else {
        DrainTakes(items[1..], room - |rest|);
        Assoc(rest, Drain(items[1..], room - |rest|).1, Readable(left));
      }
    }
  }

  /** The number of slots HandleData adds for an arriving packet numbered `n`. */
  function Reserved(w: Window<Unread>, n: u32): (k: nat)
    ensures k <= w.Room()
  {
    if w.Soon(n) then Min(Distance(w.Top(), n) + 1, w.Room()) else 0
  }

  /** Slots are added until the packet has one or the window is full. */
  function Reserve(w: Window<Unread>, n: u32, now: int): Window<Unread> {
    w.Push(seq(Reserved(w, n), _ => Blank(now)))
  }

  /** Stores the packet in its slot, if it has one that is still open. */
  function Store(w: Window<Unread>, packet: DataPacket): Window<Unread> {
    if w.Has(packet.seqnum) && w.items[Distance(w.base, packet.seqnum)].lost then
      var i := Distance(w.base, packet.seqnum);
      w.(items := w.items[i := w.items[i].(packet := packet, lost := false, bytesRead := 0)])
    else w
  }

  function HandleData(w: Window<Unread>, packet: DataPacket, windowSize: nat, now: int): Window<Unread> {
    Store(Reserve(w.Resize(windowSize), packet.seqnum, now), packet)
  }

  function HandleAckOfAck(acks: Window<AckEntry>, n: u32): Window<AckEntry> {
    if acks.Has(n) then acks.Drop(Distance(acks.base, n) + 1) else acks
  }

  /**
   The round-trip time an answered acknowledgement measures, if it is one: as an unsigned number it
   has to fit 32 bits.
   */
  function RttSample(now: int, sendTime: int): Option<u32> {
    var rtt := Low64(now - sendTime);
    if rtt < 0xffff_ffff then Some(rtt) else None
  }

  /**
   Within 584 thousand years either way, a sample is taken exactly of times that went on, and it is
   their difference.
   */
  lemma SampleExact(now: int, sendTime: int)
    requires -0xffff_ffff_0000_0000 <= now - sendTime < 0x1_0000_0000_0000_0000
    ensures RttSample(now, sendTime) == if 0 <= now - sendTime < 0xffff_ffff then Some(now - sendTime) else None
  {
    var d := now - sendTime;
    assert d < 0 ==> Low64(d) == d + 0x1_0000_0000_0000_0000;
  }

  function AvailableBufferSize(w: Window<Unread>): u32 {
    Low32(w.Room() * MAX_DATA)
  }

  /**
   What is announced is room for that many packets, whatever the window, exactly when a maximum
   window fits 32 bits.
   */
  lemma AvailableExact()
    ensures (forall w: Window<Unread> :: w.Bounded() ==> AvailableBufferSize(w) == w.Room() * MAX_DATA)
       <==> MAXIMUM_WINDOW * MAX_DATA < 0x1_0000_0000
  {
    var empty: Window<Unread> := Window(0, [], MAXIMUM_WINDOW);
    assert empty.Bounded() && empty.Room() == MAXIMUM_WINDOW;
    Low32Exact(MAXIMUM_WINDOW * MAX_DATA);
    if MAXIMUM_WINDOW * MAX_DATA < 0x1_0000_0000 {
      forall w: Window<Unread> | w.Bounded() ensures AvailableBufferSize(w) == w.Room() * MAX_DATA {
        ProductGrows(w.Room(), MAXIMUM_WINDOW, MAX_DATA);
        Low32Exact(w.Room() * MAX_DATA);
      }
    }
  }

  lemma ProductGrows(a: nat, b: nat, c: nat)
    requires a <= b
    ensures 0 <= a * c <= b * c
  {
  }

  /**
   An acknowledgement is due when the ack point differs from the last one sent, or
   when an unanswered one is too old. The age looked at is that of the front entry,
   because the mutable Back() of the window returns the front.
   */
  predicate AckDue(r: ReceiverState, env: Readings) {
    || Wire(AckPoint(r.unread)) != r.lastAck
    || (r.acks.items != [] && r.acks.items[0].sendTime + env.ackTimeout <= env.now)
  }

  function NewAck(r: ReceiverState, n: SeqNum, env: Readings): AckPacket
  {
    AckPacket(Header(n, 0, env.peerId), Wire(AckPoint(r.unread)), true, env.rtt, env.rttVariance,
              AvailableBufferSize(r.unread), env.receivingRate, env.linkCapacity)
  }

  /** The acknowledgement half of a tick. */
  function SendAck(r: ReceiverState, env: Readings): (res: (ReceiverState, Option<AckPacket>))
  {
    if r.ackSentTime < env.now then
      var r' := r.(ackSentTime := env.now + env.ackInterval);
      if AckDue(r, env) then
        var acks := if r.acks.Full() && r.acks.items != [] then r.acks.Drop(1) else r.acks;
        var packet := NewAck(r, Wire(acks.Top()), env);
        (r'.(acks := acks.Push([AckEntry(packet, env.now)]), lastAck := packet.seqnum), Some(packet))
      else (r', None)
    else (r, None)
  }

  /** A slot that is reported missing has its clock restarted. */
  function Restarted(u: Unread, env: Readings): Unread {
    if u.Missing(env.now, env.receiveTimeout) then u.(reserveTime := env.now) else u
  }

  function Restamp(w: Window<Unread>, env: Readings): Window<Unread> {
    w.(items := seq(|w.items|, i requires 0 <= i < |w.items| => Restarted(w.items[i], env)))
  }

  /** `words` name exactly the missing ones among the first `k` slots. */
  ghost predicate ReportsUpTo(words: seq<u32>, w: Window<Unread>, env: Readings, k: nat)
    requires k <= |w.items|
  {
    forall x: SeqNum :: Names(words, x) <==>
      Distance(w.base, x) < k && w.items[Distance(w.base, x)].Missing(env.now, env.receiveTimeout)
  }

  ghost predicate Reports(words: seq<u32>, w: Window<Unread>, env: Readings) {
    ReportsUpTo(words, w, env, |w.items|)
  }

  predicate SomeMissing(items: seq<Unread>, env: Readings) {
    exists i :: 0 <= i < |items| && items[i].Missing(env.now, env.receiveTimeout)
  }

  lemma MissingSomewhere(items: seq<Unread>, env: Readings, i: nat)
    requires i < |items| && items[i].Missing(env.now, env.receiveTimeout)
    ensures SomeMissing(items, env)
  {
  }

  /** An empty report means that nothing is missing. */
  lemma NothingReported(words: seq<u32>, w: Window<Unread>, env: Readings)
    requires w.Bounded() && Reports(words, w, env)
    ensures SomeMissing(w.items, env) ==> words != []
  {
    hide Wire, Distance, Names;
    NamesNothing();
    if SomeMissing(w.items, env) {
      var i :| 0 <= i < |w.items| && w.items[i].Missing(env.now, env.receiveTimeout);
      DistanceOfWire(w.base, w.base + i);
      assert Names(words, Wire(w.base + i));
    }
  }

  /** The first `k` slots have been gone through, the others not. */
  ghost predicate StampedUpTo(was: Window<Unread>, env: Readings, k: nat, now: Window<Unread>) {
    && now.base == was.base && now.limit == was.limit && |now.items| == |was.items|
    && forall j: nat :: j < |was.items| ==>
         now.items[j] == if j < k then Restarted(was.items[j], env) else was.items[j]
  }

  lemma StampedRest(was: Window<Unread>, env: Readings, k: nat, now: Window<Unread>)
    requires StampedUpTo(was, env, k, now)
    ensures now.base == was.base && |now.items| == |was.items|
    ensures k < |was.items| ==> now.items[k] == was.items[k]
  {
  }

  /** A slot that is not missing is passed over. */
  lemma PassOver(words: seq<u32>, was: Window<Unread>, env: Readings, k: nat, now: Window<Unread>)
    requires k < |was.items| && !was.items[k].Missing(env.now, env.receiveTimeout)
    requires StampedUpTo(was, env, k, now) && ReportsUpTo(words, was, env, k)
    ensures StampedUpTo(was, env, k + 1, now) && ReportsUpTo(words, was, env, k + 1)
  {
    hide Names, Distance;
  }

  lemma StampedAll(was: Window<Unread>, env: Readings, now: Window<Unread>)
    requires StampedUpTo(was, env, |was.items|, now)
    ensures now == Restamp(was, env)
  {
    hide Restarted;
    assert now.items == Restamp(was, env).items;
  }

  lemma StampedNone(was: Window<Unread>, env: Readings)
    ensures StampedUpTo(was, env, 0, was) && ReportsUpTo([], was, env, 0)
  {
    hide Names, Distance, Restarted;
    NamesNothing();
  }

  /** A maximal run of missing slots extends the report by exactly that run. */
  lemma ReportsRun(words: seq<u32>, more: seq<u32>, w: Window<Unread>, env: Readings, i: nat, j: nat)
    requires w.Bounded() && i < j <= |w.items|
    requires ReportsUpTo(words, w, env, i)
    requires forall k: nat :: i <= k < j ==> w.items[k].Missing(env.now, env.receiveTimeout)
    requires forall x: SeqNum :: Names(more, x) <==> Names(words, x) || InRun(Wire(w.base + i), Wire(w.base + j - 1), x)
    ensures ReportsUpTo(more, w, env, j)
  {
    hide Names, Wire, Distance, InRun;
    forall x: SeqNum
      ensures Names(more, x) <==>
        Distance(w.base, x) < j && w.items[Distance(w.base, x)].Missing(env.now, env.receiveTimeout)
    {
      RunIsInterval(w.base + i, w.base + j - 1, x);
      DistanceShifts(w.base, x, i);
    }
  }
}

/** The receiving side as the program runs it. */
module Receivers {
  import opened MachineWords
  import opened Parameters
  import opened SequenceNumbers
  import opened SlidingWindows
  import opened Bytes
  import opened Packets
  import opened NegativeAcks
  import opened ReceiverSpec

  class Receiver {
    const unread: SlidingWindow<Unread>
    const acks: SlidingWindow<AckEntry>
    var lastAck: u32
    var ackSentTime: int

    ghost predicate Valid()
      reads this, unread, acks
    {
      && unread as object != acks
      && unread.Valid() && acks.Valid()
      && |acks.items| <= acks.maximumSize == DEFAULT_WINDOW
    }

    ghost function State(): ReceiverState
      reads this, unread, acks
    {
      ReceiverState(unread.Value(), acks.Value(), lastAck, ackSentTime)
    }

    /** Both windows start at random numbers; the clock starts at `now`. */
    constructor (initial: SeqNum, initialAck: SeqNum, now: int)
      ensures Valid() && fresh(unread) && fresh(acks)
      ensures State() == ReceiverState(
        Window(initial, [], DEFAULT_WINDOW), Window(initialAck, [], DEFAULT_WINDOW), 0, now)
    {
      unread := new SlidingWindow(initial);
      acks := new SlidingWindow(initialAck);
      lastAck, ackSentTime := 0, now;
    }

    method Reset(initial: SeqNum)
      requires Valid()
      modifies this, unread
      ensures Valid()
      ensures State() == old(State()).(unread := Window(initial, [], DEFAULT_WINDOW), lastAck := initial)
    {
      unread.Reset(initial);
      lastAck := initial;
    }

    method Flushed() returns (flushed: bool)
      requires Valid()
      ensures flushed <==> acks.items == [] && Wire(AckPoint(unread.Value())) == lastAck
    {
      var n := AckPacketSequenceNumber();
      flushed := acks.IsEmpty() && n == lastAck;
    }

    method AckPacketSequenceNumber() returns (n: SeqNum)
      requires Valid()
      ensures n == Wire(AckPoint(unread.Value()))
    {
      hide Wire, Distance, Ready;
      n := unread.begin;
      ghost var i := 0;
      unread.Walk(0);
      while n != unread.end && !unread.Get(n).lost
        invariant i <= |unread.items| && n == Wire(unread.base + i)
        invariant n != unread.end ==> unread.Contains(n) && i < |unread.items| && unread.SequenceNumberToIndex(n) == i
        invariant i <= Ready(unread.items)
        decreases |unread.items| - i
      {
        unread.Walk(i);
        n := Next(n);
        i := i + 1;
        unread.Walk(i);
      }
      unread.Walk(i);
    }

    /** Fills `buffer` from position `from` on, as far as there is data. */
    method ReadData(buffer: array<byte>, from: nat) returns (count: nat)
      requires Valid() && from <= buffer.Length
      modifies unread, buffer
      ensures Valid()
      ensures var (w, out) := ReceiverSpec.ReadData(old(unread.Value()), buffer.Length - from);
              && unread.Value() == w
              && count == |out| <= buffer.Length - from
              && Spliced(old(buffer[..]), from, out, buffer[..])
    {
      hide Wire, Distance, Drain, DrainedTo, TakeFront, Spliced;
      var ptr := from;
      var n := unread.begin;
      ghost var was := unread.Value();
      ghost var out: seq<byte> := [];
      ghost var whole := Drain(was.items, buffer.Length - from);
      SpliceNone(buffer[..], from);
      DrainStart(was.items, buffer.Length - from);
      while n != unread.end && ptr < buffer.Length
        invariant Valid() && from <= ptr == from + |out| <= buffer.Length
        invariant ptr < buffer.Length ==> n == unread.begin
        invariant Spliced(old(buffer[..]), from, out, buffer[..])
        invariant |unread.items| <= |was.items|
        invariant unread.Value() == Window(was.Top() - |unread.items|, unread.items, was.limit)
        invariant DrainedTo(whole, out, unread.items, buffer.Length - ptr)
        decreases |unread.items|, buffer.Length - ptr
      {
        unread.Walk(0);
        if unread.Get(n).lost {
          break;
        }
        DrainMore(whole, out, unread.items, buffer.Length - ptr);
        ghost var taken := TakeFront(unread.items, buffer.Length - ptr).1;
        label before:
        var length := ReadFront(buffer, ptr);
        SpliceMore(old(buffer[..]), from, out, taken, old@before(buffer[..]), buffer[..]);
        out := out + taken;
        ptr := ptr + length;
        n := Next(n);
      }
      unread.Walk(0);
      DrainDone(whole, out, unread.items, buffer.Length - ptr);
      count := ptr - from;
    }

    static method CopyInto(buffer: array<byte>, ptr: nat, bytes: seq<byte>)
      requires ptr + |bytes| <= buffer.Length
      modifies buffer
      ensures Spliced(old(buffer[..]), ptr, bytes, buffer[..])
    {
      forall k | 0 <= k < |bytes| {
        buffer[ptr + k] := bytes[k];
      }
    }

    /** One round of ReadData's loop on a front packet that has arrived. */
    method ReadFront(buffer: array<byte>, ptr: nat) returns (length: nat)
      requires Valid() && unread.items != [] && !unread.items[0].lost && ptr < buffer.Length
      modifies unread, buffer
      ensures Valid()
      ensures var (left, out) := TakeFront(old(unread.items), buffer.Length - ptr);
              && unread.Value() == Window(old(unread.Value().Top()) - |left|, left, old(unread.maximumSize))
              && length == |out|
              && Spliced(old(buffer[..]), ptr, out, buffer[..])
              && (ptr + length < buffer.Length ==>
                  |left| < |old(unread.items)| && unread.begin == Next(old(unread.begin)))
    {
      hide Wire, Distance, Spliced;
      unread.Walk(0);
      SpliceNone(buffer[..], ptr);
      var p := unread.Get(unread.begin);
      ghost var out := TakeFront(unread.items, buffer.Length - ptr).1;
      length := 0;
      if |p.packet.data| > p.bytesRead {
        length := Min(buffer.Length - ptr, |p.packet.data| - p.bytesRead);
        assert p.packet.data[p.bytesRead..p.bytesRead + length] == out;
        CopyInto(buffer, ptr, p.packet.data[p.bytesRead..p.bytesRead + length]);
        unread.Set(unread.begin, p.(bytesRead := p.bytesRead + length));
        if |p.packet.data| == p.bytesRead + length {
          unread.Remove();
        }
      } else {
        unread.Remove();
      }
    }

    method HandleData(packet: DataPacket, windowSize: nat, now: int)
      requires Valid()
      modifies unread
      ensures Valid()
      ensures unread.Value() == ReceiverSpec.HandleData(old(unread.Value()), packet, windowSize, now)
    {
      hide Wire, Distance;
      unread.SetMaximumSize(windowSize);
      var n := packet.seqnum;
      ghost var w := unread.Value();
      ghost var d, k := Distance(w.Top(), n), 0;
      while unread.IsComingSoon(n) && !unread.IsFull()
        invariant Valid() && k <= Reserved(w, n)
        invariant unread.Value() == w.Push(seq(k, _ => Blank(now)))
        decreases w.Room() - k
      {
        DistanceShifts(w.Top(), n, k);
        k := k + 1;
        var _ := unread.Append(Blank(now));
      }
      DistanceShifts(w.Top(), n, k);
      assert k == Reserved(w, n);
      if unread.Contains(n) {
        var p := unread.Get(n);
        if p.lost {
          unread.Set(n, p.(packet := packet, lost := false, bytesRead := 0));
        }
      }
    }

    /** Gives the congestion controller's round-trip sample, if there is one, and drops what is answered. */
    method HandleAckOfAck(packet: AckOfAckPacket, now: int) returns (sample: Option<u32>)
      requires Valid()
      modifies acks
      ensures Valid()
      ensures acks.Value() == ReceiverSpec.HandleAckOfAck(old(acks.Value()), packet.header.additionalInfo)
      ensures sample == if old(acks.Contains(packet.header.additionalInfo))
                        then RttSample(now, old(acks.Get(packet.header.additionalInfo)).sendTime) else None
    {
      hide Wire, Distance, Low64;
      var n := packet.header.additionalInfo;
      sample := None;
      if acks.Contains(n) {
        var rtt := Low64(now - acks.Get(n).sendTime);
        if rtt < 0xffff_ffff {
          sample := Some(rtt);
        }
      }
      ghost var was := acks.Value();
      ghost var d, k := Distance(was.base, n), 0;
      while acks.Contains(n)
        invariant Valid() && k <= |was.items|
        invariant k > 0 ==> was.Has(n) && k <= d + 1
        invariant acks.Value() == was.Drop(k)
        decreases |acks.items|
      {
        DistanceShifts(was.base, n, k);
        acks.Remove();
        k := k + 1;
      }
      DistanceShifts(was.base, n, k);
    }

    function AvailableBufferSize(): (size: u32)
      requires Valid()
      reads this, unread, acks
      ensures size == ReceiverSpec.AvailableBufferSize(unread.Value())
    {
      var free := if unread.IsFull() then 0 else unread.maximumSize - |unread.items|;
      Low32(free * MAX_DATA)
    }

    /** A report is sent exactly when some slot is missing. */
    method HandleTick(env: Readings) returns (ack: Option<AckPacket>, nack: NegativeAck, sendNack: bool)
      requires Valid()
      modifies this, unread, acks
      ensures Valid() && fresh(nack) && nack.header == Header(0, 0, env.peerId)
      ensures var (r, a) := ReceiverSpec.SendAck(old(State()), env);
              && State() == r.(unread := Restamp(old(unread.Value()), env))
              && ack == a
      ensures Reports(nack.words, old(unread.Value()), env)
      ensures 3 * |nack.words| <= 2 * (|unread.items| + 1)
      ensures sendNack <==> SomeMissing(old(unread.items), env)
    {
      ack := SendAck(env);
      nack := ReportMissing(env);
      sendNack := nack.words != [];
    }

    method SendAck(env: Readings) returns (ack: Option<AckPacket>)
      requires Valid()
      modifies this, acks
      ensures Valid()
      ensures (State(), ack) == ReceiverSpec.SendAck(old(State()), env)
    {
      hide Wire, Distance, Ready, ReceiverSpec.AvailableBufferSize;
      ack := None;
      if ackSentTime < env.now {
        ackSentTime := env.now + env.ackInterval;
        var n := AckPacketSequenceNumber();
        if n != lastAck || (!acks.IsEmpty() && acks.Back().sendTime + env.ackTimeout <= env.now) {
          if acks.IsFull() {
            acks.Remove();
          }
          var packet := RecordAck(n, env);
          lastAck := n;
          ack := Some(packet);
        }
      }
    }

    method RecordAck(n: SeqNum, env: Readings) returns (packet: AckPacket)
      requires Valid() && !acks.IsFull() && n == Wire(AckPoint(unread.Value()))
      modifies acks
      ensures Valid()
      ensures packet == NewAck(old(State()), Wire(old(acks.Value().Top())), env)
      ensures acks.Value() == old(acks.Value()).Push([AckEntry(packet, env.now)])
    {
      hide Wire, Distance, Ready;
      var size := AvailableBufferSize();
      var m := acks.Append(AckEntry(AckPacket(Header(0, 0, 0), 0, false, 0, 0, 0, 0, 0), env.now));
      acks.Walk(|acks.items| - 1);
      packet := AckPacket(Header(m, 0, env.peerId), n, true, env.rtt, env.rttVariance, size,
                          env.receivingRate, env.linkCapacity);
      acks.Set(m, AckEntry(packet, env.now));
    }

    /** The negative-acknowledgement half of a tick: the missing slots, as runs. */
    method ReportMissing(env: Readings) returns (nack: NegativeAck)
      requires Valid()
      modifies unread
      ensures Valid() && fresh(nack) && nack.header == Header(0, 0, env.peerId)
      ensures unread.Value() == Restamp(old(unread.Value()), env)
      ensures Reports(nack.words, old(unread.Value()), env)
      ensures 3 * |nack.words| <= 2 * (|unread.items| + 1)
      ensures nack.words != [] <==> SomeMissing(old(unread.items), env)
    {
      hide Wire, Distance, Names, SomeMissing, StampedUpTo, ReportsUpTo, Restamp;
      StampedNone(unread.Value(), env);
      nack := new NegativeAck(env.peerId);
      var n := unread.begin;
      ghost var was := unread.Value();
      ghost var i := 0;
      while n != unread.end
        invariant Valid() && fresh(nack) && nack.header == Header(0, 0, env.peerId)
        invariant i <= |was.items| && n == Wire(was.base + i)
        invariant StampedUpTo(was, env, i, unread.Value())
        invariant Closed(nack.words) && ReportsUpTo(nack.words, was, env, i)
        invariant 3 * |nack.words| <= 2 * (i + 1)
        invariant nack.words != [] ==> SomeMissing(was.items, env)
        invariant i < |was.items| && was.items[i].Missing(env.now, env.receiveTimeout) ==> 3 * |nack.words| <= 2 * i
        decreases |was.items| - i
      {
        StampedRest(was, env, i, unread.Value());
        unread.Walk(i);
        if unread.Get(n).Missing(env.now, env.receiveTimeout) {
          var begin := n;
          var end;
          ghost var j;
          end, n, j := TakeRun(n, env, was, i);
          ghost var words := nack.words;
          DistanceOfWire(was.base + i, was.base + j - 1);
          DistanceOfWire(was.base + i, was.base + i);
          if begin == end {
            nack.AddSequenceNumber(begin);
          } else {
            nack.AddSequenceNumbers(begin, end);
          }
          ReportsRun(words, nack.words, was, env, i, j);
          MissingSomewhere(was.items, env, i);
          i := j;
        } else {
          PassOver(nack.words, was, env, i, unread.Value());
          n := Next(n);
          i := i + 1;
        }
      }
      StampedRest(was, env, i, unread.Value());
      unread.Walk(i);
      StampedAll(was, env, unread.Value());
      NothingReported(nack.words, was, env);
    }

    /** The inner loop: goes through a maximal run of missing slots, the first of which is slot `i`. */
    method TakeRun(first: SeqNum, env: Readings, ghost was: Window<Unread>, ghost i: nat)
      returns (last: SeqNum, n: SeqNum, ghost j: nat)
      requires Valid() && i < |was.items| && first == Wire(was.base + i)
      requires StampedUpTo(was, env, i, unread.Value()) && was.items[i].Missing(env.now, env.receiveTimeout)
      modifies unread
      ensures Valid() && i < j <= |was.items|
      ensures last == Wire(was.base + j - 1) && n == Wire(was.base + j)
      ensures StampedUpTo(was, env, j, unread.Value())
      ensures forall k: nat :: i <= k < j ==> was.items[k].Missing(env.now, env.receiveTimeout)
      ensures j < |was.items| ==> !was.items[j].Missing(env.now, env.receiveTimeout)
    {
      hide Wire, Distance, StampedUpTo, Restarted;
      last, n, j := first, first, i;
      var missing := true;
      while missing
        invariant Valid() && i <= j <= |was.items| && n == Wire(was.base + j)
        invariant i < j ==> last == Wire(was.base + j - 1)
        invariant StampedUpTo(was, env, j, unread.Value())
        invariant forall k: nat :: i <= k < j ==> was.items[k].Missing(env.now, env.receiveTimeout)
        invariant missing <==> j < |was.items| && was.items[j].Missing(env.now, env.receiveTimeout)
        decreases |was.items| - j
      {
        last := n;
        Restart(n, env, was, j);
        NextIsSuccessor(was.base + j);
        n := Next(n);
        j := j + 1;
        missing := MissingAt(n, env, was, j);
      }
    }

    /** The run goes on: the window has not ended and its next slot is missing too. */
    method MissingAt(n: SeqNum, env: Readings, ghost was: Window<Unread>, ghost j: nat) returns (missing: bool)
      requires Valid() && j <= |was.items| && n == Wire(was.base + j)
      requires StampedUpTo(was, env, j, unread.Value())
      ensures missing <==> j < |was.items| && was.items[j].Missing(env.now, env.receiveTimeout)
    {
      hide Wire, Distance, StampedUpTo, Restarted;
      StampedRest(was, env, j, unread.Value());
      unread.Walk(j);
      missing := n != unread.end && unread.Get(n).Missing(env.now, env.receiveTimeout);
    }

    method Restart(n: SeqNum, env: Readings, ghost was: Window<Unread>, ghost i: nat)
      requires Valid() && i < |was.items| && n == Wire(was.base + i)
      requires StampedUpTo(was, env, i, unread.Value()) && was.items[i].Missing(env.now, env.receiveTimeout)
      modifies unread
      ensures Valid() && StampedUpTo(was, env, i + 1, unread.Value())
    {
      hide Wire, Distance;
      unread.Walk(i);
      var p := unread.Get(n);
      unread.Set(n, p.(reserveTime := env.now));
    }
  }
}
