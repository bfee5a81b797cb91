/**
 One direction of a connection: a sender, a receiver, and a network that may lose,
 duplicate, delay and reorder packets. Both ends act only on 31-bit numbers; the
 world keeps the absolute numbers beside them, for the statements.
 */
module StreamProtocol {
  import opened MachineWords
  import opened Parameters
  import opened SequenceNumbers
  import opened SlidingWindows
  import opened Bytes
  import opened Packets
  import opened SenderSpec
  import opened ReceiverSpec

  /** A data packet in flight, with its absolute number. */
  datatype DataFlight = DataFlight(number: nat, packet: DataPacket)

  /** An acknowledgement in flight, with the absolute ack point it was made for and its own absolute number. */
  datatype AckFlight = AckFlight(point: nat, entry: nat, packet: AckPacket)

  /**
   Both ends, the payload of every packet numbered so far (the first is number
   `first`), what the applications wrote and read, everything sent and not lost, the
   acknowledgements the sender has answered, the ack points of the unanswered ones, and
   the last ack point announced.
   */
  datatype World = World(
    first: nat,
    sender: SenderState,
    receiver: ReceiverState,
    log: seq<seq<byte>>,
    accepted: seq<byte>,
    delivered: seq<byte>,
    data: set<DataFlight>,
    acks: set<AckFlight>,
    answered: set<AckFlight>,
    points: seq<nat>,
    announced: nat)
  {
    /** One past the highest number used so far. */
    function Top(): nat {
      first + |log|
    }

    function Point(): nat {
      AckPoint(receiver.unread)
    }
  }

  /**
   What can happen: calls by the applications, ticks, deliveries and losses. A packet
   sent may be delivered any number of times, in any order, until it is lost. Negative
   acknowledgements and acknowledgements of acknowledgements are arbitrary.
   */
  datatype Step =
    | Write(bytes: seq<byte>, windowSize: nat, dataSize: nat, env: Env)
    | HearAck(ack: AckFlight, env: Env)
    | HearNack(words: seq<u32>, env: Env)
    | SenderTick(env: Env)
    | HearData(flight: DataFlight, windowSize: nat, now: int)
    | Read(room: nat)
    | HearAckOfAck(n: u32)
    | ReceiverTick(readings: Readings)
    | Lose(data: set<DataFlight>, acks: set<AckFlight>)

  /** Numbers come round again after 2^31 packets; a data packet must not come again as one that is due soon. */
  predicate FreshData(w: World, number: nat) {
    w.receiver.unread.Top() + MAXIMUM_WINDOW <= number + MODULUS
  }

  /** Nor must an acknowledgement come again as one for the end of the sender's window. */
  predicate FreshAck(w: World, point: nat) {
    w.Top() < point + MODULUS
  }

  ghost predicate Enabled(w: World, step: Step) {
    match step
    case HearAck(ack, _) => ack in w.acks && FreshAck(w, ack.point)
    case HearData(flight, _, _) => flight in w.data && FreshData(w, flight.number)
    case _ => true
  }

  /** The packet sent, if any, under the absolute number it has in the sender's window. */
  function Launched(s: SenderState, sent: Option<DataPacket>): set<DataFlight> {
    if sent.Some? then {DataFlight(s.unacked.base + Distance(s.unacked.base, sent.value.seqnum), sent.value)} else {}
  }

  function Sent(w: World, result: (SenderState, Option<DataPacket>)): World {
    w.(sender := result.0, data := w.data + Launched(result.0, result.1))
  }

  ghost function Apply(w: World, step: Step): World
    requires w.sender.unacked.Bounded() && w.receiver.unread.Bounded()
  {
    match step
    case Write(bytes, windowSize, dataSize, env) =>
      var (s, n, sent) := AddData(w.sender, bytes, windowSize, dataSize, env);
      var limited := SendLimit(w.sender.unacked, windowSize);
      Sent(w, (s, sent)).(
        log := w.log + Chunks(bytes, dataSize, limited.Room()),
        accepted := w.accepted + FirstBytes(bytes, n))
    case HearAck(ack, env) =>
      Sent(w, HandleAck(w.sender, ack.packet.seqnum, env)).(answered := w.answered + {ack})
    case HearNack(words, env) => Sent(w, HandleNegativeAck(w.sender, words, env))
    case SenderTick(env) => Sent(w, HandleTick(w.sender, env))
    case HearData(flight, windowSize, now) =>
      w.(receiver := w.receiver.(unread := HandleData(w.receiver.unread, flight.packet, windowSize, now)))
    case Read(room) =>
      var (unread, out) := ReadData(w.receiver.unread, room);
      w.(receiver := w.receiver.(unread := unread), delivered := w.delivered + out)
    case HearAckOfAck(n) =>
      var acks := ReceiverSpec.HandleAckOfAck(w.receiver.acks, n);
      w.(receiver := w.receiver.(acks := acks), points := Last(w.points, |acks.items|))
    case ReceiverTick(readings) =>
      var (r, ack) := SendAck(w.receiver, readings);
      w.(receiver := r.(unread := Restamp(r.unread, readings)),
         acks := w.acks + (if ack.Some? then {AckFlight(w.Point(), r.acks.Top() - 1, ack.value)} else {}),
         points := if ack.Some? then Last(w.points, |r.acks.items| - 1) + [w.Point()] else w.points,
         announced := if ack.Some? then w.Point() else w.announced)
    case Lose(data, acks) => w.(data := w.data - data, acks := w.acks - acks)
  }

  /** The first `n` bytes, where AddData says how many it accepted. */
  function FirstBytes(bytes: seq<byte>, n: nat): seq<byte> {
    if n <= |bytes| then bytes[..n] else bytes
  }

  function Last<T>(s: seq<T>, k: int): seq<T> {
    if 0 <= k <= |s| then s[|s| - k..] else s
  }

  ghost predicate Init(w: World) {
    && w.first < MODULUS
    && w.sender.unacked == Window(w.first, [], DEFAULT_WINDOW)
    && w.receiver.unread == Window(w.first, [], DEFAULT_WINDOW)
    && w.receiver.acks.items == [] && w.receiver.acks.limit == DEFAULT_WINDOW
    && w.receiver.lastAck == w.first == w.announced
    && w.log == [] && w.accepted == [] && w.delivered == []
    && w.data == {} && w.acks == {} && w.answered == {} && w.points == []
  }

  ghost predicate Stepped(w: World, step: Step, w': World) {
    && w.sender.unacked.Bounded() && w.receiver.unread.Bounded()
    && Enabled(w, step)
    && w' == Apply(w, step)
  }

  /** The worlds that the steps lead through, from wherever they start. */
  ghost predicate Path(worlds: seq<World>, steps: seq<Step>) {
    && |worlds| == |steps| + 1
    && forall i :: 0 <= i < |steps| ==> Stepped(worlds[i], steps[i], worlds[i + 1])
  }

  ghost predicate Run(worlds: seq<World>, steps: seq<Step>) {
    Path(worlds, steps) && Init(worlds[0])
  }

  // The invariant

  /** The packet is number `a` of the stream: it shows that number's low bits and carries that number's bytes. */
  ghost predicate Carries(w: World, packet: DataPacket, a: nat) {
    && w.first <= a < w.Top()
    && packet.seqnum == Wire(a)
    && packet.data == w.log[a - w.first]
  }

  ghost predicate SenderOk(w: World) {
    var u := w.sender.unacked;
    && u.Bounded()
    && w.first <= u.base && u.Top() == w.Top()
    && forall i :: 0 <= i < |u.items| ==> Carries(w, u.items[i].packet, u.base + i)
  }

  ghost predicate ReceiverOk(w: World) {
    var u := w.receiver.unread;
    && u.Bounded()
    && w.first <= u.base && u.Top() <= w.Top()
    && (forall i :: 0 <= i < |u.items| && !u.items[i].lost ==> Carries(w, u.items[i].packet, u.base + i))
    && (forall i :: 1 <= i < |u.items| && !u.items[i].lost ==> u.items[i].bytesRead == 0)
  }

  /** Delivered bytes and readable bytes together are the log up to the ack point. */
  ghost predicate StreamOk(w: World) {
    && w.accepted == Flatten(w.log)
    && w.first <= w.Point() <= w.Top()
    && w.delivered + Readable(w.receiver.unread.items) == Flatten(w.log[..w.Point() - w.first])
  }

  ghost predicate FlightsOk(w: World) {
    && (forall f <- w.data :: Carries(w, f.packet, f.number))
    && (forall a <- w.acks :: a.point <= w.Point() && a.packet.seqnum == Wire(a.point))
  }

  /** The entries are for the given ack points, which never go back and do not exceed `bound`. */
  ghost predicate Matched(items: seq<AckEntry>, points: seq<nat>, bound: nat) {
    && |items| == |points|
    && (forall i :: 0 <= i < |items| ==> items[i].packet.seqnum == Wire(points[i]))
    && (forall i :: 0 <= i < |points| ==> points[i] <= bound)
    && (forall i, j :: 0 <= i <= j < |points| ==> points[i] <= points[j])
  }

  ghost predicate PointsOk(w: World) {
    Matched(w.receiver.acks.items, w.points, w.Point())
  }

  ghost predicate Inv(w: World) {
    && SenderOk(w)
    && ReceiverOk(w)
    && StreamOk(w)
    && FlightsOk(w)
    && PointsOk(w)
    && w.sender.unacked.base <= w.Point()
  }

  lemma InitInv(w: World)
    requires Init(w)
    ensures Inv(w)
  {
  }
}
