/** Message framing on a stream: a four-byte length and the message, as a function of values. */
module FramingSpec {
  import opened MachineWords
  import opened Bytes
  import opened WireFormat

  const MAX_MESSAGE: nat := 67108864
  const SIZE_MAX: nat := 0x1_0000_0000_0000_0000

  /** Conversion to a signed 32-bit length. */
  function Int32(n: int): int {
    (n + 0x8000_0000) % 0x1_0000_0000 - 0x8000_0000
  }

  /** The frame of a message, unless its length, as converted, exceeds the limit (a negative one does). */
  function EncodeFrame(message: seq<byte>): Option<seq<byte>> {
    var size := Int32(|message|);
    if size < 0 || size > MAX_MESSAGE then None else Some(U32Bytes(size) + message)
  }

  /**
   A message is framed under its true length exactly up to the limit; conversion lets some of 2^32
   and more through.
   */
  lemma FramesExactlyUpToLimit(message: seq<byte>)
    ensures EncodeFrame(message).Some? <==> |message| % 0x1_0000_0000 <= MAX_MESSAGE
    ensures EncodeFrame(message) == Some(U32Bytes(|message| % 0x1_0000_0000) + message) || EncodeFrame(message).None?
    ensures |message| < 0x1_0000_0000 ==> (EncodeFrame(message).Some? <==> |message| <= MAX_MESSAGE)
  {
    Int32Exact(|message|);
    hide Int32, U32Bytes;
  }

  lemma Int32Exact(n: nat)
    ensures var low := n % 0x1_0000_0000;
            Int32(n) == if low < 0x8000_0000 then low else low - 0x1_0000_0000
  {
    var low, k := n % 0x1_0000_0000, n / 0x1_0000_0000;
    assert n + 0x8000_0000 == k * 0x1_0000_0000 + (low + 0x8000_0000);
  }

  datatype Stage = ReadingSize | ReadingData | Dispatched

  /**
   The connection's buffer and counters, together with the socket's pending read: where
   in the buffer it writes (`next`), how much it can still take (`room`), what it has
   taken (`transferred`), when it is satisfied, and whether its handler is due.
   `consumed` records the bytes taken off the stream, of which those from `start` on
   belong to the present frame, and `messages` what has been dispatched.
   */
  datatype ReaderState = ReaderState(
    stage: Stage,
    buffer: seq<byte>,
    dataSize: nat,
    dataReceived: nat,
    next: nat,
    room: nat,
    transferred: nat,
    atLeast: nat,
    due: bool,
    consumed: seq<byte>,
    start: nat,
    messages: seq<seq<byte>>)

  /**
   Bytes come, the handler runs, or a response has been written from the same buffer and the next
   message is awaited.
   */
  datatype Event =
    | Arrive(chunk: seq<byte>)
    | Handle(best: nat)
    | Again(response: seq<byte>)

  function Resized(buffer: seq<byte>, size: nat): (b: seq<byte>)
    ensures |b| == size
  {
    if size <= |buffer| then buffer[..size] else buffer + seq(size - |buffer|, _ => 0)
  }

  /** Starts a read into the buffer from `from` on; an empty read is due at once and leaves the old count. */
  function StartRead(r: ReaderState, from: nat, atLeast: nat): ReaderState
    requires from <= |r.buffer|
  {
    if from == |r.buffer| then r.(due := true)
    else r.(next := from, room := |r.buffer| - from, transferred := 0, atLeast := atLeast, due := false)
  }

  function StartReadSize(r: ReaderState): ReaderState {
    StartRead(r.(stage := ReadingSize, buffer := Resized(r.buffer, 4), start := |r.consumed|), 0, 4)
  }

  /** How much to ask for of a message of the given size; the subtraction is unsigned. */
  function Wanted(size: nat, received: nat, best: nat): nat {
    Min(best, (size - received) % SIZE_MAX)
  }

  function StartReadData(r: ReaderState, best: nat): ReaderState {
    var size := r.dataReceived + Wanted(r.dataSize, r.dataReceived, best);
    StartRead(r.(stage := ReadingData, buffer := Resized(r.buffer, size)), r.dataReceived, 1)
  }

  lemma StaysReading(r: ReaderState, best: nat)
    ensures StartReadData(r, best).stage == ReadingData
  {
  }

  /** The pending read has room for the bytes, in the buffer, if it has room at all. */
  predicate Fits(r: ReaderState, chunk: seq<byte>) {
    |chunk| <= r.room && (r.room > 0 ==> r.next + r.room <= |r.buffer|)
  }

  /** The pending read takes bytes that the stream has ready. */
  function ProcessRead(r: ReaderState, chunk: seq<byte>): ReaderState
    requires Fits(r, chunk)
  {
    if r.room == 0 then r
    else
      var n := |chunk|;
      r.(buffer := r.buffer[..r.next] + chunk + r.buffer[r.next + n..],
         next := r.next + n, room := r.room - n, transferred := r.transferred + n,
         due := r.due || r.room == n || r.transferred + n >= r.atLeast,
         consumed := r.consumed + chunk)
  }

  function HandleReadSize(r: ReaderState, best: nat): ReaderState
    requires |r.buffer| >= 4
  {
    var n := U32Of(r.buffer[..4]);
    StartReadData(r.(dataSize := if n < 0x8000_0000 then n else n + SIZE_MAX - 0x1_0000_0000, dataReceived := 0), best)
  }

  function HandleReadData(r: ReaderState, best: nat): ReaderState {
    var r' := r.(dataReceived := r.dataReceived + r.transferred);
    if r'.dataReceived == r'.dataSize then r'.(stage := Dispatched, due := false, messages := r.messages + [r.buffer])
    else StartReadData(r', best)
  }

  predicate Enabled(r: ReaderState, e: Event) {
    match e
    case Arrive(chunk) => !r.stage.Dispatched? && Fits(r, chunk)
    case Handle(best) => !r.stage.Dispatched? && r.due && best > 0 && (r.stage.ReadingSize? ==> |r.buffer| >= 4)
    case Again(_) => r.stage.Dispatched?
  }

  function Apply(r: ReaderState, e: Event): ReaderState
    requires Enabled(r, e)
  {
    match e
    case Arrive(chunk) => ProcessRead(r, chunk)
    case Handle(best) => if r.stage.ReadingSize? then HandleReadSize(r, best) else HandleReadData(r, best)
    case Again(response) => StartReadSize(r.(buffer := response))
  }

  const FRESH_READER := StartReadSize(ReaderState(ReadingSize, [], 0, 0, 0, 0, 0, 0, false, [], 0, []))

  ghost predicate Run(states: seq<ReaderState>, events: seq<Event>) {
    && |states| == |events| + 1
    && states[0] == FRESH_READER
    && forall i :: 0 <= i < |events| ==> Enabled(states[i], events[i]) && states[i + 1] == Apply(states[i], events[i])
  }

  /** A message that travels: not empty, and within the limit. */
  type Message = m: seq<byte> | 0 < |m| <= MAX_MESSAGE witness [0]

  function Frame(m: seq<byte>): seq<byte>
    requires |m| <= MAX_MESSAGE
  {
    U32Bytes(|m|) + m
  }

  /** The frames of several messages, one after the other. */
  function Frames(ms: seq<Message>): seq<byte> {
    if ms == [] then [] else Frame(ms[0]) + Frames(ms[1..])
  }
}
