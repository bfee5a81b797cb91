/** The packet encodings: what goes into the send buffer, and what each decoder makes of a datagram. */
module Codec {
  import opened MachineWords
  import opened SequenceNumbers
  import opened Bytes
  import opened Packets
  import opened WireFormat

  const HANDSHAKE_TYPE: PacketType := 0
  const ACK_TYPE: PacketType := 2
  const NEGATIVE_ACK_TYPE: PacketType := 3
  const SHUTDOWN_TYPE: PacketType := 5
  const ACK_OF_ACK_TYPE: PacketType := 6

  // Data packets: a clear top bit, the sequence number, and flags above the message number

  function Flag(b: bool, bit: byte): byte {
    if b then bit else 0
  }

  /** The byte that shares the three flags with the top of the message number. */
  function FlagByte(p: DataPacket): (f: byte) {
    p.messageNumber / 0x100_0000 + Flag(p.first, 0x80) + Flag(p.last, 0x40) + Flag(p.inOrder, 0x20)
  }

  function DataHead(p: DataPacket): (b: seq<byte>)
    ensures |b| == 8
  {
    [p.seqnum / 0x100_0000, p.seqnum / 0x1_0000 % 0x100, p.seqnum / 0x100 % 0x100, p.seqnum % 0x100,
     FlagByte(p), p.messageNumber / 0x1_0000 % 0x100, p.messageNumber / 0x100 % 0x100, p.messageNumber % 0x100]
  }

  function DataBytes(p: DataPacket): (b: seq<byte>)
    ensures |b| == HEADER_SIZE + |p.data|
  {
    DataHead(p) + WordBytes([p.timeStamp, p.destination]) + p.data
  }

  predicate IsData(b: seq<byte>) {
    |b| >= HEADER_SIZE && b[0] / 0x80 % 2 == 0
  }

  function DecodeData(b: seq<byte>): (p: Option<DataPacket>)
    ensures p.Some? <==> IsData(b)
  {
    if !IsData(b) then None
    else
      var (seqnum, first, last, inOrder, messageNumber) := DecodeHead(b[..8]);
      Some(DataPacket(seqnum, first, last, inOrder, messageNumber, U32At(b, 8), U32At(b, 12), b[HEADER_SIZE..]))
  }

  /** The flags and the message number share a byte without disturbing each other. */
  lemma FlagByteExact(p: DataPacket)
    ensures var f := FlagByte(p);
            && f % 0x20 == p.messageNumber / 0x100_0000
            && (f / 0x80 % 2 == 1 <==> p.first)
            && (f / 0x40 % 2 == 1 <==> p.last)
            && (f / 0x20 % 2 == 1 <==> p.inOrder)
  {
  }

  /** What the decoder reads from the first eight bytes. */
  function DecodeHead(b: seq<byte>): (SeqNum, bool, bool, bool, u29)
    requires |b| == 8
  {
    (Quad(b[0] % 0x80, b[1], b[2], b[3]),
     b[4] / 0x80 % 2 == 1,
     b[4] / 0x40 % 2 == 1,
     b[4] / 0x20 % 2 == 1,
     Quad(b[4] % 0x20, b[5], b[6], b[7]))
  }

  lemma HeadRoundTrip(p: DataPacket)
    ensures DecodeHead(DataHead(p)) == (p.seqnum, p.first, p.last, p.inOrder, p.messageNumber)
    ensures DataHead(p)[0] < 0x80
  {
    hide FlagByte, Flag, Quad;
    FlagByteExact(p);
    Recompose(p.seqnum);
    Recompose(p.messageNumber);
  }

  lemma FlagByteUnique(f: byte, p: DataPacket)
    requires p.messageNumber / 0x100_0000 == f % 0x20
    requires p.first == (f / 0x80 % 2 == 1) && p.last == (f / 0x40 % 2 == 1) && p.inOrder == (f / 0x20 % 2 == 1)
    ensures FlagByte(p) == f
  {
  }

  lemma HeadFields(b: seq<byte>, p: DataPacket)
    requires |b| == 8 && b[0] < 0x80 && DecodeHead(b) == (p.seqnum, p.first, p.last, p.inOrder, p.messageNumber)
    ensures p.seqnum == Quad(b[0], b[1], b[2], b[3]) && p.messageNumber == Quad(b[4] % 0x20, b[5], b[6], b[7])
    ensures p.first == (b[4] / 0x80 % 2 == 1) && p.last == (b[4] / 0x40 % 2 == 1) && p.inOrder == (b[4] / 0x20 % 2 == 1)
  {
    hide Quad;
  }

  lemma HeadUnique(b: seq<byte>, p: DataPacket)
    requires |b| == 8 && b[0] < 0x80 && DecodeHead(b) == (p.seqnum, p.first, p.last, p.inOrder, p.messageNumber)
    ensures DataHead(p) == b
  {
    hide Quad, FlagByte, DecodeHead;
    HeadFields(b, p);
    Digits(b[0], b[1], b[2], b[3]);
    Digits(b[4] % 0x20, b[5], b[6], b[7]);
    FlagByteUnique(b[4], p);
  }

  lemma DataRoundTrip(p: DataPacket)
    ensures DecodeData(DataBytes(p)) == Some(p)
  {
    hide WordBytes, U32Of, DataHead, DecodeHead;
    var b := DataBytes(p);
    var words := [p.timeStamp, p.destination];
    assert b[..8] == DataHead(p);
    assert b[8..8 + 4 * |words|] == WordBytes(words) && b[16..] == p.data;
    WordsAt(b, 8, words, 0);
    WordsAt(b, 8, words, 1);
    HeadRoundTrip(p);
    assert b[0] == DataHead(p)[0];
  }

  /** No two datagrams decode to the same data packet: encoding gives the datagram back. */
  lemma DataUnique(b: seq<byte>)
    requires IsData(b)
    ensures DataBytes(DecodeData(b).value) == b
  {
    hide U32Bytes, U32Of, WordBytes, DataHead, DecodeHead;
    var p := DecodeData(b).value;
    HeadUnique(b[..8], p);
    U32Unique(b[8..12]);
    U32Unique(b[12..16]);
    WordBytesPair(p.timeStamp, p.destination);
    assert b == b[..8] + (b[8..12] + b[12..16]) + b[16..];
  }

  lemma WordBytesPair(m: u32, n: u32)
    ensures WordBytes([m, n]) == U32Bytes(m) + U32Bytes(n)
  {
    hide U32Bytes;
    assert [m, n][..1] == [m] && [m][..0] == [];
  }

  method EncodeData(p: DataPacket, buffer: array<byte>) returns (size: nat)
    modifies buffer
    ensures buffer.Length < |DataBytes(p)| ==> size == 0 && buffer[..] == old(buffer[..])
    ensures buffer.Length >= |DataBytes(p)| ==>
        size == |DataBytes(p)| && Spliced(old(buffer[..]), 0, DataBytes(p), buffer[..])
  {
    if buffer.Length < HEADER_SIZE + |p.data| {
      return 0;
    }
    hide WordBytes, Spliced, DataHead;
    ghost var orig := buffer[..];
    WriteDataHead(p, buffer);
    ghost var out := DataHead(p);
    NoWords(out);
    AppendWord(p.timeStamp, buffer, 8, orig, out, []);
    AppendWord(p.destination, buffer, 12, orig, out, [] + [p.timeStamp]);
    assert [] + [p.timeStamp] + [p.destination] == [p.timeStamp, p.destination];
    CopyBehind(p.data, buffer, HEADER_SIZE, orig, out + WordBytes([p.timeStamp, p.destination]));
    return HEADER_SIZE + |p.data|;
  }

  /** The masks on the top bytes have nothing to cut off. */
  lemma MasksKeep(p: DataPacket)
    ensures p.seqnum / 0x100_0000 % 0x80 == p.seqnum / 0x100_0000
    ensures p.messageNumber / 0x100_0000 % 0x20 == p.messageNumber / 0x100_0000 < 0x20
  {
  }

  /** The flags are or-ed, one by one, into bits the masked message number leaves clear. */
  method WriteDataHead(p: DataPacket, buffer: array<byte>)
    requires buffer.Length >= HEADER_SIZE
    modifies buffer
    ensures Spliced(old(buffer[..]), 0, DataHead(p), buffer[..])
  {
    hide DataHead, Spliced;
    ghost var orig := buffer[..];
    WriteSeqnum(p, buffer);
    ghost var mid := buffer[..];
    WriteMessageNumber(p, buffer);
    SpliceMore(orig, 0, DataHead(p)[..4], DataHead(p)[4..], mid, buffer[..]);
    assert DataHead(p)[..4] + DataHead(p)[4..] == DataHead(p);
  }

  method WriteSeqnum(p: DataPacket, buffer: array<byte>)
    requires buffer.Length >= HEADER_SIZE
    modifies buffer
    ensures Spliced(old(buffer[..]), 0, DataHead(p)[..4], buffer[..])
  {
    MasksKeep(p);
    buffer[0] := p.seqnum / 0x100_0000 % 0x80;
    buffer[1] := p.seqnum / 0x1_0000 % 0x100;
    buffer[2] := p.seqnum / 0x100 % 0x100;
    buffer[3] := p.seqnum % 0x100;
  }

  method WriteMessageNumber(p: DataPacket, buffer: array<byte>)
    requires buffer.Length >= HEADER_SIZE
    modifies buffer
    ensures Spliced(old(buffer[..]), 4, DataHead(p)[4..], buffer[..])
  {
    MasksKeep(p);
    buffer[4] := p.messageNumber / 0x100_0000 % 0x20;
    buffer[4] := buffer[4] + Flag(p.first, 0x80);
    buffer[4] := buffer[4] + Flag(p.last, 0x40);
    buffer[4] := buffer[4] + Flag(p.inOrder, 0x20);
    buffer[5] := p.messageNumber / 0x1_0000 % 0x100;
    buffer[6] := p.messageNumber / 0x100 % 0x100;
    buffer[7] := p.messageNumber % 0x100;
  }

  method CopyBehind(bytes: seq<byte>, buffer: array<byte>, at: nat, ghost orig: seq<byte>, ghost out: seq<byte>)
    requires at == |out| && at + |bytes| <= buffer.Length && Spliced(orig, 0, out, buffer[..])
    modifies buffer
    ensures Spliced(orig, 0, out + bytes, buffer[..])
  {
    forall k | 0 <= k < |bytes| {
      buffer[at + k] := bytes[k];
    }
    SpliceMore(orig, 0, out, bytes, old(buffer[..]), buffer[..]);
  }

  // Acknowledgements

  const FRESH_ACK := AckPacket(Header(0, 0, 0), 0, false, 0, 0, 0, 0, 0)

  function AckWords(p: AckPacket): seq<u32> {
    if p.hasOptional then [p.seqnum, p.rtt, p.rttVariance, p.bufferSize, p.receivingRate, p.linkCapacity]
    else [p.seqnum]
  }

  function AckBytes(p: AckPacket): (b: seq<byte>)
    ensures |b| == if p.hasOptional then 40 else 20
  {
    HeaderBytes(ACK_TYPE, p.header) + WordBytes(AckWords(p))
  }

  predicate IsAck(b: seq<byte>) {
    IsValidBase(b, ACK_TYPE) && (|b| == 20 || |b| == 40)
  }

  /**
   Decoding assigns the fields of `prior`; a short packet leaves its optional fields, and their flag,
   as they were.
   */
  function DecodeAck(prior: AckPacket, b: seq<byte>): (p: Option<AckPacket>)
    ensures p.Some? <==> IsAck(b)
  {
    if !IsAck(b) then None
    else
      var p := prior.(header := DecodeBase(b), seqnum := U32At(b, 16));
      if |b| == 40 then
        Some(p.(hasOptional := true, rtt := U32At(b, 20), rttVariance := U32At(b, 24), bufferSize := U32At(b, 28),
                receivingRate := U32At(b, 32), linkCapacity := U32At(b, 36)))
      else Some(p)
  }

  /** What decoding makes of an encoded acknowledgement, whatever packet it is decoded into. */
  lemma AckDecodes(prior: AckPacket, p: AckPacket)
    ensures DecodeAck(prior, AckBytes(p)) ==
            Some(if p.hasOptional then p else prior.(header := p.header, seqnum := p.seqnum))
  {
    hide U32Of, IsValidBase, HeaderBytes, DecodeBase, WordBytes;
    var b, words := AckBytes(p), AckWords(p);
    HeaderRoundTrip(ACK_TYPE, p.header, WordBytes(words), ACK_TYPE);
    assert b[16..16 + 4 * |words|] == WordBytes(words);
    forall k: nat | k < |words| ensures U32At(b, 16 + 4 * k) == words[k] {
      WordsAt(b, 16, words, k);
    }
    assert U32At(b, 16 + 4 * 0) == words[0];
    if p.hasOptional {
      assert U32At(b, 16 + 4 * 1) == words[1] && U32At(b, 16 + 4 * 2) == words[2] && U32At(b, 16 + 4 * 3) == words[3];
      assert U32At(b, 16 + 4 * 4) == words[4] && U32At(b, 16 + 4 * 5) == words[5];
    }
  }

  /** Into a fresh packet, that is the packet itself exactly when no optional value is left behind. */
  lemma AckRoundTrip(p: AckPacket)
    ensures DecodeAck(FRESH_ACK, AckBytes(p)) == Some(p) <==>
            p.hasOptional || (p.rtt == p.rttVariance == p.bufferSize == p.receivingRate == p.linkCapacity == 0)
  {
    AckDecodes(FRESH_ACK, p);
    hide DecodeAck, AckBytes;
  }

  /** The code checks for room for the short form only; its callers always pass a buffer that holds the long one. */
  method EncodeAck(p: AckPacket, buffer: array<byte>) returns (size: nat)
    requires p.hasOptional ==> buffer.Length < 20 || buffer.Length >= 40
    modifies buffer
    ensures buffer.Length < |AckBytes(p)| ==> size == 0 && buffer[..] == old(buffer[..])
    ensures buffer.Length >= |AckBytes(p)| ==>
        size == |AckBytes(p)| && Spliced(old(buffer[..]), 0, AckBytes(p), buffer[..])
  {
    hide WordBytes, Spliced, HeaderBytes;
    if buffer.Length < 20 {
      return 0;
    }
    ghost var orig := buffer[..];
    var n := EncodeBase(ACK_TYPE, p.header, buffer);
    ghost var head := HeaderBytes(ACK_TYPE, p.header);
    NoWords(head);
    AppendWord(p.seqnum, buffer, 16, orig, head, []);
    ghost var words: seq<u32> := [] + [p.seqnum];
    if p.hasOptional {
      AppendWord(p.rtt, buffer, 20, orig, head, words);
      words := words + [p.rtt];
      AppendWord(p.rttVariance, buffer, 24, orig, head, words);
      words := words + [p.rttVariance];
      AppendWord(p.bufferSize, buffer, 28, orig, head, words);
      words := words + [p.bufferSize];
      AppendWord(p.receivingRate, buffer, 32, orig, head, words);
      words := words + [p.receivingRate];
      AppendWord(p.linkCapacity, buffer, 36, orig, head, words);
      words := words + [p.linkCapacity];
    }
    assert words == AckWords(p);
    return if p.hasOptional then 40 else 20;
  }

  // Acknowledgements of acknowledgements, and shutdowns: the header alone

  function AckOfAckBytes(p: AckOfAckPacket): seq<byte> {
    HeaderBytes(ACK_OF_ACK_TYPE, p.header)
  }

  /** The decoder, unlike IsValid, does not look at the length. */
  function DecodeAckOfAck(b: seq<byte>): Option<AckOfAckPacket> {
    if IsValidBase(b, ACK_OF_ACK_TYPE) then Some(AckOfAckPacket(DecodeBase(b))) else None
  }

  function DecodeShutdown(b: seq<byte>): Option<Header> {
    if IsValidBase(b, SHUTDOWN_TYPE) && |b| == HEADER_SIZE then Some(DecodeBase(b)) else None
  }

  lemma BareRoundTrip(p: AckOfAckPacket, h: Header)
    ensures DecodeAckOfAck(AckOfAckBytes(p)) == Some(p)
    ensures DecodeShutdown(HeaderBytes(SHUTDOWN_TYPE, h)) == Some(h)
  {
    hide IsValidBase, HeaderBytes, DecodeBase;
    HeaderRoundTrip(ACK_OF_ACK_TYPE, p.header, [], ACK_OF_ACK_TYPE);
    HeaderRoundTrip(SHUTDOWN_TYPE, h, [], SHUTDOWN_TYPE);
    assert HeaderBytes(ACK_OF_ACK_TYPE, p.header) + [] == HeaderBytes(ACK_OF_ACK_TYPE, p.header);
    assert HeaderBytes(SHUTDOWN_TYPE, h) + [] == HeaderBytes(SHUTDOWN_TYPE, h);
  }

  // Handshakes

  function HandshakeWords(p: HandshakePacket): seq<u32> {
    [p.version, p.socketType, p.initialSeqnum, p.maximumPacketSize,
     p.maximumFlowWindow, p.connectionType, p.socketId, p.synCookie]
  }

  function HandshakeBytes(p: HandshakePacket): seq<byte> {
    HeaderBytes(HANDSHAKE_TYPE, p.header) + WordBytes(HandshakeWords(p)) + p.address
  }

  function DecodeHandshake(b: seq<byte>): Option<HandshakePacket> {
    if IsValidBase(b, HANDSHAKE_TYPE) && |b| == 64 then
      Some(HandshakePacket(
        DecodeBase(b), U32At(b, 16), U32At(b, 20), U32At(b, 24), U32At(b, 28),
        U32At(b, 32), U32At(b, 36), U32At(b, 40), U32At(b, 44), b[48..64]))
    else None
  }

  /** An address is sixteen bytes. */
  lemma HandshakeRoundTrip(p: HandshakePacket)
    requires |p.address| == 16
    ensures DecodeHandshake(HandshakeBytes(p)) == Some(p)
  {
    hide U32Of, IsValidBase, HeaderBytes, DecodeBase, WordBytes;
    var b, words := HandshakeBytes(p), HandshakeWords(p);
    Assoc(HeaderBytes(HANDSHAKE_TYPE, p.header), WordBytes(words), p.address);
    HeaderRoundTrip(HANDSHAKE_TYPE, p.header, WordBytes(words) + p.address, HANDSHAKE_TYPE);
    assert b[16..16 + 4 * |words|] == WordBytes(words);
    assert b[48..64] == p.address;
    forall k: nat | k < |words| ensures U32At(b, 16 + 4 * k) == words[k] {
      WordsAt(b, 16, words, k);
    }
    assert U32At(b, 16 + 4 * 0) == words[0] && U32At(b, 16 + 4 * 1) == words[1] && U32At(b, 16 + 4 * 2) == words[2];
    assert U32At(b, 16 + 4 * 3) == words[3] && U32At(b, 16 + 4 * 4) == words[4] && U32At(b, 16 + 4 * 5) == words[5];
    assert U32At(b, 16 + 4 * 6) == words[6] && U32At(b, 16 + 4 * 7) == words[7];
  }

  method EncodeHandshake(p: HandshakePacket, buffer: array<byte>) returns (size: nat)
    requires |p.address| == 16
    modifies buffer
    ensures buffer.Length < 64 ==> size == 0 && buffer[..] == old(buffer[..])
    ensures buffer.Length >= 64 ==> size == 64 && Spliced(old(buffer[..]), 0, HandshakeBytes(p), buffer[..])
  {
    hide WordBytes, Spliced, HeaderBytes;
    if buffer.Length < 64 {
      return 0;
    }
    ghost var orig := buffer[..];
    var n := EncodeBase(HANDSHAKE_TYPE, p.header, buffer);
    ghost var head := HeaderBytes(HANDSHAKE_TYPE, p.header);
    NoWords(head);
    ghost var words: seq<u32> := [];
    AppendWord(p.version, buffer, 16, orig, head, words);
    words := words + [p.version];
    AppendWord(p.socketType, buffer, 20, orig, head, words);
    words := words + [p.socketType];
    AppendWord(p.initialSeqnum, buffer, 24, orig, head, words);
    words := words + [p.initialSeqnum];
    AppendWord(p.maximumPacketSize, buffer, 28, orig, head, words);
    words := words + [p.maximumPacketSize];
    AppendWord(p.maximumFlowWindow, buffer, 32, orig, head, words);
    words := words + [p.maximumFlowWindow];
    AppendWord(p.connectionType, buffer, 36, orig, head, words);
    words := words + [p.connectionType];
    AppendWord(p.socketId, buffer, 40, orig, head, words);
    words := words + [p.socketId];
    AppendWord(p.synCookie, buffer, 44, orig, head, words);
    words := words + [p.synCookie];
    assert words == HandshakeWords(p);
    CopyBehind(p.address, buffer, 48, orig, head + WordBytes(words));
    return 64;
  }

  // Negative acknowledgements

  function NackBytes(h: Header, words: seq<u32>): (b: seq<byte>)
    ensures |b| == HEADER_SIZE + 4 * |words|
  {
    HeaderBytes(NEGATIVE_ACK_TYPE, h) + WordBytes(words)
  }

  predicate IsNack(b: seq<byte>) {
    IsValidBase(b, NEGATIVE_ACK_TYPE) && |b| > HEADER_SIZE && (|b| - HEADER_SIZE) % 4 == 0
  }

  /** The words behind the header, as many as the length gives. */
  function NackWords(b: seq<byte>): (words: seq<u32>)
    requires |b| >= HEADER_SIZE
  {
    seq((|b| - HEADER_SIZE) / 4, k requires 0 <= k < (|b| - HEADER_SIZE) / 4 => U32At(b, HEADER_SIZE + 4 * k))
  }

  function DecodeNack(b: seq<byte>): (p: Option<(Header, seq<u32>)>)
    ensures p.Some? <==> IsNack(b)
  {
    if IsNack(b) then Some((DecodeBase(b), NackWords(b))) else None
  }

  /** A loss list comes through whole, and an empty one is the only one refused. */
  lemma NackRoundTrip(h: Header, words: seq<u32>)
    ensures DecodeNack(NackBytes(h, words)) == if words != [] then Some((h, words)) else None
  {
    hide U32Of, IsValidBase, HeaderBytes, DecodeBase, WordBytes;
    var b := NackBytes(h, words);
    HeaderRoundTrip(NEGATIVE_ACK_TYPE, h, WordBytes(words), NEGATIVE_ACK_TYPE);
    assert b[HEADER_SIZE..HEADER_SIZE + 4 * |words|] == WordBytes(words);
    forall k: nat | k < |words| ensures U32At(b, HEADER_SIZE + 4 * k) == words[k] {
      WordsAt(b, HEADER_SIZE, words, k);
    }
    assert NackWords(b) == words;
  }

  // Which packet a datagram is

  datatype Incoming =
    | DataIn(data: DataPacket)
    | AckIn(ack: AckPacket)
    | AckOfAckIn(ackOfAck: AckOfAckPacket)
    | NackIn(header: Header, words: seq<u32>)
    | HandshakeIn(handshake: HandshakePacket)
    | ShutdownIn(header: Header)
    | Unknown

  /** The socket tries its decoders in this order, each on a fresh packet. */
  function Classify(b: seq<byte>): Incoming {
    if DecodeData(b).Some? then DataIn(DecodeData(b).value)
    else if DecodeAck(FRESH_ACK, b).Some? then AckIn(DecodeAck(FRESH_ACK, b).value)
    else if DecodeAckOfAck(b).Some? then AckOfAckIn(DecodeAckOfAck(b).value)
    else if DecodeNack(b).Some? then NackIn(DecodeNack(b).value.0, DecodeNack(b).value.1)
    else if DecodeHandshake(b).Some? then HandshakeIn(DecodeHandshake(b).value)
    else if DecodeShutdown(b).Some? then ShutdownIn(DecodeShutdown(b).value)
    else Unknown
  }

  function Count(b: bool): nat {
    if b then 1 else 0
  }

  /** No datagram is accepted by two decoders, so the order of the attempts does not matter. */
  lemma AtMostOneDecoder(b: seq<byte>)
    ensures Count(DecodeData(b).Some?) + Count(DecodeAck(FRESH_ACK, b).Some?) + Count(DecodeAckOfAck(b).Some?)
            + Count(DecodeNack(b).Some?) + Count(DecodeHandshake(b).Some?) + Count(DecodeShutdown(b).Some?) <= 1
  {
    hide U32Of;
  }

  /** A packet of every kind reaches its own handler, unchanged, from the bytes it was sent as. */
  lemma EachReachesItsHandler(
    data: DataPacket, ack: AckPacket, ackOfAck: AckOfAckPacket, h: Header, words: seq<u32>, handshake: HandshakePacket)
    requires ack.hasOptional && words != [] && |handshake.address| == 16
    ensures Classify(DataBytes(data)) == DataIn(data)
    ensures Classify(AckBytes(ack)) == AckIn(ack)
    ensures Classify(AckOfAckBytes(ackOfAck)) == AckOfAckIn(ackOfAck)
    ensures Classify(NackBytes(h, words)) == NackIn(h, words)
    ensures Classify(HandshakeBytes(handshake)) == HandshakeIn(handshake)
    ensures Classify(HeaderBytes(SHUTDOWN_TYPE, h)) == ShutdownIn(h)
  {
    DataRoundTrip(data);
    AckDecodes(FRESH_ACK, ack);
    BareRoundTrip(ackOfAck, h);
    NackRoundTrip(h, words);
    HandshakeRoundTrip(handshake);
    AtMostOneDecoder(DataBytes(data));
    AtMostOneDecoder(AckBytes(ack));
    AtMostOneDecoder(AckOfAckBytes(ackOfAck));
    AtMostOneDecoder(NackBytes(h, words));
    AtMostOneDecoder(HandshakeBytes(handshake));
    AtMostOneDecoder(HeaderBytes(SHUTDOWN_TYPE, h));
    hide DecodeData, DecodeAck, DecodeAckOfAck, DecodeNack, DecodeHandshake, DecodeShutdown, DataBytes, AckBytes,
      AckOfAckBytes, NackBytes, HandshakeBytes, HeaderBytes;
  }

  /** The dispatcher finds the addressee of every packet without decoding it. */
  lemma RoutedToDestination(data: DataPacket, packetType: PacketType, h: Header, rest: seq<byte>)
    ensures DecodeDestinationSocketId(DataBytes(data)) == Some(data.destination)
    ensures DecodeDestinationSocketId(HeaderBytes(packetType, h) + rest) == Some(h.destination)
  {
    HeaderRoundTrip(packetType, h, rest, packetType);
    DataRoundTrip(data);
    hide U32Of, DataHead, WordBytes, IsValidBase;
  }
}
