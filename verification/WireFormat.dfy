/** The byte layout shared by all packets: big-endian words and the control header. */
module WireFormat {
  import opened MachineWords
  import opened Bytes
  import opened Packets

  const HEADER_SIZE: nat := 16

  function U32Bytes(n: u32): (b: seq<byte>)
    ensures |b| == 4
  {
    [n / 0x100_0000, n / 0x1_0000 % 0x100, n / 0x100 % 0x100, n % 0x100]
  }

  /** The number with the given base-256 digits. */
  function Quad(a: int, b: int, c: int, d: int): int {
    ((a * 0x100 + b) * 0x100 + c) * 0x100 + d
  }

  function U32Of(b: seq<byte>): (n: u32)
    requires |b| == 4
  {
    Quad(b[0], b[1], b[2], b[3])
  }

  /** The word at an offset of a buffer. */
  function U32At(b: seq<byte>, at: nat): u32
    requires at + 4 <= |b|
  {
    U32Of(b[at..at + 4])
  }

  /** A number is recomposed from its four bytes. */
  lemma Recompose(n: int)
    ensures Quad(n / 0x100_0000, n / 0x1_0000 % 0x100, n / 0x100 % 0x100, n % 0x100) == n
  {
    assert n / 0x1_0000 == n / 0x100 / 0x100;
    assert n / 0x100_0000 == n / 0x1_0000 / 0x100;
  }

  lemma U32RoundTrip(n: u32)
    ensures U32Of(U32Bytes(n)) == n
  {
    Recompose(n);
  }

  lemma U32Unique(b: seq<byte>)
    requires |b| == 4
    ensures U32Bytes(U32Of(b)) == b
  {
    Digits(b[0], b[1], b[2], b[3]);
    hide Quad;
  }

  lemma Digits(a: int, b: int, c: int, d: int)
    requires 0 <= a && 0 <= b < 0x100 && 0 <= c < 0x100 && 0 <= d < 0x100
    ensures var n := Quad(a, b, c, d);
            n % 0x100 == d && n / 0x100 % 0x100 == c && n / 0x1_0000 % 0x100 == b && n / 0x100_0000 == a
  {
    var n := Quad(a, b, c, d);
    assert n / 0x100 == (a * 0x100 + b) * 0x100 + c;
    assert n / 0x1_0000 == a * 0x100 + b;
  }

  method EncodeUint32(n: u32, buffer: array<byte>, at: nat)
    requires at + 4 <= buffer.Length
    modifies buffer
    ensures Spliced(old(buffer[..]), at, U32Bytes(n), buffer[..])
  {
    buffer[at] := n / 0x100_0000;
    buffer[at + 1] := n / 0x1_0000 % 0x100;
    buffer[at + 2] := n / 0x100 % 0x100;
    buffer[at + 3] := n % 0x100;
  }

  /** Words one after another. */
  function WordBytes(words: seq<u32>): (b: seq<byte>)
    ensures |b| == 4 * |words|
  {
    if words == [] then [] else WordBytes(words[..|words| - 1]) + U32Bytes(words[|words| - 1])
  }

  lemma WordBytesSnoc(words: seq<u32>, n: u32)
    ensures WordBytes(words + [n]) == WordBytes(words) + U32Bytes(n)
  {
    assert (words + [n])[..|words|] == words;
  }

  lemma {:induction false} WordBytesAt(words: seq<u32>, k: nat)
    requires k < |words|
    ensures WordBytes(words)[4 * k..4 * k + 4] == U32Bytes(words[k])
  {
    hide U32Bytes;
    if k < |words| - 1 {
      WordBytesAt(words[..|words| - 1], k);
      assert WordBytes(words)[4 * k..4 * k + 4] == WordBytes(words[..|words| - 1])[4 * k..4 * k + 4];
    }
  }

  /** Words encoded somewhere in a buffer are found again at their offsets. */
  lemma WordsAt(b: seq<byte>, at: nat, words: seq<u32>, k: nat)
    requires at + 4 * |words| <= |b| && b[at..at + 4 * |words|] == WordBytes(words) && k < |words|
    ensures U32At(b, at + 4 * k) == words[k]
  {
    hide U32Bytes, U32Of, WordBytes;
    WordBytesAt(words, k);
    SubSlice(b, at, at + 4 * |words|, 4 * k, 4 * k + 4);
    U32RoundTrip(words[k]);
  }

  /** Writes one more word behind `head` and the words before it. */
  method AppendWord(n: u32, buffer: array<byte>, at: nat, ghost orig: seq<byte>, ghost head: seq<byte>,
                    ghost words: seq<u32>)
    requires at == |head| + 4 * |words| && at + 4 <= buffer.Length
    requires Spliced(orig, 0, head + WordBytes(words), buffer[..])
    modifies buffer
    ensures Spliced(orig, 0, head + WordBytes(words + [n]), buffer[..])
  {
    hide U32Bytes, Spliced, WordBytes;
    EncodeUint32(n, buffer, at);
    SpliceMore(orig, 0, head + WordBytes(words), U32Bytes(n), old(buffer[..]), buffer[..]);
    WordBytesSnoc(words, n);
    Assoc(head, WordBytes(words), U32Bytes(n));
  }

  // The control header

  type PacketType = n: nat | n < 0x8000

  function HeaderBytes(packetType: PacketType, h: Header): (b: seq<byte>)
    ensures |b| == HEADER_SIZE
  {
    [0x80 + packetType / 0x100, packetType % 0x100, 0, 0] + WordBytes([h.additionalInfo, h.timeStamp, h.destination])
  }

  predicate IsValidBase(b: seq<byte>, packetType: PacketType) {
    && |b| >= HEADER_SIZE
    && b[0] >= 0x80
    && b[0] % 0x80 == packetType / 0x100
    && b[1] == packetType % 0x100
  }

  function DecodeBase(b: seq<byte>): Header
    requires |b| >= HEADER_SIZE
  {
    Header(U32At(b, 4), U32At(b, 8), U32At(b, 12))
  }

  /** The header that starts an encoding is recognised, under its own type only, and decodes to itself. */
  lemma HeaderRoundTrip(packetType: PacketType, h: Header, rest: seq<byte>, other: PacketType)
    ensures var b := HeaderBytes(packetType, h) + rest;
            && (IsValidBase(b, other) <==> other == packetType)
            && DecodeBase(b) == h
  {
    hide U32Of, WordBytes;
    var b := HeaderBytes(packetType, h) + rest;
    TypeRecognised(b, packetType, other);
    var words := [h.additionalInfo, h.timeStamp, h.destination];
    assert b[4..4 + 4 * |words|] == WordBytes(words);
    WordsAt(b, 4, words, 0);
    WordsAt(b, 4, words, 1);
    WordsAt(b, 4, words, 2);
  }

  lemma TypeRecognised(b: seq<byte>, packetType: PacketType, other: PacketType)
    requires |b| >= HEADER_SIZE && b[0] == 0x80 + packetType / 0x100 && b[1] == packetType % 0x100
    ensures IsValidBase(b, other) <==> other == packetType
  {
  }

  method EncodeBase(packetType: PacketType, h: Header, buffer: array<byte>) returns (size: nat)
    modifies buffer
    ensures buffer.Length < HEADER_SIZE ==> size == 0 && buffer[..] == old(buffer[..])
    ensures buffer.Length >= HEADER_SIZE ==>
              size == HEADER_SIZE && Spliced(old(buffer[..]), 0, HeaderBytes(packetType, h), buffer[..])
  {
    if buffer.Length < HEADER_SIZE {
      return 0;
    }
    hide WordBytes, Spliced;
    ghost var orig := buffer[..];
    ghost var head := WriteType(packetType, buffer);
    NoWords(head);
    AppendWord(h.additionalInfo, buffer, 4, orig, head, []);
    AppendWord(h.timeStamp, buffer, 8, orig, head, [] + [h.additionalInfo]);
    AppendWord(h.destination, buffer, 12, orig, head, [] + [h.additionalInfo] + [h.timeStamp]);
    assert [] + [h.additionalInfo] + [h.timeStamp] + [h.destination] == [h.additionalInfo, h.timeStamp, h.destination];
    return HEADER_SIZE;
  }

  lemma NoWords(head: seq<byte>)
    ensures head + WordBytes([]) == head
  {
  }

  /** The type, under the control bit, and two reserved bytes. */
  method WriteType(packetType: PacketType, buffer: array<byte>) returns (ghost out: seq<byte>)
    requires buffer.Length >= HEADER_SIZE
    modifies buffer
    ensures out == [0x80 + packetType / 0x100, packetType % 0x100, 0, 0]
    ensures Spliced(old(buffer[..]), 0, out, buffer[..])
  {
    buffer[0] := packetType / 0x100;
    buffer[0] := buffer[0] + 0x80;
    buffer[1] := packetType % 0x100;
    buffer[2] := 0;
    buffer[3] := 0;
    out := [0x80 + packetType / 0x100, packetType % 0x100, 0, 0];
  }

  /** Where the dispatcher looks for the addressee. */
  function DecodeDestinationSocketId(b: seq<byte>): Option<u32> {
    if |b| < 16 then None else Some(U32At(b, 12))
  }
}
