/** Byte-sequence vocabulary shared by the stream modules. */
module Bytes {
  import opened MachineWords

  datatype Option<+T> = None | Some(value: T)

  function Min(a: int, b: int): int {
    if a < b then a else b
  }

  function Flatten(chunks: seq<seq<byte>>): seq<byte> {
    if chunks == [] then [] else chunks[0] + Flatten(chunks[1..])
  }

  lemma Assoc<T>(a: seq<T>, b: seq<T>, c: seq<T>)
    ensures (a + b) + c == a + (b + c)
  {
  }

  lemma SubSlice<T>(s: seq<T>, i: nat, j: nat, k: nat, l: nat)
    requires i <= j <= |s| && k <= l <= j - i
    ensures s[i..j][k..l] == s[i + k..i + l]
  {
    var a, b := s[i..j][k..l], s[i + k..i + l];
    forall x | 0 <= x < l - k ensures a[x] == b[x] {
      assert a[x] == s[i..j][k + x];
    }
  }

  lemma {:induction false} FlattenConcat(a: seq<seq<byte>>, b: seq<seq<byte>>)
    ensures Flatten(a + b) == Flatten(a) + Flatten(b)
  {
    if a == [] {
      assert a + b == b;
      assert [] + Flatten(b) == Flatten(b);
    } else {
      FlattenConcat(a[1..], b);
      assert (a + b)[0] == a[0] && (a + b)[1..] == a[1..] + b;
      Assoc(a[0], Flatten(a[1..]), Flatten(b));
    }
  }

  /** `now` is `orig` with `out` written over it at `from`. */
  ghost predicate Spliced(orig: seq<byte>, from: nat, out: seq<byte>, now: seq<byte>) {
    from + |out| <= |orig| && now == orig[..from] + out + orig[from + |out|..]
  }

  lemma SpliceNone(orig: seq<byte>, from: nat)
    requires from <= |orig|
    ensures Spliced(orig, from, [], orig)
  {
  }

  lemma SpliceMore(orig: seq<byte>, from: nat, out: seq<byte>, more: seq<byte>, was: seq<byte>, now: seq<byte>)
    requires Spliced(orig, from, out, was) && Spliced(was, from + |out|, more, now)
    ensures Spliced(orig, from, out + more, now)
  {
  }

  lemma FlattenSnoc(a: seq<seq<byte>>, x: seq<byte>)
    ensures Flatten(a + [x]) == Flatten(a) + x
  {
    FlattenConcat(a, [x]);
    assert [x][1..] == [];
    assert Flatten([x]) == x + [];
    assert x + [] == x;
  }
}

/** The packets of the protocol, as values. */
module Packets {
  import opened MachineWords
  import opened SequenceNumbers

  type u29 = n: nat | n < 0x2000_0000

  datatype DataPacket = DataPacket(
    seqnum: SeqNum,
    first: bool,
    last: bool,
    inOrder: bool,
    messageNumber: u29,
    timeStamp: u32,
    destination: u32,
    data: seq<byte>)

  /** The three words every control packet carries behind its type. */
  datatype Header = Header(additionalInfo: u32, timeStamp: u32, destination: u32)

  /** The acknowledgement's own sequence number travels as the header's additional information. */
  datatype AckPacket = AckPacket(
    header: Header,
    seqnum: u32,
    hasOptional: bool,
    rtt: u32,
    rttVariance: u32,
    bufferSize: u32,
    receivingRate: u32,
    linkCapacity: u32)

  datatype AckOfAckPacket = AckOfAckPacket(header: Header)

  datatype HandshakePacket = HandshakePacket(
    header: Header,
    version: u32,
    socketType: u32,
    initialSeqnum: u32,
    maximumPacketSize: u32,
    maximumFlowWindow: u32,
    connectionType: u32,
    socketId: u32,
    synCookie: u32,
    address: seq<byte>)
}
