/** A loss report from the receiver's window to the sender's, through the wire. */
module NackExchange {
  import opened MachineWords
  import opened Parameters
  import opened SequenceNumbers
  import opened SlidingWindows
  import opened Packets
  import opened Codec
  import opened NegativeAcks
  import opened SenderSpec
  import opened ReceiverSpec

  /** Both windows lie within one cycle of numbers. */
  predicate Aligned(s: Window<Unacked>, r: Window<Unread>) {
    s.Bounded() && r.Bounded() && r.Top() - MODULUS <= s.base && s.Top() <= r.base + MODULUS
  }

  /**
   Exactness: of the packets in the sender's window, a report of the receiver's
   missing slots marks exactly those whose slot is missing, wherever the numbers wrap.
   */
  lemma ReportMarksExactly(words: seq<u32>, r: Window<Unread>, env: Readings, s: Window<Unacked>, a: nat)
    requires Reports(words, r, env) && Aligned(s, r) && s.base <= a < s.Top()
    ensures Mark(s, NamedBy(words)).At(a).lost <==>
            s.At(a).lost || (r.base <= a < r.Top() && r.At(a).Missing(env.now, env.receiveTimeout))
    ensures Mark(s, NamedBy(words)).At(a).packet == s.At(a).packet
  {
    hide Wire, Distance, Names;
    HasExact(r, a);
    assert Names(words, Wire(a)) <==>
      Distance(r.base, Wire(a)) < |r.items| && r.items[Distance(r.base, Wire(a))].Missing(env.now, env.receiveTimeout);
  }

  /** The report fits the send buffer, is understood as a negative acknowledgement, and says the same on arrival. */
  lemma ReportTravels(words: seq<u32>, header: Header, r: Window<Unread>, env: Readings)
    requires Reports(words, r, env) && r.Bounded() && words != []
    requires 3 * |words| <= 2 * (|r.items| + 1)
    ensures |NackBytes(header, words)| <= MAX_SIZE
    ensures Classify(NackBytes(header, words)) == NackIn(header, words)
  {
    hide NackBytes, DecodeNack, DecodeData, DecodeAck, DecodeAckOfAck;
    NackRoundTrip(header, words);
    AtMostOneDecoder(NackBytes(header, words));
  }

  // When a hole is reported

  lemma NamedWhenMissing(words: seq<u32>, r: Window<Unread>, env: Readings, a: nat)
    requires Reports(words, r, env) && r.Bounded() && r.base <= a < r.Top()
    ensures Names(words, Wire(a)) <==> r.At(a).Missing(env.now, env.receiveTimeout)
  {
    DistanceOfWire(r.base, a);
    hide Wire, Distance, Names;
  }

  /** A slot reserved for a packet that has not come is reported exactly when it has waited longer than the timeout. */
  lemma HoleReportedAfterTimeout(w: Window<Unread>, packet: DataPacket, windowSize: nat, reserved: int,
                                 words: seq<u32>, env: Readings, a: nat)
    requires w.Bounded()
    requires var u := HandleData(w, packet, windowSize, reserved);
             w.Top() <= a < u.Top() && Reports(words, u, env)
    ensures var u := HandleData(w, packet, windowSize, reserved);
            Names(words, Wire(a)) <==> u.At(a).lost && env.now - reserved > env.receiveTimeout
  {
    var u := HandleData(w, packet, windowSize, reserved);
    hide Wire, Distance, Names, Reports;
    assert u.Bounded();
    assert u.At(a).reserveTime == reserved;
    NamedWhenMissing(words, u, env, a);
  }

  /**
   A slot that was reported is reported again exactly when it has waited as long once more;
   one that was not, when it has waited long enough since it was reserved.
   */
  lemma HoleReportedNext(r: Window<Unread>, first: Readings, second: Readings, words: seq<u32>, more: seq<u32>, a: nat)
    requires r.Bounded() && r.base <= a < r.Top() && Reports(words, r, first)
    requires Reports(more, Restamp(r, first), second)
    ensures Names(more, Wire(a)) <==>
            if Names(words, Wire(a)) then second.now - first.now > second.receiveTimeout
            else r.At(a).lost && second.now - r.At(a).reserveTime > second.receiveTimeout
  {
    hide Wire, Distance, Names, Reports;
    NamedWhenMissing(words, r, first, a);
    NamedWhenMissing(more, Restamp(r, first), second, a);
  }
}
