/** What holds of the congestion controller over every sequence of events. */
module CongestionTheorems {
  import opened MachineWords
  import opened Parameters
  import opened Bytes
  import opened Packets
  import opened WireFormat
  import opened Codec
  import opened SenderSpec
  import opened CongestionSpec

  // Bounds

  function After(events: seq<Event>): CongestionState {
    if events == [] then START else React(After(events[..|events| - 1]), events[|events| - 1])
  }

  predicate InBounds(s: CongestionState) {
    && DEFAULT_WINDOW <= s.sendWindow <= MAXIMUM_WINDOW
    && DEFAULT_DATA <= s.sendData <= MAX_DATA
    && DEFAULT_WINDOW <= s.receiveWindow <= MAXIMUM_WINDOW
    && |s.arrivals| <= MAX_TIMES && |s.pairIntervals| <= MAX_TIMES
  }

  lemma ReactKeepsBounds(s: CongestionState, e: Event)
    requires InBounds(s)
    ensures InBounds(React(s, e))
  {
    hide Rate, Capacity, Intervals, SmoothRtt, SmoothVariance, SmoothRate, NextDataSize, NextWindow, Low32;
    if e.AckHeard? {
      var size := NextDataSize(s.sendData, s.corrupted + s.lost, s.allowedLost);
      DataSizeBounded(s.sendData, s.corrupted + s.lost, s.allowedLost);
      WindowBounded(s.sendWindow, size, e.bufferSize);
    }
  }

  lemma DataSizeBounded(size: nat, losses: nat, allowed: nat)
    requires DEFAULT_DATA <= size <= MAX_DATA
    ensures DEFAULT_DATA <= NextDataSize(size, losses, allowed) <= MAX_DATA
  {
  }

  lemma WindowBounded(window: nat, dataSize: nat, bufferSize: u32)
    requires DEFAULT_WINDOW <= window <= MAXIMUM_WINDOW
    ensures DEFAULT_WINDOW <= NextWindow(window, dataSize, bufferSize) <= MAXIMUM_WINDOW
  {
    hide Low32;
    DivAtLeast(Low32(bufferSize + 1), MAX_DATA, 0);
  }

  /** Windows and data sizes never leave their limits, whatever the peer reports and whatever is lost. */
  lemma {:induction false} AlwaysInBounds(events: seq<Event>)
    ensures InBounds(After(events))
  {
    hide React;
    if events != [] {
      AlwaysInBounds(events[..|events| - 1]);
      ReactKeepsBounds(After(events[..|events| - 1]), events[|events| - 1]);
    }
  }

  /** Hence every data packet the sender builds fits the send buffer, whatever the settings. */
  lemma DataFits(events: seq<Event>, bytes: seq<byte>, room: nat, top: nat, peerId: u32, i: nat)
    requires i < |Chunks(bytes, After(events).sendData, room)|
    ensures |DataBytes(Slots(Chunks(bytes, After(events).sendData, room), top, peerId)[i].packet)| <= MAX_SIZE
    ensures 0 < After(events).sendData
  {
    AlwaysInBounds(events);
    hide After, Chunks, WordBytes, DataHead;
  }

  /**
   Every acknowledgement fits exactly if the settings allow packets of 40 bytes, and every handshake
   if they allow 64.
   */
  lemma ControlFits()
    ensures (forall p: AckPacket :: |AckBytes(p)| <= MAX_SIZE) <==> 40 <= MAX_SIZE
    ensures (forall p: HandshakePacket :: |p.address| == 16 ==> |HandshakeBytes(p)| <= MAX_SIZE) <==> 64 <= MAX_SIZE
  {
    hide WordBytes, HeaderBytes;
    var ack := AckPacket(Header(0, 0, 0), 0, true, 0, 0, 0, 0, 0);
    assert |AckBytes(ack)| == 40;
    var handshake := HandshakePacket(Header(0, 0, 0), 0, 0, 0, 0, 0, 0, 0, 0, seq(16, _ => 0));
    assert |HandshakeBytes(handshake)| == 64;
  }

  // What the controller remembers

  /** The arrival times of all data packets. */
  function Times(events: seq<Event>): seq<int> {
    if events == [] then []
    else
      var e := events[|events| - 1];
      Times(events[..|events| - 1]) + (if e.DataReceived? then [e.now] else [])
  }

  /** The intervals that end with a packet whose number is one more than a multiple of sixteen. */
  function Pairs(events: seq<Event>): seq<int> {
    if events == [] then []
    else
      var e, before := events[|events| - 1], events[..|events| - 1];
      var times := Times(before);
      Pairs(before) +
        (if e.DataReceived? && e.seqnum % 16 == 1 && times != [] then [e.now - times[|times| - 1]] else [])
  }

  /** Whatever else happens in between, the controller has the latest of the arrival times and of the intervals. */
  lemma {:induction false} RemembersLatest(events: seq<Event>)
    ensures After(events).arrivals == Trim(Times(events))
    ensures After(events).pairIntervals == Trim(Pairs(events))
  {
    hide React, Trim;
    TrimNothing();
    if events != [] {
      var e, before := events[|events| - 1], events[..|events| - 1];
      var times := Times(before);
      RemembersLatest(before);
      ReactRemembers(After(before), e);
      assert times + [] == times && Pairs(before) + [] == Pairs(before);
      if e.DataReceived? {
        TrimLast(times);
        TrimTrimmed(times, e.now);
        if times != [] {
          TrimTrimmed(Pairs(before), e.now - times[|times| - 1]);
        }
      }
    }
  }

  lemma TrimNothing()
    ensures Trim([]) == []
  {
  }

  lemma TrimLast(s: seq<int>)
    ensures (Trim(s) == [] <==> s == []) && (s != [] ==> Trim(s)[|Trim(s)| - 1] == s[|s| - 1])
  {
  }

  lemma ReactRemembers(s: CongestionState, e: Event)
    ensures var s' := React(s, e);
            if e.DataReceived? then
              && s'.arrivals == Trim(s.arrivals + [e.now])
              && s'.pairIntervals == if e.seqnum % 16 == 1 && s.arrivals != []
                                     then Trim(s.pairIntervals + [e.now - s.arrivals[|s.arrivals| - 1]])
                                     else s.pairIntervals
            else s'.arrivals == s.arrivals && s'.pairIntervals == s.pairIntervals
  {
    hide Rate, Capacity, Intervals, SmoothRtt, SmoothVariance, SmoothRate, NextDataSize, NextWindow, Trim;
  }

  /** An acknowledgement has been generated after more than eight packets had come. */
  ghost predicate Measured(events: seq<Event>) {
    exists i :: 0 <= i < |events| && events[i].AckGenerated? && |Times(events[..i])| > 8
  }

  /**
   The buffer size to read with is that of the default window until the rate has been measured, and
   of the maximum window since.
   */
  lemma {:induction false} ReadBufferExact(events: seq<Event>)
    ensures After(events).receiveWindow == if Measured(events) then MAXIMUM_WINDOW else DEFAULT_WINDOW
  {
    if events != [] {
      var e, before := events[|events| - 1], events[..|events| - 1];
      ReadBufferExact(before);
      RemembersLatest(before);
      MeasuredStep(events);
      hide Rate, Capacity, Intervals, SmoothRtt, SmoothVariance, SmoothRate, NextDataSize, NextWindow, Measured, Times;
    }
  }

  lemma MeasuredStep(events: seq<Event>)
    requires events != []
    ensures var e, before := events[|events| - 1], events[..|events| - 1];
            Measured(events) <==> Measured(before) || (e.AckGenerated? && |Times(before)| > 8)
  {
    hide Times;
    var n := |events| - 1;
    var before := events[..n];
    forall i | 0 <= i <= n ensures before[..i] == events[..i] {
    }
    if Measured(before) {
      var i :| 0 <= i < n && before[i].AckGenerated? && |Times(before[..i])| > 8;
      assert events[i].AckGenerated? && |Times(events[..i])| > 8;
    }
    if Measured(events) && !(events[n].AckGenerated? && |Times(before)| > 8) {
      var i :| 0 <= i < |events| && events[i].AckGenerated? && |Times(events[..i])| > 8;
      assert before[i].AckGenerated? && |Times(before[..i])| > 8;
    }
  }

  /** `k` packets, all at once. */
  function Burst(k: nat): seq<Event> {
    if k == 0 then [] else Burst(k - 1) + [DataReceived(0, 0)]
  }

  lemma {:induction false} BurstTimes(k: nat)
    ensures |Times(Burst(k))| == k
  {
    if k > 0 {
      BurstTimes(k - 1);
      assert Burst(k)[..|Burst(k)| - 1] == Burst(k - 1);
    }
  }

  lemma BurstMeasures()
    ensures Measured(Burst(9) + [AckGenerated])
  {
    var events := Burst(9) + [AckGenerated];
    BurstTimes(9);
    hide Burst, Times;
    assert events[..|Burst(9)|] == Burst(9);
    assert events[|Burst(9)|].AckGenerated?;
  }

  /**
   The buffer size to read with is that of the receive window, after any events, exactly when a
   maximum window fits 32 bits.
   */
  lemma ReadBufferFits()
    ensures (forall events :: ReadBufferSize(After(events)) == After(events).receiveWindow * MAX_DATA)
       <==> MAXIMUM_WINDOW * MAX_DATA < 0x1_0000_0000
  {
    hide After, Measured, Burst;
    var measured := Burst(9) + [AckGenerated];
    BurstMeasures();
    ReadBufferExact(measured);
    Low32Exact(MAXIMUM_WINDOW * MAX_DATA);
    if MAXIMUM_WINDOW * MAX_DATA < 0x1_0000_0000 {
      forall events ensures ReadBufferSize(After(events)) == After(events).receiveWindow * MAX_DATA {
        AlwaysInBounds(events);
        MulLe(After(events).receiveWindow, MAXIMUM_WINDOW, MAX_DATA);
        Low32Exact(After(events).receiveWindow * MAX_DATA);
      }
    } else {
      assert ReadBufferSize(After(measured)) != After(measured).receiveWindow * MAX_DATA;
    }
  }

  /** The delay granted an acknowledgement always follows the round-trip time and its variance. */
  lemma {:induction false} AckDelayFollows(events: seq<Event>)
    ensures var s := After(events);
            s.ackDelay == 4 * s.rtt + s.rttVariance + SYN_PERIOD
  {
    hide Rate, Capacity, Intervals, SmoothRtt, SmoothVariance, SmoothRate, NextDataSize, NextWindow;
    if events != [] {
      AckDelayFollows(events[..|events| - 1]);
    }
  }

  // Tolerance of losses

  const BEST_RATED: u32 := 0xff2f_ffff

  /**
   Whatever their histories, two peers that have told each other their connection types
   tolerate the same number of losses, exactly when one of the types is rated or they did before.
   */
  lemma ToleranceAgreed(near: seq<Event>, far: seq<Event>, a: u32, b: u32)
    ensures var s, t := React(After(near), PeerTypeSet(b, a)), React(After(far), PeerTypeSet(a, b));
            s.allowedLost == t.allowedLost <==>
              Min(a, b) <= BEST_RATED || After(near).allowedLost == After(far).allowedLost
  {
    hide After;
  }

  /** The worse the connection, the more losses are tolerated, and the larger the packets stay under the same losses. */
  lemma WorseIsMoreTolerant(s: CongestionState, a: u32, b: u32, c: u32, d: u32, size: nat, losses: nat)
    requires Min(a, b) <= Min(c, d) <= BEST_RATED && DEFAULT_DATA <= size <= MAX_DATA
    ensures var worse, better := React(s, PeerTypeSet(a, b)).allowedLost, React(s, PeerTypeSet(c, d)).allowedLost;
            && 0 < better <= worse
            && NextDataSize(size, losses, better) <= NextDataSize(size, losses, worse)
  {
  }

  // Round-trip times

  const RTT_LIMIT: nat := 0x2000_0000

  /** The 32-bit temporary gives the weighted average exactly when the exact sum fits 32 bits. */
  lemma SmoothRttExact(rtt: u32, sample: u32)
    ensures SmoothRtt(rtt, sample) == (7 * rtt + sample) / 8 <==> 7 * rtt + sample < 0x1_0000_0000
  {
    Low32Sum(7 * rtt, sample);
    var x := 7 * rtt + sample;
    var k := x / 0x1_0000_0000;
    assert x == k * 0x1_0000_0000 + Low32(x);
    assert x / 8 == k * 0x2000_0000 + Low32(x) / 8;
  }

  lemma Low32Sum(a: int, b: int)
    ensures Low32(Low32(a) + b) == Low32(a + b)
  {
  }

  /** Below 2^29 nothing is cut off, and the average lies between the old value and the sample. */
  lemma SmoothingStays(rtt: u32, variance: u32, sample: u32)
    requires rtt < RTT_LIMIT && variance < RTT_LIMIT && sample < RTT_LIMIT
    ensures var r := SmoothRtt(rtt, sample);
            && r == (7 * rtt + sample) / 8 < RTT_LIMIT
            && (rtt <= sample ==> rtt <= r <= sample)
            && (sample <= rtt ==> sample <= r <= rtt)
    ensures SmoothVariance(variance, Abs(rtt - sample)) == (3 * variance + Abs(rtt - sample)) / 4 < RTT_LIMIT
  {
    hide SmoothRtt, SmoothVariance;
    SmoothRttExact(rtt, sample);
    SmoothVarianceExact(variance, Abs(rtt - sample));
  }

  lemma SmoothVarianceExact(variance: u32, diff: u32)
    requires 3 * variance + diff < 0x1_0000_0000
    ensures SmoothVariance(variance, diff) == (3 * variance + diff) / 4
  {
    Low32Sum(3 * variance, diff);
  }

  /** Two peers exchanging acknowledgements: each adopts the other's values, and smooths in its own samples. */
  datatype Peers = Peers(near: CongestionState, far: CongestionState, flights: set<(u32, u32)>)

  datatype Move =
    | PostAck(fromNear: bool)
    | HearAck(atNear: bool, flight: (u32, u32), bufferSize: u32, rate: u32, capacity: u32)
    | Measure(atNear: bool, sample: u32)
    | Other(atNear: bool, event: Event)

  predicate Possible(p: Peers, m: Move) {
    match m
    case PostAck(_) => true
    case HearAck(_, flight, _, _, _) => flight in p.flights
    case Measure(_, sample) => sample < RTT_LIMIT
    case Other(_, event) => !event.AckHeard? && !event.AckOfAckHeard?
  }

  function Update(p: Peers, atNear: bool, e: Event): Peers {
    if atNear then p.(near := React(p.near, e)) else p.(far := React(p.far, e))
  }

  function Moved(p: Peers, m: Move): Peers {
    match m
    case PostAck(fromNear) =>
      var s := if fromNear then p.near else p.far;
      p.(flights := p.flights + {(s.rtt, s.rttVariance)})
    case HearAck(atNear, flight, bufferSize, rate, capacity) =>
      Update(p, atNear, AckHeard(flight.0, flight.1, bufferSize, rate, capacity))
    case Measure(atNear, sample) => Update(p, atNear, AckOfAckHeard(sample))
    case Other(atNear, event) => Update(p, atNear, event)
  }

  predicate Small(s: CongestionState) {
    s.rtt < RTT_LIMIT && s.rttVariance < RTT_LIMIT
  }

  predicate AllSmall(p: Peers) {
    Small(p.near) && Small(p.far) && forall f <- p.flights :: f.0 < RTT_LIMIT && f.1 < RTT_LIMIT
  }

  lemma MoveKeepsSmall(p: Peers, m: Move)
    requires AllSmall(p) && Possible(p, m)
    ensures AllSmall(Moved(p, m))
  {
    hide SmoothRtt, SmoothVariance, Rate, Capacity, Intervals, NextDataSize, NextWindow;
    if m.Measure? {
      SmoothingStays(p.near.rtt, p.near.rttVariance, m.sample);
      SmoothingStays(p.far.rtt, p.far.rttVariance, m.sample);
    }
  }

  ghost predicate Exchange(states: seq<Peers>, moves: seq<Move>) {
    && |states| == |moves| + 1
    && states[0] == Peers(START, START, {})
    && forall i :: 0 <= i < |moves| ==> Possible(states[i], moves[i]) && states[i + 1] == Moved(states[i], moves[i])
  }

  /**
   If every sample measured at either end is below 2^29 microseconds, so is every value at both ends
   and in flight.
   */
  lemma {:induction false} RttsStaySmall(states: seq<Peers>, moves: seq<Move>, i: nat)
    requires Exchange(states, moves) && i < |states|
    ensures AllSmall(states[i])
  {
    if i > 0 {
      RttsStaySmall(states, moves, i - 1);
      MoveKeepsSmall(states[i - 1], moves[i - 1]);
    }
  }

  // Receiving rates

  lemma {:induction false} SumBetween(s: seq<int>, lo: int, hi: int)
    requires forall i :: 0 <= i < |s| ==> lo <= s[i] <= hi
    ensures lo * |s| <= Sum(s) <= hi * |s|
  {
    if s != [] {
      SumBetween(s[..|s| - 1], lo, hi);
      assert lo * |s| == lo * (|s| - 1) + lo && hi * |s| == hi * (|s| - 1) + hi;
    } else {
      assert lo * |s| == 0 && hi * |s| == 0;
    }
  }

  lemma MulLe(x: int, y: int, z: int)
    requires x <= y && 0 <= z
    ensures x * z <= y * z
  {
    assert (y - x) * z >= 0;
  }

  lemma DivAtLeast(a: int, b: int, q: int)
    requires b > 0 && q * b <= a
    ensures q <= a / b
  {
    if a / b + 1 <= q {
      MulLe(a / b + 1, q, b);
    }
  }

  lemma DivAtMost(a: int, b: int, q: int)
    requires b > 0 && a < (q + 1) * b
    ensures a / b <= q
  {
    if q + 1 <= a / b {
      MulLe(q + 1, a / b, b);
    }
  }

  lemma Quotient(a: int, b: int)
    requires a >= 0 && b > 0
    ensures 0 <= a / b && a / b * b <= a < (a / b + 1) * b
  {
    DivAtLeast(a, b, 0);
  }

  /** A quotient of sums lies between the quotients of the bounds on the terms. */
  lemma QuotientAtLeast(c: int, n: int, total: int, k: int)
    requires c >= 0 && n > 0 && 0 < total <= k * n && k > 0
    ensures c / k <= c * n / total
  {
    var q := c / k;
    MulLe(total, k * n, q);
    MulLe(q * k, c, n);
    assert total * q <= (k * n) * q && (k * n) * q == (q * k) * n;
    DivAtLeast(c * n, total, q);
  }

  lemma QuotientAtMost(c: int, n: int, total: int, k: int)
    requires c >= 0 && n > 0 && k > 0 && k * n <= total
    ensures total > 0 && c * n / total <= c / k
  {
    MulLe(1, k, n);
    var q := c / k;
    assert c < (q + 1) * k;
    MulLe(c + 1, (q + 1) * k, n);
    MulLe(k * n, total, q + 1);
    assert ((q + 1) * k) * n == (k * n) * (q + 1);
    assert (c + 1) * n == c * n + n;
    DivAtMost(c * n, total, q);
  }

  /**
   The rate always fits 32 bits, even when the clock goes back; and the one that a median
   interval of at least eight and less than 2^57 microseconds allows is within a factor of
   eight of one packet per median interval.
   */
  lemma RateBounded(gaps: seq<int>)
    requires 0 < |gaps| < MAX_TIMES
    ensures 0 <= Rate(gaps) <= 16000000
    ensures var m := Median(gaps);
            Rate(gaps) != 0 && 8 <= m < 0x200_0000_0000_0000 ==> 1000000 / (8 * m) <= Rate(gaps) <= 1000000 / (m / 8)
  {
    hide Sort, Band, Sum, Low64;
    var m := Median(gaps);
    var good := Band(Sort(gaps), m);
    var total := Low64(Sum(good));
    if total > 0 && |good| > 8 {
      QuotientAtMost(1000000 * |good|, 1, total, 1);
      DivAtLeast(1000000 * |good|, total, 0);
      if 8 <= m < 0x200_0000_0000_0000 {
        Low64Small(8 * m);
        SumBetween(good, m / 8, m * 8);
        MulLe(|good|, 16, m * 8);
        MulLe(0, m / 8, |good|);
        Low64Small(Sum(good));
        QuotientAtLeast(1000000, |good|, total, 8 * m);
        QuotientAtMost(1000000, |good|, total, m / 8);
      }
    }
  }

  lemma Low64Small(n: int)
    requires 0 <= n < 0x1_0000_0000_0000_0000
    ensures Low64(n) == n
  {
  }

  /** So the receiving rate computed after any events is not cut off by its 32-bit field. */
  lemma RateFits(events: seq<Event>)
    requires |After(events).arrivals| > 8
    ensures React(After(events), AckGenerated).receivingRate == Rate(Intervals(After(events).arrivals))
  {
    AlwaysInBounds(events);
    hide Rate, Capacity, After, Median;
    RateBounded(Intervals(After(events).arrivals));
  }
}
