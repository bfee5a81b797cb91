/** The congestion controller as a function of values. */
module CongestionSpec {
  import opened MachineWords
  import opened Parameters
  import opened Bytes

  const MAX_TIMES: nat := 17

  datatype CongestionState = CongestionState(
    rtt: u32,
    rttVariance: u32,
    receivingRate: u32,
    linkCapacity: u32,
    sendWindow: nat,
    receiveWindow: nat,
    sendData: nat,
    ackDelay: nat,
    lost: nat,
    corrupted: nat,
    allowedLost: nat,
    arrivals: seq<int>,
    pairIntervals: seq<int>)

  const SYN_PERIOD: nat := 10000

  const START := CongestionState(0, 0, 0, 0, DEFAULT_WINDOW, DEFAULT_WINDOW, DEFAULT_DATA, SYN_PERIOD, 0, 0, 0, [], [])

  datatype Event =
    | DataReceived(seqnum: u32, now: int)
    | AckGenerated
    | PlainAckHeard
    | AckHeard(rtt: u32, rttVariance: u32, bufferSize: u32, receivingRate: u32, linkCapacity: u32)
    | NegativeAckHeard
    | SendTimedOut
    | AckOfAckHeard(sample: u32)
    | PeerTypeSet(peerType: u32, localType: u32)

  // Smoothing

  /** The smoothed round-trip time: the product is cut to 32 bits before the sample is added, in 32 bits. */
  function SmoothRtt(rtt: u32, sample: u32): u32 {
    Low32(Low32(rtt * 7) + sample) / 8
  }

  function SmoothVariance(variance: u32, diff: u32): u32 {
    Low32(Low32(variance * 3) + diff) / 4
  }

  /** Rates are smoothed in 64 bits, which is enough. */
  function SmoothRate(rate: u32, sample: u32): u32 {
    if sample == 0 then rate else (rate * 7 + sample) / 8
  }

  // Adaptation of the send window and the data size

  function NextDataSize(size: nat, losses: nat, allowed: nat): nat {
    if losses > allowed then
      var less := size * 9 / 10;
      if less < DEFAULT_DATA then DEFAULT_DATA else less
    else
      Min(MAX_DATA, size * 3 / 2)
  }

  function NextWindow(window: nat, dataSize: nat, bufferSize: u32): nat {
    if bufferSize > 8 * dataSize then
      Min(window + Low32(bufferSize + 1) / MAX_DATA, MAXIMUM_WINDOW)
    else
      var less := window * 9 / 10;
      if less < DEFAULT_WINDOW then DEFAULT_WINDOW else less
  }

  // Rates

  /** The last at most `MAX_TIMES` entries. */
  function Trim(s: seq<int>): (r: seq<int>)
    ensures |r| <= MAX_TIMES
  {
    if |s| > MAX_TIMES then s[|s| - MAX_TIMES..] else s
  }

  /** Trimming as one goes comes to the same as trimming once. */
  lemma TrimTrimmed(s: seq<int>, x: int)
    ensures Trim(Trim(s) + [x]) == Trim(s + [x])
  {
    if |s| > MAX_TIMES {
      assert (s[|s| - MAX_TIMES..] + [x])[1..] == (s + [x])[|s| + 1 - MAX_TIMES..];
    }
  }

  /** As unsigned 64-bit numbers: an interval of a clock that went back is enormous. */
  function Intervals(times: seq<int>): (gaps: seq<int>)
    ensures |gaps| == if times == [] then 0 else |times| - 1
  {
    if |times| < 2 then [] else Intervals(times[..|times| - 1]) + [Low64(times[|times| - 1] - times[|times| - 2])]
  }

  lemma OneTime(times: seq<int>)
    requires |times| == 1
    ensures Intervals(times) == []
  {
  }

  lemma IntervalsStep(times: seq<int>, i: nat)
    requires 0 < i < |times|
    ensures Intervals(times[..i + 1]) == Intervals(times[..i]) + [Low64(times[i] - times[i - 1])]
  {
    assert times[..i + 1][..i] == times[..i];
  }

  function Insert(x: int, s: seq<int>): (r: seq<int>)
    ensures |r| == |s| + 1
  {
    if s == [] || x <= s[0] then [x] + s else [s[0]] + Insert(x, s[1..])
  }

  function Sort(s: seq<int>): (r: seq<int>)
    ensures |r| == |s|
  {
    if s == [] then [] else Insert(s[0], Sort(s[1..]))
  }

  predicate Sorted(s: seq<int>) {
    forall i, j :: 0 <= i <= j < |s| ==> s[i] <= s[j]
  }

  lemma {:induction false} InsertPermutes(x: int, s: seq<int>)
    ensures multiset(Insert(x, s)) == multiset(s) + multiset{x}
  {
    if s != [] && x > s[0] {
      InsertPermutes(x, s[1..]);
      assert s == [s[0]] + s[1..];
    } else {
      assert multiset([x] + s) == multiset{x} + multiset(s);
    }
  }

  lemma {:induction false} InsertAbove(x: int, s: seq<int>, lo: int)
    requires lo <= x && forall i :: 0 <= i < |s| ==> lo <= s[i]
    ensures forall i :: 0 <= i <= |s| ==> lo <= Insert(x, s)[i]
  {
    if s != [] && x > s[0] {
      InsertAbove(x, s[1..], lo);
    }
  }

  lemma {:induction false} InsertSorts(x: int, s: seq<int>)
    requires Sorted(s)
    ensures Sorted(Insert(x, s))
  {
    if s != [] && x > s[0] {
      InsertSorts(x, s[1..]);
      InsertAbove(x, s[1..], s[0]);
    }
  }

  /** The sort sorts, so the entry half way up is a median. */
  lemma {:induction false} SortSorts(s: seq<int>)
    ensures Sorted(Sort(s)) && multiset(Sort(s)) == multiset(s)
  {
    if s != [] {
      SortSorts(s[1..]);
      InsertSorts(s[0], Sort(s[1..]));
      InsertPermutes(s[0], Sort(s[1..]));
      assert s == [s[0]] + s[1..];
    }
  }

  function Median(s: seq<int>): int
    requires s != []
  {
    Sort(s)[|s| / 2]
  }

  predicate InBand(x: int, m: int) {
    m / 8 <= x && x <= Low64(m * 8)
  }

  function Band(s: seq<int>, m: int): (r: seq<int>)
    ensures |r| <= |s|
    ensures forall i :: 0 <= i < |r| ==> InBand(r[i], m)
  {
    if s == [] then []
    else
      var last := s[|s| - 1];
      Band(s[..|s| - 1], m) + (if InBand(last, m) then [last] else [])
  }

  function Sum(s: seq<int>): int {
    if s == [] then 0 else Sum(s[..|s| - 1]) + s[|s| - 1]
  }

  lemma BandSumStep(s: seq<int>, m: int, i: nat)
    requires i < |s|
    ensures |Band(s[..i + 1], m)| == |Band(s[..i], m)| + (if InBand(s[i], m) then 1 else 0)
    ensures Sum(Band(s[..i + 1], m)) == Sum(Band(s[..i], m)) + (if InBand(s[i], m) then s[i] else 0)
  {
    assert s[..i + 1][..i] == s[..i];
    var before := Band(s[..i], m);
    assert (before + [s[i]])[..|before|] == before;
    assert before + [] == before;
  }

  lemma Low64Sum(a: int, b: int)
    ensures Low64(Low64(a) + b) == Low64(a + b)
  {
  }

  lemma Low64Zero()
    ensures Low64(0) == 0
  {
  }

  function Unsigned(s: seq<int>): seq<int> {
    seq(|s|, i requires 0 <= i < |s| => Low64(s[i]))
  }

  /** Packets per second, from the intervals that are within a factor of eight of their median. */
  function Rate(gaps: seq<int>): int
    requires gaps != []
  {
    var good := Band(Sort(gaps), Median(gaps));
    var total := Low64(Sum(good));
    if total > 0 && |good| > 8 then 1000000 * |good| / total else 0
  }

  function Capacity(gaps: seq<int>): int
    requires gaps != []
  {
    if Median(gaps) > 0 then 1000000 / Median(gaps) else 0
  }

  function GenerateAck(s: CongestionState): CongestionState {
    if |s.arrivals| <= 8 then s
    else
      s.(receivingRate := Low32(Rate(Intervals(s.arrivals))),
         linkCapacity := if s.pairIntervals != [] then Low32(Capacity(Unsigned(s.pairIntervals))) else s.linkCapacity,
         receiveWindow := MAXIMUM_WINDOW)
  }

  function DataArrives(s: CongestionState, seqnum: u32, now: int): CongestionState {
    s.(pairIntervals := if seqnum % 16 == 1 && s.arrivals != []
                        then Trim(s.pairIntervals + [now - s.arrivals[|s.arrivals| - 1]]) else s.pairIntervals,
       arrivals := Trim(s.arrivals + [now]))
  }

  function ReadBufferSize(s: CongestionState): u32 {
    Low32(s.receiveWindow * MAX_DATA)
  }

  function Abs(x: int): nat {
    if x < 0 then -x else x
  }

  function AllowedLost(worst: u32, s: CongestionState): nat {
    if worst <= 0x0fff_ffff then 5
    else if worst <= 0xf1ff_ffff then 2
    else if worst <= 0xff2f_ffff then 1
    else s.allowedLost
  }

  /** Four round-trip times, their variance and the fixed period. */
  function AckDelay(rtt: u32, variance: u32): nat {
    4 * rtt + variance + SYN_PERIOD
  }

  function React(s: CongestionState, e: Event): CongestionState {
    match e
    case DataReceived(seqnum, now) => DataArrives(s, seqnum, now)
    case AckGenerated => GenerateAck(s)
    case PlainAckHeard => s
    case AckHeard(rtt, variance, bufferSize, rate, capacity) =>
      var size := NextDataSize(s.sendData, s.corrupted + s.lost, s.allowedLost);
      s.(rtt := rtt, rttVariance := variance, ackDelay := AckDelay(rtt, variance),
         receivingRate := SmoothRate(s.receivingRate, rate), linkCapacity := SmoothRate(s.linkCapacity, capacity),
         sendData := size, corrupted := 0, lost := 0, sendWindow := NextWindow(s.sendWindow, size, bufferSize))
    case NegativeAckHeard => s.(corrupted := s.corrupted + 1)
    case SendTimedOut => s.(lost := s.lost + 1)
    case AckOfAckHeard(sample) =>
      var rtt := SmoothRtt(s.rtt, sample);
      var variance := SmoothVariance(s.rttVariance, Abs(s.rtt - sample));
      s.(rtt := rtt, rttVariance := variance, ackDelay := AckDelay(rtt, variance))
    case PeerTypeSet(peerType, localType) => s.(allowedLost := AllowedLost(Min(peerType, localType), s))
  }
}

/** The congestion controller as the program runs it. */
module CongestionControls {
  import opened MachineWords
  import opened Parameters
  import opened Bytes
  import opened CongestionSpec

  class CongestionControl {
    var rtt: u32
    var rttVariance: u32
    var receivingRate: u32
    var linkCapacity: u32
    var sendWindow: nat
    var receiveWindow: nat
    var sendData: nat
    var ackDelay: nat
    var lost: nat
    var corrupted: nat
    var allowedLost: nat
    var arrivals: seq<int>
    var pairIntervals: seq<int>

    function State(): CongestionState
      reads this
    {
      CongestionState(rtt, rttVariance, receivingRate, linkCapacity, sendWindow, receiveWindow, sendData,
                      ackDelay, lost, corrupted, allowedLost, arrivals, pairIntervals)
    }

    constructor ()
      ensures State() == START
    {
      rtt, rttVariance, receivingRate, linkCapacity := 0, 0, 0, 0;
      sendWindow, receiveWindow, sendData := DEFAULT_WINDOW, DEFAULT_WINDOW, DEFAULT_DATA;
      ackDelay, lost, corrupted, allowedLost := SYN_PERIOD, 0, 0, 0;
      arrivals, pairIntervals := [], [];
    }

    /** Takes entries off the front while there are too many. */
    static method Shorten(s: seq<int>) returns (r: seq<int>)
      ensures r == Trim(s)
    {
      r := s;
      while |r| > MAX_TIMES
        invariant |r| <= |s| && r == s[|s| - |r|..]
        invariant |s| >= MAX_TIMES ==> |r| >= MAX_TIMES
        invariant |s| <= MAX_TIMES ==> r == s
      {
        r := r[1..];
      }
    }

    method OnDataPacketReceived(seqnum: u32, now: int)
      modifies this
      ensures State() == React(old(State()), DataReceived(seqnum, now))
    {
      hide Trim, GenerateAck, NextDataSize, NextWindow, SmoothRate, SmoothRtt, SmoothVariance, AllowedLost;
      if seqnum % 16 == 1 && arrivals != [] {
        pairIntervals := pairIntervals + [now - arrivals[|arrivals| - 1]];
        pairIntervals := Shorten(pairIntervals);
      }
      arrivals := arrivals + [now];
      arrivals := Shorten(arrivals);
    }

    method OnGenerateAck()
      modifies this
      ensures State() == React(old(State()), AckGenerated)
    {
      if |arrivals| <= 8 {
        return;
      }
      UpdateRate();
      UpdateCapacity();
      receiveWindow := MAXIMUM_WINDOW;
    }

    method UpdateRate()
      requires 8 < |arrivals|
      modifies this`receivingRate
      ensures receivingRate == Low32(Rate(Intervals(arrivals)))
    {
      hide Sort, Band, Sum, Intervals;
      var gaps := MeasureGaps();
      var sorted := SortGaps(gaps);
      var median := sorted[|sorted| / 2];
      var n, total := CountValid(sorted, median);
      if total > 0 && n > 8 {
        receivingRate := Low32(1000000 * n / total);
      } else {
        receivingRate := 0;
      }
    }

    method UpdateCapacity()
      modifies this`linkCapacity
      ensures linkCapacity ==
              if pairIntervals != [] then Low32(Capacity(Unsigned(pairIntervals))) else old(linkCapacity)
    {
      if pairIntervals != [] {
        hide Sort;
        var sorted := SortGaps(Unsigned(pairIntervals));
        var median := sorted[|sorted| / 2];
        linkCapacity := if median > 0 then Low32(1000000 / median) else 0;
      }
    }

    method MeasureGaps() returns (gaps: seq<int>)
      requires arrivals != []
      ensures gaps == Intervals(arrivals)
    {
      hide Intervals;
      gaps := [];
      var i := 1;
      OneTime(arrivals[..1]);
      while i < |arrivals|
        invariant 1 <= i <= |arrivals|
        invariant gaps == Intervals(arrivals[..i])
      {
        IntervalsStep(arrivals, i);
        gaps := gaps + [Low64(arrivals[i] - arrivals[i - 1])];
        i := i + 1;
      }
      assert arrivals[..i] == arrivals;
    }

    /** Stands for the library's sort. */
    static method SortGaps(s: seq<int>) returns (r: seq<int>)
      ensures r == Sort(s)
    {
      r := [];
      var i := |s|;
      while i > 0
        invariant 0 <= i <= |s| && r == Sort(s[i..])
      {
        i := i - 1;
        assert s[i..][1..] == s[i + 1..];
        r := Insert(s[i], r);
      }
      assert s[0..] == s;
    }

    static method CountValid(s: seq<int>, m: int) returns (n: nat, total: nat)
      ensures n == |Band(s, m)| && total == Low64(Sum(Band(s, m)))
    {
      hide Low64;
      assert Low64(0) == 0 by {
        Low64Zero();
      }
      n, total := 0, 0;
      var i := 0;
      while i < |s|
        invariant i <= |s| && n == |Band(s[..i], m)| && total == Low64(Sum(Band(s[..i], m)))
      {
        BandSumStep(s, m, i);
        if m / 8 <= s[i] && s[i] <= Low64(m * 8) {
          Low64Sum(Sum(Band(s[..i], m)), s[i]);
          n, total := n + 1, Low64(total + s[i]);
        }
        i := i + 1;
      }
      assert s[..i] == s;
    }

    /** An acknowledgement without the optional fields changes nothing. */
    method OnPlainAck()
      modifies this
      ensures State() == React(old(State()), PlainAckHeard)
    {
    }

    method OnAck(newRtt: u32, newVariance: u32, bufferSize: u32, rate: u32, capacity: u32)
      modifies this
      ensures State() == React(old(State()), AckHeard(newRtt, newVariance, bufferSize, rate, capacity))
    {
      hide NextDataSize, NextWindow, GenerateAck, DataArrives, SmoothRtt, SmoothVariance, AllowedLost,
        SmoothRate, AckDelay;
      rtt := newRtt;
      rttVariance := newVariance;
      SetAckDelay();
      AdaptRates(rate, capacity);
      AdaptDataSize();
      corrupted := 0;
      lost := 0;
      AdaptWindow(bufferSize);
    }

    method SetAckDelay()
      modifies this`ackDelay
      ensures ackDelay == AckDelay(rtt, rttVariance)
    {
      ackDelay := 4 * rtt;
      ackDelay := ackDelay + rttVariance;
      ackDelay := ackDelay + SYN_PERIOD;
    }

    method AdaptRates(rate: u32, capacity: u32)
      modifies this`receivingRate, this`linkCapacity
      ensures receivingRate == SmoothRate(old(receivingRate), rate)
      ensures linkCapacity == SmoothRate(old(linkCapacity), capacity)
    {
      if rate != 0 {
        receivingRate := (receivingRate * 7 + rate) / 8;
      }
      if capacity != 0 {
        linkCapacity := (linkCapacity * 7 + capacity) / 8;
      }
    }

    method AdaptDataSize()
      modifies this`sendData
      ensures sendData == NextDataSize(old(sendData), corrupted + lost, allowedLost)
    {
      if corrupted + lost > allowedLost {
        sendData := sendData * 9 / 10;
        sendData := if DEFAULT_DATA < sendData then sendData else DEFAULT_DATA;
      } else {
        sendData := sendData * 3 / 2;
        sendData := if sendData < MAX_DATA then sendData else MAX_DATA;
      }
    }

    method AdaptWindow(bufferSize: u32)
      modifies this`sendWindow
      ensures sendWindow == NextWindow(old(sendWindow), sendData, bufferSize)
    {
      if bufferSize > 8 * sendData {
        sendWindow := sendWindow + Low32(bufferSize + 1) / MAX_DATA;
        sendWindow := Min(sendWindow, MAXIMUM_WINDOW);
      } else {
        sendWindow := sendWindow * 9 / 10;
        sendWindow := if sendWindow < DEFAULT_WINDOW then DEFAULT_WINDOW else sendWindow;
      }
    }

    method OnNegativeAck()
      modifies this
      ensures State() == React(old(State()), NegativeAckHeard)
    {
      corrupted := corrupted + 1;
    }

    method OnSendTimeout()
      modifies this
      ensures State() == React(old(State()), SendTimedOut)
    {
      lost := lost + 1;
    }

    method OnAckOfAck(sample: u32)
      modifies this
      ensures State() == React(old(State()), AckOfAckHeard(sample))
    {
      var diff: u32 := if sample < rtt then rtt - sample else sample - rtt;
      var tmp := Low32(rtt * 7);
      tmp := Low32(tmp + sample) / 8;
      rtt := tmp;
      tmp := Low32(rttVariance * 3);
      tmp := Low32(tmp + diff) / 4;
      rttVariance := tmp;
      SetAckDelay();
    }

    method SetPeerConnectionType(peerType: u32, localType: u32)
      modifies this
      ensures State() == React(old(State()), PeerTypeSet(peerType, localType))
    {
      var worst := if peerType < localType then peerType else localType;
      if worst <= 0x0fff_ffff {
        allowedLost := 5;
      } else if worst <= 0xf1ff_ffff {
        allowedLost := 2;
      } else if worst <= 0xff2f_ffff {
        allowedLost := 1;
      }
    }

    /** Room for a whole receive window, exactly when that fits 32 bits. */
    function BestReadBufferSize(): (size: u32)
      reads this
      ensures size == ReadBufferSize(State()) <= receiveWindow * MAX_DATA
      ensures size == receiveWindow * MAX_DATA <==> receiveWindow * MAX_DATA < 0x1_0000_0000
    {
      Low32Exact(receiveWindow * MAX_DATA);
      Low32(receiveWindow * MAX_DATA)
    }
  }
}
