/** How the send window, the data size and the smoothed rates follow what the peer reports. */
module CongestionAdaptation {
  import opened MachineWords
  import opened Parameters
  import opened Bytes
  import opened Packets
  import opened SequenceNumbers
  import opened ReceiverSpec
  import opened Codec
  import opened CongestionSpec
  import opened CongestionTheorems

  // One acknowledgement

  /**
   The send window grows by as many packets of the maximum size as the peer has room for,
   up to the maximum, if the peer has room for more than eight of the new data size; else
   it shrinks to nine tenths, down to the default.
   */
  lemma AckMovesWindow(s: CongestionState, e: Event)
    requires InBounds(s) && e.AckHeard? && e.bufferSize + 1 < 0x1_0000_0000
    ensures var s' := React(s, e);
            var grown := s'.sendWindow - s.sendWindow;
            if e.bufferSize > 8 * s'.sendData then
              && grown >= 0
              && grown * MAX_DATA <= e.bufferSize + 1
              && (s'.sendWindow == MAXIMUM_WINDOW || e.bufferSize + 1 < (grown + 1) * MAX_DATA)
            else
              && grown <= 0
              && (s'.sendWindow == DEFAULT_WINDOW || 10 * s'.sendWindow <= 9 * s.sendWindow < 10 * (s'.sendWindow + 1))
  {
    var size := NextDataSize(s.sendData, s.corrupted + s.lost, s.allowedLost);
    assert Low32(e.bufferSize + 1) == e.bufferSize + 1;
    hide NextDataSize, Rate, Capacity, Intervals, SmoothRtt, SmoothVariance, SmoothRate, Low32;
    var n := (e.bufferSize + 1) / MAX_DATA;
    Quotient(e.bufferSize + 1, MAX_DATA);
    var grown := NextWindow(s.sendWindow, size, e.bufferSize) - s.sendWindow;
    if e.bufferSize > 8 * size {
      MulLe(grown, n, MAX_DATA);
    }
  }

  /** At the very largest size reported the sum wraps around, and the window stays as it is. */
  lemma LargestBufferIgnored(s: CongestionState, e: Event)
    requires InBounds(s) && e.AckHeard? && e.bufferSize == 0xffff_ffff && e.bufferSize > 8 * React(s, e).sendData
    ensures React(s, e).sendWindow == s.sendWindow
  {
    hide NextDataSize, Rate, Capacity, Intervals, SmoothRtt, SmoothVariance, SmoothRate;
    assert Low32(e.bufferSize + 1) == 0;
    Quotient(0, MAX_DATA);
    DivAtMost(0, MAX_DATA, 0);
  }

  /** The data size shrinks to nine tenths after more losses than tolerated, else grows by half, within its limits. */
  lemma AckMovesDataSize(s: CongestionState, e: Event)
    requires InBounds(s) && e.AckHeard?
    ensures var n, n' := s.sendData, React(s, e).sendData;
            if s.corrupted + s.lost > s.allowedLost then
              n' <= n && (n' == DEFAULT_DATA || 10 * n' <= 9 * n < 10 * (n' + 1))
            else
              n <= n' && (n' == MAX_DATA || 2 * n' <= 3 * n < 2 * (n' + 1))
    ensures React(s, e).corrupted == React(s, e).lost == 0
  {
    hide NextWindow, Rate, Capacity, Intervals, SmoothRtt, SmoothVariance, SmoothRate, Low32;
  }

  /** A smoothed rate moves an eighth of the way to the sample; a sample of zero is none. */
  lemma SmoothRateBetween(rate: u32, sample: u32)
    ensures var r := SmoothRate(rate, sample);
            && (sample == 0 ==> r == rate)
            && (sample != 0 ==> 8 * r <= 7 * rate + sample < 8 * (r + 1))
            && (sample != 0 && rate <= sample ==> rate <= r <= sample)
            && (sample != 0 && sample <= rate ==> sample <= r <= rate)
  {
  }

  // Many acknowledgements, with anything else in between

  function Reacts(s: CongestionState, events: seq<Event>): CongestionState
    decreases |events|
  {
    if events == [] then s else Reacts(React(s, events[0]), events[1..])
  }

  lemma {:induction false} AfterReacts(events: seq<Event>, more: seq<Event>)
    ensures After(events + more) == Reacts(After(events), more)
    decreases |more|
  {
    hide React;
    if more == [] {
      assert events + more == events;
    } else {
      AfterReacts(events + [more[0]], more[1..]);
      assert (events + [more[0]]) + more[1..] == events + more;
      assert (events + [more[0]])[..|events|] == events;
    }
  }

  function AckCount(events: seq<Event>): nat
    decreases |events|
  {
    if events == [] then 0 else (if events[0].AckHeard? then 1 else 0) + AckCount(events[1..])
  }

  /** At every acknowledgement, `p` holds of the state it finds. */
  ghost predicate Throughout(s: CongestionState, events: seq<Event>, p: (CongestionState, Event) -> bool)
    decreases |events|
  {
    events == [] ||
    ((events[0].AckHeard? ==> p(s, events[0])) && Throughout(React(s, events[0]), events[1..], p))
  }

  /** The peer has room for more than eight packets of the data size, and for one of the maximum. */
  predicate Roomy(s: CongestionState, e: Event) {
    e.AckHeard? ==> e.bufferSize > 8 * React(s, e).sendData && MAX_DATA <= e.bufferSize + 1 < 0x1_0000_0000
  }

  predicate Cramped(s: CongestionState, e: Event) {
    e.AckHeard? ==> e.bufferSize <= 8 * React(s, e).sendData
  }

  predicate Lossy(s: CongestionState, e: Event) {
    s.corrupted + s.lost > s.allowedLost
  }

  predicate Calm(s: CongestionState, e: Event) {
    s.corrupted + s.lost <= s.allowedLost
  }

  /** Nothing but acknowledgements moves window and data size. */
  lemma OthersMoveNothing(s: CongestionState, e: Event)
    requires !e.AckHeard?
    ensures React(s, e).sendWindow == s.sendWindow && React(s, e).sendData == s.sendData
  {
    hide Rate, Capacity, Intervals, SmoothRtt, SmoothVariance;
  }

  lemma WindowSteps(s: CongestionState, e: Event)
    requires InBounds(s) && e.AckHeard?
    ensures Roomy(s, e) ==> React(s, e).sendWindow >= Min(MAXIMUM_WINDOW, s.sendWindow + 1)
    ensures Cramped(s, e) ==> React(s, e).sendWindow < s.sendWindow || React(s, e).sendWindow == DEFAULT_WINDOW
  {
    hide React;
    if Roomy(s, e) {
      AckMovesWindow(s, e);
    } else if Cramped(s, e) && e.bufferSize < 0xffff_ffff {
      AckMovesWindow(s, e);
    } else if Cramped(s, e) {
      CrampedShrinks(s, e);
    }
  }

  lemma CrampedShrinks(s: CongestionState, e: Event)
    requires InBounds(s) && e.AckHeard? && Cramped(s, e)
    ensures React(s, e).sendWindow < s.sendWindow || React(s, e).sendWindow == DEFAULT_WINDOW
  {
    hide NextDataSize, Rate, Capacity, Intervals, SmoothRtt, SmoothVariance, SmoothRate, Low32;
  }

  lemma {:induction false} WindowFills(s: CongestionState, events: seq<Event>)
    requires InBounds(s) && Throughout(s, events, Roomy)
    ensures Reacts(s, events).sendWindow >= Min(MAXIMUM_WINDOW, s.sendWindow + AckCount(events))
    decreases |events|
  {
    hide React, Roomy;
    if events != [] {
      ReactKeepsBounds(s, events[0]);
      WindowFills(React(s, events[0]), events[1..]);
      if events[0].AckHeard? {
        WindowSteps(s, events[0]);
      } else {
        OthersMoveNothing(s, events[0]);
      }
    }
  }

  lemma {:induction false} WindowDrains(s: CongestionState, events: seq<Event>)
    requires InBounds(s) && Throughout(s, events, Cramped)
    ensures Reacts(s, events).sendWindow == DEFAULT_WINDOW ||
            Reacts(s, events).sendWindow + AckCount(events) <= s.sendWindow
    decreases |events|
  {
    hide React, Cramped;
    if events != [] {
      ReactKeepsBounds(s, events[0]);
      WindowDrains(React(s, events[0]), events[1..]);
      KeepsDefault(React(s, events[0]), events[1..]);
      if events[0].AckHeard? {
        WindowSteps(s, events[0]);
      } else {
        OthersMoveNothing(s, events[0]);
      }
    }
  }

  lemma {:induction false} KeepsDefault(s: CongestionState, events: seq<Event>)
    requires InBounds(s) && Throughout(s, events, Cramped)
    ensures s.sendWindow == DEFAULT_WINDOW ==> Reacts(s, events).sendWindow == DEFAULT_WINDOW
    decreases |events|
  {
    hide React, Cramped;
    if events != [] {
      ReactKeepsBounds(s, events[0]);
      KeepsDefault(React(s, events[0]), events[1..]);
      if events[0].AckHeard? {
        WindowSteps(s, events[0]);
      } else {
        OthersMoveNothing(s, events[0]);
      }
    }
  }

  /**
   The window follows the peer: after any history, as many acknowledgements as the limits
   are apart bring it to the maximum if at each the peer has room, and to the default if
   at each it has none, whatever else happens in between.
   */
  lemma WindowFollowsPeer(history: seq<Event>, events: seq<Event>)
    requires AckCount(events) >= MAXIMUM_WINDOW - DEFAULT_WINDOW
    ensures Throughout(After(history), events, Roomy) ==> After(history + events).sendWindow == MAXIMUM_WINDOW
    ensures Throughout(After(history), events, Cramped) ==> After(history + events).sendWindow == DEFAULT_WINDOW
  {
    hide After, Throughout, Reacts, AckCount;
    AlwaysInBounds(history);
    AlwaysInBounds(history + events);
    AfterReacts(history, events);
    if Throughout(After(history), events, Roomy) {
      WindowFills(After(history), events);
    }
    if Throughout(After(history), events, Cramped) {
      WindowDrains(After(history), events);
    }
  }

  lemma DataSizeSteps(s: CongestionState, e: Event)
    requires InBounds(s) && e.AckHeard?
    ensures Lossy(s, e) ==> React(s, e).sendData < s.sendData || React(s, e).sendData == DEFAULT_DATA
    ensures Calm(s, e) && s.sendData > 1 ==> React(s, e).sendData > s.sendData || React(s, e).sendData == MAX_DATA
    ensures Calm(s, e) ==> React(s, e).sendData >= s.sendData
    ensures Lossy(s, e) && s.sendData == DEFAULT_DATA ==> React(s, e).sendData == DEFAULT_DATA
  {
    AckMovesDataSize(s, e);
    ReactKeepsBounds(s, e);
    hide React;
  }

  lemma {:induction false} DataSizeShrinks(s: CongestionState, events: seq<Event>)
    requires InBounds(s) && Throughout(s, events, Lossy)
    ensures Reacts(s, events).sendData == DEFAULT_DATA || Reacts(s, events).sendData + AckCount(events) <= s.sendData
    ensures s.sendData == DEFAULT_DATA ==> Reacts(s, events).sendData == DEFAULT_DATA
    decreases |events|
  {
    hide React, Lossy;
    if events != [] {
      ReactKeepsBounds(s, events[0]);
      DataSizeShrinks(React(s, events[0]), events[1..]);
      if events[0].AckHeard? {
        DataSizeSteps(s, events[0]);
      } else {
        OthersMoveNothing(s, events[0]);
      }
    }
  }

  lemma {:induction false} DataSizeGrows(s: CongestionState, events: seq<Event>)
    requires InBounds(s) && Throughout(s, events, Calm)
    ensures s.sendData > 1 ==> Reacts(s, events).sendData >= Min(MAX_DATA, s.sendData + AckCount(events))
    ensures s.sendData == 1 ==> Reacts(s, events).sendData == 1
    decreases |events|
  {
    hide React, Calm;
    if events != [] {
      ReactKeepsBounds(s, events[0]);
      DataSizeGrows(React(s, events[0]), events[1..]);
      if events[0].AckHeard? {
        DataSizeSteps(s, events[0]);
        OneStaysOne(s, events[0]);
      } else {
        OthersMoveNothing(s, events[0]);
      }
    }
  }

  /** Half of one byte is nothing. */
  lemma OneStaysOne(s: CongestionState, e: Event)
    requires InBounds(s) && e.AckHeard? && Calm(s, e)
    ensures s.sendData == 1 ==> React(s, e).sendData == 1
  {
    AckMovesDataSize(s, e);
    hide React;
  }

  /**
   The data size follows the losses: after any history, enough acknowledgements bring it
   to the default if before each there were more losses than tolerated; and if there were
   not, to the maximum exactly when it is not a single byte (or that is the maximum).
   */
  lemma DataSizeFollowsLosses(history: seq<Event>, events: seq<Event>)
    requires AckCount(events) >= MAX_DATA - DEFAULT_DATA
    ensures Throughout(After(history), events, Lossy) ==> After(history + events).sendData == DEFAULT_DATA
    ensures Throughout(After(history), events, Calm) ==>
              (After(history + events).sendData == MAX_DATA <==> After(history).sendData > 1 || MAX_DATA == 1)
  {
    hide After, Throughout, Reacts, AckCount;
    AlwaysInBounds(history);
    AlwaysInBounds(history + events);
    AfterReacts(history, events);
    if Throughout(After(history), events, Lossy) {
      DataSizeShrinks(After(history), events);
    }
    if Throughout(After(history), events, Calm) {
      DataSizeGrows(After(history), events);
    }
  }

  // Tolerance, for the connection types that have names

  const WIRELESS: u32 := 0x0fff_ffff
  const T1: u32 := 0xf0ff_ffff
  const E1: u32 := 0xf1ff_ffff
  const ETHERNET_10M: u32 := 0xff0f_ffff
  const ETHERNET_100M: u32 := 0xff1f_ffff
  const ETHERNET_1G: u32 := 0xff2f_ffff

  lemma {:induction false} LossesCount(s: CongestionState, losses: seq<Event>)
    requires forall e <- losses :: e.SendTimedOut? || e.NegativeAckHeard?
    ensures var s' := Reacts(s, losses);
            && s'.corrupted + s'.lost == s.corrupted + s.lost + |losses|
            && s' == s.(corrupted := s'.corrupted, lost := s'.lost)
    decreases |losses|
  {
    if losses != [] {
      assert losses[0] in losses && forall e <- losses[1..] :: e in losses;
      LossesCount(React(s, losses[0]), losses[1..]);
    }
  }

  /**
   Between two peers with named types, an acknowledgement after some timeouts and reports of
   loss leaves the data size no smaller exactly if they are at most five when either is
   wireless, two when the worse is a T1 or E1 line, and one on Ethernet (unless it is as
   small as can be already).
   */
  lemma ToleratesExactly(s: CongestionState, a: u32, b: u32, losses: seq<Event>, ack: Event)
    requires InBounds(s) && s.lost == s.corrupted == 0 && s.sendData > DEFAULT_DATA && ack.AckHeard?
    requires forall e <- losses :: e.SendTimedOut? || e.NegativeAckHeard?
    requires a in {WIRELESS, T1, E1, ETHERNET_10M, ETHERNET_100M, ETHERNET_1G}
    requires b in {WIRELESS, T1, E1, ETHERNET_10M, ETHERNET_100M, ETHERNET_1G}
    ensures React(Reacts(React(s, PeerTypeSet(a, b)), losses), ack).sendData >= s.sendData <==>
            |losses| <= if a == WIRELESS || b == WIRELESS then 5 else if a in {T1, E1} || b in {T1, E1} then 2 else 1
  {
    var s1 := React(s, PeerTypeSet(a, b));
    LossesCount(s1, losses);
    AckMovesDataSize(Reacts(s1, losses), ack);
    hide Reacts;
  }

  // What an acknowledgement tells

  /**
   What the receiver's surroundings read is what the peer's controller adopts: round-trip
   time and variance as they are, the rates smoothed in, the room it has free as buffer size.
   */
  lemma ReadingsTravel(r: ReceiverState, env: Readings, prior: AckPacket, s: CongestionState)
    requires SendAck(r, env).1.Some?
    ensures var ack := SendAck(r, env).1.value;
            && DecodeAck(prior, AckBytes(ack)) == Some(ack)
            && (var heard := AckHeard(ack.rtt, ack.rttVariance, ack.bufferSize, ack.receivingRate, ack.linkCapacity);
                var s' := React(s, heard);
                && s'.rtt == env.rtt && s'.rttVariance == env.rttVariance
                && s'.receivingRate == SmoothRate(s.receivingRate, env.receivingRate)
                && s'.linkCapacity == SmoothRate(s.linkCapacity, env.linkCapacity)
                && ack.bufferSize == ReceiverSpec.AvailableBufferSize(r.unread))
  {
    var ack := SendAck(r, env).1.value;
    AckDecodes(prior, ack);
    hide Wire, AckPoint, AckDue, AckBytes, DecodeAck, NextDataSize, NextWindow, SmoothRate;
  }
}
