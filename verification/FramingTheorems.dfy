/** Messages come out of the stream as they went in, however it is cut up. */
module FramingTheorems {
  import opened MachineWords
  import opened Bytes
  import opened WireFormat
  import opened FramingSpec
  import StreamProtocol
  import StreamTheorems

  // One frame

  /** The length is being read, into a buffer of four bytes. */
  ghost predicate SizeOk(r: ReaderState)
    requires r.start <= |r.consumed|
  {
    && |r.buffer| == 4 && r.next == r.transferred == |r.consumed| - r.start && r.room == 4 - r.next && r.atLeast == 4
    && r.buffer[..r.next] == r.consumed[r.start..]
    && (r.due <==> r.transferred == 4)
  }

  /** How far the reader is with the frame of `m`, of which what it took from `start` on is a part. */
  ghost predicate OnTrack(r: ReaderState, m: Message) {
    var f := Frame(m);
    && r.next + r.room <= |r.buffer|
    && r.start <= |r.consumed| <= r.start + |f|
    && r.consumed[r.start..] == f[..|r.consumed| - r.start]
    && match r.stage
       case ReadingSize => SizeOk(r)
       case ReadingData =>
         && r.dataSize == |m| && r.dataReceived < |m| && r.atLeast == 1
         && r.next == r.dataReceived + r.transferred && |r.consumed| == r.start + 4 + r.next
         && r.next + r.room == |r.buffer| <= |m| && r.dataReceived < |r.buffer|
         && r.buffer[..r.next] == m[..r.next]
         && (r.due <==> r.transferred > 0)
       case Dispatched =>
         r.messages != [] && r.messages[|r.messages| - 1] == m && r.consumed[r.start..] == f && r.room == 0
  }

  /** What the reader takes, it adds to what it has. */
  lemma ProcessReadConsumes(r: ReaderState, chunk: seq<byte>)
    requires Fits(r, chunk) && r.start <= |r.consumed|
    ensures var r' := ProcessRead(r, chunk);
            && r'.start == r.start && r'.stage == r.stage && r'.messages == r.messages
            && r'.consumed == r.consumed + chunk && r'.consumed[r.start..] == r.consumed[r.start..] + chunk
  {
    assert chunk == [] ==> r.consumed + chunk == r.consumed;
  }

  lemma ArriveOnTrack(r: ReaderState, m: Message, chunk: seq<byte>)
    requires OnTrack(r, m) && Enabled(r, Arrive(chunk))
    requires r.consumed[r.start..] + chunk <= Frame(m)
    ensures OnTrack(ProcessRead(r, chunk), m)
  {
    hide U32Bytes;
    ProcessReadConsumes(r, chunk);
    var r' := ProcessRead(r, chunk);
    var f := Frame(m);
    var k := |r.consumed| - r.start;
    if r.room > 0 {
      assert r'.buffer[..r'.next] == r.buffer[..r.next] + chunk;
      if r.stage.ReadingData? {
        assert chunk == f[k..k + |chunk|];
        assert f[4 + r.next..4 + r.next + |chunk|] == m[r.next..r.next + |chunk|];
        assert m[..r.next] + m[r.next..r.next + |chunk|] == m[..r.next + |chunk|];
      }
    }
  }

  lemma SizeOnTrack(r: ReaderState, m: Message, best: nat)
    requires OnTrack(r, m) && Enabled(r, Handle(best)) && r.stage.ReadingSize?
    ensures OnTrack(HandleReadSize(r, best), m)
  {
    hide U32Bytes, U32Of;
    assert r.buffer[..4] == r.consumed[r.start..] == U32Bytes(|m|);
    U32RoundTrip(|m|);
  }

  lemma DataOnTrack(r: ReaderState, m: Message, best: nat)
    requires OnTrack(r, m) && Enabled(r, Handle(best)) && r.stage.ReadingData?
    ensures OnTrack(HandleReadData(r, best), m)
    ensures HandleReadData(r, best).dataReceived > r.dataReceived
  {
    hide U32Bytes;
    var r' := HandleReadData(r, best);
    if r'.stage.Dispatched? {
      assert r.buffer == r.buffer[..r.next] && m == m[..r.next];
    } else {
      assert r'.buffer[..r'.next] == r.buffer[..r.next];
    }
  }

  lemma StepOnTrack(r: ReaderState, m: Message, e: Event)
    requires OnTrack(r, m) && Enabled(r, e) && !e.Again?
    requires r.start <= |Apply(r, e).consumed| && Apply(r, e).consumed[r.start..] <= Frame(m)
    ensures OnTrack(Apply(r, e), m)
  {
    assert r.start <= |r.consumed|;
    hide OnTrack, Frame, StartReadData;
    match e
    case Arrive(chunk) =>
      ProcessReadConsumes(r, chunk);
      ArriveOnTrack(r, m, chunk);
    case Handle(best) =>
      if r.stage.ReadingSize? {
        SizeOnTrack(r, m, best);
      } else {
        DataOnTrack(r, m, best);
      }
  }

  lemma StartOnTrack(r: ReaderState, m: Message)
    ensures OnTrack(StartReadSize(r), m)
  {
    hide U32Bytes;
    assert r.consumed[|r.consumed|..] == [];
  }

  /** The reader takes no more than the frame, though the stream may go on behind it. */
  lemma WithinFrame(r: ReaderState, m: Message, e: Event, rest: seq<byte>)
    requires OnTrack(r, m) && Enabled(r, e) && !e.Again?
    requires r.start <= |Apply(r, e).consumed| && Apply(r, e).consumed[r.start..] <= Frame(m) + rest
    ensures Apply(r, e).consumed[r.start..] <= Frame(m)
  {
    hide U32Bytes;
    assert |Apply(r, e).consumed| - r.start <= |Frame(m)|;
  }

  // One frame after another

  lemma {:induction false} FramesSplit(ms: seq<Message>, k: nat)
    requires k < |ms|
    ensures Frames(ms) == Frames(ms[..k]) + (Frame(ms[k]) + Frames(ms[k + 1..]))
    ensures Frames(ms[..k + 1]) == Frames(ms[..k]) + Frame(ms[k])
  {
    hide Frame;
    if k == 0 {
      assert ms[..0] == [] && ms[..1][1..] == [];
      assert Frame(ms[0]) + [] == Frame(ms[0]) == [] + Frame(ms[0]);
      assert [] + (Frame(ms[0]) + Frames(ms[1..])) == Frame(ms[0]) + Frames(ms[1..]);
    } else {
      FramesSplit(ms[1..], k - 1);
      assert ms[..k][1..] == ms[1..][..k - 1] && ms[..k + 1][1..] == ms[1..][..k];
      assert ms[1..][k..] == ms[k + 1..];
      Assoc(Frame(ms[0]), Frames(ms[1..][..k - 1]), Frame(ms[k]) + Frames(ms[k + 1..]));
      Assoc(Frame(ms[0]), Frames(ms[1..][..k - 1]), Frame(ms[k]));
    }
  }

  /** How many frames are behind the reader. */
  function Finished(r: ReaderState): int {
    if r.stage.Dispatched? then |r.messages| - 1 else |r.messages|
  }

  /** The frames behind the reader were those of the first messages, and it is on track with the next. */
  ghost predicate InStep(r: ReaderState, ms: seq<Message>) {
    var k := Finished(r);
    && 0 <= k < |ms| && OnTrack(r, ms[k])
    && r.messages[..k] == ms[..k] && r.consumed[..r.start] == Frames(ms[..k])
  }

  /** What the stream has beyond the first `k` messages. */
  function Ahead(ms: seq<Message>, k: nat, rest: seq<byte>): seq<byte>
    requires k < |ms|
  {
    Frames(ms[k + 1..]) + rest
  }

  lemma RestOfPrefix(s: seq<byte>, a: seq<byte>, b: seq<byte>)
    requires s <= a + b && |a| <= |s|
    ensures s[|a|..] <= b
  {
    assert s[|a|..] == (a + b)[|a|..|s|];
    assert (a + b)[|a|..|s|] == b[..|s| - |a|];
  }

  lemma CurrentFrame(consumed: seq<byte>, start: nat, ms: seq<Message>, k: nat, rest: seq<byte>)
    requires k < |ms| && start <= |consumed|
    requires consumed <= Frames(ms) + rest && consumed[..start] == Frames(ms[..k])
    ensures consumed[start..] <= Frame(ms[k]) + Ahead(ms, k, rest)
  {
    FramesSplit(ms, k);
    hide Frames, Frame;
    Assoc(Frames(ms[..k]), Frame(ms[k]) + Frames(ms[k + 1..]), rest);
    Assoc(Frame(ms[k]), Frames(ms[k + 1..]), rest);
    RestOfPrefix(consumed, Frames(ms[..k]), Frame(ms[k]) + Ahead(ms, k, rest));
  }

  /** A step within a frame. */
  lemma StepInStep(r: ReaderState, ms: seq<Message>, e: Event, rest: seq<byte>)
    requires InStep(r, ms)
    requires Enabled(r, e) && !e.Again? && Apply(r, e).consumed <= Frames(ms) + rest
    ensures InStep(Apply(r, e), ms)
  {
    var k := Finished(r);
    var r' := Apply(r, e);
    WithinStep(r, e);
    hide OnTrack, Frame, Frames, Apply, Enabled;
    assert r'.consumed[..r.start] == r.consumed[..r.start];
    CurrentFrame(r'.consumed, r.start, ms, k, rest);
    WithinFrame(r, ms[k], e, Ahead(ms, k, rest));
    StepOnTrack(r, ms[k], e);
  }

  /** Within a frame, bytes are only added, and messages only by a dispatch. */
  lemma WithinStep(r: ReaderState, e: Event)
    requires Enabled(r, e) && !e.Again?
    ensures var r' := Apply(r, e);
            && r'.start == r.start && r.consumed <= r'.consumed
            && r.messages <= r'.messages && Finished(r') == Finished(r) == |r.messages|
  {
    hide U32Of;
  }

  /** With the frame of a dispatched message, what was taken is the frames of the messages dispatched. */
  lemma DispatchedFrames(r: ReaderState, ms: seq<Message>)
    requires InStep(r, ms) && r.stage.Dispatched?
    ensures r.messages == ms[..Finished(r) + 1] && r.consumed == Frames(ms[..Finished(r) + 1])
  {
    hide Frames, Frame, OnTrack;
    var k := Finished(r);
    FramesSplit(ms, k);
    OnTrackDispatched(r, ms[k]);
    assert r.messages == r.messages[..k] + [ms[k]];
    assert ms[..k + 1] == ms[..k] + [ms[k]];
    assert r.consumed == r.consumed[..r.start] + r.consumed[r.start..];
  }

  lemma OnTrackDispatched(r: ReaderState, m: Message)
    requires OnTrack(r, m) && r.stage.Dispatched?
    ensures r.messages != [] && r.messages[|r.messages| - 1] == m
    ensures r.start <= |r.consumed| && r.consumed[r.start..] == Frame(m)
  {
  }

  /** A new read of the length changes neither what was taken nor what was dispatched. */
  lemma StartsAfresh(r: ReaderState)
    ensures var r' := StartReadSize(r);
            && r'.stage == ReadingSize && r'.messages == r.messages && r'.consumed == r.consumed
            && r'.start == |r.consumed| && SizeOk(r')
  {
    assert r.consumed[|r.consumed|..] == [];
  }

  /** The next message starts a new frame. */
  lemma AgainInStep(r: ReaderState, ms: seq<Message>, response: seq<byte>)
    requires InStep(r, ms) && r.stage.Dispatched?
    ensures var r' := Apply(r, Again(response));
            if Finished(r) + 1 < |ms| then InStep(r', ms)
            else r'.messages == ms && r'.start == |r'.consumed| && r'.consumed == Frames(ms) && SizeOk(r')
                 && r'.stage.ReadingSize?
  {
    hide Frame, Frames, OnTrack, SizeOk, StartReadSize;
    var k := Finished(r);
    var r' := Apply(r, Again(response));
    DispatchedFrames(r, ms);
    StartsAfresh(r.(buffer := response));
    assert r'.consumed[..r'.start] == r.consumed;
    if k + 1 < |ms| {
      StartOnTrack(r.(buffer := response), ms[k + 1]);
    } else {
      assert ms[..k + 1] == ms;
    }
  }

  // Behind the frames

  /** The reader has dispatched all of the first messages, and what it has taken since is the start of another frame. */
  ghost predicate Beyond(r: ReaderState, ms: seq<Message>) {
    && ms <= r.messages && |Frames(ms)| <= r.start <= |r.consumed|
    && (r.stage.ReadingSize? ==> SizeOk(r))
    && (!r.stage.ReadingSize? || ms < r.messages ==> |r.consumed| >= |Frames(ms)| + 4)
    && (r.stage.Dispatched? ==> ms < r.messages)
  }

  lemma StepBeyond(r: ReaderState, ms: seq<Message>, e: Event)
    requires Beyond(r, ms) && Enabled(r, e)
    ensures Beyond(Apply(r, e), ms)
  {
    hide Frames, U32Of;
    var r' := Apply(r, e);
    match e
    case Arrive(chunk) =>
      ProcessReadConsumes(r, chunk);
      if r.room > 0 && r.stage.ReadingSize? {
        assert r'.buffer[..r'.next] == r.buffer[..r.next] + chunk;
      }
    case Handle(best) =>
    case Again(response) =>
      assert r'.consumed[r'.start..] == [];
  }

  lemma StartBeyond()
    ensures Beyond(FRESH_READER, [])
  {
  }

  lemma StartInStep(ms: seq<Message>)
    requires ms != []
    ensures InStep(FRESH_READER, ms)
  {
    hide OnTrack, Resized;
    StartOnTrack(ReaderState(ReadingSize, [], 0, 0, 0, 0, 0, 0, false, [], 0, []), ms[0]);
    assert ms[..0] == [];
  }

  lemma ConsumesMore(r: ReaderState, e: Event)
    requires Enabled(r, e)
    ensures r.consumed <= Apply(r, e).consumed
  {
  }

  /** In every run the reader is on track with one of the frames, or has dispatched them all. */
  lemma {:induction false} RunInStep(states: seq<ReaderState>, events: seq<Event>, i: nat, ms: seq<Message>,
                                     rest: seq<byte>)
    requires Run(states, events) && i < |states|
    requires states[i].consumed <= Frames(ms) + rest
    ensures InStep(states[i], ms) || Beyond(states[i], ms)
  {
    hide InStep, Beyond, Frames, Apply;
    if i == 0 {
      StartBeyond();
      if ms != [] {
        StartInStep(ms);
      }
    } else {
      var r, e := states[i - 1], events[i - 1];
      ConsumesMore(r, e);
      RunInStep(states, events, i - 1, ms, rest);
      if Beyond(r, ms) {
        StepBeyond(r, ms, e);
      } else if e.Again? {
        AgainInStep(r, ms, e.response);
        BehindAll(Apply(r, e), ms);
      } else {
        StepInStep(r, ms, e, rest);
      }
    }
  }

  lemma BehindAll(r: ReaderState, ms: seq<Message>)
    ensures r.messages == ms && r.stage.ReadingSize? && r.start == |r.consumed| && r.consumed == Frames(ms) && SizeOk(r)
            ==> Beyond(r, ms)
  {
  }

  lemma FramesLong(ms: seq<Message>)
    requires ms != []
    ensures |Frames(ms)| > 4
  {
  }

  lemma InStepMessages(r: ReaderState, ms: seq<Message>)
    requires InStep(r, ms)
    ensures r.messages <= ms
    ensures r.stage.Dispatched? ==> r.consumed == Frames(r.messages)
  {
    if r.stage.Dispatched? {
      DispatchedFrames(r, ms);
    }
  }

  /** A reader that has taken all the frames has dispatched the last message, or its handler is about to. */
  lemma InStepAtEnd(r: ReaderState, ms: seq<Message>, best: nat)
    requires InStep(r, ms) && r.consumed == Frames(ms)
    ensures r.messages == ms || (r.due && r.stage.ReadingData? && HandleReadData(r, best).messages == ms)
  {
    hide Frames, Frame, OnTrack, HandleReadData;
    var k := Finished(r);
    FramesSplit(ms, k);
    OnTrackAtEnd(r, ms[k], best);
    if k + 1 < |ms| {
      FramesLong(ms[k + 1..]);
      assert false;
    }
    assert ms == ms[..k] + [ms[k]] && ms[..k + 1] == ms;
    if r.stage.Dispatched? {
      DispatchedFrames(r, ms);
    } else {
      assert ms[k + 1..] == [];
      EmptyFrames();
      assert r.consumed == r.consumed[..r.start] + r.consumed[r.start..];
      assert r.messages == ms[..k];
    }
  }

  lemma EmptyFrames()
    ensures Frames([]) == []
  {
  }

  /** The reader takes no more than the frame, and with all of it taken the handler dispatches the message. */
  lemma OnTrackAtEnd(r: ReaderState, m: Message, best: nat)
    requires OnTrack(r, m)
    ensures r.start <= |r.consumed| <= r.start + |Frame(m)|
    ensures !r.stage.Dispatched? && |r.consumed| == r.start + |Frame(m)| ==>
              r.due && r.stage.ReadingData? && HandleReadData(r, best).messages == r.messages + [m]
  {
    hide U32Bytes;
    if !r.stage.Dispatched? && |r.consumed| == r.start + |Frame(m)| {
      assert r.buffer == r.buffer[..r.next] && m == m[..r.next];
    }
  }

  lemma BeyondMessages(r: ReaderState, ms: seq<Message>)
    requires Beyond(r, ms)
    ensures ms <= r.messages && (r.stage.Dispatched? ==> ms < r.messages)
    ensures |r.consumed| <= |Frames(ms)| ==> r.messages == ms
  {
    hide Frames;
  }

  /**
   For every way the stream may hand out its bytes, and whatever it has behind them:
   the messages dispatched are the messages sent, in order, each with exactly its frame
   taken; nothing but the frames yields nothing but the messages; and once all the
   frames are taken, all the messages are dispatched as soon as the handler has run.
   */
  lemma FramingExact(states: seq<ReaderState>, events: seq<Event>, i: nat, ms: seq<Message>, rest: seq<byte>)
    requires Run(states, events) && i < |states|
    requires states[i].consumed <= Frames(ms) + rest
    ensures states[i].messages <= ms || ms <= states[i].messages
    ensures states[i].consumed <= Frames(ms) ==> states[i].messages <= ms
    ensures states[i].stage.Dispatched? && states[i].messages <= ms ==> states[i].consumed == Frames(states[i].messages)
    ensures states[i].consumed == Frames(ms) ==>
              states[i].messages == ms
              || (states[i].due && states[i].stage.ReadingData?
                  && forall best: nat :: HandleReadData(states[i], best).messages == ms)
  {
    var r := states[i];
    RunInStep(states, events, i, ms, rest);
    hide InStep, Beyond, Frames, HandleReadData, Run;
    if Beyond(r, ms) {
      BeyondMessages(r, ms);
    } else {
      InStepMessages(r, ms);
      forall best: nat | r.consumed == Frames(ms)
        ensures r.messages == ms || (r.due && r.stage.ReadingData? && HandleReadData(r, best).messages == ms)
      {
        InStepAtEnd(r, ms, best);
      }
      assert r.consumed == Frames(ms) ==> r.messages == ms || HandleReadData(r, 0).messages == ms;
    }
  }

  /** Every data read that completes brings the end of its message nearer. */
  lemma ReadsProgress(states: seq<ReaderState>, events: seq<Event>, i: nat, ms: seq<Message>, rest: seq<byte>,
                      best: nat)
    requires Run(states, events) && i < |states|
    requires states[i].consumed <= Frames(ms) + rest
    requires states[i].stage.ReadingData? && |states[i].messages| < |ms| && Enabled(states[i], Handle(best))
    ensures states[i].dataReceived < Apply(states[i], Handle(best)).dataReceived <= |ms[|states[i].messages|]|
  {
    RunInStep(states, events, i, ms, rest);
    hide Frames;
    DataOnTrack(states[i], ms[|states[i].messages|], best);
  }

  /**
   End to end: over the unreliable network, the messages dispatched are the first of those sent, with
   exactly their frames read.
   */
  lemma MessagesDelivered(
    worlds: seq<StreamProtocol.World>, steps: seq<StreamProtocol.Step>, j: nat,
    states: seq<ReaderState>, events: seq<Event>, i: nat, ms: seq<Message>)
    requires StreamProtocol.Run(worlds, steps) && j < |worlds| && Run(states, events) && i < |states|
    requires worlds[j].accepted <= Frames(ms)
    requires states[i].consumed == worlds[j].delivered
    ensures states[i].messages <= ms
    ensures states[i].stage.Dispatched? ==> worlds[j].delivered == Frames(states[i].messages)
  {
    StreamTheorems.ReliableDelivery(worlds, steps, j);
    hide Frames, Run, StreamProtocol.Run;
    assert Frames(ms) + [] == Frames(ms);
    FramingExact(states, events, i, ms, []);
  }

  // The empty message

  const NO_MESSAGE: seq<byte> := [0, 0, 0, 0]

  lemma EmptyFrame()
    ensures Frame([]) == NO_MESSAGE && U32Of(NO_MESSAGE) == 0
  {
  }

  /** The reader is at a frame without a message: its data read counts the stale four bytes, and runs past the end. */
  ghost predicate Stuck(r: ReaderState, ms: seq<Message>) {
    && r.messages == ms && r.start <= |r.consumed| && r.consumed[..r.start] == Frames(ms)
    && match r.stage
       case ReadingSize => SizeOk(r)
       case ReadingData => r.dataSize == 0 && (r.dataReceived > 0 || (r.transferred == 4 && r.room == 0))
       case Dispatched => false
  }

  lemma StepStuck(r: ReaderState, ms: seq<Message>, e: Event, rest: seq<byte>)
    requires Stuck(r, ms) && Enabled(r, e)
    requires Apply(r, e).consumed <= Frames(ms) + (NO_MESSAGE + rest)
    ensures Stuck(Apply(r, e), ms)
  {
    hide Frames, U32Of;
    var r' := Apply(r, e);
    match e
    case Arrive(chunk) =>
      ProcessReadConsumes(r, chunk);
      assert r'.consumed[..r.start] == r.consumed[..r.start];
      if r.room > 0 && r.stage.ReadingSize? {
        assert r'.buffer[..r'.next] == r.buffer[..r.next] + chunk;
      }
    case Handle(best) =>
      if r.stage.ReadingSize? {
        assert r.buffer[..4] == r.consumed[r.start..] == NO_MESSAGE;
        EmptyFrame();
      }
  }

  lemma {:induction false} RunStuck(states: seq<ReaderState>, events: seq<Event>, i: nat, ms: seq<Message>,
                                    rest: seq<byte>)
    requires Run(states, events) && i < |states|
    requires states[i].consumed <= Frames(ms) + (NO_MESSAGE + rest)
    ensures InStep(states[i], ms) || Stuck(states[i], ms)
  {
    hide InStep, Stuck, Frames, Apply;
    if i == 0 {
      StartStuck();
      if ms != [] {
        StartInStep(ms);
      }
    } else {
      var r, e := states[i - 1], events[i - 1];
      ConsumesMore(r, e);
      RunStuck(states, events, i - 1, ms, rest);
      if Stuck(r, ms) {
        StepStuck(r, ms, e, rest);
      } else if e.Again? {
        AgainInStep(r, ms, e.response);
        GetsStuck(Apply(r, e), ms);
      } else {
        StepInStep(r, ms, e, NO_MESSAGE + rest);
      }
    }
  }

  lemma StartStuck()
    ensures Stuck(FRESH_READER, [])
  {
  }

  lemma GetsStuck(r: ReaderState, ms: seq<Message>)
    ensures r.messages == ms && r.stage.ReadingSize? && r.start == |r.consumed| && r.consumed == Frames(ms) && SizeOk(r)
            ==> Stuck(r, ms)
  {
    assert r.consumed[..|r.consumed|] == r.consumed;
  }

  lemma StuckMessages(r: ReaderState, ms: seq<Message>)
    requires Stuck(r, ms)
    ensures r.messages == ms
  {
  }

  /**
   The empty message is the exception: behind whatever messages it comes, and whatever
   follows it, neither it nor anything after it is ever dispatched.
   */
  lemma EmptyMessageStalls(states: seq<ReaderState>, events: seq<Event>, i: nat, ms: seq<Message>, rest: seq<byte>)
    requires Run(states, events) && i < |states|
    requires states[i].consumed <= Frames(ms) + (Frame([]) + rest)
    ensures states[i].messages <= ms
  {
    hide *;
    EmptyFrame();
    RunStuck(states, events, i, ms, rest);
    if InStep(states[i], ms) {
      InStepMessages(states[i], ms);
    } else {
      StuckMessages(states[i], ms);
    }
  }

  const SIZE_TAKEN := ReaderState(ReadingSize, NO_MESSAGE, 0, 0, 4, 0, 4, 4, true, NO_MESSAGE, 0, [])
  const EMPTY_READ := ReaderState(ReadingData, [], 0, 0, 4, 0, 4, 4, true, NO_MESSAGE, 0, [])

  lemma EmptyFrameArrives()
    ensures Enabled(FRESH_READER, Arrive(NO_MESSAGE)) && Apply(FRESH_READER, Arrive(NO_MESSAGE)) == SIZE_TAKEN
  {
    var r := FRESH_READER;
    assert |r.buffer| == 4 && r.next == 0 && r.room == 4;
    assert r.buffer[..0] + NO_MESSAGE + r.buffer[4..] == NO_MESSAGE;
    assert r.consumed + NO_MESSAGE == NO_MESSAGE;
  }

  lemma EmptySizeHandled(best: nat)
    requires best > 0
    ensures Enabled(SIZE_TAKEN, Handle(best)) && Apply(SIZE_TAKEN, Handle(best)) == EMPTY_READ
  {
    hide U32Of, StartReadData;
    assert NO_MESSAGE[..4] == NO_MESSAGE;
    EmptyFrame();
    StartEmpty(SIZE_TAKEN, best);
  }

  lemma StartEmpty(r: ReaderState, best: nat)
    requires r.dataSize == r.dataReceived == 0
    ensures StartReadData(r, best) == r.(stage := ReadingData, buffer := [], due := true)
  {
    assert Resized(r.buffer, 0) == [];
  }

  lemma EmptyReadHandled(best: nat)
    requires best > 0
    ensures Enabled(EMPTY_READ, Handle(best))
    ensures var r := Apply(EMPTY_READ, Handle(best));
            && r.stage == ReadingData && r.dataReceived == 4 && r.dataSize == 0 && !r.due && r.consumed == NO_MESSAGE
  {
    hide Resized;
    assert (0 - 4) % SIZE_MAX == SIZE_MAX - 4;
  }

  lemma RunOfThree(r1: ReaderState, r2: ReaderState, e1: Event, e2: Event, e3: Event)
    returns (states: seq<ReaderState>, events: seq<Event>)
    requires Enabled(FRESH_READER, e1) && Apply(FRESH_READER, e1) == r1
    requires Enabled(r1, e2) && Apply(r1, e2) == r2 && Enabled(r2, e3)
    ensures Run(states, events) && |states| == 4 && states[3] == Apply(r2, e3)
  {
    hide Enabled, Apply;
    states, events := [FRESH_READER, r1, r2, Apply(r2, e3)], [e1, e2, e3];
  }

  /** And the reader does come to that point: all of the frame taken, it waits for more. */
  lemma EmptyMessageWitness(best: nat) returns (states: seq<ReaderState>, events: seq<Event>)
    requires best > 0
    ensures Run(states, events) && |states| == 4
    ensures states[3].consumed == Frame([])
    ensures states[3].stage.ReadingData? && states[3].dataReceived == 4 && states[3].dataSize == 0 && !states[3].due
  {
    hide *;
    EmptyFrame();
    EmptyFrameArrives();
    EmptySizeHandled(best);
    EmptyReadHandled(best);
    states, events := RunOfThree(SIZE_TAKEN, EMPTY_READ, Arrive(NO_MESSAGE), Handle(best), Handle(best));
  }
}
