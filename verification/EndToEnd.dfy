/**
 A sender's stream, the network and the reading half of the peer's connection, running
 together: the socket serves the pending read from the receiver's window.
 */
module EndToEnd {
  import opened MachineWords
  import opened ReceiverSpec
  import opened FramingSpec
  import opened FramingTheorems
  import opened StreamCompletion

  datatype Both = Both(world: StreamProtocol.World, reader: ReaderState)

  /** Anything in the stream but a read, the socket serving the pending read, or the connection's handlers. */
  datatype Move =
    | Network(step: StreamProtocol.Step)
    | Serve
    | Reader(event: Event)

  ghost predicate Possible(b: Both, m: Move) {
    match m
    case Network(step) => !step.Read? && StreamProtocol.Enabled(b.world, step)
    case Serve => Enabled(b.reader, Arrive([]))
    case Reader(event) => !event.Arrive? && Enabled(b.reader, event)
  }

  /** The reader is given what a read of the receiver's window takes. */
  ghost predicate Moved(b: Both, m: Move, b': Both) {
    && Possible(b, m)
    && match m
       case Network(step) => StreamProtocol.Stepped(b.world, step, b'.world) && b'.reader == b.reader
       case Serve =>
         && StreamProtocol.Stepped(b.world, StreamProtocol.Read(b.reader.room), b'.world)
         && exists chunk :: Served(b, chunk, b')
       case Reader(event) => b'.world == b.world && b'.reader == Apply(b.reader, event)
  }

  ghost predicate Served(b: Both, chunk: seq<byte>, b': Both) {
    && Took(b.world.receiver.unread, b.reader.room, chunk, b'.world.receiver.unread)
    && Enabled(b.reader, Arrive(chunk)) && b'.reader == ProcessRead(b.reader, chunk)
  }

  ghost predicate Joint(boths: seq<Both>, moves: seq<Move>) {
    && |boths| == |moves| + 1
    && StreamProtocol.Init(boths[0].world) && boths[0].reader == FRESH_READER
    && forall i :: 0 <= i < |moves| ==> Moved(boths[i], moves[i], boths[i + 1])
  }

  // The two halves of a joint run

  lemma ReaderOneMore(states: seq<ReaderState>, events: seq<Event>, e: Event, r': ReaderState)
    requires Run(states, events) && Enabled(states[|events|], e) && r' == Apply(states[|events|], e)
    ensures Run(states + [r'], events + [e])
  {
    hide Enabled, Apply, StartReadSize;
    var more, moreEvents := states + [r'], events + [e];
    assert more[0] == states[0];
    forall i | 0 <= i < |moreEvents|
      ensures Enabled(more[i], moreEvents[i]) && more[i + 1] == Apply(more[i], moreEvents[i])
    {
      if i < |events| {
        assert more[i] == states[i] && more[i + 1] == states[i + 1] && moreEvents[i] == events[i];
      }
    }
  }

  lemma WorldOneMore(worlds: seq<StreamProtocol.World>, steps: seq<StreamProtocol.Step>,
                     step: StreamProtocol.Step, w': StreamProtocol.World)
    requires StreamProtocol.Run(worlds, steps) && StreamProtocol.Stepped(Final(worlds), step, w')
    ensures StreamProtocol.Run(worlds + [w'], steps + [step])
  {
    hide StreamProtocol.Init, StreamProtocol.Stepped;
    OneMore(worlds, steps, step, w');
    assert (worlds + [w'])[0] == worlds[0];
  }

  /** What the reader has taken is what the receiver has delivered. */
  lemma ServedKeepsUp(b: Both, chunk: seq<byte>, b': Both)
    requires b.reader.consumed == b.world.delivered && Served(b, chunk, b')
    requires StreamProtocol.Stepped(b.world, StreamProtocol.Read(b.reader.room), b'.world)
    ensures b'.reader.consumed == b'.world.delivered
  {
    hide Drain;
    assert b.reader.room == 0 ==> chunk == [] && b.world.delivered + [] == b.world.delivered;
  }

  /** A step that is no read delivers nothing. */
  lemma OthersDeliverNothing(w: StreamProtocol.World, step: StreamProtocol.Step, w': StreamProtocol.World)
    requires StreamProtocol.Stepped(w, step, w') && !step.Read?
    ensures w'.delivered == w.delivered
  {
    hide SenderSpec.AddData, SenderSpec.HandleAck, SenderSpec.HandleNegativeAck, SenderSpec.HandleTick, SendAck,
      HandleData, StreamProtocol.FirstBytes, StreamProtocol.Last, Restamp, SenderSpec.Chunks,
      ReceiverSpec.HandleAckOfAck;
  }

  lemma HandlersTakeNothing(r: ReaderState, e: Event)
    requires Enabled(r, e) && !e.Arrive?
    ensures Apply(r, e).consumed == r.consumed
  {
  }

  /** A joint run is a run of the stream and a run of the reader, in which the reader keeps up. */
  lemma {:induction false} Halves(boths: seq<Both>, moves: seq<Move>, i: nat)
    returns (worlds: seq<StreamProtocol.World>, steps: seq<StreamProtocol.Step>,
             states: seq<ReaderState>, events: seq<Event>)
    requires Joint(boths, moves) && i < |boths|
    ensures StreamProtocol.Run(worlds, steps) && Run(states, events)
    ensures Final(worlds) == boths[i].world && states[|events|] == boths[i].reader
    ensures boths[i].reader.consumed == boths[i].world.delivered
  {
    hide StreamProtocol.Stepped, StreamProtocol.Init, StreamProtocol.Enabled, Enabled, Apply, Served, StartReadSize;
    if i == 0 {
      worlds, steps, states, events := [boths[0].world], [], [boths[0].reader], [];
      StartsEmpty(boths[0].world);
    } else {
      worlds, steps, states, events := Halves(boths, moves, i - 1);
      var b, m, b' := boths[i - 1], moves[i - 1], boths[i];
      assert Moved(b, m, b');
      match m
      case Network(step) =>
        OthersDeliverNothing(b.world, step, b'.world);
        WorldOneMore(worlds, steps, step, b'.world);
        worlds, steps := worlds + [b'.world], steps + [step];
      case Serve =>
        var chunk :| Served(b, chunk, b');
        ServedKeepsUp(b, chunk, b');
        ServedArrives(b, chunk, b');
        WorldOneMore(worlds, steps, StreamProtocol.Read(b.reader.room), b'.world);
        ReaderOneMore(states, events, Arrive(chunk), b'.reader);
        worlds, steps := worlds + [b'.world], steps + [StreamProtocol.Read(b.reader.room)];
        states, events := states + [b'.reader], events + [Arrive(chunk)];
      case Reader(event) =>
        HandlersTakeNothing(b.reader, event);
        ReaderOneMore(states, events, event, b'.reader);
        states, events := states + [b'.reader], events + [event];
    }
  }

  lemma StartsEmpty(w: StreamProtocol.World)
    requires StreamProtocol.Init(w)
    ensures StreamProtocol.Run([w], []) && Run([FRESH_READER], []) && FRESH_READER.consumed == w.delivered == []
  {
  }

  lemma ServedArrives(b: Both, chunk: seq<byte>, b': Both)
    requires Served(b, chunk, b')
    ensures Enabled(b.reader, Arrive(chunk)) && b'.reader == Apply(b.reader, Arrive(chunk))
  {
  }

  /** The socket can always serve: what the receiver hands over fits the pending read. */
  lemma ServeNeverBlocks(b: Both) returns (b': Both)
    requires Possible(b, Serve) && b.world.sender.unacked.Bounded() && b.world.receiver.unread.Bounded()
    ensures Moved(b, Serve, b')
  {
    var (_, chunk) := ReadData(b.world.receiver.unread, b.reader.room);
    DrainTakes(b.world.receiver.unread.items, b.reader.room);
    hide Drain, Readable;
    b' := Both(StreamProtocol.Apply(b.world, StreamProtocol.Read(b.reader.room)), ProcessRead(b.reader, chunk));
    assert Served(b, chunk, b');
  }

  /**
   End to end: whatever the network does and however the socket serves its reads, as long
   as what was written is of the frames of `ms`, the messages dispatched are the first of
   `ms`, and at a dispatch exactly their frames have been delivered.
   */
  lemma MessagesArrive(boths: seq<Both>, moves: seq<Move>, i: nat, ms: seq<Message>)
    requires Joint(boths, moves) && i < |boths| && boths[i].world.accepted <= Frames(ms)
    ensures boths[i].reader.messages <= ms
    ensures boths[i].reader.stage.Dispatched? ==> boths[i].world.delivered == Frames(boths[i].reader.messages)
  {
    hide Joint, Frames, StreamProtocol.Run, Run;
    var worlds, steps, states, events := Halves(boths, moves, i);
    RunLengths(worlds, steps, states, events);
    MessagesDelivered(worlds, steps, |steps|, states, events, |events|, ms);
  }

  lemma RunLengths(worlds: seq<StreamProtocol.World>, steps: seq<StreamProtocol.Step>,
                   states: seq<ReaderState>, events: seq<Event>)
    requires StreamProtocol.Run(worlds, steps) && Run(states, events)
    ensures |worlds| == |steps| + 1 && |states| == |events| + 1
  {
  }
}
