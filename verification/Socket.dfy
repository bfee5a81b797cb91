/** The socket's pending read and write, and the connection's framing on top, as the program runs them. */
module Sockets {
  import opened MachineWords
  import opened Bytes
  import opened Packets
  import opened WireFormat
  import opened SenderSpec
  import opened Senders
  import opened ReceiverSpec
  import opened Receivers
  import FramingSpec

  /** One outstanding write: what is left of it goes into the sender as its window opens. */
  class WriteSide {
    const sender: Sender
    var waiting: seq<byte>
    var transferred: nat
    var due: bool

    /** Everything the sender has accepted. */
    ghost var accepted: seq<byte>

    ghost predicate Valid()
      reads this, sender, sender.window
    {
      sender.Valid()
    }

    constructor (sender: Sender)
      requires sender.Valid()
      ensures Valid() && this.sender == sender && waiting == [] && accepted == [] && !due
    {
      this.sender := sender;
      waiting, transferred, due, accepted := [], 0, false, [];
    }

    /**
     A new write takes the place of one still waiting; what was accepted before, followed by what is
     accepted of the data and what waits of it, is what was accepted before, followed by the data.
     */
    method StartWrite(data: seq<byte>, windowSize: nat, dataSize: nat, env: Env) returns (sent: Option<DataPacket>)
      requires Valid()
      modifies this, sender, sender.window
      ensures Valid()
      ensures data == [] ==> due && sent == None && sender.State() == old(sender.State())
                             && (accepted, waiting, transferred) == old((accepted, waiting, transferred))
      ensures data != [] ==> accepted + waiting == old(accepted) + data && transferred + |waiting| == |data|
                             && due == (old(due) || waiting == [])
      ensures data != [] ==>
                var (s, n, p) := SenderSpec.AddData(old(sender.State()), data, windowSize, dataSize, env);
                n <= |data| && sender.State() == s && sent == p && waiting == data[n..]
    {
      if |data| == 0 {
        due := true;
        return None;
      }
      hide SenderSpec.AddData;
      waiting := data;
      transferred := 0;
      sent := ProcessWrite(windowSize, dataSize, env);
    }

    method ProcessWrite(windowSize: nat, dataSize: nat, env: Env) returns (sent: Option<DataPacket>)
      requires Valid()
      modifies this, sender, sender.window
      ensures Valid()
      ensures accepted + waiting == old(accepted + waiting)
      ensures transferred + |waiting| == old(transferred + |waiting|)
      ensures due == (old(due) || (old(waiting) != [] && waiting == []))
      ensures old(waiting) == [] ==> sender.State() == old(sender.State()) && sent == None
      ensures old(waiting) != [] ==>
                var (s, n, p) := SenderSpec.AddData(old(sender.State()), old(waiting), windowSize, dataSize, env);
                n <= |old(waiting)| && sender.State() == s && sent == p && waiting == old(waiting)[n..]
    {
      if |waiting| == 0 {
        return None;
      }
      hide SenderSpec.AddData;
      AcceptedWithin(sender.State(), waiting, windowSize, dataSize, env);
      var length;
      length, sent := sender.AddData(waiting, windowSize, dataSize, env);
      Advance(length);
    }

    method Advance(length: nat)
      requires length <= |waiting|
      modifies this
      ensures accepted + waiting == old(accepted + waiting)
      ensures waiting == old(waiting)[length..] && transferred == old(transferred) + length
      ensures due == (old(due) || waiting == [])
    {
      assert waiting == waiting[..length] + waiting[length..];
      Assoc(accepted, waiting[..length], waiting[length..]);
      accepted := accepted + waiting[..length];
      waiting := waiting[length..];
      transferred := transferred + length;
      if |waiting| == 0 {
        due := true;
      }
    }
  }

  /** One outstanding read, into the part of `buffer` behind `next`. */
  class ReadSide {
    const receiver: Receiver
    var buffer: array<byte>
    var next: nat
    var transferred: nat
    var atLeast: nat
    var due: bool

    /** Everything taken from the receiver. */
    ghost var consumed: seq<byte>

    ghost predicate Valid()
      reads this, receiver, receiver.unread, receiver.acks, buffer
    {
      receiver.Valid() && next <= buffer.Length
    }

    function Room(): nat
      requires next <= buffer.Length
      reads this
    {
      buffer.Length - next
    }

    constructor (receiver: Receiver, buffer: array<byte>)
      requires receiver.Valid()
      ensures Valid() && this.receiver == receiver && this.buffer == buffer
      ensures next == buffer.Length && transferred == 0 && atLeast == 0 && !due && consumed == []
    {
      this.receiver := receiver;
      this.buffer := buffer;
      next, transferred, atLeast, due, consumed := buffer.Length, 0, 0, false, [];
    }

    /**
     Starts a read and at once takes what the receiver has ready; a read of no bytes
     completes instead, with the previous read's count.
     */
    method StartRead(data: array<byte>, from: nat, least: nat) returns (ghost chunk: seq<byte>)
      requires Valid() && from <= data.Length
      modifies this, data, receiver.unread
      ensures Valid() && consumed == old(consumed) + chunk
      ensures Took(old(receiver.unread.Value()), data.Length - from, chunk, receiver.unread.Value())
      ensures |chunk| <= data.Length - from && Spliced(old(data[..]), from, chunk, data[..])
      ensures from == data.Length ==>
                && due && buffer == old(buffer) && next == old(next)
                && transferred == old(transferred) && atLeast == old(atLeast)
      ensures from < data.Length ==>
                && buffer == data && next == from + |chunk| && transferred == |chunk| && atLeast == least
                && due == (|chunk| == data.Length - from || |chunk| >= least)
    {
      hide Drain, Spliced, Took;
      SpliceNone(data[..], from);
      TookNothing(receiver.unread.Value());
      chunk := [];
      if data.Length - from == 0 {
        due := true;
        return;
      }
      buffer, next, atLeast, transferred, due := data, from, least, 0, false;
      chunk := ProcessRead();
    }

    /** Takes what the receiver has ready, as much as fits. */
    method ProcessRead() returns (ghost chunk: seq<byte>)
      requires Valid()
      modifies this, buffer, receiver.unread
      ensures Valid() && buffer == old(buffer) && atLeast == old(atLeast)
      ensures Took(old(receiver.unread.Value()), old(Room()), chunk, receiver.unread.Value())
      ensures |chunk| <= old(Room())
      ensures consumed == old(consumed) + chunk && transferred == old(transferred) + |chunk|
      ensures next == old(next) + |chunk| && Spliced(old(buffer[..]), old(next), chunk, buffer[..])
      ensures due == (old(due) || (old(Room()) > 0 && (Room() == 0 || transferred >= atLeast)))
    {
      hide Drain, Spliced;
      SpliceNone(buffer[..], next);
      TookNothing(receiver.unread.Value());
      chunk := [];
      if buffer.Length - next == 0 {
        return;
      }
      chunk := ReceiverSpec.ReadData(receiver.unread.Value(), buffer.Length - next).1;
      var length := receiver.ReadData(buffer, next);
      consumed := consumed + chunk;
      next := next + length;
      transferred := transferred + length;
      if buffer.Length - next == 0 || transferred >= atLeast {
        due := true;
      }
    }
  }

  /** The reading half of a connection. */
  class FrameReader {
    const input: ReadSide
    var buffer: array<byte>
    var dataSize: nat
    var dataReceived: nat
    var stage: FramingSpec.Stage

    /** Where the present frame starts in what was taken, and what has been dispatched. */
    ghost var start: nat
    ghost var messages: seq<seq<byte>>

    /** The pending read, if it can take anything, writes into the connection's buffer. */
    ghost predicate Valid()
      reads this, input, input.receiver, input.receiver.unread, input.receiver.acks, input.buffer, buffer
    {
      input.Valid() && (input.buffer == buffer || input.next == input.buffer.Length)
    }

    ghost function State(): FramingSpec.ReaderState
      requires Valid()
      reads this, input, input.receiver, input.receiver.unread, input.receiver.acks, input.buffer, buffer
    {
      FramingSpec.ReaderState(stage, buffer[..], dataSize, dataReceived, input.next, input.Room(), input.transferred,
                              input.atLeast, input.due, input.consumed, start, messages)
    }

    /** It reads at once what the receiver has ready. */
    constructor (receiver: Receiver)
      requires receiver.Valid()
      modifies receiver.unread
      ensures Valid() && fresh(input) && fresh(buffer)
      ensures FramingSpec.Fits(FramingSpec.FRESH_READER, input.consumed)
      ensures State() == FramingSpec.ProcessRead(FramingSpec.FRESH_READER, input.consumed)
      ensures input.receiver == receiver
      ensures Took(old(receiver.unread.Value()), 4, input.consumed, receiver.unread.Value())
    {
      var none := new byte[0];
      var side := new ReadSide(receiver, none);
      buffer := none;
      input := side;
      dataSize, dataReceived, stage := 0, 0, FramingSpec.ReadingSize;
      start, messages := 0, [];
      new;
      hide Took;
      ghost var chunk := StartReadSize();
      assert chunk == [] + chunk;
    }

    method Resize(size: nat)
      requires Valid()
      modifies this`buffer
      ensures fresh(buffer) && buffer[..] == FramingSpec.Resized(old(buffer[..]), size)
    {
      var content := FramingSpec.Resized(buffer[..], size);
      buffer := new byte[size](i requires 0 <= i < |content| => content[i]);
    }

    /** Resizes the buffer and reads into it; `chunk` is what the socket hands over at once. */
    method Begin(size: nat, from: nat, least: nat) returns (ghost chunk: seq<byte>)
      requires Valid() && from <= size && (from < size || input.next == input.buffer.Length)
      modifies this`buffer, input, input.receiver.unread
      ensures Valid() && fresh(buffer)
      ensures var r := FramingSpec.StartRead(
                         old(State()).(buffer := FramingSpec.Resized(old(buffer[..]), size)), from, least);
              && FramingSpec.Fits(r, chunk) && State() == FramingSpec.ProcessRead(r, chunk)
              && Took(old(input.receiver.unread.Value()), r.room, chunk, input.receiver.unread.Value())
    {
      hide Took, FramingSpec.Resized;
      Resize(size);
      chunk := input.StartRead(buffer, from, least);
    }

    method StartReadSize() returns (ghost chunk: seq<byte>)
      requires Valid()
      modifies this, input, input.receiver.unread
      ensures Valid() && fresh(buffer)
      ensures var r := FramingSpec.StartReadSize(old(State()));
              && FramingSpec.Fits(r, chunk) && State() == FramingSpec.ProcessRead(r, chunk)
              && Took(old(input.receiver.unread.Value()), r.room, chunk, input.receiver.unread.Value())
    {
      hide FramingSpec.Resized, FramingSpec.StartRead, FramingSpec.ProcessRead;
      stage := FramingSpec.ReadingSize;
      start := |input.consumed|;
      chunk := Begin(4, 0, 4);
    }

    /** The response has been written from the same buffer; the next message is awaited. */
    method ReadAgain(response: seq<byte>) returns (ghost chunk: seq<byte>)
      requires Valid() && stage.Dispatched? && input.next == input.buffer.Length
      modifies this, input, input.receiver.unread
      ensures Valid() && fresh(buffer)
      ensures var r := FramingSpec.Apply(old(State()), FramingSpec.Again(response));
              && FramingSpec.Fits(r, chunk) && State() == FramingSpec.ProcessRead(r, chunk)
              && Took(old(input.receiver.unread.Value()), r.room, chunk, input.receiver.unread.Value())
    {
      hide FramingSpec.StartReadSize, FramingSpec.ProcessRead;
      buffer := new byte[|response|](i requires 0 <= i < |response| => response[i]);
      assert buffer[..] == response;
      chunk := StartReadSize();
    }

    /** The buffer is sized so that the read cannot go beyond the message. */
    method StartReadData(best: nat) returns (ghost chunk: seq<byte>)
      requires Valid()
      requires input.next == input.buffer.Length || FramingSpec.Wanted(dataSize, dataReceived, best) > 0
      modifies this, input, input.receiver.unread
      ensures Valid()
      ensures var r := FramingSpec.StartReadData(old(State()), best);
              && FramingSpec.Fits(r, chunk) && State() == FramingSpec.ProcessRead(r, chunk)
              && Took(old(input.receiver.unread.Value()), r.room, chunk, input.receiver.unread.Value())
    {
      hide FramingSpec.Wanted, FramingSpec.Resized, FramingSpec.StartRead, FramingSpec.ProcessRead;
      stage := FramingSpec.ReadingData;
      chunk := Begin(dataReceived + FramingSpec.Wanted(dataSize, dataReceived, best), dataReceived, 1);
    }

    /** The socket serves the pending read, which writes into this connection's buffer. */
    method Take() returns (ghost chunk: seq<byte>)
      requires Valid() && input.buffer == buffer
      modifies input, buffer, input.receiver.unread
      ensures Valid() && FramingSpec.Fits(old(State()), chunk)
      ensures State() == FramingSpec.ProcessRead(old(State()), chunk)
      ensures Took(old(input.receiver.unread.Value()), old(input.Room()), chunk, input.receiver.unread.Value())
    {
      hide Readable, Took;
      chunk := input.ProcessRead();
    }

    method HandleReadSize(best: nat) returns (ghost chunk: seq<byte>)
      requires Valid() && buffer.Length == 4 && input.next == input.buffer.Length
      modifies this, input, input.receiver.unread
      ensures Valid()
      ensures var r := FramingSpec.HandleReadSize(old(State()), best);
              && FramingSpec.Fits(r, chunk) && State() == FramingSpec.ProcessRead(r, chunk)
              && Took(old(input.receiver.unread.Value()), r.room, chunk, input.receiver.unread.Value())
    {
      hide FramingSpec.StartReadData, FramingSpec.ProcessRead;
      var n := U32Of(buffer[..4]);
      dataSize := if n < 0x8000_0000 then n else n + FramingSpec.SIZE_MAX - 0x1_0000_0000;
      dataReceived := 0;
      chunk := StartReadData(best);
    }

    method HandleReadData(best: nat) returns (ghost chunk: seq<byte>)
      requires Valid() && best > 0
      requires dataReceived + input.transferred < FramingSpec.SIZE_MAX && dataSize < FramingSpec.SIZE_MAX
      modifies this, input, input.receiver.unread
      ensures Valid()
      ensures var r := FramingSpec.HandleReadData(old(State()), best);
              if r.stage.Dispatched? then
                State() == r && chunk == [] && input.receiver.unread.Value() == old(input.receiver.unread.Value())
              else
                && FramingSpec.Fits(r, chunk) && State() == FramingSpec.ProcessRead(r, chunk)
                && Took(old(input.receiver.unread.Value()), r.room, chunk, input.receiver.unread.Value())
    {
      hide FramingSpec.StartReadData, FramingSpec.ProcessRead;
      chunk := [];
      dataReceived := dataReceived + input.transferred;
      if dataReceived == dataSize {
        stage := FramingSpec.Dispatched;
        messages := messages + [buffer[..]];
        input.due := false;
      } else {
        FramingSpec.StaysReading(State(), best);
        chunk := StartReadData(best);
      }
    }
  }

  lemma SmallTop(size: int)
    requires 0 <= size < 0x1_0000_0000
    ensures size / 0x100_0000 % 0x100 == size / 0x100_0000 && size / 1 == size
  {
  }

  /** The frame is the length, byte by byte from the top, and the message. */
  method EncodeMessage(message: seq<byte>) returns (frame: Option<seq<byte>>)
    ensures frame == FramingSpec.EncodeFrame(message)
  {
    var size := FramingSpec.Int32(|message|);
    if size < 0 || size > FramingSpec.MAX_MESSAGE {
      return None;
    }
    var buffer: seq<byte> := [];
    var i := 0;
    var divisors := [0x100_0000, 0x1_0000, 0x100, 1];
    while i != 4
      invariant 0 <= i <= 4 && |buffer| == i
      invariant forall j :: 0 <= j < i ==> buffer[j] == size / divisors[j] % 0x100
    {
      buffer := buffer + [size / divisors[i] % 0x100];
      i := i + 1;
    }
    SmallTop(size);
    assert buffer == U32Bytes(size);
    return Some(buffer + message);
  }
}
