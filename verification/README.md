# The RUDP transport, modelled and verified

RUDP is the reliable byte stream of this transport library: a sender cuts application data into numbered
packets, a receiver puts them back in order and acknowledges them, and lost packets are sent again, over UDP
datagrams that may be lost, duplicated, delayed and reordered. Sequence numbers have 31 bits and wrap around.
This project is a Dafny model of that engine and of what surrounds it: the sliding window, sender and receiver,
negative acknowledgements, packet encodings, the connection handshake, congestion control, message framing,
socket registry and acceptor. `dafny verify dfyconfig.toml` checks all of it.

## How it is built

Code that works by updating objects is modelled by classes and methods with the same fields, loops and branches.
Each is proved equal to a function of values (the modules ending in `Spec`), and the protocol modules compose
those functions with a network and prove invariants over every run:

- `SequenceNumbers`, `SlidingWindows`: a packet is counted by an unbounded natural, its *absolute* number; the
  window class sees only that number modulo 2^31. `Window` is the queue over absolute numbers it refines.
- `SenderSpec`/`Senders`, `ReceiverSpec`/`Receivers`, `NegativeAcks`: the two ends of a stream.
- `StreamProtocol`, `StreamFacts`, `StreamSafety`, `StreamTheorems`, `StreamProgress`, `NackExchange`: one
  direction of a connection. A packet sent may be delivered at any time, any number of times, until it is lost.
- `StreamLedger`, `StreamCompletion`: that every run can be completed, by retransmission alone, whatever was lost.
  `StreamAge`, `StreamStale`: how old a packet may be, and what happens to the stream if it is older.
  `StreamRouting`: that packets reach the peer's socket.
- `WireFormat`, `Codec`: bytes on the wire, and which handler they reach.
- `SessionSpec`/`Sessions`, `HandshakeProtocol`, `HandshakeProgress`: any number of client and server sockets shaking
  hands; what they agree on, and which clients can get connected.
- `CongestionSpec`/`CongestionControls`, `CongestionTheorems`, `CongestionAdaptation`, `CongestionRates`: window, size,
  time and rate arithmetic.
- `FramingSpec`, `FramingTheorems`, `Sockets`: messages on a stream, and the socket's pending read and write.
- `EndToEnd`: sender, network, receiver, socket and message reader running together.
- `Registries`, `HostProtocol`: dispatcher, acceptor, and the sockets of a host.

Choices that matter when reading the statements:

- **Age of packets.** 31-bit numbers come round again. Runs deliver a data packet only while its number plus 2^31 is
  at least a maximum window beyond the end of the receiver's window (`StreamProtocol.FreshData`), and an
  acknowledgement only while its ack point plus 2^31 is beyond the sender's window (`FreshAck`). `StreamAge` proves
  that within a cycle these are exactly the packets recognised as old, says for packets of every age exactly when
  delivery is harmless, and that neither bound can be relaxed. `StreamStale` reaches the failures by runs from every
  initial state: a data packet of any age from the bound to a cycle makes the reader read a byte nobody wrote there,
  and an acknowledgement a cycle old loses a byte. Negative acknowledgements and acknowledgements of acknowledgements
  need no bound: the protocol model lets arbitrary ones arrive.
- **Surroundings.** Clock readings, timeouts, window and data sizes, random numbers and whether the UDP socket takes a
  packet are parameters of each step. The theorems about every run hold for all of them. The theorems that a run exists
  (`Completes`, `StalePacketCorrupts`, `StaleAckLoses`) do not choose them either: they hold for every schedule of
  surroundings in which sends succeed, data sizes and receive windows are not zero and both clocks, less the timeouts,
  pass every bound (`StreamCompletion.Kind`). They ask that acknowledgements of acknowledgements heard so far were
  given by the sender (`StreamLedger.Honest`): a forged one makes the receiver forget what it has to repeat. One call sees one clock reading. How the date library orders an unset time against the
  clock is a parameter too.
- **Bits.** Shifts and masks on unsigned words are written as division and remainder by powers of two, and setting a
  bit known to be clear as addition. Multiplication by 0.9 and 1.5, truncated, is exact integer arithmetic: for
  32-bit sizes, the double product truncates to the same integer.
- **Parameters.** Window, data and packet sizes are arbitrary settings with 0 < default window <= maximum window < 2^30,
  0 < default data <= maximum data, maximum data + 16 <= packet size and 16 + 4 * maximum window <= packet size
  (`Parameters.SoundSettings`); those the program starts with are among them. What needs more says so: 32-bit buffer
  sizes are exact precisely when maximum window * maximum data < 2^32, and acknowledgements and handshakes fit precisely
  when packets of 40 and 64 bytes do.
- **As written.** The mutable `Back()` of the window returns its front, so the age that decides whether an
  acknowledgement is repeated is that of the oldest entry (rudp_sliding_window.h:168-171, rudp_receiver.cc:161-162).
  The comment beside it says back; the model follows the code.

## Model

| member | source | states |
|---|---|---|
| `SequenceNumbers.RangeIsDistance` | src/maidsafe/transport/rudp_sliding_window.h:210-217 | The two-case range test holds of a number exactly when its cyclic distance from the start is less than the length of the range, for every position of the wrap-around. |
| `SequenceNumbers.IndexIsDistance` | src/maidsafe/transport/rudp_sliding_window.h:191-199 | The three-case index formula is that distance. |
| `SlidingWindows.SlidingWindow.constructor` | src/maidsafe/transport/rudp_sliding_window.h:58-63 | An empty window at the given number, with the default limit. |
| `SlidingWindows.SlidingWindow.Reset` | src/maidsafe/transport/rudp_sliding_window.h:65-71 | Back to an empty window at the given number. |
| `SlidingWindows.SlidingWindow.Contains` | src/maidsafe/transport/rudp_sliding_window.h:83-86 | Membership by wire number is membership in the queue of unbounded indices, taken modulo 2^31; numbers above 2^31 are never members. |
| `SlidingWindows.SlidingWindow.IsComingSoon` | src/maidsafe/transport/rudp_sliding_window.h:88-96 | True exactly of the numbers less than the maximum window past the end, cyclically. |
| `SlidingWindows.SlidingWindow.SizeIsSpan` | src/maidsafe/transport/rudp_sliding_window.h:109-112 | The distance from begin to end is the item count, at most the maximum window, even after the limit shrank. |
| `SlidingWindows.SlidingWindow.SetMaximumSize` | src/maidsafe/transport/rudp_sliding_window.h:103-107 | The limit is capped; items and numbers stay. |
| `SlidingWindows.SlidingWindow.Append` | src/maidsafe/transport/rudp_sliding_window.h:124-132 | The item goes to the end of the unbounded-index queue and gets that index's wire number. |
| `SlidingWindows.SlidingWindow.Remove` | src/maidsafe/transport/rudp_sliding_window.h:134-140 | The first item of the unbounded-index queue goes. |
| `SlidingWindows.SlidingWindow.SequenceNumberToIndex` | src/maidsafe/transport/rudp_sliding_window.h:190-199 | The index found is the position in the queue. |
| `SlidingWindows.SlidingWindow.Set` | src/maidsafe/transport/rudp_sliding_window.h:142-146 | Assigning through an index changes that item only. |
| `SlidingWindows.SlidingWindow.Walk` | src/maidsafe/transport/rudp_sliding_window.h:180-183 | Stepping with Next from begin visits the items in order and meets end exactly after the last. |
| `SlidingWindows.HasExact` | src/maidsafe/transport/rudp_sliding_window.h:83-86 | Of numbers within a cycle of the window, exactly those in the absolute interval are contained. |
| `SlidingWindows.SoonExact` | src/maidsafe/transport/rudp_sliding_window.h:88-96 | Of numbers within a cycle, exactly those of the next maximum window are coming soon. |
| `SenderSpec.Chunks` | src/maidsafe/transport/rudp_sender.cc:77-94 | The pieces are a prefix of the data, no more than the free slots, none above the data size. |
| `SenderSpec.ChunksFill` | src/maidsafe/transport/rudp_sender.cc:77-98 | The bytes accepted are the lesser of the data and what the free slots hold: nothing is held back. |
| `SenderSpec.FirstSendable` | src/maidsafe/transport/rudp_sender.cc:162-187 | The slot sent is lost and taken by the socket, and no earlier slot is. |
| `Senders.Sender.AddData` | src/maidsafe/transport/rudp_sender.cc:66-99 | Limit, chunks, numbering, addressee and the first send are those of the specification the protocol is proved with. |
| `SenderSpec.AddDataFlows` | src/maidsafe/transport/rudp_sender.cc:66-98 | With nothing outstanding, data is never refused, not even under a window of zero; otherwise no more is outstanding than the window allows or was before; data is left over only when the window is full. |
| `Senders.Sender.Enqueue` | src/maidsafe/transport/rudp_sender.cc:73-94 | The chunking loop appends the chunks under consecutive numbers and counts their bytes. |
| `Senders.Sender.DoSend` | src/maidsafe/transport/rudp_sender.cc:162-193 | One packet goes out and is stamped, or the timeout is set from the front. |
| `Senders.Sender.HandleAck` | src/maidsafe/transport/rudp_sender.cc:101-126 | Drops up to the acknowledged number if it is in the window or next; answers with the acknowledgement's own number. |
| `Senders.Sender.HandleNegativeAck` | src/maidsafe/transport/rudp_sender.cc:128-140 | Marks exactly the window's packets that the loss list names. |
| `Senders.Sender.HandleTick` | src/maidsafe/transport/rudp_sender.cc:142-160 | After the timeout, marks exactly the overdue packets; then sends. |
| `ReceiverSpec.Ready` | src/maidsafe/transport/rudp_receiver.cc:228-235 | The run of received packets at the front: all of it received, and what follows it is lost. |
| `ReceiverSpec.DrainTakes` | src/maidsafe/transport/rudp_receiver.cc:76-101 | Reading is taking: as many bytes as fit and are there, and output followed by what stays readable is what was readable. |
| `Receivers.Receiver.Reset` | src/maidsafe/transport/rudp_receiver.cc:65-68 | An empty window at the agreed number, which also counts as acknowledged. |
| `Receivers.Receiver.Flushed` | src/maidsafe/transport/rudp_receiver.cc:70-74 | True exactly when no acknowledgement is unanswered and the ack point is the last one announced. |
| `Receivers.Receiver.ReadData` | src/maidsafe/transport/rudp_receiver.cc:76-101 | The buffer gets exactly the bytes taken, at its start, and the window is what the taking leaves. |
| `Receivers.Receiver.HandleData` | src/maidsafe/transport/rudp_receiver.cc:103-133 | Slots are reserved up to the packet or the limit, and the packet fills its slot if that is open. |
| `Receivers.Receiver.HandleAckOfAck` | src/maidsafe/transport/rudp_receiver.cc:135-150 | Retires the entries up to the one answered; the time since that one was sent is the sample for the congestion controller, unless as an unsigned number it does not fit 32 bits. |
| `ReceiverSpec.SampleExact` | src/maidsafe/transport/rudp_receiver.cc:140-144 | A sample is taken exactly when the clock has gone on by less than 2^32 - 1 microseconds, and is that time; a clock that went back yields none. |
| `Receivers.Receiver.AckPacketSequenceNumber` | src/maidsafe/transport/rudp_receiver.cc:228-235 | The wire number of the ack point. |
| `Receivers.Receiver.AvailableBufferSize` | src/maidsafe/transport/rudp_receiver.cc:218-226 | Free slots times the maximum data size, converted to 32 bits. |
| `ReceiverSpec.AvailableExact` | src/maidsafe/transport/rudp_receiver.cc:218-226 | The size announced is that of the free slots, for every window, if and only if maximum window * maximum data < 2^32. |
| `Receivers.Receiver.SendAck` | src/maidsafe/transport/rudp_receiver.cc:152-184 | The acknowledgement half of a tick: when due, recorded and sent for the ack point; the oldest entry gives way when full. |
| `Receivers.Receiver.ReportMissing` | src/maidsafe/transport/rudp_receiver.cc:186-211 | The loss list names exactly the missing slots, across the wrap-around, in at most 2(W+1)/3 words for W slots; their clocks restart. |
| `Receivers.Receiver.HandleTick` | src/maidsafe/transport/rudp_receiver.cc:152-216 | Both halves of a tick together; the report is sent exactly when some slot is missing. |
| `NegativeAcks.NamesSingle` | src/maidsafe/transport/rudp_negative_ack_packet.cc:43-46 | A single number adds itself, and nothing else, to what a closed list names. |
| `NegativeAcks.NamesRun` | src/maidsafe/transport/rudp_negative_ack_packet.cc:48-54 | A run adds exactly its numbers, though its last word is also read as a single number. |
| `NegativeAcks.RunIsInterval` | src/maidsafe/transport/rudp_negative_ack_packet.cc:68-77 | A run from first to last is the interval of absolute numbers, with or without wrap-around. |
| `NegativeAcks.NegativeAck.AddSequenceNumber` | src/maidsafe/transport/rudp_negative_ack_packet.cc:43-46 | Appends the number and names it. |
| `NegativeAcks.NegativeAck.AddSequenceNumbers` | src/maidsafe/transport/rudp_negative_ack_packet.cc:48-54 | Appends the marked first and the last, and names the run. |
| `NegativeAcks.NegativeAck.ContainsSequenceNumber` | src/maidsafe/transport/rudp_negative_ack_packet.cc:62-85 | Finds a number exactly when some word, or word and successor, names it. |
| `NegativeAcks.NegativeAck.Encode` | src/maidsafe/transport/rudp_negative_ack_packet.cc:114-130 | Writes header and words, or nothing when the buffer is too small. |
| `NegativeAcks.NegativeAck.Decode` | src/maidsafe/transport/rudp_negative_ack_packet.cc:91-112 | Takes over header and words of a valid datagram, or changes nothing. |
| `NackExchange.ReportMarksExactly` | src/maidsafe/transport/rudp_sender.cc:128-137 | Of the sender's window, a report marks exactly the packets whose slots the receiver misses; no packet changes. |
| `NackExchange.ReportTravels` | src/maidsafe/transport/rudp_receiver.cc:186-211 | The report fits the send buffer and arrives as the same negative acknowledgement. |
| `NackExchange.HoleReportedAfterTimeout` | src/maidsafe/transport/rudp_receiver.cc:186-211 | A slot reserved for a packet is reported exactly when the packet has not come and the slot has waited longer than the timeout. |
| `NackExchange.HoleReportedNext` | src/maidsafe/transport/rudp_receiver.cc:186-211 | A reported slot is reported again exactly when it has waited as long once more; another, when it has waited long enough since it was reserved. |
| `StreamSafety.AckDrops` | src/maidsafe/transport/rudp_sender.cc:120-122 | An acknowledgement that meets the age bound drops exactly up to the ack point it was made for, or nothing if that is behind the window. |
| `StreamSafety.StoreLands` | src/maidsafe/transport/rudp_receiver.cc:117-129 | A data packet at most a cycle behind the window lands in the slot of its own absolute number, or nowhere. |
| `StreamFacts.FillingReads` | src/maidsafe/transport/rudp_receiver.cc:117-129 | A packet stored behind the gap changes nothing yet; one stored in it makes readable all that it closes up. |
| `StreamFacts.DrainKeepsAckPoint` | src/maidsafe/transport/rudp_receiver.cc:76-101 | Reading does not move the ack point. |
| `StreamSafety.StepKeeps` | src/maidsafe/transport/rudp_socket.cc:283-325 | Every write, read, tick and delivery keeps the protocol's invariant and does not move the ack point back. |
| `StreamTheorems.RunInv` | src/maidsafe/transport/rudp_socket.cc:283-325 | The invariant holds in every state of every run. |
| `StreamTheorems.ReliableDelivery` | src/maidsafe/transport/rudp_receiver.cc:76-133 | In every run with loss, duplication, reordering and wrap-around, the bytes read are a prefix of the bytes accepted. |
| `StreamTheorems.NothingGoesBack` | src/maidsafe/transport/rudp_receiver.cc:228-235 | Over every run the ack point never moves back, and delivered and accepted bytes only grow at the end. |
| `StreamTheorems.AckSafety` | src/maidsafe/transport/rudp_sender.cc:101-126 | In every reachable state: sender begin <= ack point <= receiver end <= sender end, in absolute numbers. |
| `StreamTheorems.AckPointsInOrder` | src/maidsafe/transport/rudp_receiver.cc:163-182 | The unanswered acknowledgements carry non-decreasing ack points, none beyond the present one. |
| `StreamTheorems.AckOfAckExact` | src/maidsafe/transport/rudp_receiver.cc:147-149 | An answer to entry n retires exactly the entries up to and including n, or nothing. |
| `StreamTheorems.TickAnnounces` | src/maidsafe/transport/rudp_receiver.cc:154-183 | After a tick that is not too early the ack point is the last one announced, by the newest entry if it changed. |
| `StreamTheorems.FlushedMeansReceived` | src/maidsafe/transport/rudp_sender.cc:62-64 | If the sender is flushed, the peer holds every accepted byte, read or readable without a gap. |
| `StreamTheorems.NoUnfillableHole` | src/maidsafe/transport/rudp_receiver.cc:103-129 | Every lost slot of the receiver is still in the sender's window with its number and its bytes. |
| `StreamTheorems.WindowGeometry` | src/maidsafe/transport/rudp_sliding_window.h:83-96 | Every packet of the sender's window is, by its wire number, exactly one of: consumed, contained at its position, coming soon. |
| `StreamTheorems.RefusedOnlyWhenFull` | src/maidsafe/transport/rudp_receiver.cc:113-129 | Outstanding data that is not stored was refused because the receiver's window is full. |
| `StreamProgress.AllWaitingSent` | src/maidsafe/transport/rudp_sender.cc:162-187 | If sends succeed, as many calls of DoSend as there are lost packets send them all, in sequence order, and then nothing is left. |
| `StreamProgress.TickResends` | src/maidsafe/transport/rudp_sender.cc:142-160 | After the timeout, what a tick sends and what still waits are the packets lost or overdue, in order. |
| `StreamProgress.TickEarly` | src/maidsafe/transport/rudp_sender.cc:142-160 | Before the timeout a tick puts nothing back in line. |
| `StreamProgress.LoneResentExactly` | src/maidsafe/transport/rudp_sender.cc:142-193 | A packet on its own is sent again by a tick exactly when more than the timeout has passed since it was sent. |
| `StreamProgress.ReportedHolesResent` | src/maidsafe/transport/rudp_sender.cc:128-140 | After a loss report, the sends include the right bytes for every missing slot. |
| `StreamProgress.DeliverAllGets` | src/maidsafe/transport/rudp_receiver.cc:103-133 | Outstanding packets delivered in any order, with repeats, to a receiver with room are all there afterwards. |
| `StreamProgress.DeliveryFlushes` | src/maidsafe/transport/rudp_sender.cc:120-122 | Once all outstanding packets are delivered, the acknowledgement of the resulting ack point flushes the sender. |
| `StreamLedger.RunLedger` | src/maidsafe/transport/rudp_sender.cc:101-193 | In every run, whatever was lost: packets that do not wait have the time they were sent at, the last announced ack point is remembered, acknowledgements carry their own numbers, and the sender has dropped exactly up to the furthest ack point it answered. |
| `StreamLedger.RunUnanswered` | src/maidsafe/transport/rudp_receiver.cc:135-183 | If answers are honest: when no acknowledgement is unanswered, the sender has dropped all that was announced. |
| `StreamLedger.FlushedMeansHeard` | src/maidsafe/transport/rudp_receiver.cc:70-74 | If answers are honest: a flushed receiver means that the sender has dropped everything received without a gap. |
| `StreamLedger.AckSentExactly` | src/maidsafe/transport/rudp_receiver.cc:152-183 | In every run, a tick sends an acknowledgement if and only if the interval has passed and the ack point is not the one announced last, or the oldest unanswered acknowledgement is due again. |
| `StreamLedger.AcksSpaced` | src/maidsafe/transport/rudp_receiver.cc:154-155 | Any two acknowledgements are further apart than the interval, however often the receiver ticks. |
| `StreamCompletion.ResendAll` | src/maidsafe/transport/rudp_sender.cc:142-193 | In any kind surroundings, from every reachable state, whatever was lost: ticks of the sender alone put every outstanding packet on the network again. |
| `StreamCompletion.Completes` | src/maidsafe/transport/rudp_socket.cc:283-325 | In any kind surroundings, from every state reachable with honest answers, whatever data packets and acknowledgements were lost: there is a finite continuation, of ticks, deliveries and reads without writes, after which the sender is flushed, the receiver empty and exactly the accepted bytes are delivered. |
| `StreamRouting.ReachesThePeer` | src/maidsafe/transport/rudp_sender.cc:79-93 | In every run between two sockets, the peer's dispatcher routes the bytes of every data packet and of every acknowledgement to the socket registered under the peer's id. |
| `StreamRouting.RepliesReachThePeer` | src/maidsafe/transport/rudp_sender.cc:115-118 | The same of acknowledgements of acknowledgements and of loss reports. |
| `StreamAge.OldIgnoredExactly` | src/maidsafe/transport/rudp_sliding_window.h:83-96 | Of old numbers within a cycle, the receiver takes for neither contained nor coming soon exactly those that meet the age bound. |
| `StreamAge.DeliveryExact` | src/maidsafe/transport/rudp_receiver.cc:103-133 | For every packet ever sent, of any age: delivering it keeps the invariant if and only if it neither makes the window grow beyond what was sent nor fills the open slot of a packet with other bytes. |
| `StreamAge.DataBoundTight` | src/maidsafe/transport/rudp_receiver.cc:113-129 | To a receiver that has everything and has room, delivering a packet up to a cycle old keeps the invariant if and only if it meets the age bound. |
| `StreamAge.OldAckIgnoredExactly` | src/maidsafe/transport/rudp_sender.cc:101-126 | Of old ack points within a cycle, the sender ignores exactly those that meet the age bound. |
| `StreamAge.HearingExact` | src/maidsafe/transport/rudp_sender.cc:101-126 | For every acknowledgement ever sent, of any age: hearing it keeps the invariant if and only if the number it is taken for is not between the ack point and the end of the window. |
| `StreamAge.AckBoundTight` | src/maidsafe/transport/rudp_sender.cc:101-126 | Within a cycle of the ack point, hearing an acknowledgement keeps the invariant if and only if it meets the age bound; otherwise the sender drops the packet the receiver waits for. |
| `StreamStale.StalePacketCorrupts` | src/maidsafe/transport/rudp_receiver.cc:103-133 | From every initial state, in any kind surroundings and for every age from the bound to a cycle: there is a run that ends with everything delivered, and a packet of it of that age that, delivered again to a window with room, leads on to a state in which a byte beyond all that was accepted has been read. |
| `StreamStale.StaleAckLoses` | src/maidsafe/transport/rudp_sender.cc:101-126 | From every initial state, in any kind surroundings: there is a run, and an acknowledgement of it one cycle old that, heard again, leaves the sender flushed and the receiver empty though the last byte accepted was not delivered. |
| `WireFormat.U32RoundTrip` | src/maidsafe/transport/rudp_packet.cc:51-63 | Decoding an encoded word gives the word. |
| `WireFormat.EncodeUint32` | src/maidsafe/transport/rudp_packet.cc:58-63 | Writes the four bytes, most significant first, and nothing else. |
| `WireFormat.HeaderRoundTrip` | src/maidsafe/transport/rudp_control_packet.cc:84-109 | An encoded control header is valid for its own type only and decodes to itself. |
| `WireFormat.EncodeBase` | src/maidsafe/transport/rudp_control_packet.cc:111-127 | Writes the header, or nothing when the buffer is too small. |
| `Codec.FlagByteExact` | src/maidsafe/transport/rudp_data_packet.cc:134-140 | The flags and the message number share a byte without disturbing each other. |
| `Codec.DataRoundTrip` | src/maidsafe/transport/rudp_data_packet.cc:122-171 | Every data packet decodes to itself. |
| `Codec.DataUnique` | src/maidsafe/transport/rudp_data_packet.cc:117-146 | A valid datagram is the encoding of what it decodes to. |
| `Codec.EncodeData` | src/maidsafe/transport/rudp_data_packet.cc:148-171 | Writes exactly the encoding, or nothing when the buffer is too small. |
| `Codec.AckDecodes` | src/maidsafe/transport/rudp_ack_packet.cc:122-146 | What decoding into any packet gives: a short one leaves the optional fields and their flag as they were. |
| `Codec.AckRoundTrip` | src/maidsafe/transport/rudp_ack_packet.cc:122-171 | Into a fresh packet, an acknowledgement decodes to itself exactly when it has its optional fields or they are zero. |
| `Codec.EncodeAck` | src/maidsafe/transport/rudp_ack_packet.cc:148-171 | Writes exactly the short or long encoding. |
| `Codec.BareRoundTrip` | src/maidsafe/transport/rudp_ack_of_ack_packet.cc:55-61 | Acknowledgements of acknowledgements, and shutdowns, decode to themselves. |
| `Codec.HandshakeRoundTrip` | src/maidsafe/transport/rudp_handshake_packet.cc:136-190 | Every handshake decodes to itself. |
| `Codec.EncodeHandshake` | src/maidsafe/transport/rudp_handshake_packet.cc:165-190 | Writes exactly the encoding, or nothing when the buffer is too small. |
| `Codec.NackRoundTrip` | src/maidsafe/transport/rudp_negative_ack_packet.cc:91-130 | Every loss list decodes to itself, and only the empty one is refused. |
| `Codec.AtMostOneDecoder` | src/maidsafe/transport/rudp_socket.cc:246-262 | No datagram is accepted by two of the six decoders. |
| `Codec.EachReachesItsHandler` | src/maidsafe/transport/rudp_socket.cc:237-262 | An encoded packet of each kind reaches its own handler unchanged. |
| `Codec.RoutedToDestination` | src/maidsafe/transport/rudp_packet.cc:41-49 | The destination is found in every packet without decoding it. |
| `Sessions.Session.Open` | src/maidsafe/transport/rudp_session.cc:58-72 | Sets id, number and mode; a client probes, a server challenges. |
| `Sessions.Session.HandleHandshake` | src/maidsafe/transport/rudp_session.cc:98-126 | The peer is fixed by the first packet; the transitions and answers of both modes. |
| `Sessions.Session.HandleTick` | src/maidsafe/transport/rudp_session.cc:128-136 | A client that is not connected repeats its request or its response. |
| `Sessions.Session.Close` | src/maidsafe/transport/rudp_socket.cc:121-123 | The session closes and the peer id is forgotten. |
| `HandshakeProtocol.StepKeeps` | src/maidsafe/transport/rudp_session.cc:98-207 | Every opening, acceptance, tick, delivery, loss and close keeps the handshake's invariant. |
| `HandshakeProtocol.Agreement` | src/maidsafe/transport/rudp_session.cc:98-207 | A connected client's peer is the one server socket opened for it that ever connected, each side receives from the number the other sends from, and each has learned the other's connection type, for any interleaving, any number of sockets, loss and duplicates. |
| `HandshakeProtocol.ServerAgreement` | src/maidsafe/transport/rudp_session.cc:98-207 | A server socket that ever connected is the one its client settled on and receives from the client's number; if that client is connected, it receives from this socket's. |
| `HandshakeProtocol.StreamsStartTogether` | src/maidsafe/transport/rudp_socket.cc:270-281 | On connection both directions start with sender and receiver at the same number, in an initial state of the stream protocol. |
| `HandshakeProtocol.ReservedTypeBreaksAgreement` | src/maidsafe/transport/rudp_session.cc:106-108 | If the server's configured connection type is the reserved value, agreement fails: a client connects to a server that never does. |
| `HandshakeProgress.Connects` | src/maidsafe/transport/rudp_session.cc:98-207 | From every reachable state, whatever was lost, an open client that is not deserted gets connected by ticks, acceptances and deliveries, to a server socket that has been connected; to one that is connected, if the one it settled on is open or it has not settled yet. |
| `HandshakeProgress.DesertedNeverConnects` | src/maidsafe/transport/rudp_session.cc:98-207 | And only such a client: one that settled on a server socket that is closed, with no acceptance left on its way, is not connected in any continuation. |
| `CongestionControls.CongestionControl.OnDataPacketReceived` | src/maidsafe/transport/rudp_congestion_control.cc:86-99 | Records the arrival and, every sixteenth packet, the interval, keeping the last seventeen. |
| `CongestionControls.CongestionControl.OnGenerateAck` | src/maidsafe/transport/rudp_congestion_control.cc:101-164 | Rate from the band around the median interval, capacity from the median pair interval, in unsigned 64-bit arithmetic whatever the clock does; receive window to the maximum. |
| `CongestionControls.CongestionControl.OnAck` | src/maidsafe/transport/rudp_congestion_control.cc:169-224 | Adopts the peer's times, resets the acknowledgement delay, smooths the rates, adapts data size and window. |
| `CongestionAdaptation.AckMovesWindow` | src/maidsafe/transport/rudp_congestion_control.cc:214-223 | The send window grows by the number of maximum packets the peer has room for, up to the maximum, if the peer has room for more than eight of the new data size; else it shrinks to nine tenths, down to the default. |
| `CongestionAdaptation.LargestBufferIgnored` | src/maidsafe/transport/rudp_congestion_control.cc:214-216 | At a reported size of 2^32 - 1 the sum wraps around and the window stays. |
| `CongestionAdaptation.WindowFollowsPeer` | src/maidsafe/transport/rudp_congestion_control.cc:207-223 | After any history, as many acknowledgements as the limits are apart bring the window to the maximum if at each the peer has room, and to the default if at each it has none, whatever else happens in between. |
| `CongestionAdaptation.AckMovesDataSize` | src/maidsafe/transport/rudp_congestion_control.cc:193-206 | The data size shrinks to nine tenths after more losses than tolerated, else grows by half, within its limits, and the losses are counted anew. |
| `CongestionAdaptation.DataSizeFollowsLosses` | src/maidsafe/transport/rudp_congestion_control.cc:193-206 | After any history, enough acknowledgements bring the data size to the default if before each there were too many losses; if there were not, to the maximum if and only if it is not a single byte. |
| `CongestionAdaptation.SmoothRateBetween` | src/maidsafe/transport/rudp_congestion_control.cc:182-192 | A smoothed rate moves an eighth of the way to the sample and lies between both; a sample of zero changes nothing. |
| `CongestionAdaptation.ReadingsTravel` | src/maidsafe/transport/rudp_receiver.cc:166-181 | What the receiver reads is what the peer's controller adopts after the wire: round-trip time and variance as they are, the rates smoothed in, the free room as buffer size. |
| `CongestionControls.CongestionControl.OnAckOfAck` | src/maidsafe/transport/rudp_congestion_control.cc:234-250 | Smooths round-trip time and variance in 32 bits and resets the acknowledgement delay. |
| `CongestionTheorems.AckDelayFollows` | src/maidsafe/transport/rudp_congestion_control.cc:178-180 | After any events the acknowledgement delay is four round-trip times, the variance and ten milliseconds. |
| `CongestionTheorems.ToleranceAgreed` | src/maidsafe/transport/rudp_congestion_control.cc:252-264 | Two peers that have told each other their types tolerate equally many losses, whatever their histories, exactly when the worse type is rated or they did before. |
| `CongestionTheorems.WorseIsMoreTolerant` | src/maidsafe/transport/rudp_congestion_control.cc:252-264 | The worse the connection, the more losses are tolerated and the larger the data size stays under the same losses. |
| `CongestionAdaptation.ToleratesExactly` | src/maidsafe/transport/rudp_congestion_control.cc:252-264 | For the named types, the data size survives at most five losses if either side is wireless, two if the worse is a T1 or E1 line, one on Ethernet. |
| `CongestionTheorems.ReadBufferExact` | src/maidsafe/transport/rudp_congestion_control.cc:101-153 | The receive window is the maximum exactly if an acknowledgement was generated after more than eight packets had come, else the default. |
| `CongestionTheorems.ReadBufferFits` | src/maidsafe/transport/rudp_congestion_control.cc:327-332 | The buffer size to read with is that of the receive window, after any events, if and only if maximum window * maximum data < 2^32. |
| `CongestionTheorems.RemembersLatest` | src/maidsafe/transport/rudp_congestion_control.cc:86-99 | After any events the controller has the latest seventeen of all arrival times and of all pair intervals: trimming at each packet comes to trimming once. |
| `CongestionSpec.SortSorts` | src/maidsafe/transport/rudp_congestion_control.cc:112-114 | The intervals are sorted and permuted. |
| `CongestionRates.IntervalsExact` | src/maidsafe/transport/rudp_congestion_control.cc:106-110 | The intervals are those between one arrival and the next, as unsigned numbers. |
| `CongestionRates.MedianDivides` | src/maidsafe/transport/rudp_congestion_control.cc:112-114 | The median is one of the intervals; at most half of them are below it and fewer than half above. |
| `CongestionRates.RateExact` | src/maidsafe/transport/rudp_congestion_control.cc:116-133 | There is a rate only if more than eight intervals lie within a factor of eight of the median, and it is how many of those fit into a second on average. |
| `CongestionRates.CapacityExact` | src/maidsafe/transport/rudp_congestion_control.cc:135-149 | The link capacity is how many median intervals fit into a second. |
| `CongestionTheorems.AlwaysInBounds` | src/maidsafe/transport/rudp_congestion_control.cc:169-224 | Over every sequence of events the send window, receive window and data size stay within their limits. |
| `CongestionTheorems.DataFits` | src/maidsafe/transport/rudp_multiplexer.h:78-88 | After any events and for all settings, every data packet built fits the send buffer, and the data size is not zero. |
| `CongestionTheorems.ControlFits` | src/maidsafe/transport/rudp_multiplexer.h:78-88 | Every acknowledgement fits the send buffer if and only if it has 40 bytes, every handshake if and only if it has 64. |
| `CongestionTheorems.SmoothRttExact` | src/maidsafe/transport/rudp_congestion_control.cc:239-241 | The 32-bit temporary gives the weighted average if and only if the exact sum is below 2^32. |
| `CongestionTheorems.SmoothingStays` | src/maidsafe/transport/rudp_congestion_control.cc:234-245 | Below 2^29 nothing is truncated and the smoothed value lies between the old one and the sample. |
| `CongestionTheorems.RttsStaySmall` | src/maidsafe/transport/rudp_congestion_control.cc:169-176 | If all samples are below 2^29, so is every value at both peers and in flight, over every exchange. |
| `CongestionTheorems.RateBounded` | src/maidsafe/transport/rudp_congestion_control.cc:112-133 | The rate is at most 16000000 even when the clock goes back and, for a median m from 8 to 2^57, zero or between 1000000/(8m) and 1000000/(m/8). |
| `CongestionTheorems.RateFits` | src/maidsafe/transport/rudp_congestion_control.cc:124-130 | After any events the computed rate is not truncated by its field. |
| `FramingSpec.FramesExactlyUpToLimit` | src/maidsafe/transport/rudp_connection.cc:360-376 | A message is accepted exactly when its length modulo 2^32 is within the limit, and framed under that length. |
| `Sockets.EncodeMessage` | src/maidsafe/transport/rudp_connection.cc:360-376 | The length byte by byte and the message, or the error. |
| `Sockets.WriteSide.StartWrite` | src/maidsafe/transport/rudp_socket.cc:153-167 | The data, in place of what still waited, is accepted as far as the sender takes it, the rest waits; done when nothing waits. An empty write completes and changes nothing else. |
| `Sockets.WriteSide.ProcessWrite` | src/maidsafe/transport/rudp_socket.cc:169-186 | Accepted followed by waiting stays the same, and the counters agree. |
| `Sockets.ReadSide.StartRead` | src/maidsafe/transport/rudp_socket.cc:188-204 | A read is set up and at once takes what the receiver has ready, or, if empty, completes with the previous count. |
| `Sockets.ReadSide.ProcessRead` | src/maidsafe/transport/rudp_socket.cc:206-224 | Takes what the receiver has, into its place in the buffer, and completes when full or satisfied. |
| `Sockets.FrameReader.StartReadSize` | src/maidsafe/transport/rudp_connection.cc:262-267 | Asks for the four bytes of a length, and takes at once what the receiver has of them. |
| `Sockets.FrameReader.ReadAgain` | src/maidsafe/transport/rudp_connection.cc:388-402 | After the response has been written from the same buffer, a new frame is awaited, and what the receiver has of it taken. |
| `Sockets.FrameReader.StartReadData` | src/maidsafe/transport/rudp_connection.cc:293-306 | Asks for no more than the rest of the message, and takes at once what the receiver has of it. |
| `Sockets.FrameReader.HandleReadSize` | src/maidsafe/transport/rudp_connection.cc:276-291 | Takes over the length and starts on the message. |
| `Sockets.FrameReader.HandleReadData` | src/maidsafe/transport/rudp_connection.cc:308-334 | Counts the bytes; dispatches at the announced length, else asks for more. |
| `FramingTheorems.FramingExact` | src/maidsafe/transport/rudp_connection.cc:276-334 | For any list of messages on one connection and however the stream is cut up: the messages dispatched are those sent, in order, each with exactly its frame consumed; and once all frames are taken all messages are dispatched. |
| `FramingTheorems.ReadsProgress` | src/maidsafe/transport/rudp_connection.cc:315-333 | Every completed data read strictly reduces what remains. |
| `FramingTheorems.MessagesDelivered` | src/maidsafe/transport/rudp_connection.cc:308-334 | If the reader has taken what the stream delivered, the messages dispatched are the first of those sent, and exactly their frames were read. |
| `EndToEnd.Halves` | src/maidsafe/transport/rudp_socket.cc:206-224 | Sender, network, receiver, socket and reader running together are a run of the stream and a run of the reader, which has always taken exactly what was delivered. |
| `EndToEnd.MessagesArrive` | src/maidsafe/transport/rudp_connection.cc:276-402 | In every joint run over the unreliable network the messages dispatched are the first of those sent, and at a dispatch exactly their frames have been delivered. |
| `FramingTheorems.EmptyMessageStalls` | src/maidsafe/transport/rudp_socket.cc:190-195 | The empty message is the exception: behind any messages and before any bytes, in every run neither it nor anything after it is dispatched. |
| `FramingTheorems.EmptyMessageWitness` | src/maidsafe/transport/rudp_socket.cc:190-195 | A run that takes all of the empty frame and then waits for more, having counted the four bytes of the length as data. |
| `Registries.Dispatcher.AddSocket` | src/maidsafe/transport/rudp_dispatcher.cc:62-70 | The id is non-zero, unused and one of those drawn; the socket is registered under it. |
| `Registries.Dispatcher.RemoveSocket` | src/maidsafe/transport/rudp_dispatcher.cc:72-75 | Exactly that id goes. |
| `Registries.Dispatcher.HandleReceiveFrom` | src/maidsafe/transport/rudp_dispatcher.cc:77-103 | Routes by destination: the acceptor for zero, the registered socket, or nobody. |
| `Registries.SentReachesRegistered` | src/maidsafe/transport/rudp_dispatcher.cc:77-103 | A packet encoded for a registered id is routed to that socket. |
| `Registries.Acceptor.StartAccept` | src/maidsafe/transport/rudp_acceptor.cc:73-84 | The oldest request is given out, or the socket waits. |
| `Registries.Acceptor.HandleReceiveFrom` | src/maidsafe/transport/rudp_acceptor.cc:86-106 | A handshake gives the waiting socket the remote id and endpoint, or queues them; other datagrams change nothing. |
| `Registries.Acceptor.Close` | src/maidsafe/transport/rudp_acceptor.cc:66-71 | The queue is dropped and the dispatcher forgets this acceptor, and no other; a waiting socket stays recorded. |
| `HostProtocol.HostInv` | src/maidsafe/transport/rudp_socket.cc:115-151 | In every run the registry holds exactly the open sockets under their own non-zero ids, requests are handed out once each in arrival order, and a socket waits only when none is queued. |
| `HostProtocol.ClosedStaysClosed` | src/maidsafe/transport/rudp_socket.cc:237-281 | Nothing but its owner's connect opens a socket: no packet reopens a closed one. |
| `HostProtocol.SessionAloneReopens` | src/maidsafe/transport/rudp_session.cc:114-121 | This rests on the registry: handed any handshakes, a closed session opens again exactly if it is a server's and one of them brings the cookie. |
| `HostProtocol.ReusedSocketForgets` | src/maidsafe/transport/rudp_socket.cc:115-123 | A closed socket has forgotten its peer: used again as a client, it answers whoever challenges it. |

## Left out

- Boost.Asio sockets, strands, timers and completion adapters: a completion is a step that happens when it is due.
- Timer liveness, connection timeouts, SentLength and IsSlowTransmission: wall-clock scheduling, no effect on the stream.
- The tick timer (TickAt, TickAfter): when ticks happen is free in the model.
- Calls into the congestion controller from sender and receiver: its values are free parameters there, and its own bounds are proved for all event sequences.
- The two directions of a connection are independent but for congestion control, so one direction is modelled.
- Handshakes with sockets on more than two hosts, and the comparison of source endpoints: the model has one client host and one server host.
- HandleReceiveFrom of the socket: its classification is modelled; its calls of the handlers are the steps of the protocol models.
- Address conversion in handshake packets: sixteen opaque bytes.
- Keepalive packets: nothing sends or decodes them.
- Sockets.FrameReader.HandleReadData: requires the byte counts to be below 2^64, because the buffer holds as many bytes.
- Sockets.FrameReader.StartReadData: requires the pending read to be full or the new one not to be empty, because the buffer is replaced under it; its callers see to that.
- Closing the acceptor in the course of a host's run: the acceptor's own Close is modelled, HostProtocol has no such step.
- Codec.EncodeAck: requires a buffer that is too small for the short form or holds the long one, because the code checks only for the short form.
- Registries.Dispatcher.AddSocket: requires that a usable number comes up among the draws, because the code draws until one does.
- rudp_transport, tcp, udp, message handlers, NAT detection and traversal, UPnP and NAT-PMP: plumbing over libraries and operating-system calls.
