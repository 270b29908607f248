# Pickleback, verified

Pickleback lets two peers exchange messages over datagrams. An endpoint numbers its packets with
wrapping 16-bit ids, tells its peer in every header which packets it has received, splits large
payloads into fragments, packs messages into packets, resends what a reliable channel has not seen
acked, and hands every message to the application once. Before two endpoints talk, a small handshake
agrees on a salt.

This project models that reliability layer and proves what it promises:

- **Acked means delivered, once, intact** (`Network`, `Draining`). For every run of two endpoints over a
  network that loses, repeats and reorders datagrams, down to the bytes of each packet, and whether or
  not the applications read meanwhile.
- **How often an ack is reported, exactly** (`AckCounts`, `FragmentReports`): a whole message once for
  every acked packet that carried it, a fragmented one once when all its fragments are acked. `Repeats`
  is a run in which a message is reported twice.
- **Reliable messages are kept and resent** (`Network.ReliableRetained`, `Resending`): queued if and only
  if no packet that carried them has been acked, and due again a tenth of a second after they were sent,
  and not before.
- **The ring is a window of an ideal map** (`SequenceWindow`), through any number of wraps, for exactly
  the capacities that divide 65536.
- **Acks and watermarks are safe** (`PacketInvariants`, `Network`), packets are accepted exactly once, and
  at most 350 of them are in flight (`InFlight`). Against a peer that sends anything at all, the packet
  layer's own numbers stay meaningful and move forward only (`ArbitraryPeer`).
- **Nothing is lost or doubled on the way into packets** (`Composing`, `PacketLoop`), which carry the next
  message, and the next, until none is left or has room (`Filling`); nor on the wire (`AckHeaders`,
  `Messages`, `Packets`), or between fragmenting and reassembling (`Reassembly`, `FragmentAcks`).
- **Order is kept where it is promised** (`Ordering`): queues and packets hold the messages of a channel in the
  order in which they were posted, and what a packet completes is handed on in the order it carries it.
- **What is read is what was written**: out of any bytes at all, a packet and its messages are read exactly
  where their forms stand (`Reading`), and these forms are written out byte by byte (`WireFormat`).
- **The application is told what happened**: what sending a message answers (`Network.SendAnswers`), a call
  of the packet loop (`PacketLoop.ComposingStops`), an arriving packet (`Network.ArrivalAnswers`), and any
  datagram (`ArbitraryPeer.DatagramAnswers`), each with the exact condition.
- **The handshake agrees**, in both directions (`Handshake`), lets a client in if and only if it has
  answered the challenge (`ServerSteps`, `ClientSteps`), and with nothing lost it does (`Connecting`).
- **Where these guarantees end** (`Limits`, and the `...Iff` lemmas): the code's own limits, each with the
  exact condition.

Each file holds the module of its name. How they build on each other:

| layer | files |
|---|---|
| words and bytes | `Words`, `Wire` |
| the ring | `SequenceBuffers`, `SequenceWindow` |
| headers, messages, packets | `AckHeaders`, `Messages`, `Packets`, `WireFormat`, `Reading` |
| channels, fragments, dispatcher | `Channels`, `Reassembler`, `Reassembly`, `Dispatchers`, `FragmentAcks` |
| packets and acks of one endpoint | `PacketLayer`, `PacketInvariants`, `ArbitraryPeer` |
| the endpoint | `Endpoints` (as a value), `Picklebacks` (as an object), `Composing`, `Filling` |
| histories of messages | `MessageBooks`, `Deliveries`, `Acknowledging`, `Transmitting` |
| one step of a pair of endpoints | `Nodes`, `Posting`, `Departing`, `Arriving` |
| runs of a pair of endpoints | `Network`, `AckCounts`, `FragmentReports`, `Resending`, `Repeats`, `Draining`, `InFlight`, `PacketLoop`, `Ordering`, `Wiring`, `Limits` |
| the handshake | `Clients`, `Servers`, `ClientSteps`, `ServerSteps`, `Handshake`, `Connecting` |

What the source updates in place is a class here, and each of its methods is proved to perform a
function on the value of its fields; the properties are proved of those functions. Inside a class,
what the source owns by value (a ring inside the dispatcher, an endpoint's channels) is a field of
that value.

The proofs speak of unwrapped ids: plain integers that only grow, of which the wire shows the residue
modulo 65536. A `Trace` records the packets that one endpoint really sent and accepted, and a `Book`
the messages that it sent. Neither is visible to the operations.

What the runs of the network assume is written in the guards of their steps, and it is what 16-bit ids
can tell apart:

- `CanPost`: message ids have not wrapped, and the payload is `Deliverable`, that is, its last fragment
  fits its header.
- `CanSend`: an endpoint that uses up packet ids without sending a packet, or sends only packets without
  messages, does so for less than half the sequence space less the capacity; the newest received is less
  than a full turn beyond the watermark.
- `CanArrive`: a packet lives less than half the sequence space (`Timely`) and its acks less than a full
  turn, and its messages fall into their channels' windows of seen ids (`Windowed`).
- `Setting`: both packet buffers have one capacity, from 350 to 16384 and a divisor of 65536.

`Limits`, `SequenceWindow.JumpRefusedIff`, `SequenceWindow.KeepsWindowIff` and
`Messages.MessageRoundTripIff` say what happens otherwise, and `Filling.HeadOfLine` that a packet can be
closed while a message of another channel would fit. `ClientSteps.LateConnectTimesOut` shows that
a client whose clock is beyond five seconds when it connects times out at its next update, unless a
packet arrives first. The runs of `ArbitraryPeer` assume only that
less than one full turn of ids, less the capacity, is used up between two packets sent.

Arithmetic wraps as in a release build. Where the source panics and no caller can rule it out, the
model leaves the state alone, and says so at the function.

In two places the documentation of the code promises more than the code does. `remove_range` removes
nothing when the range crosses the wrap point, and `remove` clears a slot even when it belongs to
another id; the model follows the code, and the proofs hold in spite of both.

## Model

| member | source | states |
|---|---|---|
| `Network.AckedMeansDelivered` | src/dispatcher.rs:85-127 | in every run of two endpoints over a losing, repeating, reordering network, an id in the inbox of acks was posted by the application, and the peer's inbox holds exactly one message under that id, on that channel, with exactly the payload posted |
| `Network.DeliveredIntactOnce` | src/endpoint.rs:506-520 | in every run, whatever is in the inbox was posted by the peer under that id, on that channel, with exactly that payload, and no id is there twice |
| `Network.AckedAtMostOnce` | src/dispatcher.rs:93-124 | in every run, an id of a fragmented message, or of any message on an unreliable channel, is in the inbox of acks at most once |
| `Network.ReliableRetained` | src/channel.rs:210-237 | in every run, a message or fragment on a reliable channel is in its queue, once, if and only if no packet that carried it has been acked; and what an acked packet carried, the peer has taken in |
| `Resending.DueAgain` | src/channel.rs:125-131 | in every run whose clocks do not run backwards, a reliable message that no acked packet carried is due, and a channel is ready, after any waiting that lasts a tenth of a second |
| `Resending.NotSentAgainYet` | src/channel.rs:125-131 | in every run whose clocks do not run backwards, after a packet that carries a reliable message, whatever both ends do and the network delivers while less than a tenth of a second passes for the sender, the message is not due and no packet after that one carries it |
| `Resending.DueAgainIff` | src/channel.rs:223-238 | a reliable message just sent, while no packet that carried it is acked and its sender only waits, is due if and only if a tenth of a second has passed |
| `AckCounts.ReportedPerPacket` | src/dispatcher.rs:85-127 | in every run, the id of a message sent whole is in the inbox of acks exactly as often as there are acked packets that carried it |
| `Repeats.ReportedTwice` | src/dispatcher.rs:117-123 | a reachable world in which a whole message on the reliable channel is reported acked twice: sent, sent again for want of an ack, and both packets acked |
| `FragmentReports.ReportedWhenWhole` | src/dispatcher.rs:229-253 | in every run, while the fragment map keeps the entry of a fragmented message, its id is in the inbox of acks once if every one of its fragments was in an acked packet, and not at all otherwise |
| `Draining.ReadingIsHarmless` | src/dispatcher.rs:60-67 | in every run in which the applications also take messages and acks out, what was handed out followed by what is waiting is what the same run without reading has in its inboxes, and nothing else differs |
| `Draining.AckedMeansGiven` | src/endpoint.rs:162-180 | acked means delivered, of all that the applications were or will be handed |
| `Network.AcksAndWatermarks` | src/endpoint.rs:528-574 | in every run: what is marked acked was accepted by the peer, the peer accepted only what was sent, and every in-order arrival up to the watermark was reported in a header that the peer accepted |
| `Network.AcceptedExactlyOnce` | src/endpoint.rs:471-504 | in every run, an arriving packet is taken in if and only if it is in the window and was not taken in before; a refused packet changes nothing |
| `Network.HandlesAgree` | src/dispatcher.rs:70-93 | in every run, a packet not acked that the sent-packets buffer holds, in the window or left over at the wrap, is on record with exactly the handles of the messages written into it, or not on record if it is no messages packet |
| `Network.AcksTakeEffect` | src/endpoint.rs:536-574 | in every run, when a packet is taken in, every packet in the window that its header acks is marked acked |
| `Network.SendRecords` | src/endpoint.rs:186-210 | an id returned to the application is new, and the history has the payload and the channel under it; a refusal other than the fragment map's leaves the history alone |
| `Network.SendAnswers` | src/endpoint.rs:186-210 | in every run, what sending a message answers: a payload too large, 350 packets or more unacked, no such channel, each if and only if it is the first to apply, and then nothing changes; otherwise the message is queued and the answer is its id, except when its entry is too far ahead for the fragment map |
| `Network.ArrivalAnswers` | src/endpoint.rs:471-525 | in every run, an arriving packet of the peer is answered stale if and only if it is below the window, duplicate if and only if it is in the window and was taken in before, and Ok otherwise |
| `Ordering.QueuesInOrder` | src/channel.rs:75-87 | in every run, every queue holds its messages in the order in which they were posted, fragments in the order of their places |
| `Ordering.PacketInOrder` | src/endpoint.rs:366-387 | in every run, a packet of the loop carries the messages of each channel in the order in which they were posted |
| `Ordering.HandedInOrder` | src/endpoint.rs:506-520 | in every run, when a packet is taken in, the inbox of each channel gains, behind what is there, exactly what the messages of the packet complete, in their order |
| `Ordering.HandlesInOrder` | src/dispatcher.rs:93-124 | the messages of an acked packet are acked one after the other, in their order in the packet |
| `Ordering.AcksInOrder` | src/endpoint.rs:532-574 | the packets that a header newly acks are dispatched in the order of the header |
| `Network.AlwaysPaired` | src/endpoint.rs:36-69 | the invariants of both endpoints and of both directions hold in every reachable world |
| `InFlight.InFlightBound` | src/endpoint.rs:293-318 | in every run that sends through the packet loop only, at most 350 packets really sent have ids beyond the newest one acked, in spite of the ids used up by failed headers |
| `FragmentAcks.ParentAckedExactly` | src/dispatcher.rs:229-253 | for any order and repetition of fragment acks among acks and entries of other messages, while the entry is kept, an ack reports the parent if and only if it completes the set of its fragments |
| `FragmentAcks.ParentAckedOnce` | src/dispatcher.rs:229-253 | no two acks report the same parent while its entry is kept |
| `Wiring.ComposeIsPacks` | src/endpoint.rs:292-347 | a call of the packet loop ends where some number of the network's packing steps ends |
| `Wiring.ArrivalsWereSent` | src/endpoint.rs:422-440 | every packet that the network can deliver was put into the sender's outbox |
| `SequenceWindow.JumpRefusedIff` | src/sequence_buffer.rs:70-73 | an id less than a full turn ahead of the newest is refused as too old exactly when it is more than half the sequence space beyond the buffer's lower edge, or exactly half and smaller as a raw value |
| `Limits.TurnLaterFalseAck` | src/dispatcher.rs:85-93 | however many packets without messages were sent since, the ack of the id one full turn after a packet on record reports the whole messages of that packet as acked and takes them off the reliable queue, whether or not it arrived |
| `Limits.AckHandlesReport` | src/dispatcher.rs:93-124 | acking the handles of a packet reports every whole message among them, and none of them is left in a reliable queue |
| `Limits.SeenIff` | src/channel.rs:170-186 | a channel takes in a message if and only if its id is inside the window of the log of seen ids and was not seen |
| `Limits.OutsideDropped` | src/endpoint.rs:513-518 | a message below its channel's window changes nothing at the receiver, whether or not it was ever delivered, although its packet was accepted |
| `Posting.PostKeepsPair` | src/endpoint.rs:186-210 | sending a message keeps all the invariants of both endpoints |
| `Departing.ComposeKeepsPair` | src/endpoint.rs:299-347 | a round of the packet loop, also one that fails, keeps all the invariants of both endpoints |
| `Departing.SignalKeepsPair` | src/endpoint.rs:405-409 | sending a packet of the handshake, a keep-alive or a disconnect, also one that fails, keeps all the invariants of both endpoints |
| `Departing.TickKeepsPair` | src/endpoint.rs:450-457 | the passing of time keeps all the invariants of both endpoints |
| `Arriving.DeliverKeepsPair` | src/endpoint.rs:471-525 | an arriving datagram, early, late or repeated, keeps all the invariants of both endpoints |
| `Departing.MessagesReadable` | src/endpoint.rs:366-387 | the bytes of a packet that the loop writes read back as its header and its messages |
| `Departing.RecordRight` | src/dispatcher.rs:70-79 | putting a packet on record keeps the record right for every other packet that the sent-packets buffer still holds, in spite of id gaps and of removals skipped at the wrap |
| `Departing.RecordStays` | src/sequence_buffer.rs:75-92 | a packet without messages takes its slot in the sent-packets buffer without leaving a packet there that the record has lost |
| `Acknowledging.HandlesTaken` | src/sequence_buffer.rs:95-106 | taking an acked packet off the record, which clears the slot whatever it holds, harms no other packet that can still be acked |
| `Acknowledging.FoundRight` | src/dispatcher.rs:91-93 | what is found under a newly acked packet is what it carried, and nothing if it carried no messages |
| `Acknowledging.ChannelAckedKeeps` | src/channel.rs:210-221 | an ack takes exactly the message it names off its queue |
| `Acknowledging.AckFragmentRight` | src/dispatcher.rs:229-253 | a parent is reported only when every one of its fragments has been taken in by the receiver |
| `Acknowledging.AckAllKeeps` | src/dispatcher.rs:85-127 | the acks of one header keep the record of packets, the fragment map, the queues and the inbox of acks right |
| `Acknowledging.RetainQueue` | src/channel.rs:210-221 | an ack takes nothing out of a queue but messages with its id |
| `Acknowledging.PostFrags` | src/dispatcher.rs:218-227 | entering a fragmented message into the fragment map keeps every other entry right, including where the ring moves up and empties slots |
| `Deliveries.ReceiveAllKeeps` | src/endpoint.rs:506-520 | after the messages of a packet the inbox is exactly what has been taken in whole, once each |
| `Deliveries.PlacePart` | src/message_reassembler.rs:59-102 | a fragment not seen before completes its message exactly when all the others were taken in, and then yields it with the original payload |
| `Deliveries.AcceptIdExact` | src/channel.rs:57-74 | inside the window an id is taken in if and only if it was not taken in before, and the log stays exact |
| `Transmitting.FillMoves` | src/endpoint.rs:322-336 | what goes into a packet was queued and due, goes into it once, leaves an unreliable queue, and is noted in a reliable one as sent now |
| `Transmitting.FillStamps` | src/channel.rs:223-238 | whatever a packet is filled with is noted as sent at the time of the channel, and what was noted so stays so |
| `Filling.PacketFilled` | src/endpoint.rs:299-347 | a packet of the loop carries, one after the other, the first message that fits and is due of the first channel on which anything is due; it is closed only with fewer than three bytes left, or when none of the messages of that channel fits into the bytes left or nothing is due |
| `Filling.FillIsGreedy` | src/endpoint.rs:322-387 | the two nested loops fill a packet as that one rule says |
| `Filling.HeadOfLine` | src/endpoint.rs:322-336 | a packet may be closed while a message of a later channel would fit: channels with one message each, and ten bytes left |
| `Filling.OneChannelFilled` | src/endpoint.rs:322-336 | with something due on one channel only, a packet is closed only when nothing that is due fits |
| `Transmitting.FillKeeps` | src/endpoint.rs:322-336 | a filled packet carries messages that were sent, with their handles in order, and no queue holds a message twice |
| `MessageBooks.PostQueues` | src/dispatcher.rs:129-188 | posting a payload queues exactly the whole message or all its fragments, each once, behind what was queued |
| `MessageBooks.PartIs` | src/dispatcher.rs:164-184 | each fragment has id parent plus index, its place, its slice of the payload, and a header it fits |
| `Words.ComparesUnwrapped` | src/sequence_buffer.rs:133-139 | less than half the sequence space apart, the wrapping comparison is the real one |
| `Words.ComparesHalfway` | src/sequence_buffer.rs:133-139 | exactly half the sequence space apart, one direction holds and the other does not, by the raw values |
| `SequenceBuffers.SequenceBuffer.WithCapacity` | src/sequence_buffer.rs:20-33 | a new buffer holds nothing |
| `SequenceBuffers.SequenceBuffer.Exists` | src/sequence_buffer.rs:49-52 | whether the slot of the id is tagged with it |
| `SequenceBuffers.SequenceBuffer.Get` | src/sequence_buffer.rs:54-60 | the entry in the slot of the id if the slot is tagged with it |
| `SequenceBuffers.SequenceBuffer.Remove` | src/sequence_buffer.rs:95-106 | returns the entry found and clears the slot in any case |
| `SequenceBuffers.SequenceBuffer.RemoveRange` | src/sequence_buffer.rs:88-92 | clears the slots of an inclusive range of raw ids, none when the range is inverted |
| `SequenceBuffers.SequenceBuffer.Insert` | src/sequence_buffer.rs:70-85 | refuses what is too old, moves up clearing the ids passed over, and writes |
| `SequenceBuffers.SequenceBuffer.CheckSequence` | src/sequence_buffer.rs:142-144 | whether the id is above the lower edge in wrapping order |
| `SequenceBuffers.Ring.RangeSlots` | src/sequence_buffer.rs:88-92 | exactly the slots of the range are emptied |
| `SequenceBuffers.Ring.InsertSlots` | src/sequence_buffer.rs:70-85 | after an insert the id has its entry and every other slot is as before or empty |
| `SequenceWindow.RunRefinesHistory` | src/sequence_buffer.rs:49-144 | after any run of guarded inserts of arbitrary wire ids, through any number of wraps, exists and get give the ideal history's answer for every id in reach, for every capacity dividing 65536 |
| `SequenceWindow.InsertTracks` | src/sequence_buffer.rs:70-85 | one guarded insert keeps the ring in step with the history |
| `SequenceWindow.GetExact` | src/sequence_buffer.rs:49-60 | in reach, exists and get agree with the history |
| `SequenceWindow.GetSound` | src/sequence_buffer.rs:54-60 | whatever the ring reports for an id less than a turn behind is that id's own entry, also where a skipped removal left old tags |
| `SequenceWindow.AdvanceClears` | src/sequence_buffer.rs:75-81 | ids passed over without crossing the wrap point have their slots emptied |
| `SequenceWindow.AdvanceKeeps` | src/sequence_buffer.rs:75-92 | ids that stay in the window keep their slots |
| `SequenceWindow.GuardExact` | src/sequence_buffer.rs:142-144 | within half the sequence space the guard says exactly whether an id is above the lower edge |
| `SequenceWindow.UnguardedInsertForgets` | src/sequence_buffer.rs:70-85 | without the guard, insert takes the id exactly one capacity behind and so loses the newest entry |
| `SequenceWindow.KeepsWindowIff` | src/sequence_buffer.rs:127-130 | guarded inserts keep every id in the window if and only if the capacity divides 65536 |
| `AckHeaders.AckRoundTrip` | src/protocol/ack_header.rs:52-189 | for 1 to 350 acks: built, written, parsed and iterated, the field gives exactly the pairs (newest minus i, received?) for the count rounded up to whole bytes, in at most 50 bytes |
| `AckHeaders.BuildExact` | src/protocol/ack_header.rs:91-128 | any ack list that fills the bytes comes back from the header built from it, with a continuation mark on every byte but the last |
| `AckHeaders.FromAckIter` | src/protocol/ack_header.rs:91-128 | the shifting mask packs seven acks to a byte and marks continuation |
| `AckHeaders.Parse` | src/protocol/ack_header.rs:130-154 | reads up to the first byte without the mark, at most fifty, and stops behind it |
| `AckHeaders.AckHeaderIter.Next` | src/protocol/ack_header.rs:52-73 | yields the acks of the header one by one |
| `AckHeaders.AckIter.Next` | src/protocol/ack_header.rs:165-174 | yields newest minus i with its presence in the received-packets buffer |
| `AckHeaders.ItemsExact` | src/protocol/ack_header.rs:52-73 | a well-formed header stands for seven acks per byte in descending order of id |
| `AckHeaders.ParsedIsChained` | src/protocol/ack_header.rs:130-154 | whatever bytes arrive, a field that parses is well formed |
| `Packets.ParsedHeader` | src/protocol/packets.rs:154-172 | whatever bytes arrive, a packet that parses has an ack field of at most fifty bytes |
| `Reading.PacketIff` | src/protocol/packets.rs:306-379 | for any bytes at all: a packet is read out of them if and only if they start with its written form, and, for a packet of the handshake, exactly 500 bytes follow |
| `Reading.HeaderIff` | src/protocol/packets.rs:154-172 | for any bytes at all: a packet header is read exactly where its written form stands |
| `Reading.AckHeaderIff` | src/protocol/ack_header.rs:130-154 | for any bytes at all: an ack field is read exactly where its written form stands |
| `Reading.MessageIff` | src/protocol/message.rs:282-319 | for any bytes at all: a message is read exactly where its form stands, whose fields then fit, and the cursor stops behind it; one bit of the first byte is free |
| `Reading.MessagesIff` | src/endpoint.rs:506-520 | for any bytes at all: the rest of a packet is read as some messages, without error, if and only if it is their forms one after the other |
| `Reading.ReadErrors` | src/protocol/packets.rs:306-379 | whatever bytes arrive, the readers fail only with their own errors, never with one that means a stale or duplicate packet |
| `WireFormat.WholeForm` | src/protocol/message.rs:241-280 | the bytes of a whole message: flags and channel, id, length in one byte or in two, payload |
| `WireFormat.FragmentForm` | src/protocol/message.rs:26-54 | the bytes of a fragment: flags and channel, id, index and count in one byte each or in two, for the last one the length in two, payload |
| `WireFormat.RoomTaken` | src/protocol/message.rs:216-239 | the room that each of the shapes of a message is taken to need in a packet |
| `WireFormat.AckFieldForm` | src/protocol/ack_header.rs:91-128 | every byte of the ack field as the sum of the weights of its seven acks and of the mark |
| `WireFormat.HeaderForm` | src/protocol/packets.rs:141-152 | the bytes of a packet header of every kind, with and without acks |
| `WireFormat.PacketForm` | src/protocol/packets.rs:243-300 | what follows the header in each kind of packet, padding included |
| `Messages.MessageRoundTripIff` | src/protocol/message.rs:241-319 | a written message parses back to itself if and only if its channel is below 32 and, for a fragment of at most 255 bytes, the count is at most 255 |
| `Messages.MessageReads` | src/protocol/message.rs:282-319 | a message that fits comes back whole and the cursor stops right behind it |
| `Messages.CoalesceRoundTripIff` | src/endpoint.rs:506-520 | coalesced messages are taken apart into exactly what was sent, without an error, if and only if every one fits its header |
| `Messages.ParseFragment` | src/protocol/message.rs:56-81 | the fragment header as read through the cursor |
| `Messages.Parse` | src/protocol/message.rs:282-319 | a message as read through the cursor |
| `Packets.PacketReads` | src/protocol/packets.rs:243-379 | every kind of packet reads back as what was written; a messages packet leaves its messages, nothing else leaves a rest but its padding |
| `Packets.MessagesRoundTripIff` | src/protocol/packets.rs:359-369 | a messages packet: header, salt and position come back, and the messages if and only if they all fit |
| `Packets.HeaderReads` | src/protocol/packets.rs:141-172 | a packet header reads back with its type, id and ack field |
| `Packets.ReadHeaderFrom` | src/protocol/packets.rs:154-172 | a packet header as read through the cursor |
| `Packets.ReadPacketFrom` | src/protocol/packets.rs:306-379 | a packet as read through the cursor |
| `Channels.UnreliableChannel.AcceptsMessage` | src/channel.rs:57-74 | the answer and the log afterwards |
| `Channels.UnreliableChannel.EnqueueMessage` | src/channel.rs:75-87 | the message joins the end of the queue |
| `Channels.UnreliableChannel.GetMessageToWriteToAPacket` | src/channel.rs:99-107 | the first message that fits leaves the queue |
| `Channels.ReliableChannel.AnyReadyToSend` | src/channel.rs:198-202 | whether any message is due |
| `Channels.ReliableChannel.MessageAckReceived` | src/channel.rs:210-221 | the queue without the messages the ack names |
| `Channels.ReliableChannel.GetMessageToWriteToAPacket` | src/channel.rs:223-238 | the first message that fits and is due stays queued and is stamped with the time |
| `Channels.TakeExact` | src/channel.rs:99-107 | a message taken was queued, due and small enough; exactly it is no longer due; a reliable queue keeps it; nothing is taken only if nothing is due or something does not fit |
| `Channels.TakesFirst` | src/channel.rs:223-238 | a message is taken if and only if some queued one fits and is due, and it is the first such: an unreliable queue closes up behind it, in a reliable one exactly its entry is stamped with the time |
| `Channels.ReadyIff` | src/channel.rs:198-202 | a channel is ready if and only if some queued message is due, whatever the room |
| `Channels.RetainInOrder` | src/channel.rs:210-221 | what an ack leaves in a queue, it leaves in order |
| `Channels.RetainExact` | src/channel.rs:132-143 | an ack removes the messages it names and no others |
| `Reassembler.SplitArithmetic` | src/dispatcher.rs:158-182 | the wrapping 16-bit size of the last fragment is the true rest, from 1 to 1024, and the slices lie inside the payload |
| `Reassembler.JoinSlices` | src/received_message.rs:62-74 | the slices partition the payload |
| `Reassembler.IncompleteMessage.AddFragment` | src/message_reassembler.rs:31-42 | stores a fragment once and says whether it was the last one missing |
| `Reassembler.MessageReassembler.AddFragment` | src/message_reassembler.rs:59-102 | what the reassembler holds and yields after a fragment |
| `Reassembly.ReassemblesInAnyOrder` | src/message_reassembler.rs:59-102 | fragments in any order, with repeats, among other messages' fragments, yield the message once, with the last missing fragment, with the original payload |
| `Reassembly.PlaceOwn` | src/message_reassembler.rs:31-42 | a repeat changes nothing, a new fragment is added, the last one missing yields the message and forgets it |
| `Dispatchers.ParentOfFragment` | src/dispatcher.rs:13-16 | a fragment's id less its index is the parent's id, also where ids wrap |
| `Dispatchers.MessageDispatcher.ProcessReceivedMessage` | src/dispatcher.rs:40-55 | a whole message, or a completed one, joins the inbox of its channel |
| `Dispatchers.MessageDispatcher.SetPacketMessageHandles` | src/dispatcher.rs:70-79 | the record of a packet, or the buffer's refusal |
| `Dispatchers.MessageDispatcher.AckFragmentMessage` | src/dispatcher.rs:229-253 | strikes the fragment off and says whether the list is now empty |
| `Dispatchers.MessageDispatcher.AckedPacket` | src/dispatcher.rs:85-127 | takes the record of the packet and acks its messages one by one, in the channels, the fragment map and the inbox |
| `Dispatchers.MessageDispatcher.AddMessageToChannel` | src/dispatcher.rs:129-142 | one id for a small payload, one for each fragment of a large one |
| `Dispatchers.MessageDispatcher.AddLargeMessageToChannel` | src/dispatcher.rs:144-188 | the fragments are queued in order with consecutive ids, also when the fragment map refuses the entry |
| `Picklebacks.Pickleback.SendMessage` | src/endpoint.rs:186-210 | the refusals in order, then the dispatcher |
| `Picklebacks.Pickleback.ReceivedUnackedPackets` | src/endpoint.rs:216-223 | the wrapping distance to the watermark |
| `Picklebacks.Pickleback.SentUnackedPackets` | src/endpoint.rs:246-250 | the wrapping distance to the newest ack |
| `Picklebacks.Pickleback.NextPacketHeader` | src/endpoint.rs:253-270 | uses up an id in any case, and makes a header with the acks needed |
| `Picklebacks.Pickleback.SendRawPacket` | src/endpoint.rs:422-440 | the packet is on record with what it acks up to, and in the outbox |
| `Picklebacks.Pickleback.WriteChannelMessagesToPacket` | src/endpoint.rs:366-387 | the messages written, and the room that is left |
| `Picklebacks.Pickleback.FillPacket` | src/endpoint.rs:322-336 | one ready channel after the other until nothing fits |
| `Picklebacks.Pickleback.ComposePackets` | src/endpoint.rs:292-347 | the packet loop, with the number of ready messages as its measure |
| `Picklebacks.Pickleback.ProcessPacketAcks` | src/endpoint.rs:528-574 | the ack loop |
| `Picklebacks.Pickleback.ProcessIncomingPacket` | src/endpoint.rs:471-525 | stale and duplicate rejection, acks, then the messages up to the first that does not parse |
| `Picklebacks.Pickleback.ReceiveDatagram` | src/client.rs:294-358 | any datagram, read as a packet and processed |
| `PacketLoop.ComposingConserves` | src/endpoint.rs:292-347 | in every reachable world a call of the packet loop conserves the due messages: on Ok its packets carry exactly them, each once; on backpressure the rest is still queued and due; every packet fits and carries a message |
| `PacketLoop.LoopNeverTooOld` | src/endpoint.rs:338-346 | an endpoint that keeps to the gaps never has a record refused in the packet loop |
| `PacketLoop.ComposingStops` | src/endpoint.rs:292-347 | in every reachable world a call of the packet loop fails if and only if 350 packets or more are unacked at its start, and then it does nothing, or something is left due at its end; and that is left because 350 or more are unacked by then, or more than 350 received ones are not known to be seen acked |
| `Composing.ComposeConserves` | src/endpoint.rs:292-347 | on Ok the packets emitted carry exactly the due messages, each as often as it was due; on backpressure what they do not carry is still queued and due |
| `Composing.EmittedWellFormed` | src/endpoint.rs:299-347 | every packet emitted fits the size limit, carries at least one message, and is the wire form of its header, salt and messages |
| `Endpoints.WriteChannelConserves` | src/endpoint.rs:366-387 | the messages written are exactly those no longer due |
| `PacketInvariants.SendKeeps` | src/endpoint.rs:422-440 | sending a packet keeps the packet layer's state right over unwrapped ids |
| `PacketInvariants.HeaderMade` | src/endpoint.rs:253-270 | a new header tells the truth, and acks everything received above the watermark |
| `PacketInvariants.HeaderMadeIff` | src/endpoint.rs:253-270 | a header is made if and only if at most 350 ids lie between the watermark and the newest received |
| `PacketInvariants.SendKeepsWatermark` | src/endpoint.rs:216-223 | no new header leaves out an in-order arrival that the peer has not been told of |
| `PacketInvariants.AcceptExact` | src/endpoint.rs:479-503 | a packet is taken in if and only if it is in the window and new; which error otherwise |
| `PacketInvariants.AcksAreLocal` | src/endpoint.rs:528-574 | whatever acks arrive, right or wrong, those taken name packets really sent, not acked before, each once, and the newest ack and the watermark stay within what was sent and received |
| `PacketInvariants.AcksKeep` | src/endpoint.rs:528-574 | what an honest ack field newly acks, the peer accepted, and the watermark stays safe |
| `PacketInvariants.AcksMark` | src/endpoint.rs:536-574 | every packet in the window that an ack field names is marked acked |
| `PacketInvariants.AckMovesForward` | src/endpoint.rs:536-559 | one ack that is taken moves the newest ack and the watermark to the greater of two ids, while these are less than half the sequence space apart |
| `ArbitraryPeer.ArbitraryHeaders` | src/endpoint.rs:471-574 | in every run of one endpoint against any peer, with any ids and any acks arriving, the newest ack names a packet really sent and the watermark does not pass the newest received |
| `ArbitraryPeer.ArbitraryDistances` | src/endpoint.rs:216-250 | in every such run the two wrapping subtractions are the true distances |
| `ArbitraryPeer.AcksForward` | src/endpoint.rs:536-559 | a whole header moves neither the newest ack nor the watermark back, and leaves neither behind a packet newly acked, while the spans are under half the sequence space |
| `ArbitraryPeer.ForwardOnly` | src/endpoint.rs:528-574 | over every such run whose spans stay under half the sequence space, the newest ack, the watermark and the newest received only move forward |
| `ArbitraryPeer.DatagramIsHeard` | src/endpoint.rs:471-574 | any datagram at all does to the packet layer what one header with some id and some acks does, or nothing |
| `ArbitraryPeer.DatagramAnswers` | src/endpoint.rs:471-525 | what any datagram at all is answered with: the error of the reader; stale, by where the id it names lies from the lower edge of the window on, down to the raw value at exactly half the sequence space; duplicate, if that id was taken in before; the error of the first message that does not parse; and Ok otherwise |
| `PacketInvariants.DistancesExact` | src/endpoint.rs:216-250 | the two wrapping subtractions are the true non-negative distances |
| `Handshake.Agreement` | src/client.rs:300-351 | in every run without forged packets, a connected client with salt x has salts that xor to x and that the server offered to its address, and the server admitted x at that address from a pending entry whose salts xor to x |
| `Handshake.SaltsAreThere` | src/client.rs:182-276 | the salts that the client unwraps are there in every state that unwraps them |
| `Handshake.SessionsAreRooted` | src/server.rs:477-509 | every connected entry was made from a pending entry at that address whose salts xor to its salt |
| `Handshake.ConfirmedWasConnected` | src/server.rs:541-575 | a connected entry that the server has confirmed belongs to a client that was connected with its salt, at its address, when it sent something |
| `Connecting.NothingLost` | src/client.rs:182-376 | from the start, for any clocks, salts and headers, request, challenge, response and keep-alive, each received once, leave the client connected with the two salts and the server with one session under their xor at its address |
| `ClientSteps.ConnectsIff` | src/client.rs:331-351 | a packet of its server makes a client connected if and only if it sends its challenge response, the packet is a keep-alive with its xor salt, and processing succeeds |
| `ClientSteps.ChallengedIff` | src/client.rs:300-318 | it goes on to its challenge response if and only if it sends its request, the packet is a challenge naming its salt, and processing succeeds; it then has both salts and their xor |
| `ClientSteps.DeniedIff` | src/client.rs:319-330 | a packet of its server disconnects it if and only if it is a denial while it waits to be let in; all else of the session is then forgotten |
| `ClientSteps.OtherwiseHeard` | src/client.rs:294-371 | what a packet of the server leaves behind when it does not change the state |
| `ClientSteps.SaysGoodbye` | src/client.rs:189-202 | hanging up sends exactly one disconnect with the salt under each of ten headers that is granted, and then forgets the session |
| `ClientSteps.LateConnectTimesOut` | src/client.rs:64-72 | a client that connects with its clock beyond five seconds times out at its next update, unless a packet arrives before |
| `ServerSteps.ResponseAdmits` | src/server.rs:477-509 | a response that answers some pending entry: the first such entry is gone, and if processing succeeds and a header is granted, there is one more session under its salt, one event and one keep-alive, and nothing else |
| `ServerSteps.ResponseUnmatched` | src/server.rs:510-535 | a response that answers none changes nothing if some session has its salt, and is denied for timeout otherwise |
| `ServerSteps.RequestHeld` | src/server.rs:433-476 | a request is denied for its version, or makes one pending entry, or, being a repeat or not processed, changes nothing |
| `ServerSteps.SessionHears` | src/server.rs:536-578 | a disconnect ends the first session it names, with an event; what is heard confirms it and notes the time |
| `ServerSteps.StrangerIgnored` | src/server.rs:536-578 | a disconnect or anything heard without a session changes nothing |
| `Clients.XorExact` | src/client.rs:311-312 | the xor of two salts, bit by bit, and that with it and one of them goes the other |
| `Clients.PicklebackClient.ReceivePacket` | src/client.rs:287-376 | the client's state, salts and result after a packet, also where processing it fails |
| `Clients.PicklebackClient.StateTransition` | src/client.rs:106-128 | a transition, with the reset on disconnection |
| `Clients.PicklebackClient.ConnectTo` | src/client.rs:156-167 | a new client salt and no others |
| `Clients.PicklebackClient.Close` | src/client.rs:132-145 | a disconnect of its own, or at once |
| `Clients.PicklebackClient.Advance` | src/client.rs:64-72 | the timeout of a connection |
| `Clients.PicklebackClient.VisitPacketsToSend` | src/client.rs:182-250 | the handshake packets that are due |
| `Servers.PicklebackServer.ReceivePacket` | src/server.rs:424-585 | the server's entries, events and outbox after a packet, also where processing or answering it fails |
| `Servers.PicklebackServer.TakePendingByXorSalt` | src/server.rs:352-369 | the first pending entry at the address whose salts xor to the salt |
| `Servers.PicklebackServer.RemoveConnectedClient` | src/server.rs:390-416 | the first connected entry with the salt at the address, and the event |
| `Servers.PicklebackServer.ResendChallenge` | src/server.rs:250-274 | a pending client is challenged again after the interval |

## Left out

- Round-trip times, the estimate of lost packets, and all counters: smoothed floating-point values that nothing acts on.
- The watermark of non-empty packets: the empty packet it would trigger is never sent.
- Buffer pools, logging, sockets, address parsing, random numbers and the bevy features: buffers are byte sequences, addresses are numbers, salts are inputs.
- The jitter pipe of the tests: the network delivers any packet that was sent, any number of times, in any order, or never.
- Receiving a datagram in the network does not compare the salt; the client and the server do that before they call the endpoint.
- In the runs of the network both endpoints have their salt from the start; packets of the handshake are steps there, but what the client and the server make of them is in `Handshake` only.
- The reset of an endpoint when a client disconnects: a run of the network is one connection.
- The length that a received message reports, which counts header bytes too.
- The sweeps over several expired clients at once: expiry removes one entry at a time.
- The disconnection that a server starts by itself, and broadcasting.
- Sets of channels other than the two that the constructor makes: the network starts with these, while the operations take any list, in the order of insertion.
- Reassembler.PlaceFragment: does nothing where the source would panic on a fragment that does not match the ones before it.
- Channels.ReliableChannel.MessageAckReceived: requires what the source asserts, that no whole message shares its id with an acked fragment.
- Network.AckedMeansDelivered: message ids that wrap are not covered, because the capacities 10000 and 25000 do not divide the sequence space.
- FragmentReports.ReportedWhenWhole: says nothing of a message whose entry the fragment map has refused or dropped; `Network.AckedAtMostOnce` and `Network.AckedMeansDelivered` still hold of it.
- Limits.TurnLaterFalseAck: starts from a record that is there, and is not a run of the network, whose guards rule it out.
- Handshake.Agreement: packets are taken as read, and what the endpoint answers is any answer, because the endpoint's state plays no part in it.
- Time is a real number, and the one rounded division is an integer one, exact for the at most 350 acks it is used for.
- When keep-alives are due: a connected client may send them, or messages, with its salt at any time.
- Reading.PacketIff: does not say which of its two errors (`Reading.ReadErrors`) the reader gives for bytes that are no packet.
