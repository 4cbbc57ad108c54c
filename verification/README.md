# Verification of the SOE protocol core

This project models the reliable data channels, the sessions and the multiplexer of a Rust
implementation of the SOE protocol, and proves what they promise. It is written for Dafny 4.11;
`dafny verify dfyconfig.toml` checks all of it.

## What is modelled

* **Codec.** Unbounded integers and byte sequences stand for the wire. Truncation to 16 or 32 bits is
  written out. `Varint`, `MultiPackets`, `Rc4`, `DataCodec` and `Protocol` hold the encoders and
  decoders; `Io`, `VarintCursor` and `Rc4Implementation` are the cursor and cipher objects, each proved
  equal to the functions.
* **Channels.** `ReliableOutput` and `ReliableInput` say what each operation of a channel does to its
  state. `OutputChannel` and `InputChannel` are the imperative channels with their queue, loops and
  ring stash; each method is proved to do what the function says. A stash slot is an array element in
  the class and an entry of a map in the specification.
* **Runs of a channel.** `OutputWindow`, `OutputRuns`, `OutputPackets`, `Retransmission`, `RetransmitTimer`,
  `InputRuns` and `InputLedger` are about one channel under any calls, bogus acknowledgements and packets
  included. They speak of what was handed out and when, by a log of the run, rather than of the state.
* **Two channels.** `EndToEnd` joins them by a network that loses, duplicates and reorders data and loses
  acknowledgements. `SingleAcks` and `TwoPackets` are about two more kinds of safe configurations, `Sharpness`
  has the runs that go wrong in all others, `Stall` those that come to a halt when acknowledgements are lost.
  `Convergence` is about a lossless link.
* **Sessions.** `SessionSteps` says what each operation does to a session, as functions from one view of it
  to the next: state, parameters, channels, the trace of all acts so far, and how it ended. `Session` is the
  object with its buffers and parsing loops, each method proved equal to the function. `SessionLifecycle`
  proves what every step keeps, `BundleDispatch` is about nested MultiPackets, `SessionRuns`, `SessionTimes`,
  `SessionNotices` and `SessionSizes` about calls in any order. `Multiplexer` maps remotes to sessions.
* **Two sessions.** `Handshake` and `SessionWire` say what the bytes of one session do to its peer,
  `SessionLink` joins two by a hostile network.

Time is a natural number of nanoseconds. The CRC hash and zlib's inflate are arbitrary functions given
as parameters; random numbers are arguments of the calls that draw them.

## Main results

1. `SessionLink.HandshakeThenDelivery`: from a client's request on, whatever the network does, all that either
   of two sessions surfaces on a reliable channel is a prefix of what the other was given to send on it: exactly
   once, in order, intact, on four channels and in both directions. The network may add datagrams of its own that
   are no reliable packets, acknowledgements or bundles, corrupt ones included; no reliable packet or acknowledgement of the peer ends a session
   (`ReliableTrafficIsSafe`). Below it are `Handshake.HandshakeAgrees` (both sides come out with the same
   settings, or the server refuses) and `SessionWire.AckArrives` and `PacketArrives` (a datagram of one session
   does to its peer exactly what the channel model says).
2. `Sharpness.InOrderIffWindowsAgree`: for a receiving window `m` and a sending window `w` that fit 16
   bits, every run of every configuration with these windows delivers a prefix of what was enqueued **if and
   only if** `m < w` or `w == 1`. `Sharpness.InOrderIff`: each single configuration, encrypted or not, is safe **if
   and only if** this holds, or it has no acknowledgement delay and either acknowledges every packet singly
   (`SingleAcks`) or has `w == 2` and `m <= 3` (`TwoPackets`). The defaults of `src/session.rs:142-143` (256 and
   196) do not meet the condition: a lost packet, an acknowledge-all that decodes 65536 too high and a resend
   lead to a wrong delivery (`Sharpness.DefaultsDeliverWrongly`).
3. `EndToEnd.NoPrematureRelease`: what the sender releases the receiver has, and every acknowledgement
   decodes to the sequence that was meant.
4. `Retransmission.TimeoutResends`, `OnlyNewPackets` and `TickRefillsNetwork`: a tick resends the whole window
   exactly when the oldest packet is overdue, and otherwise sends what was never sent. `Stall.CanAdvanceIff`:
   once acknowledgements are lost, the receiver can get further **if and only if** the sender's window still
   holds a packet that the receiver has not consumed, or has room, or the receiver has something left to
   acknowledge. `Stall.AnyConfigurationCanStall`: every configuration has a run after which it cannot.
5. `DataCodec.StreamRoundTrip` and `SurfacedIntactIff`: any list of messages comes back through
   encryption, fragments and reassembly, intact exactly when no unencrypted message looks like a bundle.
6. `OutputRuns.SamplesAreUnambiguous` (Karn's rule, section 3 of RFC 6298), `OutputRuns.WindowHolds`,
   `RetransmitTimer.RtoStaysInRange`, `LaterSample` and `TimeoutIsBounded`, `InputLedger.AcknowledgesExactly` and
   `EveryPacketCounts`, over all runs of one channel.
7. `Convergence.LosslessLinkDelivers`: the queue drains by a full window a round, and everything arrives.
8. `Protocol.ContextualIff`, `UnreliableIff`, `DroppedIff` and `ContextlessIff`: what a datagram is taken for, by its
   bytes. `SessionWire.WrongCrcEnds`: nothing with a wrong CRC reaches a channel.
9. `SessionLifecycle.TakeInKeeps`: the verdict on a datagram is read off the step functions; what is proved is
   that an end has its reason and side on record, Closed as its last act and, where the remote was told, the
   Disconnect as its last datagram, that nothing is left pending in a channel, and that a server surfaces no
   data before Opened. `BundleDispatch.DealIsItsLeaves` and `EndsAtALeaf`: bundles nested to any depth are the
   flat list of the packets in them; they end the session exactly if one of these does in its turn, and
   nothing behind the first such counts. `SessionRuns.TheCallThatEnds`, `LifecycleHolds` and `RunsGoForward`,
   `SessionTimes.TimesOutIff`, `SessionNotices.TellsOnce` and `SessionSizes.DatagramsFit`: the life, the end, the
   clock and the datagrams of a session over all interleavings of calls. `Session.SoeSession.ProcessIncoming`:
   the recursive code does exactly what these are about.
10. `Multiplexer.SoeMultiplexer`: each remote's events follow `((Opened Data*)? Closed)*`, and each remote is
    given exactly what its session did.

Hypotheses of the end-to-end results: messages surface unchanged (result 5 says when); acknowledgements of one
channel arrive in order (losses allowed); `2w <= 65535` and `2m + w <= 65535`; no data packet is delivered that is
65536 or more behind the end of the receiver's window; `max_data_length >= 6`; each unit on the wire that needs
fragments is shorter than 2^32 bytes.

Where the code and its comments disagree the code is modelled. The duplicate nudge
(`src/channel/input.rs:278`) fires when the last acknowledge-all is *younger* than `max_ack_delay`; its
comment says the opposite.

Some properties one might expect do not hold, and their exact conditions are proved instead:

* The smoothed round trip comes to a constant sample exactly when it does not start below it; from below it comes
  to rest 7 ns short of it, or as close as it was (`RetransmitTimer.ReachesSampleIff`, `RestsBelowSample`).
* Lost acknowledgements are not always made up for (`Stall`, result 4), because of the nudge.
* A packet may be sent twice before its timeout: exactly after a single acknowledgement of a queued packet that was
  never sent, while others are in flight (`Retransmission.StaysInStepIff`, `UntimelyResends`).
* A datagram may be longer than the UDP length: a channel that is made while a session negotiates keeps its maximum
  when the handshake lengthens the framing (`SessionSizes.StaysSnugIff`, `StaleChannelOverflows`).
* Unreliable data of one byte that is not zero, sent without a CRC, ends the session of the peer
  (`SessionWire.UnreliableTravels`).
* A client takes the CRC length of a session response as it comes, although only 0 to 4 can be used: with a larger
  one it cannot frame or check a packet any more (`SessionRuns.UsableUnlessOverlong`, `OverlongIsAccepted`).
  Operations require exactly that the code does not panic for that reason, and runs pass over the calls in which it
  would; a run in which no such response is accepted has none (`SessionRuns.ProceedsUnlessOverlong`), nor has any
  run of a server.

## Model

| member | source | states |
|---|---|---|
| SequenceNumbers.UnwrapIsExact | src/channel/mod.rs:15-33 | truncating a sequence to 16 bits and decoding it gives it back exactly when it lies in [current - m, current - m + 65535] |
| SequenceNumbers.UnwrapLandsInRange | src/channel/mod.rs:22-32 | the decoded value is the representative of the packet sequence in that range |
| SequenceNumbers.UnwrapKeepsLowBits | src/channel/mod.rs:22-32 | decoding never changes the low 16 bits, whatever the window |
| SequenceNumbers.WindowLimitIsSharp | src/channel/mod.rs:22-32 | the decoder is exact on the whole window for every current sequence exactly when m <= 32767 |
| SequenceNumbers.BitMaskInsertsPacketSequence | src/channel/mod.rs:20-22 | the bit mask replaces the low 16 bits of the current sequence, as the arithmetic of the model does |
| Rc4.TransformIsSymmetric | src/rc4.rs:73-95 | decrypting with an equal key state undoes encrypting |
| Rc4.TransformIsContinuous | src/rc4.rs:73-95 | transforming two buffers in a row is transforming their concatenation, and so is the key state after it |
| Rc4.AfterComposes | src/rc4.rs:98-103 | advancing twice is advancing by the sum |
| Rc4.StateStaysPermutation | src/rc4.rs:23-71 | from any key, and after any number of bytes, the key state is a permutation of 0..255 |
| Rc4Implementation.Rc4KeyState.constructor | src/rc4.rs:23-48 | the in-place key schedule yields the specified key state |
| Rc4Implementation.Rc4KeyState.Increment | src/rc4.rs:61-70 | one step of the generator on the array |
| Rc4Implementation.Rc4KeyState.Transform | src/rc4.rs:73-85 | the output starts with the transformed input, the rest of it is untouched, and the state has advanced by the input's length |
| Rc4Implementation.Rc4KeyState.TransformInPlace | src/rc4.rs:88-95 | the whole buffer is replaced by its transform |
| Rc4Implementation.Rc4KeyState.Advance | src/rc4.rs:98-103 | the state is as after transforming that many bytes |
| Io.BinaryReader.ReadU16 | src/io.rs:80-85 | reads a big-endian value and moves on, or fails without moving |
| Io.BinaryReader.ReadU32 | src/io.rs:88-93 | the same for 32 bits |
| Io.BinaryReader.ReadBytes | src/io.rs:106-111 | the next bytes, or a failure that leaves the cursor |
| Io.BinaryWriter.WriteBytes | src/io.rs:207-213 | appends, or fails without writing when the buffer is too short |
| Bytes.BigEndian | src/io.rs:80-93 | integers are written and read as big-endian digits of base 256 |
| Varint.DataBundleRoundTrip | src/varint.rs:84-125 | every 32-bit length comes back from its encoding, whatever follows, in exactly the computed size |
| Varint.MultiPacketRoundTrip | src/varint.rs:35-82 | a length comes back exactly unless it is 0xFF and not followed by a zero byte |
| Varint.EncodingsAreShortest | src/varint.rs:35-125 | no encoding of a length is shorter than the one written |
| VarintCursor.ReadMultiPacket | src/varint.rs:50-71 | the cursor code reads what the decoder says and consumes exactly its bytes |
| VarintCursor.ReadDataBundle | src/varint.rs:99-115 | the same for data bundles |
| VarintCursor.WriteMultiPacket | src/varint.rs:74-81 | writes exactly the encoding, or fails when it does not fit |
| MultiPackets.PackRoundTrip | src/packet_utils.rs:174-207 | unpacking undoes packing, and packing takes exactly the computed size |
| MultiPackets.PackRoundTripIff | src/packet_utils.rs:174-207 | a list of sub-packets survives packing and unpacking exactly when each has two bytes or more and those of length 0xFF start with zero |
| MultiPackets.Unpack | src/packet_utils.rs:174-188 | the loop yields all sub-packets, or fails if any is malformed |
| MultiPackets.Pack | src/packet_utils.rs:191-207 | writes the packed bytes and returns their computed size, or fails when they do not fit |
| DataCodec.UnitRoundTrip | src/channel/output.rs:361-378 | a message comes back from its encrypted, padded unit with both ciphers equal; an encrypted unit is never taken for a bundle |
| DataCodec.UnitIsShortest | src/channel/output.rs:361-378 | no shorter unit is read as the message, so the pad is there only when it is needed, or when the message is one byte |
| DataCodec.StripsOneZero | src/channel/input.rs:371-389 | decryption drops one leading zero byte, but never the only byte |
| DataCodec.PiecesReassemble | src/channel/input.rs:288-326 | fragments after the first rebuild the unit at exactly the last one |
| DataCodec.FragmentRoundTrip | src/channel/output.rs:330-356 | a unit surfaces at exactly its last packet, fragmented or not, and before that nothing does |
| DataCodec.FragmentsFit | src/channel/output.rs:330-356 | each packet of a unit fits the maximum data length with its sequence, all but the last use it up, none is empty |
| DataCodec.AcceptAwaitsMore | src/channel/input.rs:288-326 | between packets, a buffer being assembled is shorter than what it expects |
| DataCodec.StreamRoundTrip | src/channel/output.rs:183-198 | any list of messages is rebuilt in order, and the receiver's cipher ends where the sender's does |
| DataCodec.SurfacedIntactIff | src/channel/input.rs:347-369 | what surfaces equals what was sent exactly when, unencrypted, no message longer than two bytes starts with 00 19 |
| DataCodec.BundleRoundTrip | src/channel/input.rs:347-369 | the chunks of a data bundle come back, and after them what the rest of it holds |
| DataCodec.MalformedTail | src/channel/input.rs:347-369 | a length that is malformed or runs past the end ends a bundle |
| DataCodec.UnitBundleRoundTrip | src/channel/input.rs:347-389 | encrypted messages in a bundle come back one by one, each without its own pad, and the cipher ends where the sender's does |
| OutputChannel.ReliableDataOutputChannel.constructor | src/channel/output.rs:139-154 | a new channel is empty, with the configured wait as its first RTO |
| OutputChannel.ReliableDataOutputChannel.EnqueueData | src/channel/output.rs:183-198 | encrypts, splits and queues one message; empty data is ignored |
| OutputChannel.ReliableDataOutputChannel.Encrypt | src/channel/output.rs:361-378 | the unit is padded when the ciphertext starts with zero, and the cipher advances by the plain length |
| OutputChannel.ReliableDataOutputChannel.StashFragment | src/channel/output.rs:330-356 | queues the next packet and leaves exactly the packets of the rest |
| OutputChannel.ReliableDataOutputChannel.RunTick | src/channel/output.rs:204-246 | backs off and rewinds on a timeout, then dispatches to the end of the window |
| OutputChannel.ReliableDataOutputChannel.UpdateRto | src/channel/output.rs:250-267 | the estimator of sections 2.2 and 2.3 of RFC 6298 with this code's bounds |
| OutputChannel.ReliableDataOutputChannel.NotifyOfAcknowledge | src/channel/output.rs:270-290 | removes the one packet of that sequence, samples it if it was never resent |
| OutputChannel.ReliableDataOutputChannel.NotifyOfAcknowledgeAll | src/channel/output.rs:294-328 | removes every leading packet up to the decoded sequence and keeps the last usable sample |
| OutputWindow.TickSendsWindow | src/channel/output.rs:204-246 | after a tick, with or without a timeout, exactly the first min(length, W) packets have been sent |
| OutputWindow.TickKeepsQueue | src/channel/output.rs:204-246 | a tick neither adds, drops nor reorders packets and only marks some as sent |
| OutputWindow.ReleaseKeepsQueue | src/channel/output.rs:270-328 | releasing packets keeps the order, the sent prefix and every packet that was not released |
| OutputRuns.AcknowledgementReleases | src/channel/output.rs:270-328 | any acknowledgement, also a bogus one, removes one contiguous range of the queue and does nothing else to it |
| OutputRuns.ApplyKeepsWindow | src/channel/output.rs:183-328 | every call keeps the queue sorted and what was sent a prefix within the window |
| OutputRuns.WindowHolds | src/channel/output.rs:183-328 | the same after every run of calls |
| OutputRuns.SamplesAreUnambiguous | src/channel/output.rs:270-328 | Karn's rule: a sample is now minus the only dispatch time of the last packet that the acknowledgement releases and that was dispatched exactly once; there is one if any released packet was |
| OutputRuns.CountersAreExact | src/channel/output.rs:225-246 | total_sent counts dispatches, total_sent - total_resent the sequences ever dispatched, total_sequence is queued plus acknowledged, and every acknowledgement that comes in is counted |
| OutputPackets.PacketsFit | src/channel/output.rs:183-356 | in every run no packet, queued or handed out, is longer than the maximum data length |
| OutputPackets.LogIsTrue | src/channel/output.rs:225-246 | the dispatch log of a run is the list of all packets handed out, in order and by the sequence they carry |
| Retransmission.TimeoutResends | src/channel/output.rs:204-246 | in every run a tick that finds the front packet out for longer than the timeout hands out the first min(length, W) packets again and doubles the timeout up to 8 s; otherwise the timeout stays |
| Retransmission.BackoffDoubles | src/channel/output.rs:139-218 | until something is acknowledged the timeout is the configured wait, doubled once per timeout |
| Retransmission.OnlyNewPackets | src/channel/output.rs:204-246 | in every run in which no packet is acknowledged singly before it was sent, any other tick hands out exactly the packets of the window that were never sent |
| Retransmission.StaysInStepIff | src/channel/output.rs:270-290 | exactly an acknowledgement of a packet that was never sent, while others are in flight, makes dispatch fall behind |
| Retransmission.UntimelyResends | src/channel/output.rs:270-290 | and the next tick then sends a packet again that is not overdue |
| Retransmission.TickRefillsNetwork | src/channel/output.rs:204-246 | between two channels, once the front packet is late a tick puts the whole window back on the network, whatever was lost, and before that only what was never sent |
| Retransmission.TimeoutRecovers | src/channel/output.rs:204-246 | after such a tick one delivery makes the receiver advance, unless it has all that was enqueued or the whole window |
| RetransmitTimer.RtoStaysInRange | src/channel/output.rs:214-267 | in every run the RTO stays between 200 ms and 8 s if it starts there |
| RetransmitTimer.SmoothedStaysBetween | src/channel/output.rs:250-267 | SRTT stays between the least and the greatest sample in spite of rounding |
| RetransmitTimer.FirstSample | src/channel/output.rs:250-267 | a first sample s sets the RTO to s + max(100 ms, 4 (s / 2)) within 200 ms and 8 s |
| RetransmitTimer.LaterSample | src/channel/output.rs:250-267 | a later one moves SRTT by an eighth of its distance and the RTO's headroom to three quarters plus that distance, up to rounding, and the RTO is at least SRTT plus the distance minus 3 ns, or 8 s |
| RetransmitTimer.TimeoutIsBounded | src/channel/output.rs:250-267 | after samples in [low, high] the RTO is at most high + max(100 ms, 4 max(high - low, first / 2)) within its bounds |
| RetransmitTimer.ConstantSamplesSettle | src/channel/output.rs:250-267 | from any state, constant samples bring the smoothed value to its resting point and the RTO to clamp(rest + 100 ms) after a bounded number of them |
| RetransmitTimer.ReachesSampleIff | src/channel/output.rs:250-267 | the smoothed value reaches a constant sample exactly if there was none before or it was not below the sample |
| RetransmitTimer.ConstantRoundTrip | src/channel/output.rs:250-267 | from a fresh estimator the RTO reaches clamp(sample + 100 ms) |
| RetransmitTimer.SettledStays | src/channel/output.rs:250-267 | once settled it stays there |
| RetransmitTimer.RestsBelowSample | src/channel/output.rs:255-262 | from a fresh timer, one sample 7 ns short of a second and then a second each time settle the RTO 7 ns below clamp(sample + 100 ms) |
| InputChannel.SlotsAreDistinct | src/channel/input.rs:240-246 | two sequences of one window share a slot only if they are equal |
| InputChannel.FillSlot | src/channel/input.rs:220-252 | writing a slot adds exactly that sequence to the stash, and an occupied slot means that same sequence |
| InputChannel.TakeSlot | src/channel/input.rs:328-345 | clearing the slot of the next sequence and moving the window removes exactly that sequence |
| InputChannel.ReliableDataInputChannel.constructor | src/channel/input.rs:123-140 | an empty ring and nothing acknowledged |
| InputChannel.ReliableDataInputChannel.RunTick | src/channel/input.rs:162-177 | acknowledges all that was consumed when the backlog is old or large enough |
| InputChannel.ReliableDataInputChannel.HandleReliableData | src/channel/input.rs:181-190 | one data packet: checked, stashed or consumed with all that follows it |
| InputChannel.ReliableDataInputChannel.HandleReliableDataFragment | src/channel/input.rs:193-205 | the same for a fragment, which may be malformed |
| InputChannel.ReliableDataInputChannel.Preprocess | src/channel/input.rs:220-252 | handles the next packet immediately, stashes one ahead of it, drops the rest |
| InputChannel.ReliableDataInputChannel.CheckWindow | src/channel/input.rs:256-283 | accepts exactly the decoded sequences in [window start, window start + m] and nudges the sender about older ones |
| InputChannel.ReliableDataInputChannel.WriteImmediateFragment | src/channel/input.rs:288-307 | starts or extends the buffer; a first fragment without a length is malformed |
| InputChannel.ReliableDataInputChannel.TryProcessCurrentBuffer | src/channel/input.rs:317-326 | surfaces a complete buffer and clears it |
| InputChannel.ReliableDataInputChannel.ConsumeStashed | src/channel/input.rs:328-345 | the ring loop does what the map specification says |
| InputChannel.ReliableDataInputChannel.ProcessReleased | src/channel/input.rs:347-369 | a released unit surfaces as one message, or as the parts of a bundle |
| InputChannel.ReliableDataInputChannel.DecryptAndHandle | src/channel/input.rs:371-389 | strips the pad byte, decrypts and surfaces, advancing the cipher by the length |
| InputRuns.ReleasesMaximalRun | src/channel/input.rs:328-345 | exactly the maximal run of consecutive stashed packets is released in order; the rest stays |
| InputRuns.InputHolds | src/channel/input.rs:162-345 | in every run the stash holds only sequences in (ws, ws + m], no complete buffer is left unprocessed, and last_ack_all <= ws - 1 |
| InputRuns.TickAcksIncrease | src/channel/input.rs:162-177 | the full-width sequences acknowledged by ticks strictly increase, so they number at most the sequences consumed |
| InputRuns.TickBoundsBacklog | src/channel/input.rs:162-177 | after a tick the backlog is zero, or younger than max_ack_delay and smaller than half the window |
| InputLedger.AcknowledgesExactly | src/channel/input.rs:162-283 | in every run, by the last ack-all that was sent: a tick acknowledges exactly when that is older than the delay or half a window behind, an old packet is answered exactly while it is younger, and a packet in the window is acknowledged singly exactly if it is ahead or all are |
| InputLedger.FirstPacketCounts | src/channel/input.rs:220-252 | a stashed packet stays as it is until the window reaches it, and a packet is stashed only under its own sequence |
| InputLedger.EveryPacketCounts | src/channel/input.rs:181-389 | the counters tell the fate of every packet and the length of all data; if none was malformed, each packet taken for a new sequence was consumed or is stashed |
| EndToEnd.EnqueueKeepsInv | src/channel/output.rs:183-198 | enqueueing keeps the invariant that links queue, network, stash and window |
| EndToEnd.SenderTickKeepsInv | src/channel/output.rs:204-246 | so does a sender's tick |
| EndToEnd.DeliverDataKeepsInv | src/channel/input.rs:181-283 | so does delivering any fresh packet, in any order and any number of times |
| EndToEnd.ReceiverTickKeepsInv | src/channel/input.rs:162-177 | so does a receiver's tick |
| EndToEnd.DeliverAckKeepsInv | src/channel/output.rs:270-328 | so does an acknowledgement |
| EndToEnd.AckDecodes | src/channel/output.rs:380-386 | in an invariant state the oldest acknowledgement decodes to the sequence the receiver meant |
| EndToEnd.InvHolds | src/channel/output.rs:183-386 | the invariant holds in every reachable state |
| EndToEnd.DeliveredIsPrefix | src/channel/input.rs:181-389 | what was delivered is a prefix of what the enqueued messages surface as, and no packet was found malformed |
| EndToEnd.DeliveredInOrder | src/channel/input.rs:181-389 | for intact messages, a prefix of the messages themselves: exactly once, in order, unchanged |
| EndToEnd.NoPrematureRelease | src/channel/output.rs:270-328 | every sequence ever queued is still queued or was accepted, and none is sent beyond window start + m + W |
| Sharpness.InOrderIffWindowsAgree | src/channel/output.rs:294-328 | end-to-end safety holds for all runs with windows m and w exactly when m < w or w == 1 |
| Sharpness.InOrderIff | src/channel/output.rs:294-328 | every run of a configuration is in order exactly if m < w, or w == 1, or there is no acknowledgement delay and all packets are acknowledged singly or w == 2 and m <= 3 |
| SingleAcks.SinglesDeliverInOrder | src/channel/input.rs:162-283 | without a delay and with single acknowledgements only, every run is in order for any windows, although acknowledgements may be misread |
| TwoPackets.TwoDeliverInOrder | src/channel/input.rs:162-283 | without a delay, with a sending window of two and a receiving one of up to three, every run is in order and nothing is released before it is accepted |
| Sharpness.PrematureRelease | src/channel/output.rs:300-319 | in all others some run makes the sender release a packet that the receiver neither consumed nor stashed |
| Sharpness.WrongDelivery | src/channel/input.rs:256-283 | and some run then delivers a later message in its place, encrypted or not |
| Sharpness.DefaultsDeliverWrongly | src/session.rs:133-150 | the default parameters are one |
| Stall.StalledForGood | src/channel/input.rs:256-283 | if the window holds only consumed packets, no acknowledgement is on the way, the receiver has none left to send and the last ack-all is not young, nothing is ever delivered again |
| Stall.CanAdvanceIff | src/channel/input.rs:162-283 | with no acknowledgement on the way and the last ack-all not young, some continuation makes the receiver advance exactly if the state is not such |
| Stall.AnyConfigurationCanStall | src/channel/input.rs:162-283 | every configuration with safe windows has a run into such a state |
| Convergence.RoundKeepsSync | tests/data_channel_fuzz.rs:91-131 | one lossless round removes min(W, length) packets from the queue and delivers them |
| Convergence.RoundsDrain | tests/data_channel_fuzz.rs:91-131 | n packets are gone after ceil(n / W) rounds |
| Convergence.LosslessLinkDelivers | tests/data_channel_fuzz.rs:91-131 | and all messages have then been delivered in order |
| Protocol.OpCodesAreUnambiguous | src/protocol.rs:36-67 | the wire code and the pair of kind and channel determine each other |
| Protocol.WireCodes | src/protocol.rs:38-61 | the numbers of the OP codes on the wire and the ranges of the reliable channels |
| Protocol.ContextualIff | src/packet_utils.rs:97-160 | a datagram is taken for a packet of a session exactly if its kind is known and not for the handshake, it is long enough for it and its last bytes are the low bytes of the hash of the rest |
| Protocol.ContextlessIff | src/packet_utils.rs:97-160 | for a handshake packet exactly if its kind is one and it is long enough, whatever its CRC |
| Protocol.UnreliableIff | src/session.rs:758-807 | for unreliable data exactly if the session runs, no kind is known, the CRC is right and it starts with no zero or with an escape |
| Protocol.DroppedIff | src/session.rs:758-807 | it is dropped exactly if all but the CRC would let it be unreliable data or corrupt |
| Protocol.AppendCrc | src/packet_utils.rs:75-93 | appends the low bytes of the CRC big-endian, or fails when they do not fit |
| Protocol.UnreliableRoundTrip | src/session.rs:758-831 | a framed unreliable payload is read back as such exactly when there is a CRC, or two bytes, or a leading zero |
| Protocol.ContextualRoundTrip | src/session.rs:835-862 | a framed contextual packet is read back as the same kind, channel and payload exactly when it meets its minimum length |
| Protocol.ClassifyInvalid | src/packet_utils.rs:97-131 | only a datagram with an unknown OP code can be taken for unreliable data |
| SessionTrace.EventsOfStage | src/session.rs:864-897 | an unbroken trace has at most one Opened and one Closed, Opened first, and no data without it |
| SessionTrace.ClosedIsLast | src/session.rs:864-897 | nothing is sent, received or handed to a channel after Closed |
| SessionLifecycle.EndKeeps | src/session.rs:864-897 | an ended session has the reason and side on record and nothing pending, Closed is its last act, and if the remote was told a Disconnect with that reason is its last datagram |
| SessionLifecycle.DealKeeps | src/session.rs:616-702 | packets at any depth make a session call channels and send datagrams, but never report or surface anything |
| SessionLifecycle.DealWithKeeps | src/session.rs:591-614 | a contextual packet ends the session exactly if it cannot be inflated or dealing with it does, and how |
| SessionLifecycle.ShakeKeeps | src/session.rs:493-589 | which handshake packets end the session, with which reason and notice, and that no other does |
| SessionLifecycle.TakeInKeeps | src/session.rs:416-464 | a datagram ends a session exactly when its verdict says so, with that reason, side and last datagram; the server side surfaces no data before Opened |
| SessionLifecycle.TickKeeps | src/session.rs:468-491 | a tick ends a session exactly when it has timed out, silently |
| SessionLifecycle.EnqueueKeeps | src/session.rs:377-408 | enqueueing never changes the state, and leaves nothing pending in a channel |
| BundleDispatch.BundleIsItsSubPackets | src/session.rs:618-662 | the recursion over a bundle deals with the sub-packets that unpacking yields, in order, and then ends the session if malformed bytes follow |
| BundleDispatch.DealAllAppends | src/session.rs:618-662 | once a sub-packet has ended the session, no later one has any effect |
| BundleDispatch.EndsAtTheFirst | src/session.rs:656-661 | a list of sub-packets ends the session exactly if one does in its turn, and then the outcome is that up to this one |
| BundleDispatch.SurvivedBundle | src/session.rs:618-662 | a session survives a bundle only if it unpacks and all OP codes are known, and it has then dealt with its sub-packets in order |
| BundleDispatch.NothingBehindADisconnect | src/session.rs:656-667 | what is behind a Disconnect in a bundle reaches no channel |
| BundleDispatch.DealIsItsLeaves | src/session.rs:616-702 | a packet with bundles nested to any depth has the outcome of the flat list of the packets in it, malformed bytes included |
| BundleDispatch.WhichLeafEnds | src/session.rs:616-702 | of these exactly malformed bytes, a Disconnect of six bytes or more and data its channel rejects end the session |
| BundleDispatch.EndsAtALeaf | src/session.rs:616-702 | the session ends exactly if one of the leaves ends it in its turn, and the outcome is that up to this one |
| Handshake.RequestRoundTrip | src/packets.rs:42-67 | a session request is read back, its protocol name up to the first zero byte |
| Handshake.ResponseRoundTrip | src/packets.rs:92-122 | a session response is read back field by field |
| Handshake.HandshakeAgrees | src/session.rs:505-589 | one request and one response leave client and server running with the same session, CRC seed and length and compression, each knowing the other's UDP length, exactly if the server's protocol name is what it reads; else it refuses in silence |
| Handshake.HandshakeEnds | src/session.rs:493-589 | by their bytes, which handshake datagrams end a session in any state, for which reason and whether the remote is told |
| SessionWire.FlushSends | src/session.rs:716-752 | the bytes of every acknowledgement and packet a flush sends: codes 0x11, 0x15, 0x09 and 0x0D plus the channel |
| SessionWire.AckArrives | src/session.rs:688-699 | an acknowledgement the peer sent does to the channel it is for what EndToEnd says, and nothing else |
| SessionWire.PacketArrives | src/session.rs:672-687 | a reliable packet does what the channel says, answers and surfaces exactly that, and leaves the other channels alone |
| SessionWire.DisconnectArrives | src/session.rs:663-667 | a Disconnect ends the peer's session for the same reason, on behalf of the remote |
| SessionWire.HeartbeatArrives | src/session.rs:668-671 | a server answers a heartbeat with the same bytes, and either side has heard of the other |
| SessionWire.CompressedArrives | src/session.rs:591-614 | a compressed packet is dealt with as what it inflates to; one that does not inflate ends the session |
| SessionWire.UnreliableTravels | src/session.rs:377-408 | unreliable data that fits the peer's UDP length is surfaced there unchanged, but for a single byte without a CRC; other data goes to channel 0 |
| SessionWire.WrongCrcEnds | src/session.rs:416-440 | a packet of a session with a wrong CRC calls no channel and ends the session as corrupt |
| SessionWire.WrongCrcIsDropped | src/session.rs:775-786 | an unreliable datagram with a wrong CRC leaves no trace |
| SessionLink.StepKeepsLinked | src/session.rs:416-491 | every move of either session keeps each direction of each channel a state of EndToEnd, whose packets and acknowledgements the sessions really sent |
| SessionLink.SessionsDeliverInOrder | src/session.rs:416-491 | on every reliable channel and in both directions a session surfaces a prefix of what the other was given to send |
| SessionLink.ReliableTrafficIsSafe | src/session.rs:672-699 | no reliable packet or acknowledgement of the peer ends a session |
| SessionLink.HandshakeThenDelivery | src/session.rs:505-752 | the same from the handshake on, for any client and server with the same cipher and safe windows |
| Session.SoeSession.constructor | src/session.rs:217-242 | a new session negotiates and has done nothing |
| Session.SoeSession.TakeOutgoing | src/session.rs:275-278 | hands over the pending datagrams once |
| Session.SoeSession.FlushChannels | src/session.rs:716-752 | per channel, acknowledgements are sent, then packets, then data is handed over; nothing remains |
| Session.SoeSession.TerminateInner | src/session.rs:864-897 | ticks and flushes a last time, tells the remote only when asked and running, then Closed; a second time it does nothing |
| Session.SoeSession.Terminate | src/session.rs:411-413 | the same, on behalf of the local side |
| Session.SoeSession.ToInput | src/session.rs:301-317 | a packet goes to its channel, created on first use |
| Session.SoeSession.ToOutput | src/session.rs:320-334 | an acknowledgement goes to its channel, created on first use |
| Session.SoeSession.HandleContextual | src/session.rs:591-614 | deals with the payload behind the compression flag; one that does not inflate ends the session |
| Session.SoeSession.HandleContextualInner | src/session.rs:616-702 | each kind of packet has exactly its outcome: acts, channels and whether and how it ends the session |
| Session.SoeSession.HandleAcknowledge | src/session.rs:688-699 | an acknowledgement of two bytes or more reaches its channel, a shorter one is ignored |
| Session.SoeSession.HandleBundle | src/session.rs:618-662 | the loop has the outcome of the bundle's sub-packets up to the first that ends the session; it goes through only if the bundle unpacks and all OP codes are known |
| Session.SoeSession.HandleSub | src/session.rs:620-652 | a malformed length or OP code ends the session, otherwise the loop moves past exactly one sub-packet |
| Session.SoeSession.HandleReliable | src/session.rs:672-687 | the channel takes the packet; malformed data ends the session |
| Session.SoeSession.SendSessionRequest | src/session.rs:338-356 | only a client that still negotiates sends a request |
| Session.SoeSession.HandleSessionRequest | src/session.rs:505-555 | which requests are refused and how; an accepted one is answered and the session runs, not yet reported open |
| Session.SoeSession.HandleSessionResponse | src/session.rs:557-589 | which responses are refused and how; an accepted one opens the session with the server's settings, whatever CRC length they name |
| Session.SoeSession.HandleContextless | src/session.rs:493-503 | requests, responses and unknown-sender packets have their outcomes, all others none |
| Session.SoeSession.HandleUnreliable | src/session.rs:758-807 | delivers, drops or refuses exactly as the datagram classifies |
| Session.SoeSession.ProcessIncoming | src/session.rs:416-464 | the object ends up where taking the datagram for what its classification says leads, in every state |
| Session.SoeSession.RunTick | src/session.rs:468-491 | ends a session exactly when it has timed out, silently; else ticks and flushes every channel |
| Session.SoeSession.SendHeartbeatIfRequired | src/session.rs:704-714 | only a running client that has heard nothing for long enough sends one |
| Session.SoeSession.EnqueueDataOn | src/session.rs:377-408 | accepted exactly on a running session and an existing channel; oversized unreliable data goes to channel 0 |
| SessionRuns.LifecycleHolds | src/session.rs:411-491 | after any calls in any order a session has reported nothing, Opened, or Closed with or without Opened before it, as its state says |
| SessionRuns.RunsGoForward | src/session.rs:411-491 | states only move forward, what was done stays done, and after termination nothing happens |
| SessionRuns.TheCallThatEnds | src/session.rs:411-491 | a session that has ended was ended by one call on it while alive, and its reason, side, last act and last datagram are those of that call |
| SessionRuns.Drive | src/session.rs:411-491 | the object driven by any calls that the code gets through goes through the run of its view |
| SessionRuns.UsableUnlessOverlong | src/session.rs:557-589 | a datagram leaves the code able to frame packets exactly unless it is an accepted session response with a CRC length above 4 |
| SessionRuns.OverlongIsAccepted | src/packet_utils.rs:90-92 | such a response to a client that has just asked: it runs, and the slice of the hash its CRC code takes starts before the hash |
| SessionRuns.ProceedsUnlessOverlong | src/packet_utils.rs:90-92 | the code gets through every run in which no such response is accepted, and can still frame packets after it |
| SessionRuns.ServersProceed | src/session.rs:557-561 | the code of a server gets through every run |
| SessionTimes.TimesOutIff | src/session.rs:475-480 | in every run a tick ends a session exactly if nothing that counts was heard for longer than the inactivity timeout |
| SessionTimes.HeartbeatsIff | src/session.rs:704-714 | in every run a tick sends a heartbeat, first and only once, exactly if it is a running client's and nothing was heard for longer than its interval |
| SessionNotices.TellsOnce | src/session.rs:864-897 | in every run at most one Disconnect is sent, by the call that ended a running session, exactly if that ending tells the remote |
| SessionSizes.PacketsMakeSmallDatagrams | src/session.rs:290-295 | a packet's datagram is as much below the UDP length as the packet is below the maximum data length |
| SessionSizes.DatagramsFit | src/session.rs:290-295 | whatever happens to a running session with channels made since the handshake, all datagrams but handshake and unreliable ones fit its UDP length |
| SessionSizes.HandshakeIsSnug | src/session.rs:505-589 | so it is after every handshake with unused channels |
| SessionSizes.StaysSnugIff | src/session.rs:557-589 | channels from before the handshake fit after it exactly if their maximum is not above the new one |
| SessionSizes.StaleChannelOverflows | src/session.rs:290-334 | one that does not fit makes the session send a datagram longer than the UDP length |
| Multiplexer.DataIsInsideSession | src/socket.rs:323-359 | data of a remote is preceded by its Opened with no other lifecycle event in between |
| Multiplexer.DrainFitsGrammar | src/socket.rs:323-359 | what draining reports continues the grammar of the remote, whatever the session did since |
| Multiplexer.DrainedTellsAll | src/socket.rs:323-359 | the caller is told all data in order and the reasons of all ends, and nothing else |
| Multiplexer.SoeMultiplexer.TakeEvents | src/socket.rs:162-164 | the caller gets every event exactly once, in the order of the grammar |
| Multiplexer.SoeMultiplexer.Report | src/socket.rs:333-358 | the loops report Opened, then data, then Closed |
| Multiplexer.SoeMultiplexer.DrainInto | src/socket.rs:323-359 | everything pending is relayed once with its remote; the events of other remotes are unaffected |
| Multiplexer.SoeMultiplexer.Settle | src/socket.rs:309-367 | a session that has ended is removed after its last events are relayed |
| Multiplexer.SoeMultiplexer.ProcessIncoming | src/socket.rs:204-224 | an unknown remote gets a session only by a request; a session takes its datagram in as Session says, exactly what it does is relayed, and it stays exactly unless it has ended |
| Multiplexer.SoeMultiplexer.Terminate | src/socket.rs:195-201 | the session ends telling its remote, its last acts are relayed and it is gone |
| Multiplexer.SoeMultiplexer.EnqueueDataOn | src/socket.rs:185-192 | data goes to the session of its remote, if there is one |
| Multiplexer.SoeMultiplexer.RunTick | src/socket.rs:229-245 | every session ticks exactly once, each remote is given exactly what its session did, and exactly the sessions that have timed out are dropped |
| Multiplexer.ServersStayUsable | src/session.rs:557-561 | a server's session never takes in a CRC length its code cannot work with |

## Left out

- `src/tokio_rt.rs`, `src/sync_rt.rs`, `UdpTransport`, `drive` and the examples: socket plumbing around the state machines.
- zlib: inflate is a parameter; outgoing packets are never compressed, as in the source.
- CRC-32: the hash is a parameter. The random generator: its values are arguments.
- Plain packet serialisers other than the fields the handshake uses. Application protocol names are compared as bytes, not as lossily decoded UTF-8.
- Counters of 64 bits and time are unbounded. Capacity limits when a fragment buffer is allocated have no visible effect.
- That a datagram fits the remote's UDP length: only the local one is kept, since `max_data_length` comes from the local one (`src/session.rs:290-295`).
- Port remaps and `connect` in the multiplexer: they move or replace sessions without lifecycle events. Client sessions are covered by `Session` alone. A hash map's iteration order is arbitrary.
- Inside `Session` the channels are values of the specification modules, not the channel objects, and inside the channels the cipher is a value; sharing between objects is therefore not modelled.
- Session parameters are assumed to have a `udp_length` of at least 13 and a `max_queued_incoming_reliable` of at least 1. A panic is not modelled: operations require that the code does not take more than four bytes of a hash.
- SessionLink.SessionsDeliverInOrder: no MultiPacket bundle arrives, and no reliable packet or acknowledgement that the peer did not send; the code sends no bundles, and one from elsewhere may hold any packet.
- Stall.CanAdvanceIff: for states in which no acknowledgement is on the way; those that are may still come to help.
- Convergence.LosslessLinkDelivers: packets and acknowledgements of one round arrive in order, and rounds are more than `max_ack_delay` apart.
