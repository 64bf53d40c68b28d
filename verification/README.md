# imkcpp in Dafny

imkcpp is a C++20 implementation of the KCP reliable-ARQ protocol: a sender that fragments,
numbers, transmits and retransmits; a receiver that reorders, deduplicates, reassembles and
acknowledges; flow control, congestion control and a retransmission-timeout estimator around
them; and an `update`/`check`/`flush` cycle driven by a 32-bit millisecond clock that the caller
passes in. This project models one endpoint and two endpoints joined by a network that loses,
repeats and reorders datagrams, and proves what the protocol is for.

`dafny verify dfyconfig.toml` checks everything.

## How it is laid out

Three layers, one module per component of the library.

1. **What each component computes**, as functions with explicit 32-bit wrap-around, and the laws
   of those functions: `Words`, `Segments`, `Codec`, `Receiving`, `Sending`, `Congestion`,
   `Timeouts`, `Probing`, `Packing`, `Fragmentation`, `Transmission`, and `Endpoints`, which puts
   them together into one endpoint value with a function per public call.
2. **The objects, updated in place**: `Memory`, `Serializers`, `Receivers`, `SenderBuffers`,
   `Controllers`, `Flushers`, `Senders`, and `Library` with the main class `ImKcpp`. The sender
   and the acknowledgement controller share one buffer and one pair of counters by reference, as
   in the library; the flusher writes into one MTU-sized byte array. Every public method is proved
   to change the endpoint value exactly as the function of layer 1 does, on every input, including
   every error path, and to hand exactly the encoded datagrams to the output callback. `Readings`
   and `Groupings` hold the lemmas about its two main loops.
3. **The protocol**: `Matching`, `Links` and `Flushing` give the invariant of a link, `Safety`
   proves it over every run. `Progress` and `Rounds` prove that a fair round acknowledges the
   oldest segment; `Delivery` that a finite schedule of fair rounds, which also reopens a closed
   window, delivers every message exactly when the receiver can go on; `DrivenRounds` that every
   schedule does whose rounds come when something is due; `RoomyRuns` gives runs in which the
   receiver always can go on; `Wedges` the receivers that never can, `Silence` the windows that
   never open again, and `Witnesses` and `Overflows` runs that reach such states. `Timers` treats
   `update` and `check` in wrapping time, and `Periods` the flushes on an unwrapped clock. `Laws`,
   `Frames`, `Skips`, `Sampling`, `Passes`, `Announcing`, `Schedules`, `Histories` and `Balance`
   prove what every call does, keeps and leaves alone under arbitrary incoming bytes.

A run (`Safety.Run`) is any sequence of calls on either endpoint: `send`, `recv`, `input`,
`update`, `flush`, `check` and every setting, with any arguments. The network is the set of
datagrams each side ever gave to its output callback; delivering an element at any time, any
number of times or never is what loses, repeats and reorders. Histories (messages sent and
received, transmissions with their unwrapped clock) are recorded beside the endpoints and
influence nothing.

## Where the code and its documentation differ

The model follows the code.

- The repository's README claims compatibility with the original KCP "on the byte level". The
  byte swap is applied on x86 and skipped on every other little-endian processor and on
  big-endian ones, so x86 and big-endian builds send most significant bytes first and other
  little-endian builds least significant bytes first. `Codec.Interoperable` says which builds
  understand each other.
- Sequence numbers are compared with a plain `<` against a wrapped bound. Neither snd_nxt nor
  rcv_nxt can wrap: near 2^32 numbering and admission stop (`Sending.AdmitExact`,
  `Receiving.StallsBeforeWrapping`). Safety therefore needs no bound on the length of a run;
  progress assumes the fragments in all stay one receive window below 2^32.
- The advertised window is narrowed to 16 bits, so a receive window of 65536 advertises 0
  (`Laws.AdvertisedExactly`). A sender with nothing in flight that hears such a window falls
  silent for good, in spite of the probes (`Silence.OpensExactly`, `Silence.SilenceReached`).
- `set_receive_window` raises the window to at least 128 but uses the raw value as the limit of
  the receive queue, and does not drain the reorder buffer. With a limit below a message's
  fragment count the queue wedges (`Progress.FullQueueReads`, `Wedges.WedgedForever`). Raising the
  limit afterwards frees it only when a segment with a new number arrives
  (`Wedges.RaisedLimitWaits`), and never when every number the window admits is already held:
  the receiver is then dead (`Wedges.DeadExactly`, `Witnesses.DeadReached`).
- The largest acknowledgement of a datagram is found with 0xffffffff for none yet, so an ACK that
  carries this number makes the scan forget what came before it (`Skips.FastAcksExact`). No
  emitted ACK carries it (`Safety.NothingAcknowledgedIsLost`), forged ones can
  (`Skips.ReservedMisleads`).
- `check` compares retransmission times as plain numbers while the flush compares them modulo
  2^32 (`Timers.PlainComparisonAgrees`), and `update` flushes by its own timer only. With an
  overdue segment `check` keeps answering "now" while `update` does nothing until the timer runs
  out (`Timers.HopMakesHeadway`, `Witnesses.SpinReached`).
- Round-trip samples of 2^29 ms and more overflow the smoothing (`Timeouts.ExactIffSafe`). The
  estimator's own interval starts at 0, not at the endpoint's default of 100.
- Congestion avoidance stops growing when the segment size is below 16 bytes and its square below
  incr (`Congestion.GrowthStalls`, `Witnesses.StallReached`). Growth and a fast resend unbalance
  the window when its bytes overflow a u32 (`Balance.EveryCallBalanced`,
  `Witnesses.GrowthOverflows`, `Overflows.RestartOverflows`); growth cannot with segments of at
  most 65535 bytes.

## Model

| member | source | states |
|---|---|---|
| `Safety.DeliveredIsPrefixOfSent` | imkcpp/include/imkcpp.hpp:125-240 | In every run of two endpoints, over a network that loses, repeats and reorders datagrams and with settings changed on the way, the messages one side's `recv` returned are a prefix of the messages the other side's `send` accepted, boundary for boundary and byte for byte. |
| `Safety.NothingAcknowledgedIsLost` | imkcpp/include/ack_controller.hpp:109-125 | In every run and in both directions each numbered segment is still in the sender's buffer or held by the receiver, and no ACK number or una on the wire speaks of a segment its speaker does not hold or that was never numbered. |
| `Safety.SenderBookkeeping` | imkcpp/include/sender.hpp:90-112 | In every run, on both sides, snd_buf is strictly increasing within [snd_una, snd_nxt), snd_una is its front or snd_nxt, the unnumbered queue holds exactly the fragments of the stream from snd_nxt on, in order, and rcv_nxt of the peer never passes snd_nxt. |
| `Schedules.UnaNeverDecreases` | imkcpp/include/ack_controller.hpp:109-125 | In every run of calls on one endpoint, whatever bytes arrive, snd_una never decreases. |
| `Safety.EveryDatagramAccepted` | imkcpp/include/imkcpp.hpp:125-217 | In every run each datagram ever emitted, on either side, is the encoding of a non-empty group of emitted packets, at most one MTU long; `input` of the peer accepts it, reports its full length as consumed, and dispatches exactly that group, in order. |
| `Sampling.InputSamples` | imkcpp/include/imkcpp.hpp:186-192 | `input`, on arbitrary bytes and whether or not it succeeds, puts into the timeout estimate the time since the echoed timestamp of each ACK it dispatches, in order, where that is not negative, and nothing else. |
| `Sampling.EveryRunSamples` | imkcpp/include/rto_calculator.hpp:37-75 | Over every run of calls srtt, rttvar and the last sample are those of the elapsed times of the ACKs delivered, one sample for each. |
| `Sampling.SamplesAreElapsedTimes` | imkcpp/include/imkcpp.hpp:186-192 | In every run of two endpoints, on each side whose clock does not go back, the estimate after a delivery is the one before with, for each ACK of the datagram, the time since a real transmission of that very number sampled, retransmissions included, while those times fit an i32. |
| `Safety.EveryRunLinked` | imkcpp/include/imkcpp.hpp:27-391 | The invariant behind these: both directions of the link stay matched to one stream of fragments per direction, step by step, in every run. |
| `Safety.RecvDelivers` | imkcpp/include/receiver.hpp:49-91 | A successful `recv` returns exactly the next message the other side sent, whole, of the size `peek_size` announced, and forgets nothing that is held. |
| `Flushing.FlushKeeps` | imkcpp/include/imkcpp.hpp:301-367 | A flush keeps the invariant in both directions: its datagrams parse into its packets, its pushes carry their fragments, its acknowledgements are of held segments. |
| `Links.DeliverKeepsLinks` | imkcpp/include/imkcpp.hpp:145-216 | Delivering any datagram ever sent, any number of times and in any order, keeps the invariant in both directions. |
| `Rounds.RoundAcknowledges` | imkcpp/include/imkcpp.hpp:145-216 | Progress: when the peer's application reads, the sender's oldest segment is due (or new and let through by the window), and one flush each way gets through, snd_una strictly increases, and the next such round can start. |
| `Rounds.RoundsAcknowledge` | imkcpp/include/imkcpp.hpp:301-367 | A sequence of such rounds acknowledges at least one further fragment each. |
| `Rounds.FairRoundsAreFinite` | imkcpp/include/sender.hpp:198-228 | The measure: no more such rounds can follow each other than there are unacknowledged fragments. |
| `Delivery.DeliveryExactly` | imkcpp/include/imkcpp.hpp:125-367 | Eventual delivery, exactly: in every reachable state with room for every message, some finite schedule of fair rounds delivers every message sent if and only if B can go on: it has a message to read, has everything already, or misses a number that A has and B's window admits. |
| `Delivery.EverythingArrives` | imkcpp/include/receiver.hpp:49-122 | The schedule itself: from every such state at most three rounds per unacknowledged fragment, on clocks that never go back, after which snd_una is the number of fragments and B has read every message. |
| `DrivenRounds.EveryDrivenSchedule` | imkcpp/include/imkcpp.hpp:271-367 | Not one schedule but every one: rounds at any times, in each of which the oldest segment or the probe of a closed window is due, deliver everything once they are three for each unacknowledged fragment and two for a closed window. |
| `Delivery.MoreAcknowledged` | imkcpp/include/sender.hpp:138-237 | Short of full acknowledgement at most three fair rounds, their times chosen after the retransmission and probe times, strictly increase snd_una. |
| `Delivery.WindowReopens` | imkcpp/include/window_prober.hpp:27-54 | A closed window reopens: with nothing in flight and cwnd or the remote window at 0, at most two fair rounds (open cwnd and arm the prober; a WASK, answered by a WINS) leave a window above 0. |
| `Silence.OpensExactly` | imkcpp/include/imkcpp.hpp:59-59 | With nothing in flight, a remote window of 0 heard and B read out, some fair schedule lets A send again if and only if the window B then advertises, narrowed to 16 bits, is not 0. |
| `Silence.SilencedForever` | imkcpp/include/imkcpp.hpp:59-59 | Otherwise the silence lasts: after every fair schedule A's window is closed, its queue as it was, and B has received nothing more. |
| `Silence.SilenceReached` | imkcpp/include/imkcpp.hpp:106-112 | It is reached with a receive window of 65536: B reads the first message before it acknowledges it, advertises 0, and no fair schedule delivers the second. |
| `Delivery.AllReceivedExactly` | imkcpp/include/receiver.hpp:110-122 | With nothing left to read, B has received every message exactly when rcv_nxt is the number of A's fragments. |
| `RoomyRuns.RoomyRunsCanGoOn` | imkcpp/include/imkcpp.hpp:106-112 | When B's receive window is never set below the fragment count of a message, B can go on in every state of the run. |
| `RoomyRuns.EveryRunProgresses` | imkcpp/include/imkcpp.hpp:106-112 | From every reachable state a round with the oldest segment due strictly increases snd_una, when B can go on and the fragments in all stay a window below 2^32. |
| `RoomyRuns.FirstMessageArrives` | imkcpp/include/imkcpp.hpp:238-240 | Those hypotheses are met: from the first `send` of any message of at most 128 fragments there is a fair schedule that delivers it. |
| `RoomyRuns.ReceiverStaysRoomy` | imkcpp/include/imkcpp.hpp:106-112 | In every such run the receive queue waits only when it is full or has a message to read, whatever windows the application sets in between. |
| `Progress.FullQueueReads` | imkcpp/include/receiver.hpp:110-122 | A full receive queue starts a message, and `peek_size` succeeds on it exactly when that message has no more fragments than the queue limit. |
| `Wedges.WedgedForever` | imkcpp/include/receiver.hpp:22-47 | Otherwise the queue is wedged for good: whatever calls are made and whatever bytes arrive, queue, limit and rcv_nxt stay and the application receives nothing more, until the receive window is set again. |
| `Witnesses.WedgeReached` | imkcpp/include/imkcpp.hpp:106-112 | A run that ends wedged: B sets a window of 1, A sends a message of several fragments and another, and one flush arrives. |
| `Wedges.DeadExactly` | imkcpp/include/receiver.hpp:93-122 | No sequence of arrivals and reads ever changes an inbox if and only if nothing can be read and every number in [rcv_nxt, rcv_nxt + rcv_wnd) is held. |
| `Wedges.DeadForever` | imkcpp/include/congestion_controller.hpp:41-43 | Such a receiver is dead for good: whatever calls are made and whatever bytes arrive, its inbox and what its application has received stay, until the receive window is set again. |
| `Witnesses.DeadReached` | imkcpp/include/receiver.hpp:136-138 | A run that ends dead although the limit was raised to what every message needs: 129 fragments held behind a limit of 1, then a window of 128; no fair schedule delivers. |
| `Wedges.RaisedLimitWaits` | imkcpp/include/receiver.hpp:136-138 | Raising the limit of a queue that cannot be read does not drain it: reading still fails and segments already held change nothing; a segment with a new number moves rcv_nxt exactly when rcv_nxt is then held and the queue is below the new limit. |
| `Progress.DrainedFrontier` | imkcpp/include/receiver.hpp:93-122 | After the application has read everything, rcv_nxt is snd_nxt, the number of a segment still in the sender's buffer, or held in the reorder buffer; and the window of a receiver that can go on admits the oldest unacknowledged segment. |
| `Progress.DrainedKeeps` | imkcpp/include/receiver.hpp:49-91 | Reading until nothing is left terminates, keeps the link invariant and leaves the sending half of the endpoint alone. |
| `Codec.DatagramRoundTrip` | imkcpp/include/segment.hpp:53-77 | Parsing the encoding of any well-formed packets gives the same packets in the same order and consumes every byte, for each byte-order setting. |
| `Codec.HeaderRoundTrip` | imkcpp/include/segment.hpp:53-77 | Deserializing a serialized header gives the header back. |
| `Codec.HeaderLayout` | imkcpp/include/segment.hpp:53-64 | The 24 bytes of a header: conv at 0, cmd at 4, frg at 5, wnd at 6, ts at 8, sn at 12, una at 16 and len at 20, each a number in the byte order of the build. |
| `Codec.FaultEndsParse` | imkcpp/include/imkcpp.hpp:150-162 | A faulty header ends a parse with the error for its first fault, after every good packet before it: another conversation, a length past the end, an unknown command. |
| `Codec.Interoperable` | imkcpp/include/endian.hpp:41-67 | Two builds read each other's headers if and only if they put bytes on the wire in the same order. |
| `Codec.Swap32Involution` | imkcpp/include/endian.hpp:54-67 | htonl is its own inverse. |
| `Codec.Word32RoundTrip` | imkcpp/include/types.hpp:57-70 | Storing and loading a u32 through the byte swap is the identity. |
| `Codec.Word16RoundTrip` | imkcpp/include/types.hpp:40-53 | Storing and loading a u16 through the byte swap is the identity. |
| `Codec.ParseConsumes` | imkcpp/include/imkcpp.hpp:145-148 | For arbitrary bytes a parse that ends without an error stops less than one header before the end. |
| `Codec.ParsedAreWellFormed` | imkcpp/include/imkcpp.hpp:150-162 | For arbitrary bytes, every dispatched packet has the endpoint's conv, a known command, and as a PUSH a payload of the announced length. |
| `Codec.ParseReadsInPlace` | imkcpp/include/imkcpp.hpp:143-206 | For arbitrary bytes the dispatched packets stand one after the other from the first byte on: a header each, and a payload after the header of a PUSH and of no other command, whatever its length field says; reading ends where less than a header is left, or at the first fault with the error that names it. |
| `Receiving.ReceiverRefinesMap` | imkcpp/include/receiver.hpp:93-122 | For every sequence of arrivals and reads the buffers hold exactly a map from number to first admitted arrival: consumed and queued segments are 0 .. rcv_nxt-1 once each and in order, rcv_buf is strictly sorted from rcv_nxt on, and its front is rcv_nxt only when the queue is at its limit. |
| `Receiving.BufferStaysInWindow` | imkcpp/include/congestion_controller.hpp:41-43 | rcv_buf stays below rcv_nxt plus the largest receive window that admitted an arrival. |
| `Receiving.RecvReturnsPeekedSize` | imkcpp/include/receiver.hpp:49-91 | On any queue with data sizes equal to len, `recv` succeeds exactly when `peek_size` does and the buffer is large enough, and returns exactly that many bytes. |
| `Receiving.RecvErrorsExactly` | imkcpp/include/receiver.hpp:22-58 | Why `recv` and `peek_size` fail: nothing queued, a front message still incomplete, or a buffer too small for it, and only then. |
| `Receiving.WholeSpanTaken` | imkcpp/include/receiver.hpp:63-82 | `recv` takes the whole front message exactly when the message is a single segment or its last fragment carries data. |
| `Receiving.DuplicateTestExact` | imkcpp/include/receiver.hpp:96-104 | On a sorted buffer the duplicate test after the reverse scan, which looks at one segment only, is exact. |
| `Receiving.InsertedMembers` | imkcpp/include/receiver.hpp:93-108 | An insertion puts the new segment at its place and keeps all others; a duplicate changes nothing. |
| `Receiving.SettleMoves` | imkcpp/include/receiver.hpp:110-122 | The drain loop moves exactly the consecutive front that the queue has room for, and rcv_nxt does not wrap on the way. |
| `Receiving.StallsBeforeWrapping` | imkcpp/include/congestion_controller.hpp:41-43 | The next expected segment is admitted exactly while rcv_nxt plus the window fits a u32, so rcv_nxt never wraps. |
| `Sending.EraseIsFilter` | imkcpp/include/sender_buffer.hpp:34-47 | On a sorted buffer `erase`, which stops early, removes that number and nothing else. |
| `Sending.EraseBeforeIsFilter` | imkcpp/include/sender_buffer.hpp:49-57 | On a sorted buffer `erase_before` is the plain filter for numbers not below its argument. |
| `Sending.BumpIsMap` | imkcpp/include/sender_buffer.hpp:59-67 | On a sorted buffer `increment_fastack_before` adds one to fastack of exactly the smaller numbers. |
| `Sending.UnaReceivedTracked` | imkcpp/include/ack_controller.hpp:120-125 | A una keeps the buffer sorted and in range and never moves snd_una back. |
| `Sending.AckReceivedTracked` | imkcpp/include/ack_controller.hpp:109-114 | An ACK keeps the buffer sorted and in range and never moves snd_una back. |
| `Sending.AdmitExact` | imkcpp/include/sender.hpp:90-112 | Numbering takes exactly min(size of snd_queue, max(0, snd_una + cwnd - snd_nxt)) fragments in order with consecutive numbers, and none once snd_una + cwnd no longer fits a u32, so snd_nxt never wraps. |
| `Laws.FlushNumbersExactly` | imkcpp/include/sender.hpp:139-140 | A flush moves exactly that many fragments from the queue to the buffer, with cwnd the least of the send window, the remote window and, when enabled, the congestion window. |
| `Laws.EveryCallKeeps` | imkcpp/include/sender.hpp:90-112 | Whatever calls are made and whatever bytes arrive, snd_buf stays sorted in range, no more than the largest send window ever set is in flight, and the timeout, probe wait, interval and receive window stay in their ranges. |
| `Laws.SettingsAreIndependent` | imkcpp/include/imkcpp.hpp:76-122 | Each setting takes, clamped where the library clamps it; settings of different kinds leave each other alone, and of one kind the last one counts. |
| `Frames.CallsKeepApart` | imkcpp/include/imkcpp.hpp:76-301 | Every call, in every state and on arbitrary bytes, changes no more of the endpoint than its own part: `send` only appends to the send queue, `recv` only changes the inbox but for its limit and may owe a window announcement, `check` only moves the flush timer, a setting only its own fields, `input` never a setting, the clock or the queue of fragments, a flush never the inbox, the estimate, the clock, snd_una or a setting. |
| `Fragmentation.SendAcceptsExactly` | imkcpp/include/sender.hpp:54-69 | `send` accepts a payload exactly when its size is positive and at most what `estimate_max_payload_size` announces. |
| `Fragmentation.SendErrorsExactly` | imkcpp/include/sender.hpp:54-69 | Why `send` refuses: nothing to send, more than 255 full segments, or more than the receive window of them, in this order. |
| `Fragmentation.FragmentCount` | imkcpp/include/sender.hpp:116-118 | A message is split into as many fragments as `estimate_segments_count` says. |
| `Fragmentation.FragmentsExact` | imkcpp/include/sender.hpp:71-86 | Fragments join to the message, count down to 0, and are non-empty and no longer than a segment may be. |
| `Fragmentation.Reassembly` | imkcpp/include/receiver.hpp:22-91 | At a message boundary `peek_size` succeeds exactly when the whole message is queued, and the copy loop takes exactly its fragments and yields the message. |
| `Transmission.ScheduledAhead` | imkcpp/include/sender.hpp:144-183 | After a pass a segment is due again at the same clock reading exactly when it was sent with a slack of 0 or of more than 2^31 ms. |
| `Laws.FlushSchedulesExactly` | imkcpp/include/sender.hpp:198-228 | After a flush every buffered segment has been sent, and is due again at the same reading exactly when this flush gave it a slack of 0 or of more than 2^31 ms. |
| `Passes.FlushRetimesExactly` | imkcpp/include/sender.hpp:144-218 | A flush, segment by segment: an unsent one gets the estimate as its timeout, an eighth longer at first in the normal mode; one whose time has come backs off by its own timeout or the estimate if larger, or by half of one of them in the two nodelay modes; one skipped more than fastresend times is sent again with fastack 0; every other stays as it is. |
| `Laws.FirstSendScheduled` | imkcpp/include/sender.hpp:151-155 | Within the ranges every endpoint keeps, a first send is scheduled strictly ahead, by at most 67.5 s. |
| `Histories.LivesAreRuns` | imkcpp/include/sender.hpp:144-196 | In every run of calls, whatever bytes arrive, the metadata of each buffered segment is what its history of flushes and skips makes of a new one, and its life counts exactly the flushes that judged it timed out or fast-resent it. |
| `Histories.EveryRunBacksOff` | imkcpp/include/sender.hpp:161-173 | So in every run of calls a buffered segment that k <= 16 flushes have judged timed out has a timeout between that of its first send, itself in [30 ms, 60 s], and 60000 * 2^k, and at least 2^k times its first while nodelay is never set; nothing wraps. |
| `Transmission.AlwaysAhead` | imkcpp/include/sender.hpp:144-183 | After each flush of such a life a segment with at most 15 timeouts lies strictly ahead of the reading it was flushed at. |
| `Schedules.EveryFlushSchedules` | imkcpp/include/sender.hpp:198-228 | In every run of calls, whatever bytes arrive, a flush leaves no segment unsent, and every segment sent at most 16 times strictly ahead. |
| `Transmission.BackoffOverflows` | imkcpp/include/sender.hpp:165-167 | A segment that times out unanswered from a timeout of 60 s wraps at its seventeenth timeout: the bound on k is exact. |
| `Histories.EveryRunFastResends` | imkcpp/include/sender.hpp:175-183 | In every run of calls with one positive fastlimit throughout, at most fastlimit - 1 flushes fast-resend a given number, whatever bytes arrive. |
| `Transmission.EmittedFrom` | imkcpp/include/sender.hpp:198-228 | The emitted packets are exactly the stamped forms of the segments judged due, first, or fast. |
| `Transmission.EmittedCount` | imkcpp/include/sender.hpp:223-228 | Every push is a first send, a timeout or a fast resend, and is counted once. |
| `Passes.FlushReportsExactly` | imkcpp/include/sender.hpp:198-228 | What a flush reports: the acknowledgements owed, the probes asked and told, and the timeouts, fast resends and pushes as counts over the segments it found. |
| `Passes.FlushDeadExactly` | imkcpp/include/sender.hpp:185-196 | The link is declared dead by exactly the flush that sends a segment whose count of sends reaches the threshold, and stays dead. |
| `Skips.FastAcksExact` | imkcpp/include/ack_controller.hpp:27-37 | For every datagram the fold over its ACKs ends at the largest ACK after the last one numbered 0xffffffff, in whatever order they come, or at none. |
| `Skips.WholeDatagramExactly` | imkcpp/include/ack_controller.hpp:11-37 | That is the largest ACK of the whole datagram, as far as any buffer can tell, exactly when no ACK is numbered 0xffffffff or every ACK after the last such one is of number 0. |
| `Skips.ReservedMisleads` | imkcpp/include/imkcpp.hpp:209-213 | The failing input: two ACKs, one numbered 0xffffffff, make `input` raise fastack of the oldest segment in one order and not in the other. |
| `Skips.SkippedExactly` | imkcpp/include/ack_controller.hpp:86-98 | A remaining segment's fastack rises by one exactly when its number is below the largest ACK and that is below snd_nxt. |
| `Skips.InputSkipsExactly` | imkcpp/include/imkcpp.hpp:209-213 | A successful `input`, on arbitrary bytes, raises fastack by one on exactly the remaining segments below the largest ACK after the last one numbered 0xffffffff, when that is below snd_nxt. |
| `Laws.AcknowledgedExactly` | imkcpp/include/imkcpp.hpp:164-190 | A segment leaves the send buffer exactly when some packet of the datagram names it in an ACK or passes it with its una, whatever the order. |
| `Passes.InputReportsExactly` | imkcpp/include/imkcpp.hpp:135-217 | What a successful `input` reports, on arbitrary bytes: the packets dispatched of each kind, the data packets refused, each by the window and rcv_nxt it met, and the bytes consumed. |
| `Passes.InputOwesExactly` | imkcpp/include/imkcpp.hpp:168-185 | `input`, on arbitrary bytes and whether or not it succeeds, owes one more acknowledgement, with its number and time, for each PUSH below the bound of the receive window as it stands by then, in order, new or seen before, and none else. |
| `Balance.EveryCallBalanced` | imkcpp/include/congestion_controller.hpp:66-107 | Whatever calls are made, whatever bytes arrive and for every segment size, cwnd = incr = 0 or (cwnd-1)*MSS < incr < (cwnd+1)*MSS, and ssthresh >= 2, throughout a run if and only if each call fits: each flush restarts at a window whose bytes fit a u32, each `input` raises incr to a u32. With segments of at most 65535 bytes every `input` fits. |
| `Balance.InputBalancedExactly` | imkcpp/include/imkcpp.hpp:209-216 | `input`, on arbitrary bytes, leaves a balanced endpoint balanced exactly when it fails, acknowledges nothing new, or finds a window whose raise fits. |
| `Balance.InputKeepsBalance` | imkcpp/include/imkcpp.hpp:164-164 | With segments of at most 65535 bytes it always does, with no cap on any window: the remote window just heard has 16 bits. |
| `Congestion.WindowsBalancedExactly` | imkcpp/include/congestion_controller.hpp:66-107 | The same for every sequence of controller events and every segment size: balanced throughout if and only if each event fits the window it finds. |
| `Congestion.RestartBalancedExactly` | imkcpp/include/congestion_controller.hpp:66-70 | A fast resend leaves the window balanced exactly when half the flight, at least 2, plus the threshold, as a u32, makes a window whose bytes fit a u32. |
| `Balance.FlushBalancedExactly` | imkcpp/include/sender.hpp:230-236 | A flush of a balanced endpoint leaves it balanced exactly when it finds a timeout, or fast-resends nothing, or restarts at such a window. |
| `Passes.FlushReactsExactly` | imkcpp/include/sender.hpp:230-236 | How the windows react to a flush: with a timeout cwnd falls to 1 and ssthresh to half the window before, at least 2; with fast resends only they restart at half the flight, at least 2, and that plus fastresend; otherwise they stay, but for a cwnd of 0, which becomes 1. |
| `Overflows.RestartOverflows` | imkcpp/include/congestion_controller.hpp:66-70 | A run in which a flush does not: with an MSS of 2^30 and fastresend 2, four segments in flight and the fourth acknowledged three times, the window restarts at 4 and incr wraps to 0. |
| `Congestion.AdjustBalancedExactly` | imkcpp/include/congestion_controller.hpp:78-100 | `adjust_parameters` keeps a balanced window balanced exactly when its raise fits, and then never shrinks cwnd, raises it by at most 2 and never past the remote window. |
| `Congestion.AdjustGrowsExactly` | imkcpp/include/congestion_controller.hpp:78-100 | How it grows a window that fits: by one segment below the threshold, and from there on by a segment once incr, which gains MSS^2 / incr + MSS / 16 each time, covers one more; never past the remote window. |
| `Congestion.OrdinarySegments` | imkcpp/include/congestion_controller.hpp:78-100 | With segments of at most 2^30 bytes a raise fits exactly when cwnd is at the remote window or the raised incr, computed without wrapping, is below 2^32. |
| `Witnesses.GrowthOverflows` | imkcpp/include/congestion_controller.hpp:78-100 | An endpoint where it does not: with an MSS of 2^31 the first growth wraps incr to 0. |
| `Congestion.GrowthIsLive` | imkcpp/include/congestion_controller.hpp:84-92 | In congestion avoidance with room left and an MSS of at least 16, at most 62 calls raise cwnd. |
| `Congestion.GrowthStalls` | imkcpp/include/congestion_controller.hpp:88-92 | A call there changes nothing exactly when the MSS is below 16 and its square is below incr. |
| `Congestion.StalledForever` | imkcpp/include/congestion_controller.hpp:88-92 | Once it changes nothing, no number of further calls does. |
| `Witnesses.StallReached` | imkcpp/include/congestion_controller.hpp:78-100 | An endpoint reaches it: with segments of one byte the window stays 2 of a possible 100 after its first growth. |
| `Timeouts.ExactIffSafe` | imkcpp/include/rto_calculator.hpp:37-67 | The u32 arithmetic computes the intended integer srtt and rttvar for all sample sequences up to a bound exactly when that bound is at most 2^29 - 1. |
| `Timeouts.TimeoutBounds` | imkcpp/include/rto_calculator.hpp:46-75 | With samples in [lo, hi], hi <= 2^29 - 1, srtt stays in [lo, hi], rttvar is at most hi, and the timeout is srtt + max(interval, 4 rttvar), as section 2 of RFC 2988 asks, clamped to [minrto, 60000]. |
| `Timeouts.RtoWithin` | imkcpp/include/rto_calculator.hpp:69-75 | Whatever the samples, the timeout stays in [minrto, 60000]. |
| `Timeouts.TimeoutConverges` | imkcpp/include/rto_calculator.hpp:46-75 | Under constant samples R, from any safe state and after a number of them logarithmic in the distance, srtt lies in [R-7, R], rttvar is at most 7, and the timeout is at most max(minrto, R + max(interval, 28)), for good. |
| `Timeouts.ConvergesWithin306` | imkcpp/include/rto_calculator.hpp:46-75 | 306 samples suffice from every safe state. |
| `Probing.ProbesOnTime` | imkcpp/include/window_prober.hpp:27-54 | While the remote window stays closed, a run of flushes less than 2^31 ms apart has asked exactly when one of them came at or after the unwrapped time the probe was armed for, however often the clock wrapped. |
| `Probing.UpdateArmed` | imkcpp/include/window_prober.hpp:27-54 | Each such flush asks exactly when the unwrapped probe time has come, and leaves the next one ahead of it by at most the wait. |
| `Probing.UpdateExactly` | imkcpp/include/window_prober.hpp:27-54 | What a flush does to the prober: an open window stops it, a closed one starts it at 7 s, and a probe whose time has come is sent and waits half as long again, at most 120 s. |
| `Probing.WaitLadder` | imkcpp/include/window_prober.hpp:34-47 | The waits in full: 7000, 10500, 15750, 23625, 35437, 53155, 79732, 119598 and then 120000 ms. |
| `Schedules.ProbeIsAnswered` | imkcpp/include/imkcpp.hpp:193-197 | In every run of calls the flush after a datagram with a WASK hands over a WINS that carries the window advertised then. |
| `Laws.LastWindowCounts` | imkcpp/include/imkcpp.hpp:164-164 | The remote window in force after a datagram is the one its last packet carries. |
| `Announcing.EveryHeader` | imkcpp/include/imkcpp.hpp:304-361 | In every run of calls every header a flush emits, of an ACK, a probe or data, carries the conversation, rcv_nxt as its una, and (rcv_wnd - size of the receive queue) modulo 65536 as its window, 0 if more is queued; the owed acknowledgements come first, in order and with their numbers and times, then a WASK exactly when the prober asks, a WINS exactly when one is owed, then the data. |
| `Announcing.RoomIsAnnounced` | imkcpp/include/imkcpp.hpp:220-235 | In every run of calls the flush after a `recv` hands over a WINS exactly when one was owed before or that `recv` found at least rcv_wnd segments queued and left fewer; it carries the room there is then. |
| `Timers.UpdateArmsTimer` | imkcpp/include/imkcpp.hpp:271-298 | After any `update` the next flush lies ahead by at most 10 s, by at most one interval if this one flushed. |
| `Periods.UpdateExactly` | imkcpp/include/imkcpp.hpp:271-298 | One `update`: the first, and one late by an interval or more or early by more than 10 s, flushes and sets the next flush one interval after now; one late by less flushes and sets it one interval after the flush that was due; one early by less only reads the clock. |
| `Periods.TimerKeepsPeriod` | imkcpp/include/imkcpp.hpp:284-294 | On an unwrapped clock, with readings less than one interval apart and anything else called between them, the next flush stands at start + (k + 1) * interval, where k is the period of the last reading. |
| `Periods.FlushesEachPeriod` | imkcpp/include/imkcpp.hpp:284-296 | So flushes do not drift: an `update` flushes exactly when it is the first at or after start + k * interval for some k. |
| `Timers.CheckAnswerBounds` | imkcpp/include/imkcpp.hpp:243-268 | `check` answers no earlier than now, no later than one interval ahead, nor later than the next flush. |
| `Timers.CheckAnswersEarliest` | imkcpp/include/imkcpp.hpp:243-268 | `check` answers now before the first `update`, with the flush due, with the timer 10 s or more away, which it then restarts, and with a segment overdue; otherwise the earliest of one interval ahead, the next flush, and the retransmission time of every buffered segment. |
| `Timers.HopMakesHeadway` | imkcpp/include/imkcpp.hpp:256-268 | Calling `update` at the time `check` answers, on the timer it leaves, moves on or flushes exactly when no buffered segment is overdue by plain comparison or the timer was 10 s ahead, where `check` restarts it. |
| `Witnesses.SpinReached` | imkcpp/include/imkcpp.hpp:243-298 | An endpoint reaches the opposite: for more than four seconds of the clock `check` answers now and `update` does nothing. |
| `Timers.HopsReachFlush` | imkcpp/include/imkcpp.hpp:243-298 | With nothing in flight, hopping from answer to answer reaches a flush within one hop per 10 ms of remaining wait. |
| `Timers.EarliestZero` | imkcpp/include/sender_buffer.hpp:80-86 | The earliest-transmission scan answers 0 exactly when some retransmission time is not after now. |
| `Timers.PlainComparisonAgrees` | imkcpp/include/sender_buffer.hpp:81-83 | The plain comparison there agrees with the modular one of the flush exactly when the readings are within 2^31 of each other. |
| `Words.TimeDeltaIsElapsed` | imkcpp/include/utility.hpp:8-10 | The signed difference of two wrapped readings is the true elapsed time exactly when that fits an i32. |
| `Packing.PackingExact` | imkcpp/include/flusher.hpp:19-74 | Every datagram is non-empty, at most one MTU long and made of whole packets; in order they carry exactly the given packets and together exactly their bytes. |
| `Packing.PackingTight` | imkcpp/include/flusher.hpp:37-61 | A datagram is handed over only when the next packet does not fit it, or at the end. |
| `Schedules.EveryFlushConserves` | imkcpp/include/imkcpp.hpp:311-366 | In every run of calls each datagram of a flush is non-empty and at most one MTU long, and handed over only when the next packet does not fit it; the datagrams carry exactly its packets, and the bytes reported are 24 per reported command plus the payloads. |
| `Library.ImKcpp.New` | imkcpp/include/imkcpp.hpp:69-73 | A new endpoint has the documented defaults. |
| `Library.ImKcpp.Input` | imkcpp/include/imkcpp.hpp:125-217 | On arbitrary bytes, the new state and the result or error are those of the endpoint value; packets before a faulty one have been handled. |
| `Library.ImKcpp.ReadPackets` | imkcpp/include/imkcpp.hpp:145-207 | The packet loop handles exactly the packets of the parse, ends with the parse's error or offset, and gathers the largest ACK and the counts on the way. |
| `Library.ImKcpp.Dispatch` | imkcpp/include/imkcpp.hpp:164-206 | One packet: window, una, then its command; the offset moves past the payload of a PUSH only. |
| `Library.ImKcpp.Recv` | imkcpp/include/imkcpp.hpp:220-235 | The bytes returned are the message of the endpoint value, the rest of the buffer is untouched, and an error changes nothing. |
| `Library.ImKcpp.Send` | imkcpp/include/imkcpp.hpp:238-240 | The queue grows by the fragments of the message, or an error changes nothing. |
| `Library.ImKcpp.Flush` | imkcpp/include/imkcpp.hpp:301-367 | State, emitted datagrams and report are those of the endpoint value; nothing stays in the flusher. |
| `Library.ImKcpp.FlushAcks` | imkcpp/include/imkcpp.hpp:313-325 | One packet per scheduled acknowledgement, in order, and an empty list afterwards. |
| `Library.ImKcpp.FlushProbes` | imkcpp/include/imkcpp.hpp:327-349 | WASK and WINS as the prober says, under the header of the last acknowledgement, and cleared flags. |
| `Library.ImKcpp.Update` | imkcpp/include/imkcpp.hpp:271-298 | The timer moves as the endpoint value's does, and a flush happens exactly when it is due. |
| `Library.ImKcpp.Check` | imkcpp/include/imkcpp.hpp:243-268 | The answer and the possibly restarted timer are those of the endpoint value. |
| `Receivers.Receiver.PeekSize` | imkcpp/include/receiver.hpp:22-47 | Size of the front message as the total length of its span, or why there is none. |
| `Receivers.Receiver.Recv` | imkcpp/include/receiver.hpp:49-91 | Copies the front message into the caller's buffer, removes its segments, drains the reorder buffer; an error changes nothing. |
| `Receivers.Receiver.TakeMessage` | imkcpp/include/receiver.hpp:62-84 | The copy loop writes the joined payloads, removes exactly those segments, and ends at the peeked size. |
| `Receivers.Receiver.Emplace` | imkcpp/include/receiver.hpp:93-108 | In-place insertion of a segment and drain. |
| `Receivers.Receiver.FindInsertPos` | imkcpp/include/receiver.hpp:96-100 | The reverse scan finds the position after the last smaller number. |
| `Receivers.Receiver.MoveBufferToQueue` | imkcpp/include/receiver.hpp:110-122 | The in-place drain of the reorder buffer. |
| `SenderBuffers.SenderBuffer.Erase` | imkcpp/include/sender_buffer.hpp:34-47 | The early-exit loop, in place. |
| `SenderBuffers.SenderBuffer.EraseBefore` | imkcpp/include/sender_buffer.hpp:49-57 | The early-exit loop, in place. |
| `SenderBuffers.SenderBuffer.IncrementFastackBefore` | imkcpp/include/sender_buffer.hpp:59-67 | The early-exit loop over metadata, in place. |
| `SenderBuffers.SenderBuffer.GetEarliestTransmitDelta` | imkcpp/include/sender_buffer.hpp:73-94 | The accumulating scan, with its early answer 0 and its sentinel. |
| `SenderBuffers.AckController.AcknowledgeFastack` | imkcpp/include/ack_controller.hpp:86-98 | Bumps the skipped segments when the largest ACK is in flight, and nothing otherwise. |
| `SenderBuffers.AckController.AckReceived` | imkcpp/include/ack_controller.hpp:109-114 | Removes the acknowledged segment and refreshes snd_una, through the shared buffer and counters. |
| `SenderBuffers.AckController.UnaReceived` | imkcpp/include/ack_controller.hpp:120-125 | Removes everything before una and refreshes snd_una, through the shared buffer and counters. |
| `Senders.Sender.Send` | imkcpp/include/sender.hpp:54-87 | Error checks in order, then the queue grows by the fragments of the message. |
| `Senders.Sender.Split` | imkcpp/include/sender.hpp:71-86 | The fragmentation loop builds exactly the fragments of the specification. |
| `Senders.Sender.MoveSendQueueToBuffer` | imkcpp/include/sender.hpp:90-112 | The numbering loop, in place. |
| `Senders.Sender.ProcessSegment` | imkcpp/include/sender.hpp:147-218 | First send, timeout or fast resend: verdict, metadata and the timeout counter. |
| `Senders.Sender.SendSegment` | imkcpp/include/sender.hpp:185-196 | Stamps the header, packs the segment, and declares the link dead at the threshold. |
| `Senders.Sender.FlushSegments` | imkcpp/include/sender.hpp:220-228 | The loop over the buffer: segments, packed packets, counts, dead link. |
| `Senders.Sender.FlushDataSegments` | imkcpp/include/sender.hpp:138-237 | Numbering, the loop, and what the windows make of its resends. |
| `Flushers.Flusher.FlushIfDoesNotFit` | imkcpp/include/flusher.hpp:46-52 | Hands the buffer over when a header and that many bytes do not fit. |
| `Flushers.Flusher.Emplace` | imkcpp/include/flusher.hpp:69-74 | Appends the encoding of the packet to the byte buffer. |
| `Serializers.SerializeHeader` | imkcpp/include/segment.hpp:53-64 | Writes the encoded header at the offset, nothing before or after it changes. |
| `Serializers.DeserializeHeader` | imkcpp/include/segment.hpp:66-77 | Reads back the header that starts at the offset and moves the offset by 24. |
| `Memory.CopyInto` | imkcpp/include/segment.hpp:111-116 | memcpy at an offset of a buffer. |
| `Controllers.CongestionController.AdjustParameters` | imkcpp/include/congestion_controller.hpp:78-100 | Slow start, congestion avoidance and the cap at the remote window, assigned step by step. |
| `Controllers.RtoCalculator.UpdateRto` | imkcpp/include/rto_calculator.hpp:37-75 | Smoothed time, variation and timeout in wrapping u32 arithmetic. |
| `Controllers.WindowProber.Update` | imkcpp/include/window_prober.hpp:27-54 | Starts, restarts or stops the probe timer. |

## Left out

- Two-endpoint runs deliver only datagrams the other endpoint emitted; forged or corrupted bytes are covered for one endpoint (`Laws.EveryCallKeeps`, `Balance.EveryCallBalanced`, `Library.ImKcpp.Input`), not for delivery.
- Two-endpoint runs use one build setting on both sides; what differing builds do to each other's headers is `Codec.Interoperable`.
- Sampling.SamplesAreElapsedTimes: needs a clock that does not go back, and speaks of the elapsed time only below 2^31 ms, because beyond that the i32 difference is another number.
- Announcing.EveryHeader: says nothing of the window of a receive window or a queue of 2^31 segments and more, where the library's i32 conversion goes negative.
- Rounds.RoundAcknowledges: the hypothesis that the peer's window test cannot wrap stands in for behaviour past sequence number 2^32, where the library stalls.
- RoomyRuns.EveryRunProgresses: the same hypothesis.
- Delivery.DeliveryExactly: assumes that the fragments in all stay one window below 2^32, that the send window is not 0, that the receive limit admits every message, and that B's window, once read out, is not advertised as 0 (it is below 2^31 and modulo 65536 at least the fragment count of each message); `Silence.OpensExactly` says what a window advertised as 0 does.
- Delivery.EverythingArrives: the same hypotheses.
- Delivery.MoreAcknowledged: the same hypotheses.
- Delivery.WindowReopens: the same hypotheses.
- DrivenRounds.EveryDrivenSchedule: the same hypotheses.
- Histories.EveryRunBacksOff: fewer than 2^32 - 1 calls, so that no transmission counter wraps.
- Transmission.AlwaysAhead: fewer than 2^32 - 1 flushes and skips of one segment, for the same reason.
- Histories.EveryRunFastResends: fewer than 2^32 - 1 calls, for the same reason.
- Loss of a whole direction for ever: a fair round is a hypothesis about delivery, and the schedules of `Delivery` choose the times of the calls; how long they take in wall-clock time is not bounded.
- `rmt_una` of the acknowledgement controller and the probe fields of the congestion controller, which are written or declared but never read, and `cmd_push_count` of the input result, which is never written.
- Counters in results, and lengths of buffers and of the receive queue, are unbounded naturals; the library's u32 counters of one call would need 2^32 packets in one call to differ.
- `std::abs` of the most negative i32 in `check`, and signed overflow in the smoothing of samples of 2^31 ms and more, which C++ leaves undefined, are exact integers here.
- Segment sizes of 2^32 bytes and more.
- The output callback is an object that records datagrams; real sockets, timers and the wall clock are parameters.
- The deques and vectors are sequences held in fields; iterator invalidation, moves, `reserve` and allocation failure are not modelled.
- `err_to_str`, the addition operators of the result types, the newtype wrappers beyond their widths, the benchmarks and the generated documentation.
- The settings and getters of the object layer (one assignment each), whose contracts are stated and verified in `Library` but have no row above.
