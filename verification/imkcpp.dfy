/** The main object of the library: every call refines the endpoint value of module Endpoints. */
module Library {
  import opened Words
  import opened Segments
  import opened Codec
  import opened Sending
  import opened Congestion
  import opened Timeouts
  import opened Probing
  import opened Controllers
  import opened SenderBuffers
  import opened Receiving
  import opened Receivers
  import opened Packing
  import opened Transmission
  import opened Readings
  import opened Groupings
  import opened Flushers
  import opened Serializers
  import opened Fragmentation
  import opened Senders
  import E = Endpoints

  /** The value an endpoint has before its constructor sets the windows. */
  function Unconfigured(build: Build, conv: u32, mss: Mss): E.Endpoint {
    E.New(build, conv, mss).(inbox := EMPTY_INBOX)
  }

  lemma NewIsConfigured(build: Build, conv: u32, mss: Mss)
    ensures E.Configure(E.Configure(Unconfigured(build, conv, mss), E.ReceiveWindow(WND_RCV)),
                        E.SendWindow(WND_SND))
         == E.New(build, conv, mss)
  {
  }

  method NewControls(mss: Mss) returns (
      rtoCalculator: RtoCalculator, congestionController: CongestionController,
      windowProber: WindowProber, receiver: Receiver)
    ensures fresh({rtoCalculator, congestionController, windowProber, receiver})
    ensures rtoCalculator.Value() == INITIAL_ESTIMATE && windowProber.Value() == NO_PROBE
    ensures congestionController.mss == mss && congestionController.Value() == INITIAL_WINDOWS
    ensures receiver.Valid() && receiver.Inbox() == EMPTY_INBOX
  {
    rtoCalculator := new RtoCalculator();
    congestionController := new CongestionController(mss);
    windowProber := new WindowProber();
    receiver := new Receiver();
  }

  method NewAcks() returns (
      segmentTracker: SegmentTracker, senderBuffer: SenderBuffer, ackController: AckController)
    ensures fresh({segmentTracker, senderBuffer, ackController})
    ensures ackController.senderBuffer == senderBuffer && ackController.segmentTracker == segmentTracker
    ensures segmentTracker.sndUna == segmentTracker.sndNxt == 0
    ensures senderBuffer.sndBuf == [] && ackController.acklist == []
  {
    segmentTracker := new SegmentTracker();
    senderBuffer := new SenderBuffer();
    ackController := new AckController(senderBuffer, segmentTracker);
  }

  class ImKcpp {
    const sharedCtx: SharedCtx
    const flusher: Flusher
    const segmentTracker: SegmentTracker
    const rtoCalculator: RtoCalculator
    const congestionController: CongestionController
    const windowProber: WindowProber
    const receiver: Receiver
    const senderBuffer: SenderBuffer
    const ackController: AckController
    const sender: Sender

    var updated: bool
    var current: u32
    var tsFlush: u32

    ghost function Repr(): set<object> {
      {this, sharedCtx, flusher, flusher.buffer, segmentTracker, rtoCalculator, congestionController,
       windowProber, receiver, senderBuffer, ackController, sender}
    }

    /** The sub-objects share the buffer and the counters, and nothing waits in the flusher. */
    ghost predicate Valid()
      reads Repr()
    {
      Flushing() && flusher.pending == []
    }

    /** What holds in the middle of a flush as well. */
    ghost predicate Flushing()
      reads Repr()
    {
      Wired() && receiver.Valid() && sender.Valid()
    }

    ghost predicate Wired() {
      && ackController.senderBuffer == sender.senderBuffer == senderBuffer
      && ackController.segmentTracker == sender.segmentTracker == segmentTracker
      && sender.sharedCtx == sharedCtx
      && sender.congestionController == congestionController
      && sender.rtoCalculator == rtoCalculator
      && sender.flusher == flusher
    }

    ghost function Endpoint(): E.Endpoint
      reads Repr()
    {
      E.Endpoint.Endpoint(
        flusher.build, sharedCtx.conv, congestionController.mss,
        Outbox.Outbox(segmentTracker.sndUna, segmentTracker.sndNxt, senderBuffer.sndBuf, sender.sndQueue),
        receiver.Inbox(), ackController.acklist, congestionController.Value(), rtoCalculator.Value(),
        windowProber.Value(), E.Timing(sharedCtx.interval, updated, current, tsFlush),
        E.Tuning(sender.nodelay, sender.fastresend, sender.fastlimit, sender.deadLink, sender.xmit,
                 sharedCtx.dead))
    }

    /** The member initializers. */
    constructor Members(build: Build, conv: u32, mss: Mss)
      ensures Valid() && fresh(Repr())
      ensures Endpoint() == Unconfigured(build, conv, mss)
    {
      var sharedCtx := new SharedCtx(conv);
      var flusher := new Flusher(build, mss);
      var rtoCalculator, congestionController, windowProber, receiver := NewControls(mss);
      var segmentTracker, senderBuffer, ackController := NewAcks();
      var sender := new Sender(sharedCtx, congestionController, rtoCalculator, flusher, senderBuffer,
                               segmentTracker);
      this.sharedCtx, this.flusher, this.segmentTracker := sharedCtx, flusher, segmentTracker;
      this.rtoCalculator, this.congestionController := rtoCalculator, congestionController;
      this.windowProber, this.receiver, this.senderBuffer := windowProber, receiver, senderBuffer;
      this.ackController, this.sender := ackController, sender;
      updated, current, tsFlush := false, 0, E.INTERVAL;
    }

    /** The constructor of the library: member initializers, then the default windows. */
    static method New(build: Build, conv: u32, mss: Mss) returns (kcp: ImKcpp)
      ensures kcp.Valid() && fresh(kcp.Repr())
      ensures kcp.Endpoint() == E.New(build, conv, mss)
    {
      kcp := new ImKcpp.Members(build, conv, mss);
      NewIsConfigured(build, conv, mss);
      hide E.Configure, E.New, Unconfigured;
      kcp.SetReceiveWindow(WND_RCV);
      kcp.SetSendWindow(WND_SND);
    }

    // ---------------------------------------------------------------- settings

    method SetInterval(value: u32)
      requires Valid()
      modifies sharedCtx`interval, rtoCalculator`interval
      ensures Valid() && Endpoint() == E.Configure(old(Endpoint()), E.Interval(value))
    {
      var interval := Clamp(value, 10, 5000);
      sharedCtx.interval := interval;
      rtoCalculator.interval := interval;
    }

    method SetNodelay(value: u32)
      requires Valid()
      modifies sender`nodelay, rtoCalculator
      ensures Valid() && Endpoint() == E.Configure(old(Endpoint()), E.NoDelay(value))
    {
      sender.SetNodelay(value);
    }

    method SetFastresend(value: u32)
      requires Valid()
      modifies sender`fastresend
      ensures Valid() && Endpoint() == E.Configure(old(Endpoint()), E.FastResend(value))
    {
      sender.SetFastresend(value);
    }

    method SetFastlimit(value: u32)
      requires Valid()
      modifies sender`fastlimit
      ensures Valid() && Endpoint() == E.Configure(old(Endpoint()), E.FastLimit(value))
    {
      sender.SetFastlimit(value);
    }

    method SetSendWindow(value: u32)
      requires Valid() && value > 0
      modifies congestionController
      ensures Valid() && Endpoint() == E.Configure(old(Endpoint()), E.SendWindow(value))
    {
      congestionController.sndWnd := value;
      congestionController.rmtWnd := value;
    }

    method SetReceiveWindow(value: u32)
      requires Valid() && value > 0
      modifies congestionController, receiver`queueLimit
      ensures Valid() && Endpoint() == E.Configure(old(Endpoint()), E.ReceiveWindow(value))
    {
      congestionController.SetReceiveWindow(value);
      receiver.SetQueueLimit(value);
    }

    method SetCongestionWindowEnabled(on: bool)
      requires Valid()
      modifies congestionController
      ensures Valid() && Endpoint() == E.Configure(old(Endpoint()), E.CongestionWindowEnabled(on))
    {
      congestionController.congestionWindow := on;
    }

    method SetDeadlink(value: u32)
      requires Valid()
      modifies sender`deadLink
      ensures Valid() && Endpoint() == E.Configure(old(Endpoint()), E.DeadLink(value))
    {
      sender.SetDeadlink(value);
    }

    // ---------------------------------------------------------------- send and recv

    method Send(buffer: seq<u8>) returns (result: Result<nat>)
      requires Valid()
      modifies sender`sndQueue
      ensures Valid()
      ensures (Endpoint(), result) == E.Send(old(Endpoint()), buffer)
    {
      result := sender.Send(buffer);
    }

    method PeekSize() returns (size: Result<nat>)
      requires Valid()
      ensures size == Receiving.PeekSize(Endpoint().inbox)
    {
      size := receiver.PeekSize();
    }

    method EstimateSegmentsCount(size: nat) returns (count: nat)
      requires Valid()
      ensures count == SegmentCount(size, Endpoint().mss)
    {
      count := sender.EstimateSegmentsCount(size);
    }

    method EstimateMaxPayloadSize() returns (size: nat)
      requires Valid()
      ensures size == MaxPayload(Endpoint().windows.rcvWnd, Endpoint().mss)
    {
      var least := Min(congestionController.rcvWnd, MAX_FRAGMENTS);
      ProductNonNegative(least, congestionController.mss);
      size := least * congestionController.mss;
    }

    method GetState() returns (dead: bool)
      ensures dead == Endpoint().tuning.dead
    {
      dead := sharedCtx.dead;
    }

    method Recv(buffer: array<u8>) returns (result: Result<nat>)
      requires Valid() && buffer !in Repr()
      modifies receiver, windowProber, buffer
      ensures Valid()
      ensures var (e, message) := E.Recv(old(Endpoint()), buffer.Length);
        && Endpoint() == e
        && match message
           case Err(error) => result == Err(error) && buffer[..] == old(buffer[..])
           case Ok(bytes) =>
             && result == Ok(|bytes|)
             && |bytes| <= buffer.Length
             && buffer[..] == bytes + old(buffer[|bytes|..])
    {
      var received := receiver.Recv(buffer, congestionController.rcvWnd);
      match received {
        case Err(error) =>
          result := Err(error);
        case Ok(value) =>
          if value.recovered {
            windowProber.AskTell();
          }
          assert buffer[..] == buffer[..value.size] + buffer[value.size..];
          result := Ok(value.size);
      }
    }

    // ---------------------------------------------------------------- input

    method Input(data: seq<u8>) returns (result: Result<E.InputResult>)
      requires Valid()
      modifies receiver, windowProber, congestionController, rtoCalculator
      modifies ackController, senderBuffer, segmentTracker`sndUna
      ensures Valid()
      ensures (Endpoint(), result) == E.Input(old(Endpoint()), data)
    {
      if |data| < HEADER_SIZE {
        return Err(LessThanHeaderSize);
      }
      hide Parse, E.HandleAll, E.FastAcks, E.TallyAll, E.Conclude;
      var prevUna := segmentTracker.sndUna;
      var fastack := new FastAckCtx();
      var error, counts := ReadPackets(data, fastack);
      if error.Some? {
        return Err(error.value);
      }
      ConcludeInput(prevUna, fastack);
      result := Ok(counts);
    }

    /** What follows the packet loop of input(). */
    method ConcludeInput(prevUna: u32, fastack: FastAckCtx)
      requires Valid()
      modifies congestionController, senderBuffer
      ensures Valid() && Endpoint() == E.Conclude(old(Endpoint()), prevUna, fastack.Value())
    {
      AcknowledgedFits(senderBuffer.sndBuf, fastack.maxack, sender.mss);
      hide AdjustParameters, BumpBefore;
      ackController.AcknowledgeFastack(fastack);
      if segmentTracker.sndUna > prevUna {
        congestionController.AdjustParameters();
      }
    }

    /** The packet loop of input(). */
    method ReadPackets(data: seq<u8>, fastack: FastAckCtx)
      returns (error: Option<Error>, counts: E.InputResult)
      requires Valid() && fastack.Value() == NO_FAST_ACK
      modifies receiver, windowProber, congestionController, rtoCalculator
      modifies ackController, senderBuffer, segmentTracker`sndUna, fastack
      ensures Valid()
      ensures var e, parsed := old(Endpoint()), Parse(flusher.build, sharedCtx.conv, data);
        && Endpoint() == E.HandleAll(e, parsed.packets)
        && (if parsed.outcome.Failed? then error == Some(parsed.outcome.error)
            else
              && error == None
              && fastack.Value() == E.FastAcks(NO_FAST_ACK, parsed.packets)
              && counts == E.TallyAll(E.NO_INPUT, e, parsed.packets).(totalBytes := parsed.outcome.offset))
    {
      error, counts := None, E.NO_INPUT;
      ghost var start, all := Endpoint(), Parse(flusher.build, sharedCtx.conv, data);
      assert data[0..] == data;
      hide Parse, E.HandleAll, E.FastAcks, E.TallyAll, DecodeHeader, Fault;
      var offset := 0;
      while |data| - offset >= HEADER_SIZE
        invariant Valid() && offset <= |data| && error == None
        invariant Continues(start, all, Endpoint(), fastack.Value(), counts, offset,
                            Parse(flusher.build, sharedCtx.conv, data[offset..]))
        decreases |data| - offset
      {
        var header, end := DeserializeHeader(flusher.build, data, offset);
        error := HeaderError(header, |data| - end);
        if error.Some? {
          ReadFault(start, all, Endpoint(), fastack.Value(), counts, flusher.build, sharedCtx.conv,
                    data, offset);
          return;
        }
        offset, counts := ReadPacket(start, all, header, data, offset, fastack, counts);
      }
      ParseEnd(flusher.build, sharedCtx.conv, data, offset);
      ContinuesEnd(start, all, Endpoint(), fastack.Value(), counts, offset, Finished(0));
      counts := counts.(totalBytes := offset);
    }

    /** One pass of the packet loop of input(), for a header without fault. */
    method ReadPacket(ghost start: E.Endpoint, ghost all: Parsed, header: Header, data: seq<u8>,
                      offset: nat, fastack: FastAckCtx, before: E.InputResult)
      returns (end: nat, counts: E.InputResult)
      requires Valid() && offset + HEADER_SIZE <= |data|
      requires header == DecodeHeader(flusher.build, data[offset..])
      requires Fault(sharedCtx.conv, header, |data| - offset - HEADER_SIZE) == None
      requires Continues(start, all, Endpoint(), fastack.Value(), before, offset,
                         Parse(flusher.build, sharedCtx.conv, data[offset..]))
      modifies receiver, windowProber, congestionController, rtoCalculator
      modifies ackController, senderBuffer, segmentTracker`sndUna, fastack
      ensures Valid() && offset < end <= |data|
      ensures Continues(start, all, Endpoint(), fastack.Value(), counts, end,
                        Parse(flusher.build, sharedCtx.conv, data[end..]))
    {
      hide Parse, E.HandlePacket, E.Tally, DecodeHeader, Continues, E.FastAckStep;
      ReadOn(start, all, Endpoint(), fastack.Value(), before, flusher.build, sharedCtx.conv, data, offset);
      end, counts := Dispatch(header, data, offset + HEADER_SIZE, fastack, before);
    }

    /** The checks input() makes of a header before it acts on it. */
    method HeaderError(header: Header, left: nat) returns (error: Option<Error>)
      ensures error == Fault(sharedCtx.conv, header, left)
    {
      if header.conv != sharedCtx.conv {
        return Some(ConvMismatch);
      }
      if header.len > left {
        return Some(HeaderAndPayloadLengthMismatch);
      }
      if !IsCommand(header.cmd) {
        return Some(UnknownCommand);
      }
      return None;
    }

    /** The body of the packet loop of input(), once the header has passed its checks. */
    method Dispatch(header: Header, data: seq<u8>, offset: nat, fastack: FastAckCtx,
                    before: E.InputResult)
      returns (end: nat, counts: E.InputResult)
      requires Valid() && offset + header.len <= |data|
      requires Fault(sharedCtx.conv, header, |data| - offset) == None
      modifies receiver, windowProber, congestionController, rtoCalculator
      modifies ackController, senderBuffer, segmentTracker`sndUna, fastack
      ensures Valid()
      ensures end == offset + PacketSize(header) - HEADER_SIZE <= |data|
      ensures var p := Packet(header, data[offset..end]);
        && Endpoint() == E.HandlePacket(old(Endpoint()), p)
        && fastack.Value() == E.FastAckStep(old(fastack.Value()), p)
        && counts == E.Tally(before, old(Endpoint()), p)
    {
      hide E.Heard, E.HandlePush, E.HandleAck, ShouldReceive;
      end, counts := offset, before;
      Hear(header);
      if header.cmd == PUSH {
        end := offset + header.len;
        var dropped := OnPush(header, data[offset..end]);
        if dropped {
          counts := counts.(droppedPushCount := counts.droppedPushCount + 1);
        }
      } else if header.cmd == ACK {
        OnAck(header, fastack);
        counts := counts.(ackCount := counts.ackCount + 1);
      } else if header.cmd == WASK {
        windowProber.AskTell();
        counts := counts.(waskCount := counts.waskCount + 1);
      } else {
        counts := counts.(winsCount := counts.winsCount + 1);
      }
    }

    method Hear(header: Header)
      requires Valid()
      modifies congestionController, senderBuffer, segmentTracker`sndUna
      ensures Valid() && Endpoint() == E.Heard(old(Endpoint()), header)
    {
      AcknowledgedFits(senderBuffer.sndBuf, header.una, sender.mss);
      hide EraseBefore;
      congestionController.rmtWnd := header.wnd;
      ackController.UnaReceived(header.una);
    }

    method OnAck(header: Header, fastack: FastAckCtx)
      requires Valid()
      modifies rtoCalculator, senderBuffer, segmentTracker`sndUna, fastack
      ensures Valid() && Endpoint() == E.HandleAck(old(Endpoint()), header)
      ensures fastack.Value() == FastAckUpdate(old(fastack.Value()), header.sn, header.ts)
    {
      AcknowledgedFits(senderBuffer.sndBuf, header.sn, sender.mss);
      hide Timeouts.Update, EraseSn;
      rtoCalculator.UpdateRto(current, header.ts);
      ackController.AckReceived(header.sn);
      fastack.Update(header.sn, header.ts);
    }

    method OnPush(header: Header, data: seq<u8>) returns (dropped: bool)
      requires Valid() && header.len == |data|
      modifies receiver, ackController
      ensures Valid()
      ensures Endpoint() == E.HandlePush(old(Endpoint()), Packet(header, data))
      ensures !dropped <==> FitsReceiveWindow(old(Endpoint()).windows, old(Endpoint()).inbox.nxt, header.sn)
                            && ShouldReceive(old(Endpoint()).inbox, header.sn)
    {
      hide Emplace;
      var fits := congestionController.FitsReceiveWindow(receiver.rcvNxt, header.sn);
      if !fits {
        return true;
      }
      ackController.ScheduleAck(header.sn, header.ts);
      if header.sn >= receiver.rcvNxt {
        receiver.Emplace(header, data);
        return false;
      }
      return true;
    }

    // ---------------------------------------------------------------- flush

    method CreateServiceHeader(unusedReceiveWindow: nat) returns (header: Header)
      requires Valid() && unusedReceiveWindow == E.UnusedWindow(Endpoint())
      ensures header == E.Service(E.StampOf(Endpoint()), ACK, E.Acknowledgement(0, 0)).header
    {
      header := Header(sharedCtx.conv, ACK, 0, Wrap16(unusedReceiveWindow), 0, 0, receiver.rcvNxt, 0);
    }

    /** Makes room for a packet without payload, and emplaces it. */
    method EmplaceService(header: Header, output: Output) returns (sent: nat)
      requires Flushing() && output.Valid() && output.build == flusher.build && header.len == 0
      modifies flusher, flusher.buffer, output
      ensures Flushing() && output.Valid()
      ensures flusher.Value(output)
           == Put(old(flusher.Value(output)), congestionController.mss, Packet(header, []))
      ensures TotalSize(output.groups) == TotalSize(old(output.groups)) + sent
    {
      sent := flusher.FlushIfFull(output);
      flusher.EmplaceHeader(header);
    }

    /** flush_acks: one packet for every acknowledgement owed. */
    method FlushAcks(before: Header, output: Output) returns (header: Header, sent: nat)
      requires Flushing() && output.Valid() && output.build == flusher.build
      requires before == E.Service(E.StampOf(Endpoint()), ACK, E.Acknowledgement(0, 0)).header
      modifies ackController, flusher, flusher.buffer, output
      ensures Flushing() && output.Valid()
      ensures Endpoint() == old(Endpoint()).(acks := [])
      ensures flusher.Value(output)
           == PutAll(old(flusher.Value(output)), congestionController.mss,
                     E.AckPackets(E.StampOf(old(Endpoint())), old(ackController.acklist)))
      ensures header == E.Service(E.StampOf(old(Endpoint())), ACK, E.LastAck(old(ackController.acklist))).header
      ensures TotalSize(output.groups) == TotalSize(old(output.groups)) + sent
    {
      ghost var stamp, start := E.StampOf(Endpoint()), flusher.Value(output);
      ghost var mss := congestionController.mss;
      var acks := ackController.acklist;
      hide E.StampOf, Put, TotalSize, PutAll;
      header, sent := before, 0;
      AcksStart(start, mss, stamp, acks);
      for i := 0 to |acks|
        invariant Flushing() && output.Valid() && Endpoint() == old(Endpoint())
        invariant header == E.Service(stamp, ACK, E.LastAck(acks[..i])).header
        invariant flusher.Value(output) == PutAll(start, mss, E.AckPackets(stamp, acks[..i]))
        invariant TotalSize(output.groups) == TotalSize(old(output.groups)) + sent
      {
        AcksStep(start, mss, stamp, acks, i);
        header := header.(sn := acks[i].sn);
        header := header.(ts := acks[i].ts);
        var more := EmplaceService(header, output);
        sent := sent + more;
      }
      assert acks[..|acks|] == acks;
      ackController.Clear();
    }

    /** flush_probes: the header of the last acknowledgement, under another command. */
    method FlushProbes(before: Header, output: Output, ghost last: E.Acknowledgement)
      returns (wasks: nat, winss: nat, sent: nat)
      requires Flushing() && output.Valid() && output.build == flusher.build
      requires before == E.Service(E.StampOf(Endpoint()), ACK, last).header
      modifies windowProber, flusher, flusher.buffer, output
      ensures Flushing() && output.Valid()
      ensures var e, probe := old(Endpoint()), E.FlushedProbe(old(Endpoint()));
        && Endpoint() == e.(probe := probe.(askSend := false, askTell := false))
        && flusher.Value(output)
           == PutAll(old(flusher.Value(output)), congestionController.mss,
                     E.ProbePackets(E.StampOf(e), probe, last))
        && wasks == (if probe.askSend then 1 else 0)
        && winss == (if probe.askTell then 1 else 0)
      ensures TotalSize(output.groups) == TotalSize(old(output.groups)) + sent
    {
      ghost var e := Endpoint();
      hide E.StampOf, E.ProbePackets, TotalSize, PutAll, Probing.Update;
      windowProber.Update(current, congestionController.rmtWnd);
      var askSend, askTell := windowProber.HasFlags();
      wasks := if askSend then 1 else 0;
      winss := if askTell then 1 else 0;
      sent := EmplaceProbes(before, askSend, askTell, output, E.StampOf(e), E.FlushedProbe(e), last);
      windowProber.ResetFlags();
    }

    method EmplaceProbes(before: Header, askSend: bool, askTell: bool, output: Output,
                         ghost s: Stamp, ghost p: Probe, ghost last: E.Acknowledgement)
      returns (sent: nat)
      requires Flushing() && output.Valid() && output.build == flusher.build
      requires before == E.Service(s, ACK, last).header && askSend == p.askSend && askTell == p.askTell
      modifies flusher, flusher.buffer, output
      ensures Flushing() && output.Valid()
      ensures flusher.Value(output)
           == PutAll(old(flusher.Value(output)), congestionController.mss, E.ProbePackets(s, p, last))
      ensures TotalSize(output.groups) == TotalSize(old(output.groups)) + sent
    {
      ProbesPut(flusher.Value(output), congestionController.mss, s, p, last);
      hide Put, TotalSize, PutAll, E.ProbePackets;
      sent := 0;
      var header := before;
      if askSend {
        header := header.(cmd := WASK);
        sent := EmplaceService(header, output);
      }
      if askTell {
        header := header.(cmd := WINS);
        var more := EmplaceService(header, output);
        sent := sent + more;
      }
    }

    /** The data part of a flush. */
    method FlushData(output: Output, unusedReceiveWindow: nat) returns (counts: Counts)
      requires Flushing() && output.Valid() && output.build == flusher.build
      requires unusedReceiveWindow == E.UnusedWindow(Endpoint())
      modifies sender`sndQueue, sender`xmit, senderBuffer, segmentTracker`sndNxt, congestionController
      modifies flusher, flusher.buffer, output, sharedCtx`dead
      ensures Flushing() && output.Valid()
      ensures var e := old(Endpoint());
        var p, o := E.PassOf(e), E.Admitted(e);
        && Endpoint() == e.(out := o.(buf := ProcessedAll(p, o.buf)),
                            windows := E.Reacted(e.windows, e.mss, p, o),
                            tuning := E.FlushedTuning(e))
        && flusher.Value(output)
           == PutAll(old(flusher.Value(output)), congestionController.mss, Emitted(p, o.buf))
        && counts.pushes == |Emitted(p, o.buf)|
        && counts.timeouts == CountOf(p, o.buf, TimedOut)
        && counts.fasts == CountOf(p, o.buf, Fast)
      ensures TotalSize(output.groups) == TotalSize(old(output.groups)) + counts.bytes
    {
      hide Admit, ProcessedAll, PutAll, Emitted, CountOf, E.Reacted, CongestionWindow, TotalSize;
      assert E.PassOf(Endpoint()) == sender.PassFor(current, unusedReceiveWindow, receiver.rcvNxt);
      counts := sender.FlushDataSegments(output, current, unusedReceiveWindow, receiver.rcvNxt);
    }

    /** Acknowledgements and probes. */
    method FlushControl(output: Output, unusedReceiveWindow: nat)
      returns (acks: nat, wasks: nat, winss: nat, sent: nat)
      requires Valid() && output.Valid() && output.build == flusher.build
      requires unusedReceiveWindow == E.UnusedWindow(Endpoint())
      modifies ackController, windowProber, flusher, flusher.buffer, output
      ensures Flushing() && output.Valid()
      ensures Endpoint() == Controlled(old(Endpoint()))
      ensures flusher.Value(output)
           == PutAll(old(flusher.Value(output)), congestionController.mss, ControlPackets(old(Endpoint())))
      ensures acks == |old(ackController.acklist)|
      ensures wasks == (if E.FlushedProbe(old(Endpoint())).askSend then 1 else 0)
      ensures winss == (if E.FlushedProbe(old(Endpoint())).askTell then 1 else 0)
      ensures TotalSize(output.groups) == TotalSize(old(output.groups)) + sent
    {
      ghost var e := Endpoint();
      ghost var last := E.LastAck(e.acks);
      hide E.AckPackets, E.ProbePackets, E.LastAck, PutAll, TotalSize, E.Service;
      PutAllConcat(flusher.Value(output), congestionController.mss, E.AckPackets(E.StampOf(e), e.acks),
                   E.ProbePackets(E.StampOf(e), E.FlushedProbe(e), last));
      SameStamp(e);
      hide E.StampOf, E.FlushedProbe;
      acks := |ackController.acklist|;
      var header := CreateServiceHeader(unusedReceiveWindow);
      var more;
      header, more := FlushAcks(header, output);
      wasks, winss, sent := FlushProbes(header, output, last);
      sent := more + sent;
    }

    /** All packets of a flush; some may still wait in the flusher, and `report` counts sent bytes. */
    method FlushAll(output: Output) returns (report: E.FlushResult)
      requires Valid() && output.Valid() && output.build == flusher.build && updated
      modifies ackController, windowProber, flusher, flusher.buffer, output
      modifies sender`sndQueue, sender`xmit, senderBuffer, segmentTracker`sndNxt, congestionController
      modifies sharedCtx`dead
      ensures Flushing() && output.Valid()
      ensures EnsuredEndpoint(Endpoint()) == E.Flush(old(Endpoint()))
      ensures var e := old(Endpoint());
        && flusher.Value(output)
           == PutAll(PutAll(old(flusher.Value(output)), e.mss, ControlPackets(e)), e.mss,
                     Emitted(E.PassOf(e), E.Admitted(e).buf))
        && report == E.FlushReport(e).(totalBytes := report.totalBytes)
      ensures TotalSize(output.groups) == TotalSize(old(output.groups)) + report.totalBytes
    {
      ghost var e := Endpoint();
      var rcvWnd, held := AsI32(congestionController.rcvWnd), AsI32(Wrap32(|receiver.rcvQueue|));
      var unused := Max(rcvWnd - held, 0);
      SamePass(e);
      hide PutAll, TotalSize, ControlPackets, E.PassOf, E.Admitted, Emitted, CountOf, E.Reacted, E.FlushedProbe,
           E.FlushedTuning, ProcessedAll, EnsureOnePacket;
      var acks, wasks, winss, sent := FlushControl(output, unused);
      var counts := FlushData(output, unused);
      report := E.FlushResult(acks, wasks, winss, counts.pushes, counts.timeouts, counts.fasts,
                              sent + counts.bytes);
    }

    method FlushRemaining(output: Output) returns (sent: nat)
      requires Flushing() && output.Valid() && output.build == flusher.build
      modifies flusher, output, congestionController
      ensures Valid() && output.Valid()
      ensures Endpoint() == EnsuredEndpoint(old(Endpoint()))
      ensures output.groups == Finish(old(flusher.Value(output)))
      ensures TotalSize(output.groups) == TotalSize(old(output.groups)) + sent
    {
      hide TotalSize, Finish;
      sent := flusher.FlushIfNotEmpty(output);
      congestionController.EnsureAtLeastOnePacketInFlight();
    }

    /** A flush once update() has been called. */
    method FlushUpdated(output: Output) returns (report: E.FlushResult)
      requires Valid() && output.Valid() && output.build == flusher.build && updated
      modifies ackController, windowProber, flusher, flusher.buffer, output
      modifies sender`sndQueue, sender`xmit, senderBuffer, segmentTracker`sndNxt, congestionController
      modifies sharedCtx`dead
      ensures Valid() && output.Valid()
      ensures Endpoint() == E.Flush(old(Endpoint()))
      ensures output.groups == old(output.groups) + E.FlushDatagrams(old(Endpoint()))
      ensures report == E.FlushReport(old(Endpoint()))
    {
      ghost var e := Endpoint();
      FlushedGroups(output.groups, e);
      hide PutAll, TotalSize, E.Flush, E.FlushReport, E.FlushDatagrams, E.PassOf, E.Admitted, Emitted, Finish,
           ControlPackets, EnsuredEndpoint;
      report := FlushAll(output);
      var rest := FlushRemaining(output);
      report := report.(totalBytes := report.totalBytes + rest);
    }

    method Flush(output: Output) returns (report: E.FlushResult)
      requires Valid() && output.Valid() && output.build == flusher.build
      modifies ackController, windowProber, flusher, flusher.buffer, output
      modifies sender`sndQueue, sender`xmit, senderBuffer, segmentTracker`sndNxt, congestionController
      modifies sharedCtx`dead
      ensures Valid() && output.Valid()
      ensures Endpoint() == E.Flush(old(Endpoint()))
      ensures output.groups == old(output.groups) + E.FlushDatagrams(old(Endpoint()))
      ensures report == E.FlushReport(old(Endpoint()))
    {
      if !updated {
        return E.NO_FLUSH;
      }
      hide E.Flush, E.FlushDatagrams, E.FlushReport;
      report := FlushUpdated(output);
    }

    // ---------------------------------------------------------------- update and check

    method Update(now: u32, output: Output) returns (report: E.FlushResult)
      requires Valid() && output.Valid() && output.build == flusher.build
      modifies this`updated, this`current, this`tsFlush
      modifies ackController, windowProber, flusher, flusher.buffer, output
      modifies sender`sndQueue, sender`xmit, senderBuffer, segmentTracker`sndNxt, congestionController
      modifies sharedCtx`dead
      ensures Valid() && output.Valid()
      ensures Endpoint() == E.Update(old(Endpoint()), now)
      ensures output.groups == old(output.groups) + E.UpdateDatagrams(old(Endpoint()), now)
      ensures report == if E.FlushDue(old(Endpoint()).timing, now)
                        then E.FlushReport(E.Ticked(old(Endpoint()), now)) else E.NO_FLUSH
    {
      hide E.Flush, E.FlushDatagrams, E.FlushReport;
      var due := Tick(now);
      if due {
        report := Flush(output);
      } else {
        report := E.NO_FLUSH;
      }
    }

    /** The flush timer of update(); whether it is time to flush. */
    method Tick(now: u32) returns (due: bool)
      requires Valid()
      modifies this`updated, this`current, this`tsFlush
      ensures Valid()
      ensures Endpoint() == E.Ticked(old(Endpoint()), now)
      ensures due == E.FlushDue(old(Endpoint()).timing, now)
    {
      hide TimeDelta, Wrap32;
      NoDelta(now);
      current := now;
      if !updated {
        updated := true;
        tsFlush := current;
      }
      var slap := TimeDelta(current, tsFlush);
      if slap >= 10000 || slap < -10000 {
        tsFlush := current;
        slap := 0;
      }
      if slap >= 0 {
        tsFlush := Wrap32(tsFlush + sharedCtx.interval);
        if TimeDelta(current, tsFlush) >= 0 {
          tsFlush := Wrap32(current + sharedCtx.interval);
        }
        return true;
      }
      return false;
    }

    method Check(now: u32) returns (next: u32)
      requires Valid()
      modifies this`tsFlush
      ensures Valid()
      ensures (Endpoint(), next) == E.Check(old(Endpoint()), now)
    {
      if !updated {
        return now;
      }
      var late := TimeDelta(now, tsFlush);
      if late >= 10000 || -late >= 10000 {
        tsFlush := now;
      }
      if TimeDelta(now, tsFlush) >= 0 {
        return now;
      }
      var nextFlush := Max(0, TimeDelta(tsFlush, now));
      var earliest := senderBuffer.GetEarliestTransmitDelta(now);
      var minimal := 0;
      if earliest.Some? {
        minimal := if earliest.value < nextFlush then earliest.value else nextFlush;
      } else {
        minimal := nextFlush;
      }
      next := Wrap32(now + Min(sharedCtx.interval, minimal));
    }
  }
}
