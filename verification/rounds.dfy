/** Rounds of fair delivery, each of which acknowledges the oldest segment. */
module Rounds {
  import opened Words
  import opened Segments
  import opened Codec
  import opened Receiving
  import opened Sending
  import opened Congestion
  import opened Packing
  import opened Fragmentation
  import opened Transmission
  import opened Endpoints
  import opened Matching
  import opened Links
  import opened Flushing
  import opened Safety
  import opened Progress

  // ---------------------------------------------------------------- what a flush says

  lemma InToIndex(ps: seq<Packet>, p: Packet)
    requires p in ps
    ensures HasCommand(ps, p.header.cmd, p.header.sn)
  {
  }

  lemma HasCommandPart(a: seq<Packet>, b: seq<Packet>, c: seq<Packet>, cmd: u8, sn: u32)
    requires HasCommand(b, cmd, sn)
    ensures HasCommand(a + b + c, cmd, sn)
  {
    var i :| 0 <= i < |b| && b[i].header.cmd == cmd && b[i].header.sn == sn;
    assert (a + b + c)[|a| + i] == b[i];
  }

  /** The segment at the front of the buffer, once the flush at `e` has numbered what it may, is due. */
  predicate FrontDue(e: Endpoint) {
    Endpoints.Admitted(e).buf != [] && Judge(PassOf(e), Endpoints.Admitted(e).buf[0]) != Idle
  }

  /** The oldest segment goes out with the flush at which it is due; a new one at once. */
  lemma FrontIsSent(e: Endpoint, stream: seq<Frag>)
    requires OutboxMatches(e.out, e.conv, stream) && FrontDue(e)
    ensures HasCommand(FlushPackets(e), PUSH, e.out.una)
  {
    AdmitMatches(e.out, CongestionWindow(e.windows), StampOf(e), e.estimate.rto, stream);
    var buf, pass := Endpoints.Admitted(e).buf, PassOf(e);
    var front := buf[0];
    assert front in buf && Carries(front, e.conv, stream);
    EmittedFrom(pass, buf);
    var p := PacketOf(Processed(pass, front));
    assert Emits(pass, front, p) && front.header.sn == e.out.una;
    hide Judge, Retimed, AckPackets, ProbePackets, Endpoints.Admitted, PassOf, StampOf, Emitted, HasCommand;
    InToIndex(Emitted(pass, buf), p);
    var head := AckPackets(StampOf(e), e.acks) + ProbePackets(StampOf(e), FlushedProbe(e), LastAck(e.acks));
    HasCommandPart(head, Emitted(pass, buf), [], PUSH, e.out.una);
    assert head + Emitted(pass, buf) + [] == FlushPackets(e);
  }

  /** A scheduled acknowledgement goes out with the next flush. */
  lemma AckIsSent(e: Endpoint, sn: u32)
    requires AcksNumber(e.acks, sn)
    ensures HasCommand(FlushPackets(e), ACK, sn)
  {
    var i :| 0 <= i < |e.acks| && e.acks[i].sn == sn;
    var acks := AckPackets(StampOf(e), e.acks);
    assert acks[i] == Service(StampOf(e), ACK, e.acks[i]);
    assert HasCommand(acks, ACK, sn);
    var probes := ProbePackets(StampOf(e), FlushedProbe(e), LastAck(e.acks));
    var data := Emitted(PassOf(e), Endpoints.Admitted(e).buf);
    hide AckPackets, ProbePackets, Emitted, HasCommand;
    HasCommandPart([], acks, probes + data, ACK, sn);
    assert [] + acks + (probes + data) == FlushPackets(e);
  }

  // ---------------------------------------------------------------- delivering what was sent

  predicate GroupsHave(groups: seq<seq<Packet>>, cmd: u8, sn: u32) {
    exists i :: 0 <= i < |groups| && HasCommand(groups[i], cmd, sn)
  }

  lemma ConcatHas(groups: seq<seq<Packet>>, cmd: u8, sn: u32)
    requires HasCommand(Concat(groups), cmd, sn)
    ensures GroupsHave(groups, cmd, sn)
  {
    var ps := Concat(groups);
    var i :| 0 <= i < |ps| && ps[i].header.cmd == cmd && ps[i].header.sn == sn;
    ConcatCovers(groups);
    assert ps[i] in ps;
    var g :| g in groups && ps[i] in g;
    InToIndex(g, ps[i]);
  }

  /** These groups are datagrams the peer has put on the wire. */
  ghost predicate Mailed(groups: seq<seq<Packet>>, from: Peer) {
    forall i :: 0 <= i < |groups| ==>
      AllWellFormed(from.e.conv, groups[i]) && groups[i] != []
      && EncodeAll(from.e.build, groups[i]) in from.wire
  }

  /** Delivers datagrams one after the other. */
  function DeliverAll(me: Peer, incoming: set<seq<u8>>, ds: seq<seq<u8>>): Peer
    decreases |ds|
  {
    if ds == [] then me
    else DeliverAll(PeerStep(me, incoming, Action.Deliver(ds[0])), incoming, ds[1..])
  }

  /** Handling a datagram of one group: its packets, then the end of input(). */
  lemma InputGroup(e: Endpoint, group: seq<Packet>)
    requires AllWellFormed(e.conv, group) && group != []
    ensures var d := EncodeAll(e.build, group);
      && Parse(e.build, e.conv, d).packets == group
      && Input(e, d).0 == Conclude(HandleAll(e, group), e.out.una, FastAcks(NO_FAST_ACK, group))
  {
    DatagramRoundTrip(e.build, e.conv, group);
    SizeIsEncodedLength(e.build, group);
    assert |EncodeAll(e.build, group)| >= HEADER_SIZE;
    hide EncodeAll, Parse, HandleAll, Conclude, FastAcks, AllWellFormed, Size;
  }

  lemma DeliverGroup(me: Peer, other: Peer, group: seq<Packet>)
    requires Linked(me, other) && AllWellFormed(other.e.conv, group) && group != []
    requires EncodeAll(other.e.build, group) in other.wire
    ensures var d := EncodeAll(other.e.build, group);
      && PeerStep(me, other.wire, Action.Deliver(d))
         == me.(e := Conclude(HandleAll(me.e, group), me.e.out.una, FastAcks(NO_FAST_ACK, group)))
      && (forall p :: p in group ==> p in other.spoken)
  {
    hide EncodeAll, Parse, HandleAll, Conclude, FastAcks, Link, Input, Local, Parses;
    InputGroup(me.e, group);
    WireParses(other, EncodeAll(other.e.build, group));
  }

  lemma WireParses(p: Peer, d: seq<u8>)
    requires Local(p) && d in p.wire
    ensures forall q :: q in Parse(p.e.build, p.e.conv, d).packets ==> q in p.spoken
  {
    hide Parse, EncodeAll, Sendable, AllWellFormed;
    assert Parses(p.e.build, p.e.conv, p.e.mss, d, p.spoken);
  }

  lemma AdjustKeepsReceiveWindow(w: Windows, mss: Mss)
    ensures AdjustParameters(w, mss).rcvWnd == w.rcvWnd
  {
    hide Grown, Bytes, Ceiling, Wrap32;
  }

  lemma ConcludeKeeps(e: Endpoint, before: u32, fast: FastAck)
    ensures var e' := Conclude(e, before, fast);
      && e'.acks == e.acks && e'.inbox == e.inbox && e'.timing == e.timing
      && e'.windows.rcvWnd == e.windows.rcvWnd && e'.out.una == e.out.una && e'.out.nxt == e.out.nxt
      && e'.build == e.build && e'.mss == e.mss && e'.conv == e.conv
  {
    AdjustKeepsReceiveWindow(e.windows, e.mss);
    hide AdjustParameters, BumpBefore;
  }

  /** What deliveries leave alone. */
  predicate SameHistory(p: Peer, p': Peer) {
    && p'.sent == p.sent && p'.received == p.received && p'.wire == p.wire && p'.spoken == p.spoken
    && p'.log == p.log && p'.clock == p.clock && p'.monotone == p.monotone
    && p'.e.timing == p.e.timing && p'.e.mss == p.e.mss && p'.e.build == p.e.build
    && p'.e.inbox.limit == p.e.inbox.limit
  }

  lemma PacketKeepsLoose(me: Peer, other: Peer, p: Packet)
    requires Link(other, me) && p in other.spoken
    ensures var e' := HandlePacket(me.e, p);
      && (Loose(me.e.inbox) ==> Loose(e'.inbox))
      && e'.inbox.limit == me.e.inbox.limit && e'.mss == me.e.mss
  {
    HandledInbox(me.e, p);
    HandledOutbox(me.e, p);
    assert PushOk(p, other.e.out.nxt, Spoken(other), other.log);
    hide HandlePacket, InboxMatches, Emplace, Pushes, Replies, Scheduled, OutboxMatches, NoLoss, Stream, Loose;
    if p.header.cmd == PUSH && ShouldReceive(me.e.inbox, p.header.sn) {
      var seg := Segment(p.header, p.data, NEW_METADATA);
      assert FragOf(seg) == Spoken(other)[p.header.sn];
      EmplaceMatches(me.e.inbox, Spoken(other), |Stream(me.received, other.e.mss)|, other.e.out.nxt, seg);
    }
  }

  lemma {:induction false} PacketsKeepLoose(me: Peer, other: Peer, ps: seq<Packet>)
    requires Link(me, other) && Link(other, me) && (forall p :: p in ps ==> p in other.spoken)
    ensures var e' := HandleAll(me.e, ps);
      && (Loose(me.e.inbox) ==> Loose(e'.inbox))
      && e'.inbox.limit == me.e.inbox.limit && e'.mss == me.e.mss
    decreases |ps|
  {
    hide Link, HandlePacket, Loose;
    if ps != [] {
      PacketAsSender(me, other, ps[0]);
      PacketAsReceiver(other, me, ps[0]);
      PacketKeepsLoose(me, other, ps[0]);
      PacketsKeepLoose(me.(e := HandlePacket(me.e, ps[0])), other, ps[1..]);
    }
  }

  /** A packet either leaves the inbox alone or settles it, so a receiver that can go on still can. */
  lemma PacketKeepsLiving(me: Peer, other: Peer, p: Packet)
    requires Link(other, me) && p in other.spoken
    ensures Living(other, me.e) ==> Living(other, HandlePacket(me.e, p))
  {
    var e', r := HandlePacket(me.e, p), me.e.inbox;
    HandledInbox(me.e, p);
    PacketAsReceiver(other, me, p);
    assert PushOk(p, other.e.out.nxt, Spoken(other), other.log);
    assert e'.windows.rcvWnd == me.e.windows.rcvWnd;
    if e'.inbox != r {
      var seg := Segment(p.header, p.data, NEW_METADATA);
      assert FragOf(seg) == Spoken(other)[p.header.sn];
      EmplaceMatches(r, Spoken(other), |Stream(me.received, other.e.mss)|, other.e.out.nxt, seg);
      hide HandlePacket, Link, Emplace, CanGoOn, LimitAdmits, Stream, PeekSize;
      if Living(other, me.e) {
        LooseLive(other, me.(e := e'));
      }
    }
  }

  lemma {:induction false} PacketsKeepLiving(me: Peer, other: Peer, ps: seq<Packet>)
    requires Link(me, other) && Link(other, me) && (forall p :: p in ps ==> p in other.spoken)
    ensures Living(other, me.e) ==> Living(other, HandleAll(me.e, ps))
    decreases |ps|
  {
    hide Link, HandlePacket, Living;
    if ps != [] {
      PacketAsSender(me, other, ps[0]);
      PacketAsReceiver(other, me, ps[0]);
      PacketKeepsLiving(me, other, ps[0]);
      PacketsKeepLiving(me.(e := HandlePacket(me.e, ps[0])), other, ps[1..]);
    }
  }

  /** What incoming datagrams leave alone of an endpoint's settings, windows, probe and queue. */
  predicate Calm(e: Endpoint, e': Endpoint) {
    && e'.windows.sndWnd == e.windows.sndWnd && e'.windows.rcvWnd == e.windows.rcvWnd
    && (e.windows.cwnd >= 1 ==> e'.windows.cwnd >= 1)
    && e'.probe.probeWait == e.probe.probeWait && e'.probe.tsProbe == e.probe.tsProbe
    && (e.probe.askTell ==> e'.probe.askTell)
    && e'.out.nxt == e.out.nxt && e'.out.queue == e.out.queue
    && (e.out.buf == [] ==> e'.out.buf == [])
  }

  lemma PacketCalm(e: Endpoint, p: Packet)
    ensures Calm(e, HandlePacket(e, p))
  {
    hide Emplace, Timeouts.Update;
  }

  lemma {:induction false} PacketsCalm(e: Endpoint, ps: seq<Packet>)
    ensures Calm(e, HandleAll(e, ps))
    decreases |ps|
  {
    hide HandlePacket;
    if ps != [] {
      PacketCalm(e, ps[0]);
      PacketsCalm(HandlePacket(e, ps[0]), ps[1..]);
    }
  }

  lemma ConcludeCalm(e: Endpoint, before: u32, fast: FastAck)
    ensures Calm(e, Conclude(e, before, fast))
    ensures Conclude(e, before, fast).windows.rmtWnd == e.windows.rmtWnd
    ensures Conclude(e, before, fast).probe == e.probe
  {
    AdjustKeepsOpen(e.windows, e.mss);
    hide AdjustParameters;
  }

  lemma GroupKeeps(me: Peer, other: Peer, group: seq<Packet>)
    requires Linked(me, other) && AllWellFormed(other.e.conv, group) && group != []
    requires EncodeAll(other.e.build, group) in other.wire
    ensures var me' := PeerStep(me, other.wire, Action.Deliver(EncodeAll(other.e.build, group)));
      && Linked(me', other) && SameHistory(me, me') && Calm(me.e, me'.e)
      && (Living(other, me.e) ==> Living(other, me'.e))
  {
    DeliverGroup(me, other, group);
    DeliverKeeps(me, other, EncodeAll(other.e.build, group));
    PacketsKeepLoose(me, other, group);
    PacketsKeepLiving(me, other, group);
    PacketsKeepLinks(me, other, group);
    var fast := FastAcks(NO_FAST_ACK, group);
    hide PeerStep, Linked, HandleAll, FastAcks, EncodeAll, Loose, Link, CanGoOn, LimitAdmits, Spoken;
    PacketsCalm(me.e, group);
    ConcludeKeeps(HandleAll(me.e, group), me.e.out.una, fast);
    ConcludeCalm(HandleAll(me.e, group), me.e.out.una, fast);
    hide Conclude;
  }

  /** A PUSH in a delivered group is acknowledged at the next flush. */
  lemma GroupSchedulesAck(me: Peer, other: Peer, group: seq<Packet>, sn: u32)
    requires Linked(me, other) && AllWellFormed(other.e.conv, group) && group != []
    requires EncodeAll(other.e.build, group) in other.wire
    requires WindowFits(me.e, other.e.out.nxt) && sn < me.e.inbox.nxt + me.e.windows.rcvWnd
    ensures var me' := PeerStep(me, other.wire, Action.Deliver(EncodeAll(other.e.build, group)));
      && WindowFits(me'.e, other.e.out.nxt) && sn < me'.e.inbox.nxt + me'.e.windows.rcvWnd
      && me'.e.windows.rcvWnd == me.e.windows.rcvWnd
      && (AcksNumber(me.e.acks, sn) || HasCommand(group, PUSH, sn) ==> AcksNumber(me'.e.acks, sn))
  {
    DeliverGroup(me, other, group);
    PacketsScheduleAck(me, other, group, sn);
    ConcludeKeeps(HandleAll(me.e, group), me.e.out.una, FastAcks(NO_FAST_ACK, group));
    hide PeerStep, Linked, HandleAll, Conclude, FastAcks, EncodeAll, AcksNumber, HasCommand, Link;
  }

  lemma GroupAdvances(me: Peer, other: Peer, group: seq<Packet>, sn: u32)
    requires Linked(me, other) && AllWellFormed(other.e.conv, group) && group != []
    requires EncodeAll(other.e.build, group) in other.wire && sn <= me.e.out.una
    ensures var me' := PeerStep(me, other.wire, Action.Deliver(EncodeAll(other.e.build, group)));
      me'.e.out.una >= me.e.out.una && (HasCommand(group, ACK, sn) ==> me'.e.out.una > sn)
  {
    DeliverGroup(me, other, group);
    PacketsAdvance(me, other, group, sn);
    ConcludeKeeps(HandleAll(me.e, group), me.e.out.una, FastAcks(NO_FAST_ACK, group));
    hide PeerStep, Linked, HandleAll, Conclude, FastAcks, EncodeAll, HasCommand, Link;
  }

  lemma MailedTail(groups: seq<seq<Packet>>, from: Peer)
    requires groups != [] && Mailed(groups, from)
    ensures Mailed(groups[1..], from)
    ensures EncodeGroups(from.e.build, groups)[1..] == EncodeGroups(from.e.build, groups[1..])
    ensures EncodeGroups(from.e.build, groups)[0] == EncodeAll(from.e.build, groups[0])
  {
    hide AllWellFormed, EncodeAll;
  }

  lemma GroupsHaveSplit(groups: seq<seq<Packet>>, cmd: u8, sn: u32)
    requires groups != [] && GroupsHave(groups, cmd, sn)
    ensures HasCommand(groups[0], cmd, sn) || GroupsHave(groups[1..], cmd, sn)
  {
    hide HasCommand;
    var i :| 0 <= i < |groups| && HasCommand(groups[i], cmd, sn);
    assert i > 0 ==> groups[1..][i - 1] == groups[i];
  }

  /** Delivering what the other side mailed keeps everything a round needs. */
  lemma {:induction false} DeliveriesKeep(me: Peer, other: Peer, groups: seq<seq<Packet>>)
    requires Linked(me, other) && Mailed(groups, other)
    ensures var me' := DeliverAll(me, other.wire, EncodeGroups(other.e.build, groups));
      && Linked(me', other) && SameHistory(me, me') && Calm(me.e, me'.e)
      && (Living(other, me.e) ==> Living(other, me'.e))
      && me'.e.out.una >= me.e.out.una
    decreases |groups|
  {
    hide Linked, PeerStep, Living, EncodeAll, AllWellFormed, HasCommand;
    if groups != [] {
      MailedTail(groups, other);
      GroupKeeps(me, other, groups[0]);
      GroupAdvances(me, other, groups[0], me.e.out.una);
      hide EncodeGroups, Mailed;
      var me1 := PeerStep(me, other.wire, Action.Deliver(EncodeAll(other.e.build, groups[0])));
      DeliveriesKeep(me1, other, groups[1..]);
    }
  }

  lemma {:induction false} DeliveriesScheduleAck(me: Peer, other: Peer, groups: seq<seq<Packet>>, sn: u32)
    requires Linked(me, other) && Mailed(groups, other)
    requires WindowFits(me.e, other.e.out.nxt) && sn < me.e.inbox.nxt + me.e.windows.rcvWnd
    ensures var me' := DeliverAll(me, other.wire, EncodeGroups(other.e.build, groups));
      AcksNumber(me.e.acks, sn) || GroupsHave(groups, PUSH, sn) ==> AcksNumber(me'.e.acks, sn)
    decreases |groups|
  {
    hide Linked, PeerStep, AcksNumber, HasCommand, Living, WindowFits, EncodeAll, AllWellFormed;
    if groups != [] {
      MailedTail(groups, other);
      GroupKeeps(me, other, groups[0]);
      GroupSchedulesAck(me, other, groups[0], sn);
      if GroupsHave(groups, PUSH, sn) {
        GroupsHaveSplit(groups, PUSH, sn);
      }
      hide GroupsHave, EncodeGroups, Mailed;
      var me1 := PeerStep(me, other.wire, Action.Deliver(EncodeAll(other.e.build, groups[0])));
      DeliveriesScheduleAck(me1, other, groups[1..], sn);
    }
  }

  lemma {:induction false} DeliveriesAdvance(me: Peer, other: Peer, groups: seq<seq<Packet>>, sn: u32)
    requires Linked(me, other) && Mailed(groups, other) && sn <= me.e.out.una
    ensures var me' := DeliverAll(me, other.wire, EncodeGroups(other.e.build, groups));
      GroupsHave(groups, ACK, sn) || me.e.out.una > sn ==> me'.e.out.una > sn
    decreases |groups|
  {
    hide Linked, PeerStep, HasCommand, EncodeAll, AllWellFormed, Living;
    if groups != [] {
      MailedTail(groups, other);
      GroupKeeps(me, other, groups[0]);
      GroupAdvances(me, other, groups[0], sn);
      if GroupsHave(groups, ACK, sn) {
        GroupsHaveSplit(groups, ACK, sn);
      }
      hide GroupsHave, EncodeGroups, Mailed;
      var me1 := PeerStep(me, other.wire, Action.Deliver(EncodeAll(other.e.build, groups[0])));
      DeliveriesAdvance(me1, other, groups[1..], sn);
    }
  }

  // ---------------------------------------------------------------- one round

  /** What update() gave to the network. */
  function Outgoing(me: Peer, now: nat): seq<seq<u8>> {
    EncodeGroups(me.e.build, UpdateDatagrams(me.e, Wrap32(now)))
  }

  lemma GroupsMailed(groups: seq<seq<Packet>>, conv: u32, mss: Mss)
    requires AllSendable(groups, mss)
    requires forall p :: p in Concat(groups) ==> WellFormed(conv, p)
    ensures forall i :: 0 <= i < |groups| ==> AllWellFormed(conv, groups[i]) && groups[i] != []
  {
    ConcatCovers(groups);
    hide Concat, WellFormed, Size;
    forall i | 0 <= i < |groups| ensures AllWellFormed(conv, groups[i]) && groups[i] != [] {
      assert groups[i] in groups && Sendable(groups[i], mss);
      forall j | 0 <= j < |groups[i]| ensures WellFormed(conv, groups[i][j]) {
        assert groups[i][j] in groups[i];
      }
    }
  }

  /** The packets of a flush are on the wire, in whole well-formed datagrams. */
  lemma FlushMails(me: Peer)
    requires Local(me) && me.e.timing.updated && GoodMessages(me.sent, me.e.mss)
    requires OutboxMatches(me.e.out, me.e.conv, Spoken(me))
    ensures Mailed(FlushDatagrams(me.e), Emit(me, Endpoints.Flush(me.e), FlushDatagrams(me.e)))
    ensures Concat(FlushDatagrams(me.e)) == FlushPackets(me.e)
  {
    var groups := FlushDatagrams(me.e);
    var me' := Emit(me, Endpoints.Flush(me.e), groups);
    FlushedOutbox(me.e, Spoken(me));
    FlushPacketsOk(me.e, Spoken(me));
    FlushDatagramsParse(me.e, me.sent, set p | p in FlushPackets(me.e));
    forall p | p in FlushPackets(me.e) ensures WellFormed(me.e.conv, p) {
      assert FlushPacketOk(me.e, p);
    }
    assert me'.e.conv == me.e.conv && me'.e.build == me.e.build;
    hide FlushPackets, FlushDatagrams, Endpoints.Flush, Endpoints.Admitted, OutboxMatches, GoodMessages, FlushPacketOk,
         Concat, WellFormed, AllSendable, EncodeAll, Parses, Local;
    GroupsMailed(groups, me.e.conv, me.e.mss);
    hide AllWellFormed;
    forall i | 0 <= i < |groups| ensures EncodeAll(me.e.build, groups[i]) in me'.wire {
      assert EncodeGroups(me.e.build, groups)[i] == EncodeAll(me.e.build, groups[i]);
      assert EncodeAll(me.e.build, groups[i]) in EncodeGroups(me.e.build, groups);
    }
  }

  lemma LinkedMails(me: Peer, other: Peer)
    requires Linked(me, other) && me.e.timing.updated
    ensures Mailed(FlushDatagrams(me.e), Emit(me, Endpoints.Flush(me.e), FlushDatagrams(me.e)))
    ensures Concat(FlushDatagrams(me.e)) == FlushPackets(me.e)
  {
    hide FlushDatagrams, FlushPackets, Endpoints.Flush, OutboxMatches, Mailed, Local, GoodMessages, Spoken,
         Emit, Concat;
    FlushMails(me);
  }

  /** An update that flushes, seen from the moment its timer has been set. */
  lemma UpdateMails(me: Peer, other: Peer, now: nat)
    requires Linked(me, other) && FlushDue(me.e.timing, Wrap32(now))
    ensures var groups := UpdateDatagrams(me.e, Wrap32(now));
      var me' := PeerStep(me, other.wire, Action.Update(now));
      && Mailed(groups, me') && Concat(groups) == FlushPackets(Ticked(me.e, Wrap32(now)))
      && Outgoing(me, now) == EncodeGroups(me'.e.build, groups)
      && me'.e == Endpoints.Flush(Ticked(me.e, Wrap32(now)))
      && Linked(me', other)
  {
    hide Linked, Link, Local, FlushPackets, Endpoints.Flush, FlushDatagrams, FlushDue, Wrap32, Concat,
         TimeDelta, Mailed, EncodeGroups;
    var time := Wrap32(now);
    var ticked := Clocked(me, now).(e := Ticked(me.e, time));
    UpdateKeeps(me, other, now);
    assert NextFlush(me.e.timing, time).current == time && NextFlush(me.e.timing, time).updated;
    hide NextFlush;
    TimingKeeps(me, other, now, NextFlush(me.e.timing, time));
    ReEmit(Clocked(me, now), ticked, Endpoints.Flush(ticked.e), FlushDatagrams(ticked.e));
    LinkedMails(ticked, other);
    FlushKeepsBuild(ticked.e);
  }

  lemma FlushKeepsBuild(e: Endpoint)
    ensures var f := Endpoints.Flush(e);
      && f.build == e.build && f.mss == e.mss && f.inbox == e.inbox && f.timing == e.timing
      && f.windows.rcvWnd == e.windows.rcvWnd && f.windows.sndWnd == e.windows.sndWnd
      && f.windows.rmtWnd == e.windows.rmtWnd
    ensures e.out.una <= e.out.nxt ==> Endpoints.Flush(e).out.una == e.out.una
  {
    if e.out.una <= e.out.nxt {
      AdmitExact(e.out, CongestionWindow(e.windows), StampOf(e), e.estimate.rto);
    }
    hide Admit, AdmitCount, CountOf, FlushedTuning, FlushedProbe, ProcessedAll, Wrap32, Bytes, AdvertisedWindow;
  }

  /** Reading capacity, and the clock readings at which the two sides flush. */
  datatype Schedule = Schedule(capacity: nat, at: nat, back: nat)

  /**
   One fair round: B's application reads what there is, A flushes, B gets A's datagrams in order,
   B flushes, and A gets B's datagrams in order.
   */
  function Round(s: System, r: Schedule): System {
    var b0 := Drained(s.b, r.capacity);
    var a1 := PeerStep(s.a, b0.wire, Action.Update(r.at));
    var b1 := DeliverAll(b0, a1.wire, Outgoing(s.a, r.at));
    var b2 := PeerStep(b1, a1.wire, Action.Update(r.back));
    System(DeliverAll(a1, b2.wire, Outgoing(b1, r.back)), b2)
  }

  /**
   B has room for any message A has sent and can go on receiving, and its window test cannot
   wrap.
   */
  ghost predicate Receptive(a: Peer, b: Peer, capacity: nat) {
    && Living(a, b.e)
    && (forall i :: 0 <= i < |a.sent| ==> |a.sent[i]| <= capacity)
    && |Spoken(a)| + b.e.windows.rcvWnd < 0x1_0000_0000
  }

  /** The flush timers of both sides have run out. */
  predicate TimersDue(a: Peer, b: Peer, r: Schedule) {
    FlushDue(a.e.timing, Wrap32(r.at)) && FlushDue(b.e.timing, Wrap32(r.back))
  }

  /** A's oldest segment is due, or new and let through by the window, and both timers have run out. */
  predicate FlushesDue(a: Peer, b: Peer, r: Schedule) {
    TimersDue(a, b, r) && FrontDue(Ticked(a.e, Wrap32(r.at)))
  }

  /** What an update of the endpoint leaves alone. */
  lemma UpdateKeepsRest(me: Peer, other: Peer, now: nat)
    requires Linked(me, other)
    ensures var me' := PeerStep(me, other.wire, Action.Update(now));
      && me'.sent == me.sent && me'.e.mss == me.e.mss && me'.e.build == me.e.build
      && me'.e.inbox == me.e.inbox && me'.e.out.una == me.e.out.una
      && me'.e.windows.rcvWnd == me.e.windows.rcvWnd && me'.e.windows.sndWnd == me.e.windows.sndWnd
      && me'.clock == now && me'.monotone == (me.monotone && me.clock <= now)
  {
    FlushKeepsBuild(Ticked(me.e, Wrap32(now)));
    hide Endpoints.Flush, FlushDue, NextFlush, UpdateDatagrams;
  }

  /** The stages of a round. */
  datatype Stages = Stages(b0: Peer, a1: Peer, b1: Peer, b2: Peer, a2: Peer)

  function StagesOf(s: System, r: Schedule): Stages {
    var b0 := Drained(s.b, r.capacity);
    var a1 := PeerStep(s.a, b0.wire, Action.Update(r.at));
    var b1 := DeliverAll(b0, a1.wire, Outgoing(s.a, r.at));
    var b2 := PeerStep(b1, a1.wire, Action.Update(r.back));
    Stages(b0, a1, b1, b2, DeliverAll(a1, b2.wire, Outgoing(b1, r.back)))
  }

  lemma LivingSame(a: Peer, a': Peer, e: Endpoint)
    requires a'.sent == a.sent && a'.e.mss == a.e.mss
    ensures Living(a, e) <==> Living(a', e)
  {
  }

  /** First half of a round: B reads what there is, and gets what A's flush sends. */
  lemma OutwardStages(s: System, r: Schedule)
    requires Linked(s.a, s.b) && TimersDue(s.a, s.b, r)
    ensures var t := StagesOf(s, r);
      && Linked(t.b0, s.a) && Linked(s.a, t.b0) && SameSending(s.b, t.b0) && Endpoints.Recv(t.b0.e, r.capacity).1.Err?
      && (Living(s.a, s.b.e) ==> Living(s.a, t.b0.e))
      && Linked(t.a1, t.b0) && t.a1.e == Endpoints.Flush(Ticked(s.a.e, Wrap32(r.at)))
      && Mailed(UpdateDatagrams(s.a.e, Wrap32(r.at)), t.a1)
      && Concat(UpdateDatagrams(s.a.e, Wrap32(r.at))) == FlushPackets(Ticked(s.a.e, Wrap32(r.at)))
      && t.b1 == DeliverAll(t.b0, t.a1.wire, EncodeGroups(t.a1.e.build, UpdateDatagrams(s.a.e, Wrap32(r.at))))
      && Linked(t.b1, t.a1) && SameHistory(t.b0, t.b1) && Calm(t.b0.e, t.b1.e)
      && (Living(s.a, t.b0.e) ==> Living(s.a, t.b1.e))
  {
    hide Linked, FlushPackets, UpdateDatagrams, Mailed, EncodeGroups, FlushDue, Drained, Endpoints.Recv,
         Endpoints.Flush,
         Living, DeliverAll, Concat, PeerStep, Ticked, Wrap32, Outgoing;
    var t := StagesOf(s, r);
    LinkedSwap(s.a, s.b);
    DrainedKeeps(s.b, s.a, r.capacity);
    LinkedSwap(t.b0, s.a);
    UpdateMails(s.a, t.b0, r.at);
    UpdateKeepsRest(s.a, t.b0, r.at);
    LinkedSwap(t.a1, t.b0);
    DeliveriesKeep(t.b0, t.a1, UpdateDatagrams(s.a.e, Wrap32(r.at)));
    LivingSame(s.a, t.a1, t.b0.e);
    LivingSame(s.a, t.a1, t.b1.e);
  }

  /** Second half: A gets what B's flush sends. */
  lemma ReturnStages(s: System, r: Schedule)
    requires Linked(s.a, s.b) && TimersDue(s.a, s.b, r)
    ensures var t := StagesOf(s, r);
      && Linked(t.b2, t.a1) && t.b2.e == Endpoints.Flush(Ticked(t.b1.e, Wrap32(r.back)))
      && Mailed(UpdateDatagrams(t.b1.e, Wrap32(r.back)), t.b2)
      && Concat(UpdateDatagrams(t.b1.e, Wrap32(r.back))) == FlushPackets(Ticked(t.b1.e, Wrap32(r.back)))
      && t.a2 == DeliverAll(t.a1, t.b2.wire, EncodeGroups(t.b2.e.build, UpdateDatagrams(t.b1.e, Wrap32(r.back))))
      && Linked(t.a2, t.b2) && SameHistory(t.a1, t.a2) && Calm(t.a1.e, t.a2.e)
      && t.a2.e.out.una >= t.a1.e.out.una
  {
    OutwardStages(s, r);
    hide Linked, FlushPackets, UpdateDatagrams, Mailed, EncodeGroups, FlushDue, Drained, Endpoints.Recv,
         Endpoints.Flush,
         Living, DeliverAll, Concat, PeerStep, Ticked, Wrap32, Outgoing;
    var t := StagesOf(s, r);
    UpdateMails(t.b1, t.a1, r.back);
    LinkedSwap(t.b2, t.a1);
    DeliveriesKeep(t.a1, t.b2, UpdateDatagrams(t.b1.e, Wrap32(r.back)));
  }

  /**
   What every round keeps, whether or not anything was due: the link, a receiver that can go on,
   the messages sent and the windows set; snd_una never falls, and the clocks read the schedule.
   */
  lemma RoundKeeps(s: System, r: Schedule)
    requires Linked(s.a, s.b) && TimersDue(s.a, s.b, r)
    ensures var s' := Round(s, r);
      && Linked(s'.a, s'.b)
      && (Receptive(s.a, s.b, r.capacity) ==> Receptive(s'.a, s'.b, r.capacity))
      && s'.a.sent == s.a.sent && s'.a.e.mss == s.a.e.mss && s'.a.e.out.una >= s.a.e.out.una
      && s'.a.e.windows.sndWnd == s.a.e.windows.sndWnd && s'.b.e.windows.rcvWnd == s.b.e.windows.rcvWnd
      && s'.b.e.inbox.limit == s.b.e.inbox.limit
      && s'.a.clock == r.at && s'.b.clock == r.back
      && s'.a.monotone == (s.a.monotone && s.a.clock <= r.at)
  {
    hide Linked, FlushPackets, UpdateDatagrams, Mailed, EncodeGroups, Drained, Endpoints.Recv, Endpoints.Flush,
         Living, DeliverAll, Concat, PeerStep, Ticked, Wrap32, Outgoing, Spoken, TimersDue;
    OutwardStages(s, r);
    ReturnStages(s, r);
    var t := StagesOf(s, r);
    UpdateKeepsRest(s.a, t.b0, r.at);
    UpdateKeepsRest(t.b1, t.a1, r.back);
    LivingKept(t.b1.e, t.b2.e, s.a);
    LivingSame(s.a, t.a2, t.b2.e);
    SpokenSame(s.a, t.a2);
  }

  lemma LivingKept(e: Endpoint, e': Endpoint, a: Peer)
    requires e'.inbox == e.inbox && e'.windows.rcvWnd == e.windows.rcvWnd
    ensures Living(a, e) ==> Living(a, e')
  {
  }

  /**
   Progress: from any linked state a fair round strictly increases snd_una, and leaves a state
   from which the next fair round can start.
   */
  lemma RoundAcknowledges(s: System, r: Schedule)
    requires Linked(s.a, s.b) && Receptive(s.a, s.b, r.capacity) && FlushesDue(s.a, s.b, r)
    ensures var s' := Round(s, r);
      && s'.a.e.out.una > s.a.e.out.una
      && Linked(s'.a, s'.b) && Receptive(s'.a, s'.b, r.capacity)
      && s'.a.sent == s.a.sent && s'.a.e.mss == s.a.e.mss
  {
    hide FlushPackets, UpdateDatagrams, Mailed, EncodeGroups, Drained, Endpoints.Recv, Endpoints.Flush,
         DeliverAll, Concat, PeerStep, Ticked, Wrap32, Outgoing, Linked, Receptive, AcksNumber, FrontDue, TimersDue;
    RoundKeeps(s, r);
    OutwardStages(s, r);
    ReturnStages(s, r);
    var t, sn := StagesOf(s, r), s.a.e.out.una;
    OldestArrives(s, r);
    UpdateKeepsRest(s.a, t.b0, r.at);
    AckReturns(t.a1, t.b1, t.b2, r.back, sn);
  }

  /** The oldest segment reaches B, which schedules its acknowledgement. */
  lemma OldestArrives(s: System, r: Schedule)
    requires Linked(s.a, s.b) && Receptive(s.a, s.b, r.capacity) && FlushesDue(s.a, s.b, r)
    ensures AcksNumber(StagesOf(s, r).b1.e.acks, s.a.e.out.una)
  {
    hide FlushPackets, UpdateDatagrams, Mailed, EncodeGroups, FlushDue, Drained, Endpoints.Flush, Endpoints.Recv,
         DeliverAll, Concat, PeerStep, Outgoing, HasCommand, AcksNumber, FrontDue, GroupsHave, Wrap32, Linked,
         Living, Spoken, Ticked;
    OutwardStages(s, r);
    var t, sn := StagesOf(s, r), s.a.e.out.una;
    LivingWindow(s.a, t.b0.e);
    OldestAdmitted(s.a, t.b0, r);
    OldestIsSent(s.a, t.b0, r);
    ConcatHas(UpdateDatagrams(s.a.e, Wrap32(r.at)), PUSH, sn);
    NumbersWithin(t.a1, t.b0);
    UpdateKeepsRest(s.a, t.b0, r.at);
    SpokenSame(s.a, t.a1);
    LinkedSwap(t.a1, t.b0);
    DeliveriesScheduleAck(t.b0, t.a1, UpdateDatagrams(s.a.e, Wrap32(r.at)), sn);
  }

  lemma LivingWindow(a: Peer, e: Endpoint)
    requires Living(a, e)
    ensures e.windows.rcvWnd > 0
  {
  }

  lemma OldestIsSent(a: Peer, other: Peer, r: Schedule)
    requires Linked(other, a) && FrontDue(Ticked(a.e, Wrap32(r.at)))
    ensures HasCommand(FlushPackets(Ticked(a.e, Wrap32(r.at))), PUSH, a.e.out.una)
  {
    hide Linked, FlushPackets, HasCommand, FrontDue, Spoken, Wrap32;
    LinkedSwap(other, a);
    NumbersWithin(a, other);
    FrontIsSent(Ticked(a.e, Wrap32(r.at)), Spoken(a));
  }

  lemma NumbersWithin(me: Peer, other: Peer)
    requires Linked(me, other)
    ensures me.e.out.una <= me.e.out.nxt <= |Spoken(me)|
    ensures OutboxMatches(me.e.out, me.e.conv, Spoken(me))
  {
    hide Local, InboxMatches, AllCarry, Spoken;
  }

  /** Once B has read what there is, its window admits A's oldest segment. */
  lemma OldestAdmitted(a: Peer, b0: Peer, r: Schedule)
    requires Linked(b0, a) && Receptive(a, b0, r.capacity) && FrontDue(Ticked(a.e, Wrap32(r.at)))
    requires Endpoints.Recv(b0.e, r.capacity).1.Err?
    ensures a.e.out.una < b0.e.inbox.nxt + b0.e.windows.rcvWnd
  {
    hide Local, Endpoints.Recv, PeekSize, CanGoOn, LimitAdmits, Spoken, Wrap32, FrontDue;
    LinkedSwap(b0, a);
    NumbersWithin(a, b0);
    DrainedPeekFails(b0, a, r.capacity);
    DrainedFrontier(a, b0);
    FrontOutstanding(Ticked(a.e, Wrap32(r.at)), Spoken(a));
  }

  /** A due front is a fragment of the stream that is not acknowledged yet. */
  lemma FrontOutstanding(e: Endpoint, stream: seq<Frag>)
    requires OutboxMatches(e.out, e.conv, stream) && FrontDue(e)
    ensures e.out.una < |stream|
  {
    AdmitMatches(e.out, CongestionWindow(e.windows), StampOf(e), e.estimate.rto, stream);
    hide Admit, StampOf, Judge, PassOf, Remaining, AllCarry;
    var buf := Endpoints.Admitted(e).buf;
    assert InFlight(Endpoints.Admitted(e), buf[0].header.sn);
  }

  /** B's flush carries the acknowledgement back, and snd_una moves on. */
  lemma AckReturns(a1: Peer, b1: Peer, b2: Peer, back: nat, sn: u32)
    requires Linked(b2, a1) && AcksNumber(b1.e.acks, sn) && sn <= a1.e.out.una
    requires Mailed(UpdateDatagrams(b1.e, Wrap32(back)), b2)
    requires Concat(UpdateDatagrams(b1.e, Wrap32(back))) == FlushPackets(Ticked(b1.e, Wrap32(back)))
    ensures DeliverAll(a1, b2.wire, EncodeGroups(b2.e.build, UpdateDatagrams(b1.e, Wrap32(back)))).e.out.una > sn
  {
    hide FlushPackets, UpdateDatagrams, Mailed, EncodeGroups, Linked, GroupsHave, HasCommand, AcksNumber, Concat,
         Wrap32;
    AckIsSent(Ticked(b1.e, Wrap32(back)), sn);
    ConcatHas(UpdateDatagrams(b1.e, Wrap32(back)), ACK, sn);
    LinkedSwap(b2, a1);
    DeliveriesAdvance(a1, b2, UpdateDatagrams(b1.e, Wrap32(back)), sn);
  }

  lemma SpokenSame(p: Peer, p': Peer)
    requires p'.sent == p.sent && p'.e.mss == p.e.mss
    ensures Spoken(p') == Spoken(p)
  {
  }

  // ---------------------------------------------------------------- many rounds

  function RoundAll(s: System, rs: seq<Schedule>): System
    decreases |rs|
  {
    if rs == [] then s else RoundAll(Round(s, rs[0]), rs[1..])
  }

  /** Every round of the schedule finds its oldest segment due. */
  predicate AllDue(s: System, rs: seq<Schedule>)
    decreases |rs|
  {
    rs == [] || (FlushesDue(s.a, s.b, rs[0]) && AllDue(Round(s, rs[0]), rs[1..]))
  }

  /** Each fair round acknowledges at least one more segment, so snd_una grows by their number. */
  lemma {:induction false} RoundsAcknowledge(s: System, rs: seq<Schedule>, capacity: nat)
    requires Linked(s.a, s.b) && Receptive(s.a, s.b, capacity)
    requires AllDue(s, rs) && forall i :: 0 <= i < |rs| ==> rs[i].capacity == capacity
    ensures var s' := RoundAll(s, rs);
      && s'.a.e.out.una >= s.a.e.out.una + |rs|
      && Linked(s'.a, s'.b) && Receptive(s'.a, s'.b, capacity)
      && s'.a.sent == s.a.sent && s'.a.e.mss == s.a.e.mss
    decreases |rs|
  {
    hide Linked, Receptive, FlushesDue, Round;
    if rs != [] {
      RoundAcknowledges(s, rs[0]);
      RoundsAcknowledge(Round(s, rs[0]), rs[1..], capacity);
    }
  }

  /**
   Termination measure of reliable delivery: fair rounds cannot go on for longer than there are
   unacknowledged fragments. Within that many rounds nothing is left to send, or the oldest
   segment's time has not yet come, or the window lets nothing new through.
   */
  lemma FairRoundsAreFinite(s: System, rs: seq<Schedule>, capacity: nat)
    requires Linked(s.a, s.b) && Receptive(s.a, s.b, capacity)
    requires AllDue(s, rs) && forall i :: 0 <= i < |rs| ==> rs[i].capacity == capacity
    ensures |rs| <= |Spoken(s.a)| - s.a.e.out.una
  {
    RoundsAcknowledge(s, rs, capacity);
    var s' := RoundAll(s, rs);
    SpokenSame(s.a, s'.a);
    hide RoundAll, Receptive, AllDue, Linked, Spoken;
    NumbersWithin(s'.a, s'.b);
  }
}
