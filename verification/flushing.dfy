/** What a flush emits, and why it keeps both directions of a link. */
module Flushing {
  import opened Words
  import opened Segments
  import opened Codec
  import opened Sending
  import opened Congestion
  import opened Packing
  import opened Fragmentation
  import opened Transmission
  import opened Endpoints
  import opened Matching
  import opened Links

  // ---------------------------------------------------------------- the emitted packets

  /** A packet of a flush: an acknowledgement that was scheduled, a probe, or a buffered segment. */
  ghost predicate FlushPacketOk(e: Endpoint, p: Packet) {
    && p.header.una == e.inbox.nxt
    && WellFormed(e.conv, p)
    && (p.header.cmd == ACK ==> Acknowledgement(p.header.sn, p.header.ts) in e.acks)
    && (p.header.cmd == PUSH ==>
          exists seg :: seg in Endpoints.Admitted(e).buf && Emits(PassOf(e), seg, p))
  }

  lemma ServicePacketsOk(e: Endpoint)
    ensures forall p :: p in AckPackets(StampOf(e), e.acks) ==> FlushPacketOk(e, p)
    ensures forall p :: p in ProbePackets(StampOf(e), FlushedProbe(e), LastAck(e.acks)) ==> FlushPacketOk(e, p)
  {
    hide AdvertisedWindow, FlushedProbe, LastAck, Admit, Judge, Processed;
    forall p | p in AckPackets(StampOf(e), e.acks) ensures FlushPacketOk(e, p) {
      var i :| 0 <= i < |e.acks| && p == Service(StampOf(e), ACK, e.acks[i]);
      assert e.acks[i] in e.acks;
    }
  }

  lemma DataPacketsOk(e: Endpoint, stream: seq<Frag>)
    requires AllCarry(Endpoints.Admitted(e).buf, e.conv, stream)
    ensures forall p :: p in Emitted(PassOf(e), Endpoints.Admitted(e).buf) ==> FlushPacketOk(e, p)
  {
    var pass, buf := PassOf(e), Endpoints.Admitted(e).buf;
    EmittedFrom(pass, buf);
    hide Emitted, AdvertisedWindow, Endpoints.Admitted, Judge, Retimed;
    forall p | p in Emitted(pass, buf) ensures FlushPacketOk(e, p) {
      var seg :| seg in buf && Emits(pass, seg, p);
      assert Carries(seg, e.conv, stream);
    }
  }

  lemma FlushPacketsOk(e: Endpoint, stream: seq<Frag>)
    requires AllCarry(Endpoints.Admitted(e).buf, e.conv, stream)
    ensures forall p :: p in FlushPackets(e) ==> FlushPacketOk(e, p)
  {
    ServicePacketsOk(e);
    DataPacketsOk(e, stream);
    hide AckPackets, ProbePackets, Emitted, FlushPacketOk, StampOf, FlushedProbe, PassOf, Endpoints.Admitted;
  }

  /** Every fragment of a stream of good messages is non-empty and fits a segment. */
  lemma {:induction false} StreamSmall(msgs: seq<seq<u8>>, mss: Mss)
    requires GoodMessages(msgs, mss)
    ensures forall i :: 0 <= i < |Stream(msgs, mss)| ==> 0 < |Stream(msgs, mss)[i].data| <= mss
  {
    if msgs != [] {
      var last := |msgs| - 1;
      StreamSmall(msgs[..last], mss);
      FragmentsExact(msgs[last], mss);
      hide Fragments;
    }
  }

  lemma FlushPayloads(e: Endpoint, msgs: seq<seq<u8>>)
    requires GoodMessages(msgs, e.mss)
    requires AllCarry(Endpoints.Admitted(e).buf, e.conv, Stream(msgs, e.mss))
    ensures Payloads(FlushPackets(e), e.mss)
  {
    FlushPacketsOk(e, Stream(msgs, e.mss));
    StreamSmall(msgs, e.mss);
    var ps := FlushPackets(e);
    hide FlushPackets, Stream, Endpoints.Admitted, GoodMessages, PassOf, Judge, Retimed;
    forall i | 0 <= i < |ps| ensures |ps[i].data| <= e.mss {
      assert FlushPacketOk(e, ps[i]);
      if ps[i].header.cmd == PUSH {
        var seg :| seg in Endpoints.Admitted(e).buf && Emits(PassOf(e), seg, ps[i]);
        assert Carries(seg, e.conv, Stream(msgs, e.mss));
      }
    }
  }

  // ---------------------------------------------------------------- as the sending peer

  /** The numbered and stamped outbox still matches the stream. */
  lemma FlushedOutbox(e: Endpoint, stream: seq<Frag>)
    requires OutboxMatches(e.out, e.conv, stream) && e.timing.updated
    ensures OutboxMatches(Endpoints.Admitted(e), e.conv, stream)
    ensures OutboxMatches(Endpoints.Flush(e).out, e.conv, stream)
    ensures Endpoints.Flush(e).out.nxt == Endpoints.Admitted(e).nxt >= e.out.nxt
    ensures forall x: u32 :: HasSn(Endpoints.Flush(e).out.buf, x)
                        <==> HasSn(e.out.buf, x) || e.out.nxt <= x < Endpoints.Flush(e).out.nxt
  {
    hide AdvertisedWindow, CongestionWindow, FlushedWindows, FlushedTuning, FlushedProbe, OutboxMatches,
         HasSn, Admit, Processed;
    AdmitMatches(e.out, CongestionWindow(e.windows), StampOf(e), e.estimate.rto, stream);
    var o := Endpoints.Admitted(e);
    ProcessedAlike(PassOf(e), o.buf);
    AlikeMatches(o, e.conv, stream, ProcessedAll(PassOf(e), o.buf));
    hide ProcessedAll, AllAlike, PassOf;
  }

  lemma NewPushesOk(e: Endpoint, clock: nat, stream: seq<Frag>)
    requires OutboxMatches(Endpoints.Admitted(e), e.conv, stream)
    requires e.timing.current == Wrap32(clock)
    ensures forall p :: p in FlushPackets(e) ==>
              PushOk(p, Endpoints.Admitted(e).nxt, stream, Transmissions(FlushPackets(e), clock))
  {
    FlushPacketsOk(e, stream);
    var ps, log := FlushPackets(e), Transmissions(FlushPackets(e), clock);
    hide FlushPackets, Endpoints.Admitted, Judge, Retimed, AdvertisedWindow, Wrap32, HasSn, Sorted;
    forall p | p in ps && p.header.cmd == PUSH ensures PushOk(p, Endpoints.Admitted(e).nxt, stream, log) {
      assert FlushPacketOk(e, p);
      var seg :| seg in Endpoints.Admitted(e).buf && Emits(PassOf(e), seg, p);
      assert Carries(seg, e.conv, stream);
      var i :| 0 <= i < |Endpoints.Admitted(e).buf| && Endpoints.Admitted(e).buf[i] == seg;
      assert InFlight(Endpoints.Admitted(e), seg.header.sn);
      assert (p.header.sn, clock) in log;
    }
  }

  /** The peer after a flush: `Emit` with the packets in place of their datagrams. */
  ghost predicate Spoke(me: Peer, me': Peer, ps: seq<Packet>) {
    && me'.spoken == me.spoken + (set p | p in ps)
    && me'.log == me.log + Transmissions(ps, me.clock)
    && me'.sent == me.sent && me'.received == me.received
    && me'.clock == me.clock && me'.monotone == me.monotone
  }

  lemma PushesJoin(a: set<Packet>, ps: seq<Packet>, top: u32, stream: seq<Frag>, log: set<(u32, nat)>,
                   more: set<(u32, nat)>)
    requires Pushes(a, top, stream, log)
    requires forall p :: p in ps ==> PushOk(p, top, stream, more)
    requires top <= |stream|
    ensures Pushes(a + (set p | p in ps), top, stream, log + more)
  {
    PushesMore(a, top, stream, log, top, stream, log + more);
    forall p | p in ps && p.header.cmd == PUSH ensures PushOk(p, top, stream, log + more) {
      LoggedMore(more, log + more, p.header.sn, p.header.ts);
    }
  }

  lemma FlushAsSender(me: Peer, me': Peer, other: Peer)
    requires Link(me, other) && me.e.timing.current == Wrap32(me.clock) && me.e.timing.updated
    requires me'.e == Endpoints.Flush(me.e) && Spoke(me, me', FlushPackets(me.e))
    ensures Link(me', other)
  {
    var e, stream := me.e, Spoken(me);
    var ps := FlushPackets(e);
    FlushedOutbox(e, stream);
    NewPushesOk(e, me.clock, stream);
    var top, top' := e.out.nxt, me'.e.out.nxt;
    assert top' <= |stream|;
    assert me'.e.conv == e.conv && me'.e.mss == e.mss;
    hide Endpoints.Flush, FlushPackets, Endpoints.Admitted, OutboxMatches, HasSn, Held, PushOk, GoodMessages, HoldsMore;
    PushesMore(me.spoken, top, stream, me.log, top', stream, me.log);
    PushesJoin(me.spoken, ps, top', stream, me.log, Transmissions(ps, me.clock));
    HoldsSame(other.e.inbox);
    RepliesMore(other.spoken, other.e.inbox, top, me.log, other.e.inbox, top', me'.log);
    ScheduledMore(other.e.acks, other.e.inbox, top, me.log, other.e.inbox, top', me'.log);
    InboxMatchesMore(other.e.inbox, stream, |Stream(other.received, e.mss)|, top, stream, top');
    hide Pushes, Replies, Scheduled, InboxMatches, Transmissions;
    assert NoLoss(me'.e.out, other.e.inbox);
  }

  // ---------------------------------------------------------------- as the receiving peer

  lemma FlushAsReceiver(other: Peer, me: Peer, me': Peer)
    requires Link(other, me) && OutboxMatches(Endpoints.Admitted(me.e), me.e.conv, Spoken(me))
    requires me.e.timing.updated
    requires me'.e == Endpoints.Flush(me.e) && Spoke(me, me', FlushPackets(me.e))
    ensures Link(other, me')
  {
    var e, ps := me.e, FlushPackets(me.e);
    FlushPacketsOk(e, Spoken(me));
    assert me'.e.inbox == e.inbox && me'.e.acks == [];
    HoldsSame(e.inbox);
    hide Endpoints.Flush, FlushPackets, Endpoints.Admitted, OutboxMatches, HoldsMore, GoodMessages, Pushes,
         NoLoss, InboxMatches, AckOk, Emits;
    forall p | p in ps ensures ReplyOk(p, e.inbox, other.e.out.nxt, other.log) {
      assert FlushPacketOk(e, p);
    }
    ReceiverMoves(other, me, me');
  }

  // ---------------------------------------------------------------- the datagrams

  lemma GroupParses(build: Build, conv: u32, mss: Mss, group: seq<Packet>, spoken: set<Packet>)
    requires Sendable(group, mss) && AllWellFormed(conv, group)
    requires forall p :: p in group ==> p in spoken
    ensures Parses(build, conv, mss, EncodeAll(build, group), spoken)
  {
    DatagramRoundTrip(build, conv, group);
    SizeIsEncodedLength(build, group);
    assert Size(group) >= HEADER_SIZE;
    hide EncodeAll, Parse, Size, AllWellFormed;
    assert Encloses(build, conv, mss, EncodeAll(build, group), group, spoken);
  }

  lemma GroupsParse(build: Build, conv: u32, mss: Mss, groups: seq<seq<Packet>>, spoken: set<Packet>)
    requires AllSendable(groups, mss)
    requires forall p :: p in Concat(groups) ==> WellFormed(conv, p) && p in spoken
    ensures forall d :: d in EncodeGroups(build, groups) ==> Parses(build, conv, mss, d, spoken)
  {
    ConcatCovers(groups);
    hide Concat, WellFormed, Size, EncodeAll, Parses;
    forall d | d in EncodeGroups(build, groups) ensures Parses(build, conv, mss, d, spoken) {
      var i :| 0 <= i < |groups| && d == EncodeAll(build, groups[i]);
      assert groups[i] in groups && Sendable(groups[i], mss);
      forall p | p in groups[i] ensures WellFormed(conv, p) && p in spoken {
        assert p in Concat(groups);
      }
      GroupParses(build, conv, mss, groups[i], spoken);
    }
  }

  lemma FlushDatagramsParse(e: Endpoint, msgs: seq<seq<u8>>, spoken: set<Packet>)
    requires GoodMessages(msgs, e.mss) && e.timing.updated
    requires AllCarry(Endpoints.Admitted(e).buf, e.conv, Stream(msgs, e.mss))
    requires forall p :: p in FlushPackets(e) ==> p in spoken
    ensures forall d :: d in EncodeGroups(e.build, FlushDatagrams(e)) ==> Parses(e.build, e.conv, e.mss, d, spoken)
    ensures Concat(FlushDatagrams(e)) == FlushPackets(e) && AllSendable(FlushDatagrams(e), e.mss)
  {
    FlushPayloads(e, msgs);
    FlushPacketsOk(e, Stream(msgs, e.mss));
    PackingExact(e.mss, FlushPackets(e));
    forall p | p in FlushPackets(e) ensures WellFormed(e.conv, p) {
      assert FlushPacketOk(e, p);
    }
    hide FlushPackets, Stream, Endpoints.Admitted, GoodMessages, Datagrams, FlushPacketOk, Payloads,
         WellFormed, EncodeGroups, AllSendable, Parses;
    GroupsParse(e.build, e.conv, e.mss, FlushDatagrams(e), spoken);
  }

  lemma ParsesMore(build: Build, conv: u32, mss: Mss, d: seq<u8>, spoken: set<Packet>, spoken': set<Packet>)
    requires Parses(build, conv, mss, d, spoken) && spoken <= spoken'
    ensures Parses(build, conv, mss, d, spoken')
  {
    hide EncodeAll, Parse, Sendable, AllWellFormed;
    var group :| Encloses(build, conv, mss, d, group, spoken);
    assert Encloses(build, conv, mss, d, group, spoken');
  }

  lemma FlushLocal(me: Peer, me': Peer)
    requires Local(me) && me.e.timing.updated && GoodMessages(me.sent, me.e.mss)
    requires OutboxMatches(Endpoints.Admitted(me.e), me.e.conv, Spoken(me))
    requires me' == Emit(me, Endpoints.Flush(me.e), FlushDatagrams(me.e))
    ensures Spoke(me, me', FlushPackets(me.e)) && Local(me')
  {
    hide FlushPackets, Endpoints.Admitted, FlushDatagrams, GoodMessages, Parses, Wrap32, Transmissions, Tracked,
         Remaining, AllCarry, FlushedWindows, FlushedProbe, FlushedTuning, ProcessedAll, PassOf;
    var ps := FlushPackets(me.e);
    var spoken' := me.spoken + (set p | p in ps);
    FlushDatagramsParse(me.e, me.sent, spoken');
    FlushKeepsFrame(me.e);
    TransmissionsAt(ps, me.clock);
    hide Endpoints.Flush, OutboxMatches, Concat;
    WireMore(me, EncodeGroups(me.e.build, FlushDatagrams(me.e)), spoken');
  }

  lemma FlushKeepsFrame(e: Endpoint)
    ensures var f := Endpoints.Flush(e);
      f.build == e.build && f.conv == e.conv && f.timing == e.timing && f.mss == e.mss
  {
    hide Endpoints.Admitted, FlushedWindows, FlushedProbe, FlushedTuning, ProcessedAll, PassOf;
  }

  lemma TransmissionsAt(ps: seq<Packet>, clock: nat)
    ensures forall t :: t in Transmissions(ps, clock) ==> t.1 == clock
  {
  }

  lemma WireMore(me: Peer, ds: seq<seq<u8>>, spoken': set<Packet>)
    requires Local(me) && me.spoken <= spoken'
    requires forall d :: d in ds ==> Parses(me.e.build, me.e.conv, me.e.mss, d, spoken')
    ensures forall d :: d in me.wire + (set d | d in ds) ==> Parses(me.e.build, me.e.conv, me.e.mss, d, spoken')
  {
    hide Parses, Wrap32;
    forall d | d in me.wire ensures Parses(me.e.build, me.e.conv, me.e.mss, d, spoken') {
      ParsesMore(me.e.build, me.e.conv, me.e.mss, d, me.spoken, spoken');
    }
  }

  lemma EmitNothing(me: Peer)
    ensures Emit(me, me.e, []) == me
  {
    assert EncodeGroups(me.e.build, []) == [];
  }

  /** Two peers whose every call keeps what the theorems need. */
  ghost predicate Linked(me: Peer, other: Peer) {
    && me.e.build == other.e.build && me.e.conv == other.e.conv
    && Local(me) && Local(other)
    && Link(me, other) && Link(other, me)
  }

  lemma FlushKeeps(me: Peer, other: Peer)
    requires Linked(me, other)
    ensures Linked(Emit(me, Endpoints.Flush(me.e), FlushDatagrams(me.e)), other)
  {
    if me.e.timing.updated {
      var me' := Emit(me, Endpoints.Flush(me.e), FlushDatagrams(me.e));
      FlushedOutbox(me.e, Spoken(me));
      FlushLocal(me, me');
      FlushAsSender(me, me', other);
      FlushAsReceiver(other, me, me');
      assert me'.e.build == me.e.build && me'.e.conv == me.e.conv && me'.e.mss == me.e.mss;
      hide Link, Local, Endpoints.Flush, FlushDatagrams;
    } else {
      EmitNothing(me);
    }
  }
}
