/** The send buffer over every sequence of calls on one endpoint, whatever bytes arrive. */
module Schedules {
  import opened Words
  import opened Segments
  import opened Codec
  import opened Sending
  import opened Congestion
  import opened Timeouts
  import opened Packing
  import opened Fragmentation
  import opened Transmission
  import opened Endpoints
  import opened Links
  import opened Laws

  // ---------------------------------------------------------------- what every buffered segment keeps

  /** A payload that fits, and a timeout that at most doubled with every send after the first. */
  predicate Paced(seg: Segment, mss: Mss) {
    && |seg.data| <= mss
    && (0 < seg.meta.xmit <= 17 ==> RTO_NDL <= seg.meta.rto <= Doubled(RTO_MAX, seg.meta.xmit - 1))
  }

  predicate AllPaced(buf: seq<Segment>, mss: Mss) {
    forall seg :: seg in buf ==> Paced(seg, mss)
  }

  predicate Waiting(queue: seq<Segment>, mss: Mss) {
    forall seg :: seg in queue ==> |seg.data| <= mss
  }

  predicate Steadfast(e: Endpoint) {
    AllPaced(e.out.buf, e.mss) && Waiting(e.out.queue, e.mss)
  }

  lemma {:induction false} ErasedWithin(buf: seq<Segment>, sn: u32)
    ensures Within(EraseBefore(buf, sn), buf) && Within(EraseSn(buf, sn), buf)
  {
    if buf != [] {
      ErasedWithin(buf[1..], sn);
    }
  }

  lemma {:induction false} BumpedPaced(buf: seq<Segment>, sn: u32, mss: Mss)
    requires AllPaced(buf, mss)
    ensures AllPaced(BumpBefore(buf, sn), mss)
  {
    hide Doubled;
    if buf != [] {
      assert Paced(buf[0], mss) && Paced(Bump(buf[0]), mss);
      assert forall seg :: seg in buf[1..] ==> seg in buf;
      BumpedPaced(buf[1..], sn, mss);
    }
  }

  lemma HandledSteadfast(e: Endpoint, p: Packet)
    requires Steadfast(e)
    ensures Steadfast(HandlePacket(e, p)) && HandlePacket(e, p).mss == e.mss
  {
    HandledOutbox(e, p);
    hide HandlePacket, Paced;
    ErasedWithin(e.out.buf, p.header.una);
    ErasedWithin(EraseBefore(e.out.buf, p.header.una), p.header.sn);
    hide EraseBefore, EraseSn;
  }

  lemma {:induction false} HandledAllSteadfast(e: Endpoint, ps: seq<Packet>)
    requires Steadfast(e)
    ensures Steadfast(HandleAll(e, ps)) && HandleAll(e, ps).mss == e.mss
    decreases |ps|
  {
    hide Steadfast, HandlePacket;
    if ps != [] {
      HandledSteadfast(e, ps[0]);
      HandledAllSteadfast(HandlePacket(e, ps[0]), ps[1..]);
    }
  }

  lemma InputSteadfast(e: Endpoint, data: seq<u8>)
    requires Steadfast(e)
    ensures Steadfast(Input(e, data).0) && Input(e, data).0.mss == e.mss
  {
    var ps := Parse(e.build, e.conv, data).packets;
    var fast := FastAcks(NO_FAST_ACK, ps);
    hide Parse, HandleAll, FastAcks, AdjustParameters, BumpBefore, AllPaced;
    HandledAllSteadfast(e, ps);
    BumpedPaced(HandleAll(e, ps).out.buf, fast.maxack, e.mss);
  }

  /** A pass starts a segment within the range, doubles its timeout, or leaves it. */
  lemma ProcessedPaced(p: Pass, seg: Segment, mss: Mss)
    requires Paced(seg, mss) && Ordinary(p)
    ensures Paced(Processed(p, seg), mss)
  {
    NextXmit(seg.meta.xmit);
    LargestTimeout();
    hide Wrap32, Due, BackedOff;
    if 0 < seg.meta.xmit <= 16 {
      DoubledGrows(RTO_MAX, seg.meta.xmit - 1, seg.meta.xmit);
      DoubledGrows(RTO_MAX, 0, seg.meta.xmit - 1);
      DoubledGrows(RTO_MAX, seg.meta.xmit, 16);
      BackoffStep(seg.meta.rto, p.rto, p.nodelay, Doubled(RTO_MAX, seg.meta.xmit - 1));
    }
  }

  lemma ProcessedAllPaced(p: Pass, buf: seq<Segment>, mss: Mss)
    requires AllPaced(buf, mss) && Ordinary(p)
    ensures AllPaced(ProcessedAll(p, buf), mss)
  {
    hide Paced, Ordinary, Processed;
    forall seg | seg in ProcessedAll(p, buf)
      ensures Paced(seg, mss)
    {
      var i :| 0 <= i < |buf| && seg == Processed(p, buf[i]);
      ProcessedPaced(p, buf[i], mss);
    }
  }

  /** Numbered segments are new to the buffer and have not been sent. */
  lemma AdmittedSteadfast(o: Outbox, cwnd: u32, stamp: Stamp, rto: u32, mss: Mss)
    requires o.una <= o.nxt && AllPaced(o.buf, mss) && Waiting(o.queue, mss)
    ensures var o' := Admit(o, cwnd, stamp, rto); AllPaced(o'.buf, mss) && Waiting(o'.queue, mss)
  {
    AdmitExact(o, cwnd, stamp, rto);
    var k := AdmitCount(o, cwnd);
    hide Admit, AdmitCount, Paced;
    var added := seq(k, i requires 0 <= i < k => Numbered(o.queue[i], o.nxt + i, stamp, rto));
    forall seg | seg in added
      ensures Paced(seg, mss)
    {
      var i :| 0 <= i < k && seg == Numbered(o.queue[i], o.nxt + i, stamp, rto);
      assert o.queue[i] in o.queue;
      NumberedPaced(o.queue[i], o.nxt + i, stamp, rto, mss);
    }
    hide Numbered;
    assert Admit(o, cwnd, stamp, rto).buf == o.buf + added;
  }

  lemma NumberedPaced(seg: Segment, sn: u32, stamp: Stamp, rto: u32, mss: Mss)
    requires |seg.data| <= mss
    ensures Paced(Numbered(seg, sn, stamp, rto), mss)
  {
    hide Doubled;
  }

  lemma PassOrdinary(e: Endpoint)
    requires InRange(e)
    ensures Ordinary(PassOf(e))
  {
    hide StampOf;
  }

  lemma FlushSteadfast(e: Endpoint)
    requires Steadfast(e) && InRange(e) && e.out.una <= e.out.nxt
    ensures Steadfast(Endpoints.Flush(e)) && Endpoints.Flush(e).mss == e.mss
    ensures AllPaced(Endpoints.Admitted(e).buf, e.mss)
  {
    PassOrdinary(e);
    AdmittedSteadfast(e.out, CongestionWindow(e.windows), StampOf(e), e.estimate.rto, e.mss);
    hide Admit, StampOf, FlushedWindows, FlushedTuning, FlushedProbe, PassOf, ProcessedAll, InRange, Ordinary, AllPaced;
    if e.timing.updated {
      ProcessedAllPaced(PassOf(e), Endpoints.Admitted(e).buf, e.mss);
    }
  }

  /** Fragments of any message fit a segment. */
  lemma {:induction false} FragmentsFit(msg: seq<u8>, mss: Mss)
    ensures forall i :: 0 <= i < |Fragments(msg, mss)| ==> |Fragments(msg, mss)[i].data| <= mss
    decreases |msg|
  {
    if |msg| > mss {
      FragmentsFit(msg[mss..], mss);
    }
  }

  lemma SendSteadfast(e: Endpoint, msg: seq<u8>)
    requires Steadfast(e)
    ensures Steadfast(Endpoints.Send(e, msg).0) && Endpoints.Send(e, msg).0.mss == e.mss
  {
    FragmentsFit(msg, e.mss);
    hide Fragments, SendError, Paced;
    var more := QueuedAll(Fragments(msg, e.mss));
    assert forall i :: 0 <= i < |more| ==> |more[i].data| <= e.mss;
  }

  lemma StepSteadfast(me: Peer, incoming: set<seq<u8>>, a: Action)
    requires Steadfast(me.e) && InRange(me.e) && me.e.out.una <= me.e.out.nxt
    ensures Steadfast(PeerStep(me, incoming, a).e) && PeerStep(me, incoming, a).e.mss == me.e.mss
  {
    hide AllPaced, Waiting;
    match a
    case Send(msg) =>
      hide Steadfast, Endpoints.Send;
      SendSteadfast(me.e, msg);
    case Recv(capacity) => hide Receiving.Recv;
    case Update(now) =>
      var ticked := Ticked(me.e, Wrap32(now));
      TickedInRange(me.e, Wrap32(now));
      assert Steadfast(ticked);
      FlushSteadfast(ticked);
      hide Endpoints.Flush, FlushDue, UpdateDatagrams, NextFlush, Steadfast;
    case Flush =>
      FlushSteadfast(me.e);
      hide Endpoints.Flush, FlushDatagrams, Steadfast;
    case Check(now) => hide TimeDelta;
    case Deliver(d) =>
      InputSteadfast(me.e, d);
      hide Input, Steadfast;
    case Configure(s) =>
  }

  /** In every run of calls the send buffer is paced, and every payload fits a segment. */
  lemma {:induction false} EveryCallSteadfast(build: Build, conv: u32, mss: Mss, calls: seq<Action>)
    ensures var e := Called(Links.Start(build, conv, mss), calls).e; Steadfast(e) && e.mss == mss
  {
    if calls != [] {
      var last := |calls| - 1;
      EveryCallSteadfast(build, conv, mss, calls[..last]);
      EveryCallInRange(build, conv, mss, calls[..last]);
      hide PeerStep, InRange, Steadfast;
      var before := Called(Links.Start(build, conv, mss), calls[..last]);
      StepSteadfast(before, if calls[last].Deliver? then {calls[last].datagram} else {}, calls[last]);
    }
  }

  /** EveryCallKeeps with the largest window there is. */
  lemma EveryCallInRange(build: Build, conv: u32, mss: Mss, calls: seq<Action>)
    ensures var e := Called(Links.Start(build, conv, mss), calls).e;
      InRange(e) && Tracked(e.out) && e.out.una <= e.out.nxt
  {
    EveryCallKeeps(build, conv, mss, calls, 0xFFFF_FFFF);
    hide Called, InRange, Tracked;
  }

  // ---------------------------------------------------------------- snd_una

  lemma {:induction false} HandledUna(e: Endpoint, ps: seq<Packet>)
    requires Tracked(e.out)
    ensures HandleAll(e, ps).out.una >= e.out.una
    decreases |ps|
  {
    hide Tracked, EraseSn, EraseBefore, HandlePacket;
    if ps != [] {
      var h := ps[0].header;
      HandledOutbox(e, ps[0]);
      UnaReceivedTracked(e.out, h.una);
      AckReceivedTracked(UnaReceived(e.out, h.una), h.sn);
      HandledUna(HandlePacket(e, ps[0]), ps[1..]);
    }
  }

  lemma InputUna(e: Endpoint, data: seq<u8>)
    requires Tracked(e.out)
    ensures Input(e, data).0.out.una >= e.out.una
  {
    HandledUna(e, Parse(e.build, e.conv, data).packets);
    hide Parse, HandleAll, FastAcks, AdjustParameters, BumpBefore, Tracked;
  }

  lemma FlushUna(e: Endpoint)
    requires e.out.una <= e.out.nxt
    ensures Endpoints.Flush(e).out.una == e.out.una
  {
    if e.timing.updated {
      FlushNumbersExactly(e);
    }
    hide Admit, FlushedWindows, FlushedTuning, FlushedProbe, ProcessedAll, AdmitCount, CongestionWindow;
  }

  lemma StepUna(me: Peer, incoming: set<seq<u8>>, a: Action)
    requires Tracked(me.e.out) && me.e.out.una <= me.e.out.nxt
    ensures PeerStep(me, incoming, a).e.out.una >= me.e.out.una
  {
    hide Tracked, Endpoints.Flush, FlushDatagrams, UpdateDatagrams, Input, FlushDue, NextFlush, Receiving.Recv,
         Fragments;
    match a
    case Update(now) => FlushUna(Ticked(me.e, Wrap32(now)));
    case Flush => FlushUna(me.e);
    case Deliver(d) => InputUna(me.e, d);
    case _ =>
  }

  /** In every run of calls, whatever bytes arrive, snd_una never decreases. */
  lemma {:induction false} UnaNeverDecreases(build: Build, conv: u32, mss: Mss, calls: seq<Action>, k: nat)
    requires k <= |calls|
    ensures var me := Links.Start(build, conv, mss);
      Called(me, calls[..k]).e.out.una <= Called(me, calls).e.out.una
    decreases |calls| - k
  {
    var me := Links.Start(build, conv, mss);
    hide PeerStep, Tracked, InRange;
    if k < |calls| {
      assert calls[..k + 1][..k] == calls[..k];
      EveryCallInRange(build, conv, mss, calls[..k]);
      StepUna(Called(me, calls[..k]), if calls[k].Deliver? then {calls[k].datagram} else {}, calls[k]);
      UnaNeverDecreases(build, conv, mss, calls, k + 1);
    } else {
      assert calls[..k] == calls;
    }
  }

  // ---------------------------------------------------------------- the retransmission schedule

  lemma FlushSchedules(e: Endpoint, i: nat)
    requires Steadfast(e) && InRange(e) && e.out.una <= e.out.nxt && e.timing.updated
    requires i < |Endpoints.Admitted(e).buf| && Endpoints.Admitted(e).buf[i].meta.xmit < 0xFFFF_FFFF
    ensures |Endpoints.Flush(e).out.buf| == |Endpoints.Admitted(e).buf|
    ensures var meta := Endpoints.Flush(e).out.buf[i].meta;
      meta.xmit >= 1 && (meta.xmit <= 16 ==> !Due(e.timing.current, meta.resendts))
  {
    var p, buf := PassOf(e), Endpoints.Admitted(e).buf;
    assert Endpoints.Flush(e).out.buf == ProcessedAll(p, buf);
    FlushSchedulesExactly(e);
    FlushSteadfast(e);
    PassOrdinary(e);
    hide Endpoints.Flush, Endpoints.Admitted, PassOf, InRange, Due, Ordinary, Paced, Judge, Slack, Processed;
    assert Paced(buf[i], e.mss);
    if Judge(p, buf[i]) != Idle && Processed(p, buf[i]).meta.xmit <= 16 {
      SlackOfPaced(p, buf[i], e.mss);
    }
  }

  /**
   The retransmission schedule of an endpoint: in every run of calls, whatever bytes arrive, a
   flush leaves no segment unsent, and every segment sent at most 16 times strictly ahead of the
   reading it was flushed at.
   */
  lemma EveryFlushSchedules(build: Build, conv: u32, mss: Mss, calls: seq<Action>, i: nat)
    requires var e := Called(Links.Start(build, conv, mss), calls).e;
      && e.timing.updated
      && i < |Endpoints.Admitted(e).buf| && Endpoints.Admitted(e).buf[i].meta.xmit < 0xFFFF_FFFF
    ensures var e := Called(Links.Start(build, conv, mss), calls).e;
      && |Endpoints.Flush(e).out.buf| == |Endpoints.Admitted(e).buf|
      && var meta := Endpoints.Flush(e).out.buf[i].meta;
         meta.xmit >= 1 && (meta.xmit <= 16 ==> !Due(e.timing.current, meta.resendts))
  {
    EveryCallSteadfast(build, conv, mss, calls);
    EveryCallInRange(build, conv, mss, calls);
    hide Called, Endpoints.Flush, Endpoints.Admitted, InRange, Due, Steadfast, Tracked;
    FlushSchedules(Called(Links.Start(build, conv, mss), calls).e, i);
  }

  lemma SlackOfPaced(p: Pass, seg: Segment, mss: Mss)
    requires Paced(seg, mss) && Ordinary(p) && Processed(p, seg).meta.xmit <= 16
    requires seg.meta.xmit < 0xFFFF_FFFF && Judge(p, seg) != Idle
    ensures 0 < Slack(p, seg) <= 0x8000_0000
  {
    ProcessedPaced(p, seg, mss);
    NextXmit(seg.meta.xmit);
    DoubledGrows(RTO_MAX, Processed(p, seg).meta.xmit - 1, 15);
    LargestTimeout();
    assert Doubled(RTO_MAX, 16) == 2 * Doubled(RTO_MAX, 15);
    hide Wrap32, Due, BackedOff, Doubled;
  }

  // ---------------------------------------------------------------- what a flush hands over

  lemma SteadfastPayloads(e: Endpoint)
    requires Steadfast(e) && e.out.una <= e.out.nxt
    ensures Payloads(FlushPackets(e), e.mss)
  {
    AdmittedSteadfast(e.out, CongestionWindow(e.windows), StampOf(e), e.estimate.rto, e.mss);
    EmittedFrom(PassOf(e), Endpoints.Admitted(e).buf);
    var ps, data := FlushPackets(e), Emitted(PassOf(e), Endpoints.Admitted(e).buf);
    hide Admit, StampOf, FlushedProbe, PassOf, Emitted, Judge, Retimed, LastAck, Steadfast, Doubled;
    forall i | 0 <= i < |ps|
      ensures |ps[i].data| <= e.mss
    {
      if ps[i] in data {
        var seg :| seg in Endpoints.Admitted(e).buf && Emits(PassOf(e), seg, ps[i]);
        assert Paced(seg, e.mss);
      }
    }
  }

  /**
   Conservation in every run of calls: each datagram of a flush is non-empty and at most one MTU
   long, and handed over only when the next packet does not fit it; the datagrams carry exactly
   the packets of the flush, and the bytes it reports are theirs: 24 for each reported command
   plus the payloads of the data segments.
   */
  lemma EveryFlushConserves(build: Build, conv: u32, mss: Mss, calls: seq<Action>)
    requires Called(Links.Start(build, conv, mss), calls).e.timing.updated
    ensures var e := Called(Links.Start(build, conv, mss), calls).e;
      var r, data := FlushReport(e), Emitted(PassOf(e), Endpoints.Admitted(e).buf);
      && AllSendable(FlushDatagrams(e), mss) && Tight(FlushDatagrams(e), mss)
      && Concat(FlushDatagrams(e)) == FlushPackets(e)
      && r.totalBytes == TotalSize(FlushDatagrams(e))
      && r.totalBytes == HEADER_SIZE * (r.ackCount + r.waskCount + r.winsCount + r.pushCount) + PayloadTotal(data)
  {
    var e := Called(Links.Start(build, conv, mss), calls).e;
    EveryCallSteadfast(build, conv, mss, calls);
    EveryCallInRange(build, conv, mss, calls);
    hide Called, InRange, Steadfast, Tracked, FlushPackets, FlushReport, PassOf, Endpoints.Admitted, Emitted,
         PayloadTotal, TotalSize, Concat, AllSendable, Payloads, Tight;
    SteadfastPayloads(e);
    FlushConservation(e);
    PackingExact(e.mss, FlushPackets(e));
    PackingTight(e.mss, FlushPackets(e));
  }

  /**
   A window probe is answered: in every run of calls, the flush after a datagram with a WASK hands
   over a WINS that carries the window advertised then.
   */
  lemma ProbeIsAnswered(build: Build, conv: u32, mss: Mss, calls: seq<Action>, data: seq<u8>)
    requires var e := Called(Links.Start(build, conv, mss), calls).e;
      e.timing.updated && |data| >= HEADER_SIZE && HasProbe(Parse(e.build, e.conv, data).packets)
    ensures var e := Input(Called(Links.Start(build, conv, mss), calls).e, data).0;
      exists p :: p in Concat(FlushDatagrams(e)) && p.header.cmd == WINS && p.header.wnd == AdvertisedWindow(e)
  {
    var me := Called(Links.Start(build, conv, mss), calls);
    EveryCallSteadfast(build, conv, mss, calls);
    EveryCallInRange(build, conv, mss, calls);
    hide Called, InRange, Steadfast, FlushPackets, Concat, AdvertisedWindow, HasProbe, Tracked;
    InputNotesProbe(me.e, data);
    InputSteadfast(me.e, data);
    InputKeepsOrder(me.e, data);
    var e := Input(me.e, data).0;
    hide Input;
    SteadfastPayloads(e);
    PackingExact(e.mss, FlushPackets(e));
    AskedTellsWindow(e);
  }

  lemma InputNotesProbe(e: Endpoint, data: seq<u8>)
    requires |data| >= HEADER_SIZE && HasProbe(Parse(e.build, e.conv, data).packets)
    ensures Input(e, data).0.probe.askTell && Input(e, data).0.timing == e.timing
  {
    var ps := Parse(e.build, e.conv, data).packets;
    ProbeIsNoted(e, ps);
    HandledTiming(e, ps);
    hide Parse, HandleAll, FastAcks, AdjustParameters, BumpBefore, HasProbe;
  }

  lemma {:induction false} HandledTiming(e: Endpoint, ps: seq<Packet>)
    ensures HandleAll(e, ps).timing == e.timing
    decreases |ps|
  {
    if ps != [] {
      HandledOutbox(e, ps[0]);
      hide HandlePacket;
      HandledTiming(HandlePacket(e, ps[0]), ps[1..]);
    }
  }

  lemma InputKeepsOrder(e: Endpoint, data: seq<u8>)
    requires Tracked(e.out) && InRange(e) && e.out.una <= e.out.nxt
    ensures Input(e, data).0.out.una <= Input(e, data).0.out.nxt
  {
    hide Input, InRange, Tracked;
    WindowedAnyway(e);
    InputKeeps(e, data, 0xFFFF_FFFF);
    WindowedAnyway(Input(e, data).0);
  }

  lemma WindowedAnyway(e: Endpoint)
    ensures Tracked(e.out) && e.out.una <= e.out.nxt <==> Windowed(e, 0xFFFF_FFFF)
  {
    hide Sorted, FirstUnacked;
  }

  /** A flush that owes the window says it. */
  lemma AskedTellsWindow(e: Endpoint)
    requires e.probe.askTell
    ensures exists p :: p in FlushPackets(e) && p.header.cmd == WINS && p.header.wnd == AdvertisedWindow(e)
  {
    var w := Service(StampOf(e), WINS, LastAck(e.acks));
    assert FlushedProbe(e).askTell;
    assert w.header.cmd == WINS && w.header.wnd == AdvertisedWindow(e);
    hide StampOf, LastAck, FlushedProbe, Endpoints.Admitted, Emitted, AckPackets, PassOf, Service;
    assert w in ProbePackets(StampOf(e), FlushedProbe(e), LastAck(e.acks));
    assert w in FlushPackets(e);
  }
}
