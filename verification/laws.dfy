/** What every call keeps true of one endpoint, whatever bytes arrive, and exact laws of single calls. */
module Laws {
  import opened Words
  import opened Segments
  import opened Codec
  import opened Receiving
  import opened Sending
  import opened Congestion
  import opened Timeouts
  import opened Probing
  import opened Packing
  import opened Fragmentation
  import opened Transmission
  import opened Endpoints
  import opened Matching
  import opened Links
  import opened Timers

  // ---------------------------------------------------------------- invariants under arbitrary input

  /** A sorted buffer of numbers in [una, nxt) holds at most nxt - una segments. */
  lemma {:induction false} BufferFits(buf: seq<Segment>, lo: nat, hi: nat)
    requires Sorted(buf)
    requires lo <= hi && forall i :: 0 <= i < |buf| ==> lo <= buf[i].header.sn < hi
    ensures |buf| <= hi - lo
    decreases |buf|
  {
    if buf != [] {
      var last := |buf| - 1;
      BufferFits(buf[..last], lo, buf[last].header.sn);
    }
  }

  /** Bookkeeping and window: never more than `window` segments are in flight. */
  predicate Windowed(e: Endpoint, window: u32) {
    Tracked(e.out) && e.windows.sndWnd <= window && e.out.nxt - e.out.una <= window
  }

  /** Timers, timeout and windows stay in their ranges. */
  predicate InRange(e: Endpoint) {
    && (e.estimate.minrto == RTO_NDL || e.estimate.minrto == RTO_MIN)
    && RTO_NDL <= e.estimate.rto <= RTO_MAX
    && WaitInRange(e.probe)
    && IntervalOk(e.timing)
    && e.windows.rcvWnd >= WND_RCV
  }

  lemma HandledWindowed(e: Endpoint, p: Packet, window: u32)
    requires Windowed(e, window)
    ensures Windowed(HandlePacket(e, p), window) && HandlePacket(e, p).out.una >= e.out.una
  {
    HandledOutbox(e, p);
    assert HandlePacket(e, p).windows.sndWnd == e.windows.sndWnd;
    hide HandlePacket;
    var o := UnaReceived(e.out, p.header.una);
    UnaReceivedTracked(e.out, p.header.una);
    AckReceivedTracked(o, p.header.sn);
    assert o.nxt == e.out.nxt && AckReceived(o, p.header.sn).nxt == o.nxt;
    hide Tracked, UnaReceived, AckReceived;
  }

  lemma HandledInRange(e: Endpoint, p: Packet)
    requires InRange(e)
    ensures InRange(HandlePacket(e, p))
  {
    hide UnaReceived, AckReceived, Emplace, NextSmoothed, NextVariation, TimeDelta, Wrap32;
  }

  lemma {:induction false} HandledAll(e: Endpoint, ps: seq<Packet>, window: u32)
    requires Windowed(e, window) && InRange(e)
    ensures Windowed(HandleAll(e, ps), window) && InRange(HandleAll(e, ps))
    decreases |ps|
  {
    hide Windowed, InRange, HandlePacket;
    if ps != [] {
      HandledWindowed(e, ps[0], window);
      HandledInRange(e, ps[0]);
      HandledAll(HandlePacket(e, ps[0]), ps[1..], window);
    }
  }

  lemma AdjustKeepsConfig(w: Windows, mss: Mss)
    ensures var w' := AdjustParameters(w, mss);
      w'.rcvWnd == w.rcvWnd && w'.sndWnd == w.sndWnd && w'.rmtWnd == w.rmtWnd && w'.enabled == w.enabled
  {
    hide Grown, Bytes, Ceiling, Wrap32;
  }

  lemma Concluded(e: Endpoint, before: u32, fast: FastAck, window: u32)
    requires Windowed(e, window) && InRange(e)
    ensures Windowed(Conclude(e, before, fast), window) && InRange(Conclude(e, before, fast))
  {
    BumpAlike(e.out.buf, fast.maxack);
    AlikeTracked(e.out, AcknowledgeFast(e.out, fast).buf);
    AdjustKeepsConfig(e.windows, e.mss);
    hide AdjustParameters, BumpBefore, Tracked, AllAlike;
  }

  lemma InputKeeps(e: Endpoint, data: seq<u8>, window: u32)
    requires Windowed(e, window) && InRange(e)
    ensures Windowed(Input(e, data).0, window) && InRange(Input(e, data).0)
  {
    hide Windowed, InRange, Parse, HandleAll, Conclude, FastAcks;
    var parsed := Parse(e.build, e.conv, data);
    HandledAll(e, parsed.packets, window);
    Concluded(HandleAll(e, parsed.packets), e.out.una, FastAcks(NO_FAST_ACK, parsed.packets), window);
  }

  lemma FlushedWindowsConfig(e: Endpoint)
    ensures var w := FlushedWindows(e); w.rcvWnd == e.windows.rcvWnd && w.sndWnd == e.windows.sndWnd
  {
    hide CountOf, Admit, Bytes, Wrap32, PassOf;
  }

  /** Numbering fills the window at most up to cwnd. */
  lemma AdmitWindowed(o: Outbox, cwnd: u32, stamp: Stamp, rto: u32)
    requires Tracked(o)
    ensures var o' := Admit(o, cwnd, stamp, rto);
      Tracked(o') && o'.una == o.una && o.nxt <= o'.nxt && o'.nxt - o'.una <= Max(o.nxt - o.una, cwnd)
  {
    AdmitExact(o, cwnd, stamp, rto);
    var k := AdmitCount(o, cwnd);
    AdmitFirstTracked(o, k, stamp, rto);
    hide Admit, Tracked, HasSn;
  }

  lemma FlushWindowed(e: Endpoint, window: u32)
    requires Windowed(e, window)
    ensures Windowed(Endpoints.Flush(e), window)
  {
    hide Admit, Tracked, ProcessedAll, AllAlike, FlushedWindows, FlushedTuning, FlushedProbe, StampOf, HasSn, PassOf;
    if e.timing.updated {
      AdmitWindowed(e.out, CongestionWindow(e.windows), StampOf(e), e.estimate.rto);
      var o := Endpoints.Admitted(e);
      ProcessedAlike(PassOf(e), o.buf);
      AlikeTracked(o, ProcessedAll(PassOf(e), o.buf));
      FlushedWindowsConfig(e);
    }
  }

  lemma FlushInRange(e: Endpoint)
    requires InRange(e)
    ensures InRange(Endpoints.Flush(e))
  {
    FlushedWindowsConfig(e);
    WaitsStayInRange(e.probe, e.timing.current, e.windows.rmtWnd);
    hide FlushedWindows, FlushedTuning, Probing.Update, Admit, ProcessedAll;
  }

  lemma WaitsStayInRange(p: Probe, current: u32, rmtWnd: u32)
    requires WaitInRange(p)
    ensures WaitInRange(Probing.Update(p, current, rmtWnd))
  {
  }

  lemma TickedInRange(e: Endpoint, now: u32)
    requires InRange(e)
    ensures InRange(Ticked(e, now))
  {
    UpdateArmsTimer(e.timing, now);
    hide NextFlush, WaitInRange;
  }

  lemma UpdateKeeps(e: Endpoint, now: u32, window: u32)
    requires Windowed(e, window) && InRange(e)
    ensures Windowed(Endpoints.Update(e, now), window) && InRange(Endpoints.Update(e, now))
  {
    UpdateArmsTimer(e.timing, now);
    hide NextFlush, Tracked, WaitInRange;
    var ticked := Ticked(e, now);
    assert Windowed(ticked, window) && InRange(ticked);
    hide Windowed, InRange, Endpoints.Flush, Ticked;
    FlushWindowed(ticked, window);
    FlushInRange(ticked);
  }

  lemma ConfigureKeeps(e: Endpoint, s: Setting, window: u32)
    requires Windowed(e, window) && InRange(e) && (s.SendWindow? ==> s.value <= window)
    ensures Windowed(Endpoints.Configure(e, s), window) && InRange(Endpoints.Configure(e, s))
  {
    hide Tracked;
  }

  /** Calls on one endpoint, with any bytes as incoming datagrams. */
  function Called(me: Peer, calls: seq<Action>): Peer {
    if calls == [] then me
    else
      var last := calls[|calls| - 1];
      PeerStep(Called(me, calls[..|calls| - 1]), if last.Deliver? then {last.datagram} else {}, last)
  }

  predicate SendWindowWithin(a: Action, window: u32) {
    a.Configure? && a.setting.SendWindow? ==> a.setting.value <= window
  }

  lemma StepKeeps(me: Peer, incoming: set<seq<u8>>, a: Action, window: u32)
    requires Windowed(me.e, window) && InRange(me.e) && SendWindowWithin(a, window)
    ensures Windowed(PeerStep(me, incoming, a).e, window) && InRange(PeerStep(me, incoming, a).e)
  {
    match a
    case Send(msg) => hide Fragments;
    case Recv(capacity) => hide Receiving.Recv, Tracked;
    case Update(now) =>
      hide Windowed, InRange, Endpoints.Update, UpdateDatagrams, Wrap32;
      UpdateKeeps(me.e, Wrap32(now), window);
    case Flush =>
      hide Windowed, InRange, Endpoints.Flush, FlushDatagrams;
      FlushWindowed(me.e, window);
      FlushInRange(me.e);
    case Check(now) => hide TimeDelta, Tracked;
    case Deliver(d) =>
      hide Windowed, InRange, Input;
      InputKeeps(me.e, d, window);
    case Configure(s) =>
      hide Windowed, InRange, Endpoints.Configure;
      ConfigureKeeps(me.e, s, window);
  }

  /**
   Window admission and ranges: whatever calls are made and whatever bytes arrive, the send
   buffer stays tracked, at most the largest send window ever set is in flight, and the timeout
   stays in [30 ms, 60 s], the probe wait at 0 or in [7 s, 120 s], the interval in [10, 5000].
   */
  lemma {:induction false} EveryCallKeeps(build: Build, conv: u32, mss: Mss, calls: seq<Action>, window: u32)
    requires window >= WND_SND && forall i :: 0 <= i < |calls| ==> SendWindowWithin(calls[i], window)
    ensures var e := Called(Links.Start(build, conv, mss), calls).e;
      && Windowed(e, window) && InRange(e)
      && |e.out.buf| <= e.out.nxt - e.out.una <= window
  {
    var e := Called(Links.Start(build, conv, mss), calls).e;
    if calls != [] {
      var last := |calls| - 1;
      EveryCallKeeps(build, conv, mss, calls[..last], window);
      hide PeerStep, InRange;
      var before := Called(Links.Start(build, conv, mss), calls[..last]);
      StepKeeps(before, if calls[last].Deliver? then {calls[last].datagram} else {}, calls[last], window);
    }
    BufferFits(e.out.buf, e.out.una, e.out.nxt);
  }

  // ---------------------------------------------------------------- one flush

  /**
   A segment sent for the first time within these ranges is scheduled strictly ahead, by at most
   67.5 s.
   */
  lemma FirstSendScheduled(e: Endpoint, seg: Segment)
    requires InRange(e) && seg.meta.xmit == 0
    ensures var p := PassOf(e);
      && !Due(p.stamp.ts, Processed(p, seg).meta.resendts)
      && RTO_NDL <= Slack(p, seg) <= 67500
  {
    hide StampOf, Processed, TimeDelta, Wrap32;
    ScheduledAhead(PassOf(e), seg);
  }

  /**
   Retransmission schedule: after a flush every buffered segment has been sent, and is due again
   at the same clock reading exactly when this flush sent it with a slack of 0 or above 2^31.
   */
  lemma FlushSchedulesExactly(e: Endpoint)
    requires InRange(e) && e.timing.updated
    ensures var p, buf, after := PassOf(e), Endpoints.Admitted(e).buf, Endpoints.Flush(e).out.buf;
      && |after| == |buf|
      && forall i :: 0 <= i < |buf| ==>
           && (buf[i].meta.xmit < 0xFFFF_FFFF ==> after[i].meta.xmit >= 1)
           && (Due(e.timing.current, after[i].meta.resendts)
               <==> Judge(p, buf[i]) != Idle && (Slack(p, buf[i]) == 0 || Slack(p, buf[i]) > 0x8000_0000))
  {
    var p, buf, after := PassOf(e), Endpoints.Admitted(e).buf, Endpoints.Flush(e).out.buf;
    assert after == ProcessedAll(p, buf);
    assert p.stamp.ts == e.timing.current && p.rto + p.rtomin <= 67500;
    hide Endpoints.Flush, Endpoints.Admitted, PassOf, Judge, Processed, TimeDelta, Wrap32, BackedOff;
    forall i | 0 <= i < |buf|
      ensures buf[i].meta.xmit < 0xFFFF_FFFF ==> after[i].meta.xmit >= 1
      ensures Due(e.timing.current, after[i].meta.resendts)
         <==> Judge(p, buf[i]) != Idle && (Slack(p, buf[i]) == 0 || Slack(p, buf[i]) > 0x8000_0000)
    {
      assert after[i] == Processed(p, buf[i]);
      ScheduledAhead(p, buf[i]);
    }
  }

  function PayloadTotal(ps: seq<Packet>): nat {
    if ps == [] then 0 else |ps[0].data| + PayloadTotal(ps[1..])
  }

  lemma {:induction false} SizeCounts(ps: seq<Packet>)
    ensures Size(ps) == HEADER_SIZE * |ps| + PayloadTotal(ps)
  {
    if ps != [] {
      SizeCounts(ps[1..]);
    }
  }

  lemma {:induction false} PayloadConcat(a: seq<Packet>, b: seq<Packet>)
    ensures PayloadTotal(a + b) == PayloadTotal(a) + PayloadTotal(b)
  {
    if a == [] {
      assert a + b == b;
    } else {
      PayloadConcat(a[1..], b);
      assert (a + b)[1..] == a[1..] + b;
    }
  }

  lemma {:induction false} NoPayload(ps: seq<Packet>)
    requires forall i :: 0 <= i < |ps| ==> ps[i].data == []
    ensures PayloadTotal(ps) == 0
  {
    if ps != [] {
      NoPayload(ps[1..]);
    }
  }

  /**
   Conservation: the bytes a flush reports are the bytes of its datagrams, which are 24 for each
   reported command plus the payloads of the data segments; and every push is a first send, a
   timeout or a fast resend.
   */
  lemma FlushConservation(e: Endpoint)
    requires e.timing.updated && Payloads(FlushPackets(e), e.mss)
    ensures var r := FlushReport(e);
      var data := Emitted(PassOf(e), Endpoints.Admitted(e).buf);
      && AllSendable(FlushDatagrams(e), e.mss)
      && r.totalBytes == TotalSize(FlushDatagrams(e))
      && r.totalBytes == HEADER_SIZE * (r.ackCount + r.waskCount + r.winsCount + r.pushCount) + PayloadTotal(data)
      && r.pushCount == CountOf(PassOf(e), Endpoints.Admitted(e).buf, First) + r.timeoutCount + r.fastCount
  {
    var ps := FlushPackets(e);
    var acks, probes := AckPackets(StampOf(e), e.acks), ProbePackets(StampOf(e), FlushedProbe(e), LastAck(e.acks));
    var data := Emitted(PassOf(e), Endpoints.Admitted(e).buf);
    NoPayload(acks);
    NoPayload(probes);
    hide Admit, StampOf, FlushedProbe, Emitted, PassOf, CountOf, LastAck;
    PackingExact(e.mss, ps);
    SizeCounts(ps);
    assert ps == acks + (probes + data);
    PayloadConcat(acks, probes + data);
    PayloadConcat(probes, data);
    EmittedCount(PassOf(e), Endpoints.Admitted(e).buf);
  }

  /**
   The window that goes on the wire is the true one exactly while it fits 16 bits: an empty
   queue with a receive window of 65536 advertises 0.
   */
  lemma AdvertisedExactly(e: Endpoint)
    ensures AdvertisedWindow(e) == UnusedWindow(e) <==> UnusedWindow(e) <= 0xFFFF
    ensures e.windows.rcvWnd == 0x1_0000 && e.inbox.queue == [] ==> AdvertisedWindow(e) == 0
  {
  }

  /** Every packet of a flush carries the window advertised with it. */
  lemma FlushSaysWindow(e: Endpoint)
    ensures forall p :: p in FlushPackets(e) ==> p.header.wnd == AdvertisedWindow(e)
  {
    var pass, buf := PassOf(e), Endpoints.Admitted(e).buf;
    EmittedFrom(pass, buf);
    hide AdvertisedWindow, Endpoints.Admitted, Emitted, FlushedProbe, LastAck, Judge, Retimed;
    forall p | p in FlushPackets(e)
      ensures p.header.wnd == AdvertisedWindow(e)
    {
      if p in Emitted(pass, buf) {
        var seg :| seg in buf && Emits(pass, seg, p);
      }
    }
  }

  // ---------------------------------------------------------------- defaults and settings

  /** The endpoint as constructed, and the numbers of the wire format. */
  lemma Defaults(build: Build, conv: u32, mss: Mss)
    ensures var e := New(build, conv, mss);
      && e.windows == Windows(true, 128, 32, 32, 2, 0, 0)
      && e.inbox == Inbox([], [], 128, 0) && e.out == Outbox(0, 0, [], []) && e.acks == []
      && e.estimate == Estimate(0, 0, 0, 200, 0, 100) && e.probe == Probe(false, false, 0, 0)
      && e.timing == Timing(100, false, 0, 100) && e.tuning == Tuning(0, 0, 5, 20, 0, false)
    ensures PUSH == 81 && ACK == 82 && WASK == 83 && WINS == 84 && HEADER_SIZE == 24
    ensures RTO_MAX == 60000 && MAX_FRAGMENTS == 255
  {
  }

  /** What a setting means for the parts of the endpoint it reaches. */
  predicate Takes(s: Setting, e': Endpoint) {
    match s
    case Interval(v) =>
      && e'.timing.interval == e'.estimate.interval
      && 10 <= e'.timing.interval <= 5000
      && (10 <= v <= 5000 ==> e'.timing.interval == v)
      && (v < 10 ==> e'.timing.interval == 10) && (v > 5000 ==> e'.timing.interval == 5000)
    case NoDelay(v) => e'.tuning.nodelay == v && e'.estimate.minrto == (if v > 0 then 30 else 100)
    case FastResend(v) => e'.tuning.fastresend == v
    case FastLimit(v) => e'.tuning.fastlimit == v
    case SendWindow(v) => e'.windows.sndWnd == v && e'.windows.rmtWnd == v
    case ReceiveWindow(v) => e'.inbox.limit == v && e'.windows.rcvWnd == (if v < 128 then 128 else v)
    case CongestionWindowEnabled(on) => e'.windows.enabled == on
    case DeadLink(v) => e'.tuning.deadLink == v
  }

  predicate SameKind(s: Setting, t: Setting) {
    || (s.Interval? && t.Interval?) || (s.NoDelay? && t.NoDelay?) || (s.FastResend? && t.FastResend?)
    || (s.FastLimit? && t.FastLimit?) || (s.SendWindow? && t.SendWindow?) || (s.ReceiveWindow? && t.ReceiveWindow?)
    || (s.CongestionWindowEnabled? && t.CongestionWindowEnabled?) || (s.DeadLink? && t.DeadLink?)
  }

  lemma SettingTakes(e: Endpoint, s: Setting)
    ensures Takes(s, Endpoints.Configure(e, s))
  {
  }

  lemma SettingLeaves(e: Endpoint, s: Setting, t: Setting)
    requires Takes(t, e) && !SameKind(s, t)
    ensures Takes(t, Endpoints.Configure(e, s))
  {
    match s
    case Interval(_) =>
    case NoDelay(_) =>
    case FastResend(_) =>
    case FastLimit(_) =>
    case SendWindow(_) =>
    case ReceiveWindow(_) =>
    case CongestionWindowEnabled(_) =>
    case DeadLink(_) =>
  }

  /** Each setting takes, settings of different kinds leave each other, and the last of one kind counts. */
  lemma SettingsAreIndependent(e: Endpoint, s: Setting, t: Setting)
    ensures Takes(s, Endpoints.Configure(e, s))
    ensures Takes(t, e) && !SameKind(s, t) ==> Takes(t, Endpoints.Configure(e, s))
    ensures SameKind(s, t) ==> Endpoints.Configure(Endpoints.Configure(e, t), s) == Endpoints.Configure(e, s)
  {
    SettingTakes(e, s);
    if SameKind(s, t) {
      hide Takes;
    } else {
      hide Takes, Endpoints.Configure, SameKind;
      if Takes(t, e) {
        SettingLeaves(e, s, t);
      }
    }
  }

  /** After a flush nothing remains to be acknowledged or probed for, and cwnd admits a segment. */
  lemma FlushClears(e: Endpoint)
    requires e.timing.updated
    ensures var f := Endpoints.Flush(e);
      f.acks == [] && !f.probe.askSend && !f.probe.askTell && f.windows.cwnd >= 1
  {
    hide Admit, ProcessedAll, FlushedTuning, FlushedProbe, CountOf, Wrap32, Bytes;
  }

  /**
   Window admission: a flush numbers exactly min(|snd_queue|, max(0, snd_una + cwnd - snd_nxt))
   fragments, from the front of the queue, with cwnd the least of the send window, the remote
   window and, when it is enabled, the congestion window.
   */
  lemma FlushNumbersExactly(e: Endpoint)
    requires e.out.una <= e.out.nxt && e.timing.updated
    ensures var o, cwnd := Endpoints.Flush(e).out, CongestionWindow(e.windows);
      var k := AdmitCount(e.out, cwnd);
      && cwnd <= e.windows.sndWnd && cwnd <= e.windows.rmtWnd
      && (e.windows.enabled ==> cwnd <= e.windows.cwnd)
      && (cwnd == e.windows.sndWnd || cwnd == e.windows.rmtWnd || (e.windows.enabled && cwnd == e.windows.cwnd))
      && o.nxt == e.out.nxt + k && o.una == e.out.una
      && o.queue == e.out.queue[k..]
      && |o.buf| == |e.out.buf| + k
  {
    AdmitExact(e.out, CongestionWindow(e.windows), StampOf(e), e.estimate.rto);
    hide Admit, AdmitCount, FlushedWindows, FlushedTuning, FlushedProbe, StampOf, PassOf, Processed, Numbered;
  }

  // ---------------------------------------------------------------- one datagram

  /** Some packet acknowledges number `x`, by its una or as an ACK. */
  predicate Acknowledges(ps: seq<Packet>, x: u32) {
    exists i :: 0 <= i < |ps| && AcknowledgesOne(ps[i], x)
  }

  predicate AcknowledgesOne(p: Packet, x: u32) {
    x < p.header.una || (p.header.cmd == ACK && p.header.sn == x)
  }

  lemma AcknowledgesCons(ps: seq<Packet>, x: u32)
    requires ps != []
    ensures Acknowledges(ps, x) <==> AcknowledgesOne(ps[0], x) || Acknowledges(ps[1..], x)
  {
    if i :| 0 <= i < |ps| && AcknowledgesOne(ps[i], x) {
      assert i > 0 ==> ps[1..][i - 1] == ps[i];
    }
    if i :| 0 <= i < |ps[1..]| && AcknowledgesOne(ps[1..][i], x) {
      assert ps[i + 1] == ps[1..][i];
    }
  }

  lemma AcknowledgedByOne(e: Endpoint, p: Packet, x: u32)
    requires Tracked(e.out)
    ensures Tracked(HandlePacket(e, p).out)
    ensures HasSn(HandlePacket(e, p).out.buf, x) <==> HasSn(e.out.buf, x) && !AcknowledgesOne(p, x)
  {
    HandledOutbox(e, p);
    hide HandlePacket;
    var o := UnaReceived(e.out, p.header.una);
    UnaReceivedTracked(e.out, p.header.una);
    EraseBeforeEffect(e.out.buf, p.header.una);
    AckReceivedTracked(o, p.header.sn);
    EraseEffect(o.buf, p.header.sn);
    assert HasSn(o.buf, p.header.sn) ==> InFlight(o, p.header.sn);
    hide EraseSn, EraseBefore, Sorted;
  }

  /**
   What a datagram acknowledges: a segment leaves the send buffer exactly when some packet of the
   datagram names it in an ACK or passes it with its una, in whatever order the packets come.
   */
  lemma {:induction false} AcknowledgedExactly(e: Endpoint, ps: seq<Packet>, x: u32)
    requires Tracked(e.out)
    ensures Tracked(HandleAll(e, ps).out)
    ensures HasSn(HandleAll(e, ps).out.buf, x) <==> HasSn(e.out.buf, x) && !Acknowledges(ps, x)
    decreases |ps|
  {
    hide Tracked, HandlePacket, HasSn, AcknowledgesOne;
    if ps != [] {
      AcknowledgedByOne(e, ps[0], x);
      AcknowledgesCons(ps, x);
      AcknowledgedExactly(HandlePacket(e, ps[0]), ps[1..], x);
    }
  }

  /** The remote window in force after a datagram is the one its last packet carries. */
  lemma {:induction false} LastWindowCounts(e: Endpoint, ps: seq<Packet>)
    ensures HandleAll(e, ps).windows.rmtWnd
         == if ps == [] then e.windows.rmtWnd else ps[|ps| - 1].header.wnd
    decreases |ps|
  {
    if ps != [] {
      LastWindowCounts(HandlePacket(e, ps[0]), ps[1..]);
      hide UnaReceived, AckReceived, Emplace, HandleAll;
    }
  }

  predicate HasProbe(ps: seq<Packet>) {
    exists i :: 0 <= i < |ps| && ps[i].header.cmd == WASK
  }

  lemma {:induction false} ProbeIsNoted(e: Endpoint, ps: seq<Packet>)
    ensures HandleAll(e, ps).probe.askTell <==> e.probe.askTell || HasProbe(ps)
    decreases |ps|
  {
    if ps != [] {
      ProbeIsNoted(HandlePacket(e, ps[0]), ps[1..]);
      assert HasProbe(ps[1..]) ==> HasProbe(ps) by {
        if i :| 0 <= i < |ps[1..]| && ps[1..][i].header.cmd == WASK {
          assert ps[i + 1] == ps[1..][i];
        }
      }
      assert HasProbe(ps) ==> ps[0].header.cmd == WASK || HasProbe(ps[1..]) by {
        if i :| 0 <= i < |ps| && ps[i].header.cmd == WASK {
          assert i > 0 ==> ps[1..][i - 1] == ps[i];
        }
      }
      hide UnaReceived, AckReceived, Emplace, HandleAll, HasProbe;
    }
  }
}
