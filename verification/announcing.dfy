/** What the headers of a flush say, and when a window is announced, in every run of calls. */
module Announcing {
  import opened Words
  import opened Segments
  import opened Codec
  import opened Receiving
  import opened Sending
  import opened Congestion
  import opened Probing
  import opened Packing
  import opened Fragmentation
  import opened Transmission
  import opened Endpoints
  import opened Links
  import opened Frames
  import opened Laws
  import opened Schedules
  import opened Histories

  // ---------------------------------------------------------------- the buffer holds data packets

  predicate AllPush(buf: seq<Segment>, conv: u32) {
    forall seg :: seg in buf ==> seg.header.cmd == PUSH && seg.header.conv == conv
  }

  lemma AdmittedPush(e: Endpoint)
    requires e.out.una <= e.out.nxt && AllPush(e.out.buf, e.conv)
    ensures AllPush(Endpoints.Admitted(e).buf, e.conv)
  {
    AdmitExact(e.out, CongestionWindow(e.windows), StampOf(e), e.estimate.rto);
    hide Admit, AdmitCount, CongestionWindow, AdvertisedWindow;
  }

  lemma ProcessedPush(p: Pass, buf: seq<Segment>, conv: u32)
    requires AllPush(buf, conv)
    ensures AllPush(ProcessedAll(p, buf), conv)
  {
    hide Judge, Retimed;
  }

  lemma FlushPush(e: Endpoint)
    requires e.out.una <= e.out.nxt && AllPush(e.out.buf, e.conv)
    ensures AllPush(Endpoints.Flush(e).out.buf, e.conv) && Endpoints.Flush(e).conv == e.conv
  {
    if e.timing.updated {
      AdmittedPush(e);
      ProcessedPush(PassOf(e), Endpoints.Admitted(e).buf, e.conv);
    }
    hide Endpoints.Admitted, PassOf, ProcessedAll, FlushedWindows, FlushedTuning, FlushedProbe, AllPush;
  }

  lemma InputPush(e: Endpoint, data: seq<u8>)
    requires AllPush(e.out.buf, e.conv)
    ensures AllPush(Input(e, data).0.out.buf, e.conv) && Input(e, data).0.conv == e.conv
  {
    InputDescends(e, data);
    InputHeeds(e, data);
    hide Input;
    forall seg | seg in Input(e, data).0.out.buf
      ensures seg.header.cmd == PUSH && seg.header.conv == e.conv
    {
      assert Ancestor(seg, e.out.buf);
    }
  }

  lemma StepPush(me: Peer, incoming: set<seq<u8>>, a: Action)
    requires me.e.out.una <= me.e.out.nxt && AllPush(me.e.out.buf, me.e.conv)
    ensures var e := PeerStep(me, incoming, a).e; AllPush(e.out.buf, e.conv) && e.conv == me.e.conv
  {
    hide AllPush;
    match a
    case Send(msg) => hide Fragments;
    case Recv(_) => hide Receiving.Recv;
    case Update(now) =>
      FlushPush(Ticked(me.e, Wrap32(now)));
      hide Endpoints.Flush, FlushDue, NextFlush, UpdateDatagrams;
    case Flush =>
      FlushPush(me.e);
      hide Endpoints.Flush, FlushDatagrams;
    case Check(_) => hide TimeDelta;
    case Deliver(d) =>
      InputPush(me.e, d);
      hide Input;
    case Configure(_) =>
  }

  /** In every run of calls the send buffer holds data packets of the conversation only. */
  lemma {:induction false} EveryCallPush(build: Build, conv: u32, mss: Mss, calls: seq<Action>)
    ensures var e := Called(Links.Start(build, conv, mss), calls).e; AllPush(e.out.buf, conv) && e.conv == conv
  {
    if calls != [] {
      var last := |calls| - 1;
      var before := Called(Links.Start(build, conv, mss), calls[..last]);
      EveryCallPush(build, conv, mss, calls[..last]);
      EveryCallInRange(build, conv, mss, calls[..last]);
      hide PeerStep, AllPush, InRange, Tracked;
      StepPush(before, if calls[last].Deliver? then {calls[last].datagram} else {}, calls[last]);
    }
  }

  // ---------------------------------------------------------------- the window that is left

  /** What is left of a receive window with `queued` segments unread, in the 16 bits of a header. */
  function Left(rcvWnd: u32, queued: nat): nat {
    if queued <= rcvWnd then (rcvWnd - queued) % 0x1_0000 else 0
  }

  lemma AdvertisesLeft(e: Endpoint)
    requires e.windows.rcvWnd < 0x8000_0000 && |e.inbox.queue| < 0x8000_0000
    ensures AdvertisedWindow(e) == Left(e.windows.rcvWnd, |e.inbox.queue|)
  {
    WrapSmall(|e.inbox.queue|);
    hide Wrap32;
  }

  // ---------------------------------------------------------------- every header of a flush

  /** An acknowledgement as it goes on the wire. */
  predicate IsAckOf(p: Packet, a: Acknowledgement) {
    p.header.cmd == ACK && p.header.sn == a.sn && p.header.ts == a.ts && p.header.frg == 0 && p.data == []
  }

  /** A probe as it goes on the wire: under the header of the last acknowledgement, if there is one. */
  predicate IsProbe(p: Packet, e: Endpoint, cmd: u8) {
    && p.header.cmd == cmd && p.header.frg == 0
    && (if e.acks == [] then p.header.sn == 0 && p.header.ts == 0
        else p.header.sn == e.acks[|e.acks| - 1].sn && p.header.ts == e.acks[|e.acks| - 1].ts)
  }

  /** The probes of a flush: WASK before WINS, each if due. */
  predicate AreProbes(ps: seq<Packet>, e: Endpoint) {
    var asks, tells := FlushedProbe(e).askSend, e.probe.askTell;
    && |ps| == (if asks then 1 else 0) + (if tells then 1 else 0)
    && (asks ==> IsProbe(ps[0], e, WASK))
    && (tells ==> IsProbe(ps[|ps| - 1], e, WINS))
  }

  predicate Says(ps: seq<Packet>, cmd: u8) {
    exists p :: p in ps && p.header.cmd == cmd
  }

  /** The packets of a flush: the acknowledgements owed, in order, then probes, then data. */
  ghost predicate Told(e: Endpoint, ps: seq<Packet>) {
    && (exists probes: seq<Packet>, data: seq<Packet> ::
          && |e.acks| + |probes| + |data| == |ps|
          && ps[|e.acks|..] == probes + data
          && AreProbes(probes, e)
          && forall p :: p in data ==> p.header.cmd == PUSH)
    && (forall i :: 0 <= i < |e.acks| ==> IsAckOf(ps[i], e.acks[i]))
    && (Says(ps, WINS) <==> e.probe.askTell)
    && (Says(ps, WASK) <==> FlushedProbe(e).askSend)
    && forall p :: p in ps ==>
         && p.header.conv == e.conv && p.header.una == e.inbox.nxt
         && (p.header.cmd == PUSH ==> p.header.ts == e.timing.current)
         && (p.header.cmd != PUSH ==> p.data == [] && p.header.len == 0)
  }

  /** What is emitted for data. */
  lemma DataTold(e: Endpoint)
    requires AllPush(Endpoints.Admitted(e).buf, e.conv)
    ensures forall p :: p in Emitted(PassOf(e), Endpoints.Admitted(e).buf) ==>
              && p.header.conv == e.conv && p.header.una == e.inbox.nxt && p.header.cmd == PUSH
              && p.header.ts == e.timing.current
  {
    var pass, buf := PassOf(e), Endpoints.Admitted(e).buf;
    EmittedFrom(pass, buf);
    hide Endpoints.Admitted, Emitted, Judge, Retimed, AdvertisedWindow;
    forall p | p in Emitted(pass, buf)
      ensures p.header.conv == e.conv && p.header.una == e.inbox.nxt && p.header.cmd == PUSH
              && p.header.ts == e.timing.current
    {
      var seg :| seg in buf && Emits(pass, seg, p);
    }
  }

  lemma ServiceTold(e: Endpoint)
    ensures var acks := AckPackets(StampOf(e), e.acks);
      var probes := ProbePackets(StampOf(e), FlushedProbe(e), LastAck(e.acks));
      && |acks| == |e.acks| && (forall i :: 0 <= i < |acks| ==> IsAckOf(acks[i], e.acks[i]))
      && (forall p :: p in acks ==> p.header.cmd == ACK)
      && (forall p :: p in probes ==> p.header.cmd == WASK || p.header.cmd == WINS) && AreProbes(probes, e)
      && (Says(probes, WINS) <==> e.probe.askTell) && (Says(probes, WASK) <==> FlushedProbe(e).askSend)
      && forall p :: p in acks + probes ==>
           p.header.conv == e.conv && p.header.una == e.inbox.nxt && p.data == [] && p.header.len == 0
  {
    UpdateKeepsTell(e.probe, e.timing.current, e.windows.rmtWnd);
    var s, last, probe := StampOf(e), LastAck(e.acks), FlushedProbe(e);
    var probes := ProbePackets(s, probe, last);
    hide AdvertisedWindow, Probing.Update;
    if probe.askSend {
      assert Service(s, WASK, last) in probes;
    }
    if probe.askTell {
      assert Service(s, WINS, last) in probes;
    }
  }

  lemma SaysJoin(a: seq<Packet>, b: seq<Packet>, cmd: u8)
    ensures Says(a + b, cmd) <==> Says(a, cmd) || Says(b, cmd)
  {
    assert forall p :: p in a + b <==> p in a || p in b;
    if p :| p in a && p.header.cmd == cmd {
      assert p in a + b;
    }
    if p :| p in b && p.header.cmd == cmd {
      assert p in a + b;
    }
  }

  lemma SaysNot(ps: seq<Packet>, cmd: u8)
    requires forall p :: p in ps ==> p.header.cmd != cmd
    ensures !Says(ps, cmd)
  {
  }

  lemma FlushTold(e: Endpoint)
    requires AllPush(Endpoints.Admitted(e).buf, e.conv)
    ensures Told(e, FlushPackets(e))
  {
    hide AckPackets, ProbePackets, Emitted, StampOf, FlushedProbe, LastAck, PassOf, Endpoints.Admitted, AllPush, Says,
         AreProbes;
    var acks := AckPackets(StampOf(e), e.acks);
    var probes := ProbePackets(StampOf(e), FlushedProbe(e), LastAck(e.acks));
    var data := Emitted(PassOf(e), Endpoints.Admitted(e).buf);
    ServiceTold(e);
    DataTold(e);
    SaysNot(acks, WINS);
    SaysNot(acks, WASK);
    SaysNot(data, WINS);
    SaysNot(data, WASK);
    SaysJoin(acks, probes, WINS);
    SaysJoin(acks, probes, WASK);
    SaysJoin(acks + probes, data, WINS);
    SaysJoin(acks + probes, data, WASK);
    assert FlushPackets(e) == (acks + probes) + data;
    hide FlushPackets;
    ToldJoined(e, acks, probes, data);
  }

  lemma ToldJoined(e: Endpoint, acks: seq<Packet>, probes: seq<Packet>, data: seq<Packet>)
    requires |acks| == |e.acks| && forall i :: 0 <= i < |acks| ==> IsAckOf(acks[i], e.acks[i])
    requires AreProbes(probes, e)
    requires forall p :: p in acks + probes ==>
               p.header.conv == e.conv && p.header.una == e.inbox.nxt && p.data == [] && p.header.len == 0
    requires forall p :: p in acks + probes ==> p.header.cmd != PUSH
    requires forall p :: p in data ==>
               && p.header.conv == e.conv && p.header.una == e.inbox.nxt && p.header.cmd == PUSH
               && p.header.ts == e.timing.current
    requires var ps := acks + probes + data;
      (Says(ps, WINS) <==> e.probe.askTell) && (Says(ps, WASK) <==> FlushedProbe(e).askSend)
    ensures Told(e, acks + probes + data)
  {
    var ps := acks + probes + data;
    hide Says, FlushedProbe, AreProbes;
    assert forall i :: 0 <= i < |acks| ==> ps[i] == acks[i];
    assert ps[|acks|..] == probes + data;
    forall p | p in ps
      ensures p in acks + probes || p in data
    {
    }
  }

  /**
   Every header of every flush, in every run of calls and whatever bytes arrive: it carries the
   conversation, rcv_nxt as its una, and as its window what is left of the receive window with the
   unread segments taken off, whether it is an acknowledgement, a probe or data. The
   acknowledgements owed come first and in order, with their numbers and times; then a WASK exactly
   when the prober asks, a WINS exactly when one is owed, and the data.
   */
  lemma EveryHeader(build: Build, conv: u32, mss: Mss, calls: seq<Action>)
    ensures var e := Called(Links.Start(build, conv, mss), calls).e;
      && Told(e, FlushPackets(e))
      && (e.timing.updated ==> Concat(FlushDatagrams(e)) == FlushPackets(e))
      && (e.windows.rcvWnd < 0x8000_0000 && |e.inbox.queue| < 0x8000_0000 ==>
            forall p :: p in FlushPackets(e) ==> p.header.wnd == Left(e.windows.rcvWnd, |e.inbox.queue|))
  {
    var e := Called(Links.Start(build, conv, mss), calls).e;
    EveryCallPush(build, conv, mss, calls);
    EveryCallInRange(build, conv, mss, calls);
    EveryCallSteadfast(build, conv, mss, calls);
    hide Called, AllPush, InRange, Tracked, Steadfast, FlushPackets, Told, Concat, Payloads, Left, AdvertisedWindow;
    HeadersOf(e);
  }

  lemma HeadersOf(e: Endpoint)
    requires AllPush(e.out.buf, e.conv) && e.out.una <= e.out.nxt && Steadfast(e)
    ensures Told(e, FlushPackets(e))
    ensures e.timing.updated ==> Concat(FlushDatagrams(e)) == FlushPackets(e)
    ensures e.windows.rcvWnd < 0x8000_0000 && |e.inbox.queue| < 0x8000_0000 ==>
              forall p :: p in FlushPackets(e) ==> p.header.wnd == Left(e.windows.rcvWnd, |e.inbox.queue|)
  {
    hide AllPush, Steadfast, FlushPackets, Told, Concat, Payloads, Left, AdvertisedWindow, AllSendable,
         Endpoints.Admitted;
    AdmittedPush(e);
    FlushTold(e);
    SteadfastPayloads(e);
    PackingExact(e.mss, FlushPackets(e));
    FlushSaysWindow(e);
    if e.windows.rcvWnd < 0x8000_0000 && |e.inbox.queue| < 0x8000_0000 {
      AdvertisesLeft(e);
    }
  }

  // ---------------------------------------------------------------- reading a full queue

  /** A read that finds the queue at the receive window or above, and leaves it below. */
  predicate Recovers(e: Endpoint, capacity: nat) {
    var (e', r) := Endpoints.Recv(e, capacity);
    r.Ok? && |e'.inbox.queue| < e.windows.rcvWnd <= |e.inbox.queue|
  }

  lemma RecvFlags(e: Endpoint, capacity: nat)
    ensures var e' := Endpoints.Recv(e, capacity).0;
      && e' == e.(inbox := e'.inbox, probe := e.probe.(askTell := e.probe.askTell || Recovers(e, capacity)))
  {
    hide TakeCount, PeekSize, Settle;
  }

  lemma RecvUpright(e: Endpoint, capacity: nat)
    requires AllPush(e.out.buf, e.conv) && e.out.una <= e.out.nxt && Steadfast(e)
    ensures var e' := Endpoints.Recv(e, capacity).0;
      AllPush(e'.out.buf, e'.conv) && e'.out.una <= e'.out.nxt && Steadfast(e')
  {
    RecvFlags(e, capacity);
    hide Endpoints.Recv, AllPush, AllPaced, Waiting, Recovers;
  }

  /**
   A reader that makes room says so: in every run of calls, the flush after a recv() hands over a
   WINS exactly when one was owed before, or that recv() found at least rcv_wnd segments queued and
   left fewer; and the WINS, like every header of that flush, carries the room there is then.
   */
  lemma RoomIsAnnounced(build: Build, conv: u32, mss: Mss, calls: seq<Action>, capacity: nat)
    requires Called(Links.Start(build, conv, mss), calls).e.timing.updated
    ensures var e := Called(Links.Start(build, conv, mss), calls).e;
      var e' := Endpoints.Recv(e, capacity).0;
      var ps := Concat(FlushDatagrams(e'));
      && (Says(ps, WINS) <==> e.probe.askTell || Recovers(e, capacity))
      && (e'.windows.rcvWnd < 0x8000_0000 && |e'.inbox.queue| < 0x8000_0000 ==>
            forall p :: p in ps ==> p.header.wnd == Left(e.windows.rcvWnd, |e'.inbox.queue|))
  {
    var e := Called(Links.Start(build, conv, mss), calls).e;
    EveryCallPush(build, conv, mss, calls);
    EveryCallInRange(build, conv, mss, calls);
    EveryCallSteadfast(build, conv, mss, calls);
    hide Called, AllPush, InRange, Tracked, Steadfast, FlushPackets, Concat, Payloads, Left, Says, FlushDatagrams,
         Endpoints.Recv, Recovers;
    RecvFlags(e, capacity);
    RecvUpright(e, capacity);
    HeadersOf(Endpoints.Recv(e, capacity).0);
  }
}
