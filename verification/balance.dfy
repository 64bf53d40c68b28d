/** The congestion window of an endpoint over every sequence of calls, whatever bytes arrive. */
module Balance {
  import opened Words
  import opened Segments
  import opened Codec
  import opened Receiving
  import opened Sending
  import opened Congestion
  import opened Fragmentation
  import opened Transmission
  import opened Endpoints
  import opened Links
  import opened Laws

  /** Bounds on what an application sets, and a cap they imply for the congestion window. */
  datatype Bounds = Bounds(window: u32, fastresend: u32, cap: nat)

  /** The cap covers any window a peer can advertise, and its bytes fit a u32. */
  predicate Fitting(b: Bounds, mss: Mss) {
    && b.cap >= 0xFFFF && b.cap >= b.window >= WND_SND
    && Max(b.window / 2, THRESH_MIN) + b.fastresend <= b.cap
    && Bytes(b.cap + 2, mss) < 0x1_0000_0000
  }

  predicate Steady(e: Endpoint, b: Bounds) {
    && Balanced(e.windows, e.mss) && e.windows.cwnd <= b.cap && e.windows.rmtWnd <= b.cap
    && e.tuning.fastresend <= b.fastresend
  }

  predicate SettingWithin(a: Action, b: Bounds) {
    && SendWindowWithin(a, b.window)
    && (a.Configure? && a.setting.FastResend? ==> a.setting.value <= b.fastresend)
  }

  lemma {:induction false} HandledSteady(e: Endpoint, ps: seq<Packet>, b: Bounds)
    requires Steady(e, b) && b.cap >= 0xFFFF
    ensures Steady(HandleAll(e, ps), b) && HandleAll(e, ps).mss == e.mss
    decreases |ps|
  {
    if ps != [] {
      HandledSteady(HandlePacket(e, ps[0]), ps[1..], b);
      hide UnaReceived, AckReceived, Emplace, HandleAll, Bytes;
    }
  }

  lemma InputSteady(e: Endpoint, data: seq<u8>, b: Bounds)
    requires Steady(e, b) && Fitting(b, e.mss)
    ensures Steady(Input(e, data).0, b) && Input(e, data).0.mss == e.mss
  {
    var ps := Parse(e.build, e.conv, data).packets;
    HandledSteady(e, ps, b);
    var e' := HandleAll(e, ps);
    BytesMonotone(e'.windows.cwnd + 2, b.cap + 2, e.mss);
    RoomFits(e'.windows, e.mss);
    AdjustBalancedExactly(e'.windows, e.mss);
    hide Parse, HandleAll, FastAcks, AdjustParameters, Balanced, Bytes, BumpBefore;
  }

  /** Nothing is fast-resent with fastresend 0: no fastack exceeds the threshold that stands for it. */
  lemma {:induction false} FastNeedsThreshold(p: Pass, buf: seq<Segment>)
    requires CountOf(p, buf, Fast) > 0
    ensures p.resent < 0xFFFF_FFFF
  {
    if Judge(p, buf[|buf| - 1]) != Fast {
      FastNeedsThreshold(p, buf[..|buf| - 1]);
    }
  }

  lemma FlushSteady(e: Endpoint, b: Bounds)
    requires Windowed(e, b.window) && Steady(e, b) && Fitting(b, e.mss)
    ensures Steady(Endpoints.Flush(e), b) && Endpoints.Flush(e).mss == e.mss
  {
    if e.timing.updated {
      AdmitWindowed(e.out, CongestionWindow(e.windows), StampOf(e), e.estimate.rto);
      hide Admit, Tracked, StampOf, FlushedProbe, ProcessedAll, CountOf, ReachesDeadLink, Balanced, Fitting;
      var o := Endpoints.Admitted(e);
      assert 0 <= o.nxt - o.una <= b.window;
      ReactedSteady(e.windows, e.mss, PassOf(e), o, b);
    }
  }

  lemma ReactedSteady(w: Windows, mss: Mss, p: Pass, o: Outbox, b: Bounds)
    requires Fitting(b, mss) && Balanced(w, mss) && w.cwnd <= b.cap && w.rmtWnd <= b.cap
    requires 0 <= o.nxt - o.una <= b.window && (p.resent <= b.fastresend || p.resent == 0xFFFF_FFFF)
    ensures var w' := EnsureOnePacket(Reacted(w, mss, p, o), mss);
      Balanced(w', mss) && w'.cwnd <= b.cap && w'.rmtWnd <= b.cap
  {
    WrapSmall(o.nxt - o.una);
    if CountOf(p, o.buf, Fast) > 0 {
      FastNeedsThreshold(p, o.buf);
      RestartSteady(w, mss, o.nxt - o.una, p.resent, b);
    }
    BytesSteps(1, mss);
    hide Bytes, PacketsResent, CountOf, Wrap32;
  }

  lemma RestartSteady(w: Windows, mss: Mss, inFlight: u32, resent: u32, b: Bounds)
    requires Fitting(b, mss) && inFlight <= b.window && resent <= b.fastresend
    ensures var w' := PacketsResent(w, mss, inFlight, resent);
      Balanced(w', mss) && w'.cwnd <= b.cap && w'.rmtWnd == w.rmtWnd
  {
    BytesMonotone(Max(inFlight / 2, THRESH_MIN) + resent + 1, b.cap + 2, mss);
    RestartBalanced(w, mss, inFlight, resent);
    hide Bytes, PacketsResent, Balanced;
  }

  lemma StepSteady(me: Peer, incoming: set<seq<u8>>, a: Action, b: Bounds)
    requires Windowed(me.e, b.window) && InRange(me.e) && Steady(me.e, b) && Fitting(b, me.e.mss)
    requires SettingWithin(a, b)
    ensures Steady(PeerStep(me, incoming, a).e, b) && PeerStep(me, incoming, a).e.mss == me.e.mss
  {
    hide Balanced, Fitting, Tracked, InRange;
    match a
    case Send(msg) => hide Fragments;
    case Recv(capacity) => hide Receiving.Recv;
    case Update(now) =>
      var ticked := Ticked(me.e, Wrap32(now));
      assert Windowed(ticked, b.window) && Steady(ticked, b);
      FlushSteady(ticked, b);
      hide Endpoints.Flush, FlushDue, UpdateDatagrams, NextFlush, Steady, Windowed;
    case Flush =>
      FlushSteady(me.e, b);
      hide Endpoints.Flush, FlushDatagrams, Steady;
    case Check(now) => hide TimeDelta;
    case Deliver(d) =>
      InputSteady(me.e, d, b);
      hide Input, Steady;
    case Configure(s) => ConfigureSteady(me.e, s, b);
  }

  lemma ConfigureSteady(e: Endpoint, s: Setting, b: Bounds)
    requires Steady(e, b) && Fitting(b, e.mss) && SettingWithin(Action.Configure(s), b)
    ensures Steady(Endpoints.Configure(e, s), b) && Endpoints.Configure(e, s).mss == e.mss
  {
    hide Bytes;
  }

  /**
   The cap: within the bounds of its settings the windows of an endpoint stay balanced, and cwnd
   below the cap, whatever calls are made and whatever bytes arrive.
   */
  lemma {:induction false} EveryCallCapped(build: Build, conv: u32, mss: Mss, calls: seq<Action>, b: Bounds)
    requires Fitting(b, mss) && forall i :: 0 <= i < |calls| ==> SettingWithin(calls[i], b)
    ensures var e := Called(Links.Start(build, conv, mss), calls).e;
      Balanced(e.windows, mss) && e.windows.cwnd <= b.cap && e.mss == mss && Steady(e, b)
  {
    if calls != [] {
      var last := |calls| - 1;
      EveryCallCapped(build, conv, mss, calls[..last], b);
      EveryCallKeeps(build, conv, mss, calls[..last], b.window);
      hide PeerStep, InRange, Windowed, Fitting, Balanced;
      var before := Called(Links.Start(build, conv, mss), calls[..last]);
      StepSteady(before, if calls[last].Deliver? then {calls[last].datagram} else {}, calls[last], b);
    }
  }

  // ---------------------------------------------------------------- exactly which calls unbalance

  /** A flush that also finds a timeout, or fast-resends nothing, or restarts at a window that fits. */
  predicate FlushFits(e: Endpoint) {
    var p, o := PassOf(e), Endpoints.Admitted(e);
    || CountOf(p, o.buf, TimedOut) > 0
    || CountOf(p, o.buf, Fast) == 0
    || Bytes(RestartWindow(Wrap32(o.nxt - o.una), p.resent), e.mss) < 0x1_0000_0000
  }

  /** A flush of a balanced endpoint leaves it balanced exactly when it fits. */
  lemma FlushBalancedExactly(e: Endpoint)
    requires Balanced(e.windows, e.mss) && e.timing.updated
    ensures Balanced(Endpoints.Flush(e).windows, e.mss) <==> FlushFits(e)
  {
    var p, o := PassOf(e), Endpoints.Admitted(e);
    RestartBalancedExactly(e.windows, e.mss, Wrap32(o.nxt - o.una), p.resent);
    BytesSteps(1, e.mss);
    assert Endpoints.Flush(e).windows == EnsureOnePacket(Reacted(e.windows, e.mss, p, o), e.mss);
    hide Endpoints.Flush, Endpoints.Admitted, PassOf, CountOf, Bytes, Wrap32;
  }

  /** An input() that fails, or acknowledges nothing new, or finds a window whose raise fits. */
  predicate InputFits(e: Endpoint, data: seq<u8>) {
    || |data| < HEADER_SIZE
    || var parsed := Parse(e.build, e.conv, data);
       || parsed.outcome.Failed?
       || HandleAll(e, parsed.packets).out.una <= e.out.una
       || AdjustFits(HandleAll(e, parsed.packets).windows, e.mss)
  }

  /** Packets touch the remote window only, and leave a number of 16 bits in it. */
  lemma {:induction false} HandledWindows(e: Endpoint, ps: seq<Packet>)
    ensures var h := HandleAll(e, ps);
      && h.mss == e.mss && h.windows == e.windows.(rmtWnd := h.windows.rmtWnd)
      && (if ps == [] then h == e else h.windows.rmtWnd <= 0xFFFF)
    decreases |ps|
  {
    if ps != [] {
      HandledWindow(e, ps[0]);
      hide HandlePacket;
      HandledWindows(HandlePacket(e, ps[0]), ps[1..]);
    }
  }

  lemma HandledWindow(e: Endpoint, p: Packet)
    ensures HandlePacket(e, p).windows == e.windows.(rmtWnd := p.header.wnd) && HandlePacket(e, p).mss == e.mss
  {
    hide UnaReceived, AckReceived, Emplace, Timeouts.Update;
  }

  /** input(), on arbitrary bytes, leaves a balanced endpoint balanced exactly when it fits. */
  lemma InputBalancedExactly(e: Endpoint, data: seq<u8>)
    requires Balanced(e.windows, e.mss)
    ensures Input(e, data).0.mss == e.mss
    ensures Balanced(Input(e, data).0.windows, e.mss) <==> InputFits(e, data)
  {
    var ps := Parse(e.build, e.conv, data).packets;
    HandledWindows(e, ps);
    var h := HandleAll(e, ps);
    assert Balanced(h.windows, e.mss);
    AdjustBalancedExactly(h.windows, e.mss);
    hide Parse, HandleAll, FastAcks, AdjustParameters, AdjustFits, Balanced, BumpBefore, TallyAll;
  }

  /**
   With segments of at most 65535 bytes every input() fits: the window last heard has 16 bits, so
   no raise past it overflows.
   */
  lemma InputKeepsBalance(e: Endpoint, data: seq<u8>)
    requires Balanced(e.windows, e.mss) && e.mss <= 0xFFFF
    ensures InputFits(e, data)
  {
    var ps := Parse(e.build, e.conv, data).packets;
    HandledWindows(e, ps);
    var w := HandleAll(e, ps).windows;
    if ps != [] && w.cwnd < w.rmtWnd {
      ProductOrder(w.cwnd + 2, 0x1_0000, e.mss);
      RoomFits(w, e.mss);
    }
    hide Parse, HandleAll, NextIncr, Wrap32;
  }

  /** A call that leaves a balanced endpoint balanced. */
  predicate CallFits(e: Endpoint, a: Action) {
    match a
    case Flush => !e.timing.updated || FlushFits(e)
    case Update(now) => !FlushDue(e.timing, Wrap32(now)) || FlushFits(Ticked(e, Wrap32(now)))
    case Deliver(d) => InputFits(e, d)
    case _ => true
  }

  lemma StepBalancedExactly(me: Peer, a: Action)
    requires Balanced(me.e.windows, me.e.mss)
    ensures var me' := PeerStep(me, if a.Deliver? then {a.datagram} else {}, a);
      me'.e.mss == me.e.mss && (Balanced(me'.e.windows, me.e.mss) <==> CallFits(me.e, a))
  {
    hide FlushFits, InputFits;
    match a
    case Send(msg) => hide Fragments;
    case Recv(capacity) => hide Receiving.Recv;
    case Update(now) =>
      var ticked := Ticked(me.e, Wrap32(now));
      assert ticked.timing.updated && ticked.windows == me.e.windows;
      FlushBalancedExactly(ticked);
      FlushKeepsSize(ticked);
      hide Endpoints.Flush, FlushDue, UpdateDatagrams, NextFlush, Balanced;
    case Flush =>
      if me.e.timing.updated {
        FlushBalancedExactly(me.e);
      }
      FlushKeepsSize(me.e);
      hide FlushDatagrams, Balanced, FlushedWindows, FlushedTuning, FlushedProbe, Endpoints.Admitted, ProcessedAll;
    case Check(now) => hide TimeDelta;
    case Deliver(d) =>
      InputBalancedExactly(me.e, d);
      hide Input, Balanced;
    case Configure(s) =>
  }

  lemma FlushKeepsSize(e: Endpoint)
    ensures Endpoints.Flush(e).mss == e.mss
  {
  }

  // ---------------------------------------------------------------- every run of calls

  /** The windows before and after each call are balanced. */
  predicate AlwaysBalanced(me: Peer, calls: seq<Action>)
    decreases |calls|
  {
    Balanced(Called(me, calls).e.windows, me.e.mss)
    && (calls != [] ==> AlwaysBalanced(me, calls[..|calls| - 1]))
  }

  /** Each call fits the endpoint it finds. */
  predicate AlwaysFits(me: Peer, calls: seq<Action>)
    decreases |calls|
  {
    calls == []
    || (var before := calls[..|calls| - 1];
        CallFits(Called(me, before).e, calls[|calls| - 1]) && AlwaysFits(me, before))
  }

  /** The same of the calls that flush only. */
  predicate FlushesFit(me: Peer, calls: seq<Action>)
    decreases |calls|
  {
    calls == []
    || (var before, last := calls[..|calls| - 1], calls[|calls| - 1];
        (last.Deliver? || CallFits(Called(me, before).e, last)) && FlushesFit(me, before))
  }

  /**
   Congestion arithmetic of an endpoint, exactly: whatever calls are made, whatever bytes arrive
   and for every segment size, cwnd = incr = 0 or (cwnd-1)*MSS < incr < (cwnd+1)*MSS, and
   ssthresh is at least 2, from the start on, if and only if each call fits. With segments of at
   most 65535 bytes only a flush that fast-resends can fail to.
   */
  lemma {:induction false} EveryCallBalanced(build: Build, conv: u32, mss: Mss, calls: seq<Action>)
    ensures var me := Links.Start(build, conv, mss);
      && (AlwaysBalanced(me, calls) ==> Called(me, calls).e.mss == mss)
      && (AlwaysBalanced(me, calls) <==> AlwaysFits(me, calls))
      && (mss <= 0xFFFF ==> (AlwaysBalanced(me, calls) <==> FlushesFit(me, calls)))
  {
    var me := Links.Start(build, conv, mss);
    if calls == [] {
      assert Balanced(INITIAL_WINDOWS, mss);
    } else {
      var last := |calls| - 1;
      var before := Called(me, calls[..last]);
      EveryCallBalanced(build, conv, mss, calls[..last]);
      hide PeerStep, Balanced, CallFits;
      if AlwaysBalanced(me, calls[..last]) {
        assert Balanced(before.e.windows, mss);
        StepBalancedExactly(before, calls[last]);
        if calls[last].Deliver? && mss <= 0xFFFF {
          DeliverFits(before.e, calls[last].datagram);
        }
      }
    }
  }

  lemma DeliverFits(e: Endpoint, data: seq<u8>)
    requires Balanced(e.windows, e.mss) && e.mss <= 0xFFFF
    ensures CallFits(e, Action.Deliver(data))
  {
    InputKeepsBalance(e, data);
    hide InputFits, Balanced;
  }
}
