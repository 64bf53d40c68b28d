/** Runs that reach the states the negative results speak of. */
module Witnesses {
  import opened Words
  import opened Segments
  import opened Codec
  import opened Receiving
  import opened Sending
  import opened Congestion
  import opened Probing
  import opened Packing
  import opened Fragmentation
  import opened Transmission
  import opened Endpoints
  import opened Links
  import opened Flushing
  import opened Safety
  import opened Progress
  import opened Rounds
  import opened Delivery
  import opened Wedges
  import opened Timeouts
  import opened Timers
  import opened Laws

  // ---------------------------------------------------------------- running on

  lemma {:induction false} RunAppend(s: System, steps: seq<(Side, Action)>, more: seq<(Side, Action)>)
    ensures Run(s, steps + more) == Run(Run(s, steps), more)
    decreases |more|
  {
    hide Step;
    if more == [] {
      assert steps + more == steps;
    } else {
      var last := |more| - 1;
      assert (steps + more)[..|steps + more| - 1] == steps + more[..last];
      RunAppend(s, steps, more[..last]);
    }
  }

  function Deliveries(ds: seq<seq<u8>>): seq<(Side, Action)> {
    seq(|ds|, i requires 0 <= i < |ds| => (B, Action.Deliver(ds[i])))
  }

  /** Delivering datagrams one after the other is a run. */
  lemma {:induction false} RunDelivers(s: System, ds: seq<seq<u8>>)
    ensures Run(s, Deliveries(ds)) == System(s.a, DeliverAll(s.b, s.a.wire, ds))
    decreases |ds|
  {
    hide PeerStep;
    if ds != [] {
      var first := [(B, Action.Deliver(ds[0]))];
      assert Deliveries(ds) == first + Deliveries(ds[1..]);
      RunAppend(s, first, Deliveries(ds[1..]));
      RunOne(s, B, Action.Deliver(ds[0]));
      RunDelivers(Step(s, B, Action.Deliver(ds[0])), ds[1..]);
    }
  }

  lemma RunOne(s: System, side: Side, action: Action)
    ensures Run(s, [(side, action)]) == Step(s, side, action)
  {
    hide Step;
    assert [(side, action)][..0] == [];
    assert Run(s, []) == s;
  }

  lemma RunTwo(s: System, x: (Side, Action), y: (Side, Action))
    ensures Run(s, [x, y]) == Step(Step(s, x.0, x.1), y.0, y.1)
  {
    hide Step;
    assert [x, y] == [x] + [y];
    RunAppend(s, [x], [y]);
    RunOne(s, x.0, x.1);
    RunOne(Run(s, [x]), y.0, y.1);
  }

  // ---------------------------------------------------------------- what arriving packets do to an inbox

  function TakeOne(r: Inbox, wnd: u32, p: Packet): Inbox {
    if p.header.cmd == PUSH && p.header.sn < Wrap32(r.nxt + wnd) && ShouldReceive(r, p.header.sn)
    then Emplace(r, Segment(p.header, p.data, NEW_METADATA)) else r
  }

  function TakeIn(r: Inbox, wnd: u32, ps: seq<Packet>): Inbox {
    if ps == [] then r else TakeOne(TakeIn(r, wnd, ps[..|ps| - 1]), wnd, ps[|ps| - 1])
  }

  lemma {:induction false} TakeInConcat(r: Inbox, wnd: u32, a: seq<Packet>, b: seq<Packet>)
    ensures TakeIn(r, wnd, a + b) == TakeIn(TakeIn(r, wnd, a), wnd, b)
    decreases |b|
  {
    hide TakeOne;
    if b == [] {
      assert a + b == a;
    } else {
      assert (a + b)[..|a + b| - 1] == a + b[..|b| - 1];
      TakeInConcat(r, wnd, a, b[..|b| - 1]);
    }
  }

  lemma HandledTakesOne(e: Endpoint, p: Packet)
    ensures HandlePacket(e, p).inbox == TakeOne(e.inbox, e.windows.rcvWnd, p)
    ensures HandlePacket(e, p).windows.rcvWnd == e.windows.rcvWnd
  {
    HandledInbox(e, p);
    PacketCalm(e, p);
    hide HandlePacket, Emplace, Wrap32;
  }

  lemma TakenInOne(r: Inbox, wnd: u32, p: Packet)
    ensures TakeIn(r, wnd, [p]) == TakeOne(r, wnd, p)
  {
    hide TakeOne;
    assert [p][..0] == [] && TakeIn(r, wnd, []) == r;
  }

  lemma {:induction false} HandledTakesIn(e: Endpoint, ps: seq<Packet>)
    ensures HandleAll(e, ps).inbox == TakeIn(e.inbox, e.windows.rcvWnd, ps)
    decreases |ps|
  {
    hide HandlePacket, TakeOne;
    if ps != [] {
      HandledTakesOne(e, ps[0]);
      HandledTakesIn(HandlePacket(e, ps[0]), ps[1..]);
      assert ps == [ps[0]] + ps[1..];
      TakeInConcat(e.inbox, e.windows.rcvWnd, [ps[0]], ps[1..]);
      TakenInOne(e.inbox, e.windows.rcvWnd, ps[0]);
      hide TakeIn;
    }
  }

  lemma {:induction false} ConcatFront(groups: seq<seq<Packet>>)
    requires groups != []
    ensures Concat(groups) == groups[0] + Concat(groups[1..])
  {
    var last := |groups| - 1;
    if last == 0 {
      assert groups[..0] == [] && groups[1..] == [];
      assert groups[0] + [] == groups[0] && [] + groups[0] == groups[0];
    } else {
      ConcatFront(groups[..last]);
      assert groups[..last][1..] == groups[1..][..last - 1];
      assert groups[1..][last - 1] == groups[last] && |groups[1..]| - 1 == last - 1;
      assert Concat(groups) == Concat(groups[..last]) + groups[last];
      assert Concat(groups[1..]) == Concat(groups[1..][..last - 1]) + groups[last];
      hide Concat;
    }
  }

  lemma {:induction false} DeliveriesTakeIn(me: Peer, other: Peer, groups: seq<seq<Packet>>)
    requires Linked(me, other) && Mailed(groups, other)
    ensures DeliverAll(me, other.wire, EncodeGroups(other.e.build, groups)).e.inbox
         == TakeIn(me.e.inbox, me.e.windows.rcvWnd, Concat(groups))
    decreases |groups|
  {
    hide Linked, PeerStep, EncodeAll, AllWellFormed, Living, TakeIn, Concat;
    if groups != [] {
      MailedTail(groups, other);
      GroupKeeps(me, other, groups[0]);
      GroupTakesIn(me, other, groups[0]);
      ConcatFront(groups);
      TakeInConcat(me.e.inbox, me.e.windows.rcvWnd, groups[0], Concat(groups[1..]));
      hide EncodeGroups, Mailed;
      var me1 := PeerStep(me, other.wire, Action.Deliver(EncodeAll(other.e.build, groups[0])));
      DeliveriesTakeIn(me1, other, groups[1..]);
    } else {
      NothingTaken(me.e.inbox, me.e.windows.rcvWnd);
    }
  }

  lemma NothingTaken(r: Inbox, wnd: u32)
    ensures TakeIn(r, wnd, Concat([])) == r
  {
  }

  lemma GroupTakesIn(me: Peer, other: Peer, group: seq<Packet>)
    requires Linked(me, other) && AllWellFormed(other.e.conv, group) && group != []
    requires EncodeAll(other.e.build, group) in other.wire
    ensures PeerStep(me, other.wire, Action.Deliver(EncodeAll(other.e.build, group))).e.inbox
         == TakeIn(me.e.inbox, me.e.windows.rcvWnd, group)
  {
    hide Linked, PeerStep, HandleAll, FastAcks, EncodeAll, Conclude, TakeIn;
    DeliverGroup(me, other, group);
    HandledTakesIn(me.e, group);
    ConcludeKeeps(HandleAll(me.e, group), me.e.out.una, FastAcks(NO_FAST_ACK, group));
  }

  // ---------------------------------------------------------------- a queue of one

  const ROOM_FOR_ONE := Inbox([], [], 1, 0)

  /** Data packets numbered from 0. */
  predicate InSequence(ps: seq<Packet>) {
    forall i :: 0 <= i < |ps| ==> ps[i].header.cmd == PUSH && ps[i].header.sn == i
  }

  function SegmentsOf(ps: seq<Packet>): seq<Segment> {
    seq(|ps|, i requires 0 <= i < |ps| => Segment(ps[i].header, ps[i].data, NEW_METADATA))
  }

  lemma FirstTaken(p: Packet)
    requires p.header.cmd == PUSH && p.header.sn == 0
    ensures var seg := Segment(p.header, p.data, NEW_METADATA);
      TakeOne(ROOM_FOR_ONE, WND_RCV, p) == Inbox([], [seg], 1, 1)
  {
    var r, seg := ROOM_FOR_ONE, Segment(p.header, p.data, NEW_METADATA);
    var inserted := Inbox([seg], [], 1, 0);
    assert r.(buf := r.buf[..0] + [seg] + r.buf[0..]) == inserted;
    assert Settle(inserted) == Settle(Inbox(inserted.buf[1..], inserted.queue + [seg], 1, 1));
    assert inserted.buf[1..] == [] && inserted.queue + [seg] == [seg];
  }

  lemma WaitsBehind(r: Inbox, p: Packet)
    requires |r.queue| == 1 == r.limit && r.nxt == 1
    requires p.header.cmd == PUSH && 1 <= p.header.sn <= WND_RCV
    requires forall i :: 0 <= i < |r.buf| ==> r.buf[i].header.sn < p.header.sn
    ensures var seg := Segment(p.header, p.data, NEW_METADATA);
      TakeOne(r, WND_RCV, p) == r.(buf := r.buf + [seg])
  {
    var seg, at := Segment(p.header, p.data, NEW_METADATA), InsertPos(r.buf, p.header.sn);
    assert at == |r.buf|;
    assert r.buf[..at] + [seg] + r.buf[at..] == r.buf + [seg];
  }

  lemma SegmentsSplit(ps: seq<Packet>)
    requires ps != []
    ensures var last := |ps| - 1;
      SegmentsOf(ps) == SegmentsOf(ps[..last]) + [Segment(ps[last].header, ps[last].data, NEW_METADATA)]
  {
  }

  /** With a queue limit of 1 the first segment is queued and all others wait. */
  lemma {:induction false} LimitOneTakes(ps: seq<Packet>)
    requires InSequence(ps) && 1 <= |ps| <= 129
    ensures TakeIn(ROOM_FOR_ONE, WND_RCV, ps)
         == Inbox(SegmentsOf(ps)[1..], SegmentsOf(ps)[..1], 1, 1)
  {
    var r0, last := ROOM_FOR_ONE, |ps| - 1;
    var seg := Segment(ps[last].header, ps[last].data, NEW_METADATA);
    SegmentsSplit(ps);
    hide TakeOne;
    if last == 0 {
      FirstTaken(ps[0]);
      assert ps[..0] == [] && TakeIn(r0, WND_RCV, []) == r0;
      assert SegmentsOf(ps[..0]) == [];
      assert SegmentsOf(ps)[1..] == [] && SegmentsOf(ps)[..1] == [seg];
    } else {
      LimitOneTakes(ps[..last]);
      var front := SegmentsOf(ps[..last]);
      WaitsBehind(Inbox(front[1..], front[..1], 1, 1), ps[last]);
      assert (front + [seg])[1..] == front[1..] + [seg] && (front + [seg])[..1] == front[..1];
    }
  }

  // ---------------------------------------------------------------- a flush of fresh fragments

  /** An endpoint that has sent nothing, with a window for everything queued. */
  predicate Fresh(e: Endpoint) {
    && e.out.una == 0 && e.out.nxt == 0 && e.out.buf == [] && e.acks == []
    && |e.out.queue| <= CongestionWindow(e.windows) && e.windows.rmtWnd > 0
    && !e.probe.askSend && !e.probe.askTell
  }

  lemma {:induction false} FreshEmitted(p: Pass, buf: seq<Segment>)
    requires forall i :: 0 <= i < |buf| ==> buf[i].meta.xmit == 0
    ensures Emitted(p, buf) == seq(|buf|, i requires 0 <= i < |buf| => PacketOf(Processed(p, buf[i])))
  {
    hide Processed;
    if buf != [] {
      FreshEmitted(p, buf[..|buf| - 1]);
    }
  }

  /** Everything queued is numbered from 0. */
  lemma FreshAdmitted(e: Endpoint)
    requires Fresh(e)
    ensures var buf := Endpoints.Admitted(e).buf;
      && |buf| == |e.out.queue|
      && forall i :: 0 <= i < |buf| ==> buf[i] == Numbered(e.out.queue[i], i, StampOf(e), e.estimate.rto)
  {
    var cwnd := CongestionWindow(e.windows);
    hide Admit, Numbered, CongestionWindow, StampOf;
    AdmitExact(e.out, cwnd, StampOf(e), e.estimate.rto);
    assert AdmitCount(e.out, cwnd) == |e.out.queue|;
  }

  lemma AllNumbered(e: Endpoint)
    requires Fresh(e)
    ensures var o := Endpoints.Admitted(e);
      && o.una == 0 && o.nxt == |e.out.queue| && o.queue == [] && |o.buf| == |e.out.queue|
      && forall i :: 0 <= i < |o.buf| ==> o.buf[i] == Numbered(e.out.queue[i], i, StampOf(e), e.estimate.rto)
  {
    FreshAdmitted(e);
    AdmitExact(e.out, CongestionWindow(e.windows), StampOf(e), e.estimate.rto);
    hide Admit, Numbered, StampOf, CongestionWindow;
  }

  lemma FreshService(e: Endpoint)
    requires Fresh(e)
    ensures FlushPackets(e) == Emitted(PassOf(e), Endpoints.Admitted(e).buf)
  {
    assert AckPackets(StampOf(e), e.acks) == [];
    assert ProbePackets(StampOf(e), FlushedProbe(e), LastAck(e.acks)) == [];
    hide StampOf, PassOf, Endpoints.Admitted, Emitted;
  }

  lemma FirstSaid(p: Pass, q: Segment, sn: u32, stamp: Stamp, rto: u32)
    ensures var said := PacketOf(Processed(p, Numbered(q, sn, stamp, rto)));
      && said.header.cmd == PUSH && said.header.sn == sn
      && said.header.frg == q.header.frg && said.header.len == q.header.len && said.data == q.data
  {
    hide TimeDelta, Wrap32;
  }

  /** Its flush says exactly its fragments, in order. */
  lemma FreshFlush(e: Endpoint)
    requires Fresh(e)
    ensures var ps := FlushPackets(e);
      && InSequence(ps) && |ps| == |e.out.queue|
      && forall i :: 0 <= i < |ps| ==>
           && ps[i].header.frg == e.out.queue[i].header.frg && ps[i].header.len == e.out.queue[i].header.len
           && ps[i].data == e.out.queue[i].data
  {
    FreshAdmitted(e);
    FreshService(e);
    var buf, p := Endpoints.Admitted(e).buf, PassOf(e);
    FreshEmitted(p, buf);
    forall i | 0 <= i < |buf|
      ensures var said := PacketOf(Processed(p, buf[i]));
        && said.header.cmd == PUSH && said.header.sn == i
        && said.header.frg == e.out.queue[i].header.frg && said.header.len == e.out.queue[i].header.len
        && said.data == e.out.queue[i].data
    {
      FirstSaid(p, e.out.queue[i], i, StampOf(e), e.estimate.rto);
    }
    hide FlushPackets, Processed, PassOf, StampOf, Endpoints.Admitted, Numbered, PacketOf;
  }

  // ---------------------------------------------------------------- the run

  /** B shrinks its queue to one segment; A opens its windows and sends two messages. */
  function Setup(m1: seq<u8>, m2: seq<u8>): seq<(Side, Action)> {
    [(B, Action.Configure(ReceiveWindow(1))),
     (A, Action.Configure(CongestionWindowEnabled(false))), (A, Action.Configure(SendWindow(129))),
     (A, Action.Send(m1)), (A, Action.Send(m2))]
  }

  predicate TwoMessages(m1: seq<u8>, m2: seq<u8>, mss: Mss) {
    && m1 != [] && m2 != []
    && 2 <= |Fragments(m1, mss)| <= WND_RCV && |Fragments(m2, mss)| <= WND_RCV
    && |Fragments(m1, mss)| + |Fragments(m2, mss)| <= 129
  }

  lemma SetupDone(build: Build, conv: u32, mssA: Mss, mssB: Mss, m1: seq<u8>, m2: seq<u8>)
    requires TwoMessages(m1, m2, mssA)
    ensures var s := Run(Initial(build, conv, mssA, mssB), Setup(m1, m2));
      && s.a.sent == [m1, m2] && s.b.received == []
      && Fresh(s.a.e) && !s.a.e.timing.updated && s.a.e.mss == mssA
      && s.a.e.out.queue == QueuedAll(Fragments(m1, mssA)) + QueuedAll(Fragments(m2, mssA))
      && s.b.e.inbox == ROOM_FOR_ONE && s.b.e.windows.rcvWnd == WND_RCV && s.a.e.windows.sndWnd == 129
  {
    var s0, steps := Initial(build, conv, mssA, mssB), Setup(m1, m2);
    FragmentCount(m1, mssA);
    FragmentCount(m2, mssA);
    hide Fragments, SegmentCount, Run;
    RunTwo(s0, steps[0], steps[1]);
    RunTwo(Run(s0, steps[..2]), steps[2], steps[3]);
    RunAppend(s0, steps[..2], steps[2..4]);
    RunAppend(s0, steps[..4], steps[4..]);
    RunOne(Run(s0, steps[..4]), A, steps[4].1);
    assert steps[..2] == [steps[0], steps[1]] && steps[2..4] == [steps[2], steps[3]] && steps[4..] == [steps[4]];
    assert steps[..2] + steps[2..4] == steps[..4] && steps[..4] + steps[4..] == steps;
    assert [] + QueuedAll(Fragments(m1, mssA)) == QueuedAll(Fragments(m1, mssA));
  }

  function TwoFragments(m1: seq<u8>, m2: seq<u8>, mss: Mss): seq<Frag> {
    Fragments(m1, mss) + Fragments(m2, mss)
  }

  /** After A's first update every fragment has been said once, in order. */
  lemma FirstUpdate(build: Build, conv: u32, mssA: Mss, mssB: Mss, m1: seq<u8>, m2: seq<u8>)
    requires TwoMessages(m1, m2, mssA)
    ensures var s := Run(Initial(build, conv, mssA, mssB), Setup(m1, m2));
      var groups := UpdateDatagrams(s.a.e, 0);
      var a := PeerStep(s.a, s.b.wire, Action.Update(0));
      && Linked(a, s.b) && Mailed(groups, a) && a.sent == s.a.sent && a.e.mss == mssA
      && a.e.windows.sndWnd == s.a.e.windows.sndWnd
      && Outgoing(s.a, 0) == EncodeGroups(a.e.build, groups)
      && InSequence(Concat(groups)) && |Concat(groups)| == |TwoFragments(m1, m2, mssA)|
      && Concat(groups)[0].header.frg == |Fragments(m1, mssA)| - 1
  {
    var s := Run(Initial(build, conv, mssA, mssB), Setup(m1, m2));
    SetupDone(build, conv, mssA, mssB, m1, m2);
    EveryRunLinked(build, conv, mssA, mssB, Setup(m1, m2));
    FirstDue(s.a.e.timing);
    hide Run, Linked, PeerStep, FlushDue, UpdateDatagrams, Mailed, FlushPackets, EncodeGroups, Concat, InSequence,
         Fresh, Setup, Initial;
    UpdateMails(s.a, s.b, 0);
    assert Wrap32(0) == 0;
    UpdateKeepsRest(s.a, s.b, 0);
    TickedFresh(s.a.e);
    FreshFlush(Ticked(s.a.e, 0));
    FragmentsExact(m1, mssA);
    FirstQueued(m1, m2, mssA);
  }

  lemma FirstQueued(m1: seq<u8>, m2: seq<u8>, mss: Mss)
    requires TwoMessages(m1, m2, mss)
    ensures var queue := QueuedAll(Fragments(m1, mss)) + QueuedAll(Fragments(m2, mss));
      |queue| == |TwoFragments(m1, m2, mss)| && queue[0].header.frg == Fragments(m1, mss)[0].frg
  {
    hide Fragments;
  }

  lemma FirstDue(t: Timing)
    requires !t.updated
    ensures FlushDue(t, 0)
  {
  }

  lemma TickedFresh(e: Endpoint)
    requires Fresh(e)
    ensures Fresh(Ticked(e, 0)) && Ticked(e, 0).out == e.out
  {
    hide NextFlush, CongestionWindow;
  }

  /** The first fragment queued, all others waiting. */
  predicate OneQueued(r: Inbox, total: nat, frg: nat) {
    && |r.queue| == 1 == r.limit && r.nxt == 1 && r.queue[0].header.frg == frg
    && |r.buf| == total - 1 && forall i :: 0 <= i < |r.buf| ==> r.buf[i].header.sn == i + 1
  }

  lemma {:induction false} HeldOne(ps: seq<Packet>)
    requires InSequence(ps) && 1 <= |ps| <= 129
    ensures OneQueued(TakeIn(ROOM_FOR_ONE, WND_RCV, ps), |ps|, ps[0].header.frg)
  {
    LimitOneTakes(ps);
    hide TakeIn;
  }

  function WedgingRun(build: Build, conv: u32, mssA: Mss, mssB: Mss, m1: seq<u8>, m2: seq<u8>): seq<(Side, Action)> {
    var s := Run(Initial(build, conv, mssA, mssB), Setup(m1, m2));
    Setup(m1, m2) + [(A, Action.Update(0))] + Deliveries(Outgoing(s.a, 0))
  }

  lemma WedgingRunEnds(build: Build, conv: u32, mssA: Mss, mssB: Mss, m1: seq<u8>, m2: seq<u8>)
    requires TwoMessages(m1, m2, mssA)
    ensures var s := Run(Initial(build, conv, mssA, mssB), WedgingRun(build, conv, mssA, mssB, m1, m2));
      && s.a.sent == [m1, m2] && s.b.received == [] && s.a.e.mss == mssA
      && s.a.e.windows.sndWnd == 129 && s.b.e.windows.rcvWnd == WND_RCV
      && OneQueued(s.b.e.inbox, |TwoFragments(m1, m2, mssA)|, |Fragments(m1, mssA)| - 1)
  {
    hide Run, Linked, Link, Local, PeerStep, UpdateDatagrams, Mailed, EncodeGroups, Concat, InSequence, Fresh, Setup,
         Initial, DeliverAll, TakeIn, Living, Deliveries, OneQueued, Fragments, QueuedAll, TwoMessages;
    var s0, setup, update := Initial(build, conv, mssA, mssB), Setup(m1, m2), [(A, Action.Update(0))];
    var s := Run(s0, setup);
    SetupDone(build, conv, mssA, mssB, m1, m2);
    FirstUpdate(build, conv, mssA, mssB, m1, m2);
    var groups := UpdateDatagrams(s.a.e, 0);
    var s1 := Step(s, A, Action.Update(0));
    RunAppend(s0, setup, update);
    RunOne(s, A, Action.Update(0));
    RunAppend(s0, setup + update, Deliveries(Outgoing(s.a, 0)));
    RunDelivers(s1, Outgoing(s.a, 0));
    FewFragments(m1, m2, mssA);
    ArrivingOnce(s1.a, s1.b, groups);
  }

  lemma FewFragments(m1: seq<u8>, m2: seq<u8>, mss: Mss)
    requires TwoMessages(m1, m2, mss)
    ensures 1 <= |TwoFragments(m1, m2, mss)| <= 129
  {
    hide Fragments;
  }

  lemma ArrivingOnce(a: Peer, b: Peer, groups: seq<seq<Packet>>)
    requires Linked(a, b) && Mailed(groups, a) && InSequence(Concat(groups)) && 1 <= |Concat(groups)| <= 129
    requires b.e.inbox == ROOM_FOR_ONE && b.e.windows.rcvWnd == WND_RCV
    ensures var b' := DeliverAll(b, a.wire, EncodeGroups(a.e.build, groups));
      && b'.received == b.received && b'.e.windows.rcvWnd == WND_RCV
      && OneQueued(b'.e.inbox, |Concat(groups)|, Concat(groups)[0].header.frg)
  {
    hide Linked, Mailed, DeliverAll, Concat, InSequence, TakeIn, EncodeGroups, Living, OneQueued;
    LinkedSwap(a, b);
    DeliveriesTakeIn(b, a, groups);
    DeliveriesKeep(b, a, groups);
    HeldOne(Concat(groups));
  }

  /**
   A wedge is reached: B lowers its receive window to one segment, A sends a message of several
   fragments, and one flush arrives. The queue then holds the first fragment alone, for good.
   */
  lemma WedgeReached(build: Build, conv: u32, mssA: Mss, mssB: Mss, m1: seq<u8>, m2: seq<u8>)
    requires TwoMessages(m1, m2, mssA)
    ensures var s := Run(Initial(build, conv, mssA, mssB), WedgingRun(build, conv, mssA, mssB, m1, m2));
      && s.a.sent == [m1, m2] && s.b.received == [] && Wedged(s.b.e.inbox)
      && forall calls :: KeepsOwnWindow(calls) ==> Called(s.b, calls).received == []
  {
    hide Run, WedgingRun, Called, KeepsOwnWindow, Initial, OneQueued, Wedged;
    WedgingRunEnds(build, conv, mssA, mssB, m1, m2);
    var b := Run(Initial(build, conv, mssA, mssB), WedgingRun(build, conv, mssA, mssB, m1, m2)).b;
    HeldIsWedged(b.e.inbox, |TwoFragments(m1, m2, mssA)|, |Fragments(m1, mssA)| - 1);
    forall calls | KeepsOwnWindow(calls)
      ensures Called(b, calls).received == []
    {
      WedgedForever(b, calls);
    }
  }

  lemma HeldIsWedged(r: Inbox, total: nat, frg: nat)
    requires OneQueued(r, total, frg) && frg >= 1
    ensures Wedged(r)
  {
  }

  lemma HeldIsDead(r: Inbox, limit: u32, frg: nat)
    requires OneQueued(r, 129, frg) && frg >= 1
    ensures Dead(r.(limit := limit), WND_RCV)
  {
    forall sn: u32 | r.nxt <= sn < r.nxt + WND_RCV
      ensures HasSn(r.buf, sn)
    {
      assert r.buf[sn - 1].header.sn == sn;
    }
  }

  lemma TwoSpoken(m1: seq<u8>, m2: seq<u8>, mss: Mss)
    ensures Stream([m1, m2], mss) == TwoFragments(m1, m2, mss)
  {
    hide Fragments;
    assert [m1, m2][..1] == [m1] && [m1][..0] == [];
    assert Stream([], mss) == [];
    assert Stream([m1], mss) == Stream([], mss) + Fragments(m1, mss) == Fragments(m1, mss);
  }

  /**
   Raising the limit can come too late: once the 129 fragments A has sent are all held, B raises
   its window to what every message needs. All settings are then as `DeliveryExactly` wants them,
   yet B is dead: no fair schedule delivers anything.
   */
  lemma DeadReached(build: Build, conv: u32, mssA: Mss, mssB: Mss, m1: seq<u8>, m2: seq<u8>, capacity: nat)
    requires TwoMessages(m1, m2, mssA) && |TwoFragments(m1, m2, mssA)| == 129
    requires |m1| <= capacity && |m2| <= capacity
    ensures var wedging := WedgingRun(build, conv, mssA, mssB, m1, m2);
      var raise := [(B, Action.Configure(ReceiveWindow(WND_RCV)))];
      var s := Run(Initial(build, conv, mssA, mssB), wedging + raise);
      && Provided(s, capacity, WND_RCV) && s.a.sent == [m1, m2] && s.b.received == []
      && Dead(s.b.e.inbox, s.b.e.windows.rcvWnd)
      && forall rs :: Fair(s, rs, capacity) ==> Drained(RoundAll(s, rs).b, capacity).received != s.a.sent
  {
    hide Run, WedgingRun, Linked, Initial, Fragments, Stream, RoundAll, Drained, Fair, Called, PeekSize, Provided, Dead,
         OneQueued, TwoMessages, PeerStep;
    var s0, wedging := Initial(build, conv, mssA, mssB), WedgingRun(build, conv, mssA, mssB, m1, m2);
    var raise := [(B, Action.Configure(ReceiveWindow(WND_RCV)))];
    var w, s := Run(s0, wedging), Run(s0, wedging + raise);
    WedgingRunEnds(build, conv, mssA, mssB, m1, m2);
    RunAppend(s0, wedging, raise);
    RunOne(w, B, raise[0].1);
    EveryRunLinked(build, conv, mssA, mssB, wedging + raise);
    RaisedTooLate(w, s, m1, m2, capacity);
    StuckUndelivered(s, capacity);
  }

  lemma RaisedTooLate(w: System, s: System, m1: seq<u8>, m2: seq<u8>, capacity: nat)
    requires TwoMessages(m1, m2, w.a.e.mss) && |TwoFragments(m1, m2, w.a.e.mss)| == 129
    requires |m1| <= capacity && |m2| <= capacity
    requires w.a.sent == [m1, m2] && w.a.e.windows.sndWnd == 129 && w.b.e.windows.rcvWnd == WND_RCV
    requires OneQueued(w.b.e.inbox, 129, |Fragments(m1, w.a.e.mss)| - 1)
    requires s == Step(w, B, Action.Configure(ReceiveWindow(WND_RCV))) && Linked(s.a, s.b)
    ensures Provided(s, capacity, WND_RCV) && s.a.sent == [m1, m2] && s.b.received == w.b.received
    ensures Dead(s.b.e.inbox, s.b.e.windows.rcvWnd) && Stuck(s.a, s.b.e)
  {
    hide Linked, Fragments, Stream, Dead, Stuck;
    var mss := w.a.e.mss;
    TwoSpoken(m1, m2, mss);
    assert s.b.e.inbox == w.b.e.inbox.(limit := WND_RCV);
    HeldIsDead(w.b.e.inbox, WND_RCV, |Fragments(m1, mss)| - 1);
    DeadIsStuck(s);
  }

  lemma DeadIsStuck(s: System)
    requires Dead(s.b.e.inbox, s.b.e.windows.rcvWnd) && s.b.e.inbox.nxt < |Spoken(s.a)|
    requires |Spoken(s.a)| + s.b.e.windows.rcvWnd < 0x1_0000_0000
    ensures Stuck(s.a, s.b.e)
  {
    hide PeekSize, HasSn;
  }

  // ---------------------------------------------------------------- calls that make no headway

  /** The longest interval, no congestion window, and one segment sent at time 0. */
  const SPINNING := [
    Action.Configure(Interval(5000)), Action.Configure(CongestionWindowEnabled(false)), Action.Send([7]),
    Action.Update(0)]

  lemma CalledOne(me: Peer, a: Action)
    requires !a.Deliver?
    ensures Called(me, [a]) == PeerStep(me, {}, a)
  {
    hide PeerStep;
    assert [a][..0] == [] && Called(me, []) == me;
  }

  lemma CalledMore(me: Peer, calls: seq<Action>, a: Action)
    requires !a.Deliver?
    ensures Called(me, calls + [a]) == PeerStep(Called(me, calls), {}, a)
  {
    hide PeerStep;
    assert (calls + [a])[..|calls + [a]| - 1] == calls;
  }

  /** Endpoint `e` before its first flush, with one fragment queued. */
  predicate Ready(e: Endpoint) {
    && e.timing == Timing(5000, false, 0, INTERVAL) && e.out == Outbox(0, 0, [], [Queued(Frag(0, [7]))])
    && e.estimate.rto == RTO_DEF && e.tuning.nodelay == 0
    && e.acks == [] && !e.probe.askSend && !e.probe.askTell
    && !e.windows.enabled && e.windows.sndWnd == WND_SND == e.windows.rmtWnd
  }

  lemma SpinningReady(me: Peer)
    requires me.e == New(me.e.build, me.e.conv, me.e.mss)
    ensures Ready(Called(me, SPINNING[..3]).e)
  {
    CalledMore(me, [], SPINNING[0]);
    CalledMore(me, SPINNING[..1], SPINNING[1]);
    CalledMore(me, SPINNING[..2], SPINNING[2]);
    assert [] + [SPINNING[0]] == SPINNING[..1] && SPINNING[..1] + [SPINNING[1]] == SPINNING[..2]
        && SPINNING[..2] + [SPINNING[2]] == SPINNING[..3];
    assert Called(me, []) == me;
    hide Called;
    assert Fragments([7], me.e.mss) == [Frag(0, [7])];
    assert [] + QueuedAll([Frag(0, [7])]) == [Queued(Frag(0, [7]))];
  }

  lemma ReadyFlushes(e: Endpoint)
    requires Ready(e)
    ensures var e' := Endpoints.Update(e, 0);
      && e'.timing == Timing(5000, true, 0, 5000)
      && |e'.out.buf| == 1 && e'.out.buf[0].meta.resendts == RTO_DEF + RTO_DEF / 8
  {
    var t := Ticked(e, 0);
    assert FlushDue(e.timing, 0) && t.timing == Timing(5000, true, 0, 5000);
    hide NextFlush, FlushDue;
    FreshAdmitted(t);
    FirstSchedule(PassOf(t), e.out.queue[0], 0, StampOf(t), e.estimate.rto);
    hide Endpoints.Admitted, Processed, StampOf, Numbered, FlushedWindows, FlushedProbe, FlushedTuning;
  }

  lemma FirstSchedule(p: Pass, q: Segment, sn: u32, stamp: Stamp, rto: u32)
    ensures Processed(p, Numbered(q, sn, stamp, rto)).meta.resendts == Wrap32(p.stamp.ts + p.rto + p.rtomin)
  {
    hide TimeDelta, Wrap32;
  }

  lemma Spinning(t: Timing, buf: seq<Segment>, now: u32)
    requires t == Timing(5000, true, 0, 5000) && |buf| == 1 && buf[0].meta.resendts <= now < 5000
    ensures Waiting(t, now) && Overdue(buf, now) && CheckAnswer(t, buf, now) == now && !FlushDue(t, now)
  {
    assert TimeDelta(now, 5000) == now - 5000 && TimeDelta(5000, now) == 5000 - now;
    HopMakesHeadway(t, buf, now);
    hide CheckAnswer, Wrap32;
  }

  /**
   check() and update() can spin: from the moment the segment is overdue until the next flush, for
   more than four seconds of the clock, check() asks for a call at once and update() does nothing.
   */
  lemma SpinReached(build: Build, conv: u32, mss: Mss, now: u32)
    requires 225 <= now < 5000
    ensures var e := Called(Links.Start(build, conv, mss), SPINNING).e;
      && Waiting(e.timing, now) && Overdue(e.out.buf, now)
      && CheckAnswer(e.timing, e.out.buf, now) == now && !FlushDue(e.timing, now)
  {
    var me := Links.Start(build, conv, mss);
    SpinningReady(me);
    hide Called, New, Endpoints.Update, UpdateDatagrams, CheckAnswer, FlushDue, Waiting, Overdue;
    CalledMore(me, SPINNING[..3], SPINNING[3]);
    assert SPINNING[..3] + [SPINNING[3]] == SPINNING;
    ReadyFlushes(Called(me, SPINNING[..3]).e);
    var e := Called(me, SPINNING).e;
    Spinning(e.timing, e.out.buf, now);
  }

  // ---------------------------------------------------------------- a window that stops growing

  function Told(conv: u32): Packet {
    Packet(Header(conv, WINS, 0, 100, 0, 0, 1, 0), [])
  }

  /** A window of 100 segments, one segment sent, and a datagram that acknowledges it. */
  function Stalling(build: Build, conv: u32): seq<Action> {
    [Action.Configure(SendWindow(100)), Action.Update(0), Action.Send([7]), Action.Flush,
     Action.Deliver(EncodeAll(build, [Told(conv)]))]
  }

  function Opened(mss: Mss): Windows {
    INITIAL_WINDOWS.(sndWnd := 100, rmtWnd := 100, cwnd := 1, incr := mss)
  }

  function Twice(mss: Mss): Windows {
    Opened(mss).(cwnd := 2, incr := Wrap32(2 * mss))
  }

  predicate Opening(e: Endpoint, queue: seq<Segment>) {
    e.windows == Opened(e.mss) && e.out == EMPTY_OUTBOX.(queue := queue) && e.acks == [] && e.probe == NO_PROBE
    && e.timing.updated
  }

  predicate SameLink(e: Endpoint, e': Endpoint) {
    e'.build == e.build && e'.conv == e.conv && e'.mss == e.mss
  }

  lemma IdleUpdate(e: Endpoint)
    requires e == Endpoints.Configure(New(e.build, e.conv, e.mss), SendWindow(100))
    ensures Opening(Endpoints.Update(e, 0), []) && SameLink(e, Endpoints.Update(e, 0))
  {
    var t := Ticked(e, 0);
    assert FlushDue(e.timing, 0) && t.timing.updated;
    hide NextFlush, FlushDue;
    assert Endpoints.Admitted(t) == t.out;
    assert CountOf(PassOf(t), [], Fast) == 0 && CountOf(PassOf(t), [], TimedOut) == 0;
    hide PassOf, Endpoints.Admitted;
  }

  lemma FirstAdmitted(e: Endpoint)
    requires Opening(e, [Queued(Frag(0, [7]))])
    ensures var o := Endpoints.Admitted(e);
      o.una == 0 && o.nxt == 1 && |o.buf| == 1
      && o.buf[0] == Numbered(e.out.queue[0], 0, StampOf(e), e.estimate.rto)
  {
    assert CongestionWindow(e.windows) == 1;
    FreshAdmitted(e);
    hide Admit, CongestionWindow, StampOf, Numbered;
    AdmitExact(e.out, 1, StampOf(e), e.estimate.rto);
  }

  lemma FirstVerdict(p: Pass, q: Segment, sn: u32, stamp: Stamp, rto: u32)
    ensures var seg := Numbered(q, sn, stamp, rto);
      Judge(p, seg) == First && Processed(p, seg).header.sn == sn
  {
    hide TimeDelta, Wrap32;
  }

  lemma OnlyFirst(p: Pass, buf: seq<Segment>)
    requires |buf| == 1 && Judge(p, buf[0]) == First
    ensures CountOf(p, buf, Fast) == 0 && CountOf(p, buf, TimedOut) == 0
  {
    hide Judge;
    assert buf[..0] == [];
  }

  lemma FirstFlush(e: Endpoint)
    requires Opening(e, [Queued(Frag(0, [7]))])
    ensures var f := Endpoints.Flush(e);
      && SameLink(e, f) && f.windows == Opened(e.mss) && f.out.una == 0 && f.out.nxt == 1
      && |f.out.buf| == 1 && f.out.buf[0].header.sn == 0
  {
    hide Endpoints.Admitted, Processed, StampOf, Numbered, PassOf, Judge, CountOf, FlushedProbe, FlushedTuning;
    var o, p := Endpoints.Admitted(e), PassOf(e);
    FirstAdmitted(e);
    FirstVerdict(p, e.out.queue[0], 0, StampOf(e), e.estimate.rto);
    OnlyFirst(p, o.buf);
  }

  lemma ToldHandled(e: Endpoint)
    requires e.windows == Opened(e.mss) && e.out.nxt == 1 && |e.out.buf| == 1 && e.out.buf[0].header.sn == 0
    ensures var h := HandleAll(e, [Told(e.conv)]);
      h.windows == e.windows && h.out.una == 1 && h.mss == e.mss
  {
    var p := Told(e.conv);
    var h := HandlePacket(e, p);
    assert EraseBefore(e.out.buf, 1) == EraseBefore(e.out.buf[1..], 1) == [];
    hide EraseBefore;
    assert [p][1..] == [] && HandleAll(e, [p]) == HandleAll(h, []);
  }

  lemma ToldGrows(e: Endpoint)
    requires e.windows == Opened(e.mss) && e.out.una == 0 && e.out.nxt == 1
    requires |e.out.buf| == 1 && e.out.buf[0].header.sn == 0
    ensures Input(e, EncodeAll(e.build, [Told(e.conv)])).0.windows == Twice(e.mss)
  {
    hide EncodeAll, Input, HandleAll, Parse;
    InputGroup(e, [Told(e.conv)]);
    ToldHandled(e);
    assert [Told(e.conv)][1..] == [];
    assert FastAcks(NO_FAST_ACK, [Told(e.conv)]) == FastAcks(NO_FAST_ACK, []) == NO_FAST_ACK;
  }

  lemma StallingCalls(me: Peer, conv: u32)
    requires me.e.conv == conv
    ensures var calls := Stalling(me.e.build, conv);
      var e1 := Endpoints.Update(Endpoints.Configure(me.e, SendWindow(100)), 0);
      var e2 := Endpoints.Flush(Endpoints.Send(e1, [7]).0);
      Called(me, calls).e == Input(e2, EncodeAll(me.e.build, [Told(conv)])).0
  {
    hide Called, EncodeAll, Endpoints.Update, Endpoints.Send, Endpoints.Flush, Input, UpdateDatagrams, FlushDatagrams,
         Endpoints.Configure;
    var calls := Stalling(me.e.build, conv);
    CalledOne(me, calls[0]);
    CalledMore(me, calls[..1], calls[1]);
    CalledMore(me, calls[..2], calls[2]);
    CalledMore(me, calls[..3], calls[3]);
    CalledDeliver(me, calls[..4], calls[4].datagram);
    assert Wrap32(0) == 0;
    assert calls[..1] == [calls[0]] && calls[..1] + [calls[1]] == calls[..2] && calls[..2] + [calls[2]] == calls[..3]
        && calls[..3] + [calls[3]] == calls[..4] && calls[..4] + [calls[4]] == calls;
  }

  lemma CalledDeliver(me: Peer, calls: seq<Action>, d: seq<u8>)
    ensures Called(me, calls + [Action.Deliver(d)]).e == Input(Called(me, calls).e, d).0
  {
    hide Input;
    assert (calls + [Action.Deliver(d)])[..|calls + [Action.Deliver(d)]| - 1] == calls;
  }

  lemma SendsOne(e: Endpoint)
    requires Opening(e, [])
    ensures Opening(Endpoints.Send(e, [7]).0, [Queued(Frag(0, [7]))]) && SameLink(e, Endpoints.Send(e, [7]).0)
  {
    assert Fragments([7], e.mss) == [Frag(0, [7])];
    assert [] + QueuedAll([Frag(0, [7])]) == [Queued(Frag(0, [7]))];
    hide Fragments;
  }

  lemma StallsAtTwo(w: Windows, n: nat)
    requires w == Twice(1)
    ensures Avoiding(w, 1) && Adjusted(w, 1, n) == w
  {
    StalledForever(w, 1, n);
    hide Adjusted;
  }

  lemma StallStages(e: Endpoint)
    requires e == New(e.build, e.conv, e.mss)
    ensures var e1 := Endpoints.Update(Endpoints.Configure(e, SendWindow(100)), 0);
      var e2 := Endpoints.Flush(Endpoints.Send(e1, [7]).0);
      Input(e2, EncodeAll(e.build, [Told(e.conv)])).0.windows == Twice(e.mss)
  {
    var e0 := Endpoints.Configure(e, SendWindow(100));
    assert SameLink(e, e0) && e0 == Endpoints.Configure(New(e0.build, e0.conv, e0.mss), SendWindow(100));
    hide EncodeAll, Endpoints.Update, Endpoints.Send, Endpoints.Flush, Input, Opening, New, Endpoints.Configure;
    var e1 := Endpoints.Update(e0, 0);
    IdleUpdate(e0);
    SendsOne(e1);
    FirstFlush(Endpoints.Send(e1, [7]).0);
    ToldGrows(Endpoints.Flush(Endpoints.Send(e1, [7]).0));
  }

  /**
   Growth can stop at a reachable endpoint. With segments of one byte the window is 2 of a
   possible 100 after its first growth, and no number of acknowledged datagrams raises it further.
   */
  lemma StallReached(build: Build, conv: u32, n: nat)
    ensures var w := Called(Links.Start(build, conv, 1), Stalling(build, conv)).e.windows;
      Avoiding(w, 1) && w.cwnd == 2 && w.rmtWnd == 100 && Adjusted(w, 1, n) == w
  {
    var me := Links.Start(build, conv, 1);
    hide Called, EncodeAll, Endpoints.Update, Endpoints.Send, Endpoints.Flush, Endpoints.Configure, Input, Avoiding,
         Adjusted, Stalling;
    StallingCalls(me, conv);
    StallStages(me.e);
    StallsAtTwo(Called(me, Stalling(build, conv)).e.windows, n);
  }

  /**
   Growth can overflow at a reachable endpoint. With segments of 2^31 bytes the first growth makes
   two segments of a possible 100, whose bytes wrap to 0.
   */
  lemma GrowthOverflows(build: Build, conv: u32)
    ensures var me, calls := Links.Start(build, conv, 0x8000_0000), Stalling(build, conv);
      var w := Called(me, calls).e.windows;
      w.cwnd == 2 && w.incr == 0 && !Balanced(w, 0x8000_0000)
  {
    var me := Links.Start(build, conv, 0x8000_0000);
    assert Wrap32(2 * 0x8000_0000) == 0;
    hide Called, EncodeAll, Endpoints.Update, Endpoints.Send, Endpoints.Flush, Endpoints.Configure, Input, Stalling,
         Wrap32;
    StallingCalls(me, conv);
    StallStages(me.e);
  }
}
