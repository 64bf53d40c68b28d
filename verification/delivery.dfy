/**
 Eventual delivery: from every state in which the receiver can go on, a finite schedule of fair
 rounds delivers every message that was sent, through due times, closed windows and probes.
 */
module Delivery {
  import opened Words
  import opened Segments
  import opened Codec
  import opened Receiving
  import opened Sending
  import opened Congestion
  import opened Probing
  import opened Packing
  import opened Fragmentation
  import opened Transmission
  import opened Endpoints
  import opened Matching
  import opened Links
  import opened Flushing
  import opened Safety
  import opened Progress
  import opened Rounds
  import opened Timers
  import opened Laws

  // ---------------------------------------------------------------- when everything is acknowledged

  lemma {:induction false} StreamNotShorter(msgs: seq<seq<u8>>, k: nat, mss: Mss)
    requires k <= |msgs|
    ensures |Stream(msgs[..k], mss)| + |msgs| - k <= |Stream(msgs, mss)|
    decreases |msgs| - k
  {
    hide Fragments;
    if k < |msgs| {
      StreamNotShorter(msgs, k + 1, mss);
      assert msgs[..k + 1][..k] == msgs[..k];
    } else {
      assert msgs[..k] == msgs;
    }
  }

  /** With every fragment in and nothing to read, every message has been read; and conversely. */
  lemma AllReceivedExactly(s: Peer, r: Peer)
    requires Link(s, r) && PeekSize(r.e.inbox).Err?
    ensures r.received == s.sent <==> r.e.inbox.nxt == |Spoken(s)|
  {
    if r.e.inbox.nxt == |Spoken(s)| {
      QueueRunsOut(s, r);
      assert r.received == s.sent[..|r.received|];
      StreamNotShorter(s.sent, |r.received|, s.e.mss);
    }
  }

  lemma QueueRunsOut(s: Peer, r: Peer)
    requires Link(s, r) && PeekSize(r.e.inbox).Err? && r.e.inbox.nxt == |Spoken(s)|
    ensures r.e.inbox.queue == []
  {
    var k := |r.received|;
    if r.e.inbox.queue != [] {
      NextMessage(r.e.inbox, r.received, s.sent, s.e.mss, s.e.out.nxt);
      var msg := s.sent[k];
      assert s.sent[..k + 1] == r.received + [msg];
      StreamAppend(r.received, msg, s.e.mss);
      StreamPrefix(s.sent, k + 1, s.e.mss);
      hide Stream, Fragments;
      Reassembly(r.e.inbox, msg, s.e.mss);
    }
  }

  /**
   When nothing is unacknowledged, a receiver that can go on and has nothing to read has read
   everything.
   */
  lemma NothingLeft(s: Peer, r: Peer)
    requires Link(s, r) && PeekSize(r.e.inbox).Err? && s.e.out.una == |Spoken(s)|
    requires CanGoOn(r.e.inbox, r.e.windows.rcvWnd, |Spoken(s)|)
    ensures r.received == s.sent
  {
    AllReceivedExactly(s, r);
    hide PeekSize, Pushes, Replies, Scheduled, GoodMessages, Spoken, QueueContinues, BufferMatches, AllCarry;
    if r.e.inbox.nxt != |Spoken(s)| {
      var sn: u32 :| Missing(r.e.inbox, r.e.windows.rcvWnd, |Spoken(s)|, sn);
      InBufferAbove(s.e.out, sn);
      assert false;
    }
  }

  // ---------------------------------------------------------------- readings at which something is due

  /** The next moment at which the 32-bit clock reads `target`. */
  function Later(clock: nat, target: u32): (t: nat)
    ensures t >= clock
  {
    clock + Wrap32(target - clock)
  }

  lemma LaterReads(clock: nat, target: u32)
    ensures Wrap32(Later(clock, target)) == target
  {
    WrapOfDifference(target, clock);
    assert Wrap32(target - clock) == (target - clock) % 0x1_0000_0000;
    var q := (target - clock) / 0x1_0000_0000;
    assert Later(clock, target) == target + (-q) * 0x1_0000_0000;
    WrapShift(target, -q);
  }

  /** A moment at which the flush timer has run out and `target` is past. */
  function DueAt(clock: nat, t: Timing, target: u32): (at: nat)
    ensures at >= clock
  {
    var x := Later(clock, target);
    if FlushDue(t, Wrap32(x)) then x else x + 10000
  }

  lemma DueAtWorks(clock: nat, t: Timing, target: u32)
    ensures var now := Wrap32(DueAt(clock, t, target)); FlushDue(t, now) && Due(now, target)
  {
    LaterReads(clock, target);
    DeltaSelf(target);
    hide Later;
    if !FlushDue(t, target) {
      WrapSum(Later(clock, target), 10000);
      DeltaShifts(target, target, 10000);
      NotDueYet(t, target);
      hide Wrap32, TimeDelta;
    }
  }

  /** A timer that has not run out runs out within 10 s. */
  lemma NotDueYet(t: Timing, now: u32)
    requires !FlushDue(t, now)
    ensures FlushDue(t, Wrap32(now + 10000))
  {
    DeltaSelf(now);
    hide Wrap32;
    assert t.updated && -10000 <= TimeDelta(now, t.tsFlush) < 0;
    DeltaShifts(now, t.tsFlush, 10000);
    hide TimeDelta;
  }

  /** The next round in which both timers have run out and `target` is past on A's clock. */
  function RoundAt(s: System, capacity: nat, target: u32): Schedule {
    Schedule(capacity, DueAt(s.a.clock, s.a.e.timing, target),
             DueAt(s.b.clock, s.b.e.timing, Wrap32(s.b.clock)))
  }

  lemma RoundAtWorks(s: System, capacity: nat, target: u32)
    ensures var r := RoundAt(s, capacity, target);
      && TimersDue(s.a, s.b, r) && Due(Wrap32(r.at), target)
      && r.at >= s.a.clock && r.back >= s.b.clock && r.capacity == capacity
  {
    DueAtWorks(s.a.clock, s.a.e.timing, target);
    DueAtWorks(s.b.clock, s.b.e.timing, Wrap32(s.b.clock));
    hide FlushDue, Due, Wrap32;
  }

  // ---------------------------------------------------------------- schedules

  /** Rounds at which both timers have run out, on clocks that never go back. */
  predicate Fair(s: System, rs: seq<Schedule>, capacity: nat)
    decreases |rs|
  {
    rs == []
    || (&& rs[0].capacity == capacity && TimersDue(s.a, s.b, rs[0])
        && rs[0].at >= s.a.clock && rs[0].back >= s.b.clock
        && Fair(Round(s, rs[0]), rs[1..], capacity))
  }

  lemma {:induction false} FairConcat(s: System, rs: seq<Schedule>, more: seq<Schedule>, capacity: nat)
    requires Fair(s, rs, capacity) && Fair(RoundAll(s, rs), more, capacity)
    ensures Fair(s, rs + more, capacity)
    ensures RoundAll(s, rs + more) == RoundAll(RoundAll(s, rs), more)
    decreases |rs|
  {
    hide Round, TimersDue;
    if rs == [] {
      assert rs + more == more;
    } else {
      assert (rs + more)[1..] == rs[1..] + more;
      FairConcat(Round(s, rs[0]), rs[1..], more, capacity);
    }
  }

  lemma FairOne(s: System, r: Schedule, capacity: nat)
    requires TimersDue(s.a, s.b, r) && r.at >= s.a.clock && r.back >= s.b.clock && r.capacity == capacity
    ensures Fair(s, [r], capacity) && RoundAll(s, [r]) == Round(s, r)
  {
    hide Round, TimersDue;
    assert [r][1..] == [];
    assert RoundAll(Round(s, r), []) == Round(s, r);
    assert Fair(Round(s, r), [], capacity);
  }

  // ---------------------------------------------------------------- what delivery needs

  predicate MessagesWithin(msgs: seq<seq<u8>>, mss: Mss, bound: u32) {
    forall i :: 0 <= i < |msgs| ==> |Fragments(msgs[i], mss)| <= bound
  }

  /** A window that, with fewer than `bound` segments queued, is never advertised as 0. */
  predicate Advertises(wnd: u32, bound: u32) {
    wnd < 0x8000_0000 && wnd % 0x1_0000 >= bound
  }

  /** Settings and sizes that delivery needs, besides a receiver that can go on. */
  predicate Provided(s: System, capacity: nat, bound: u32) {
    && bound >= 1
    && LimitAdmits(s.b.e.inbox.limit, s.a.sent, s.a.e.mss) && s.b.e.windows.rcvWnd > 0
    && (forall i :: 0 <= i < |s.a.sent| ==> |s.a.sent[i]| <= capacity)
    && MessagesWithin(s.a.sent, s.a.e.mss, bound) && Advertises(s.b.e.windows.rcvWnd, bound)
    && |Spoken(s.a)| + s.b.e.windows.rcvWnd < 0x1_0000_0000
    && s.a.e.windows.sndWnd > 0 && |Spoken(s.a)| + s.a.e.windows.sndWnd < 0x1_0000_0000
  }

  ghost predicate Equipped(s: System, capacity: nat, bound: u32) {
    Linked(s.a, s.b) && Provided(s, capacity, bound)
  }

  ghost predicate Deliverable(s: System, capacity: nat, bound: u32) {
    Equipped(s, capacity, bound) && CanGoOn(s.b.e.inbox, s.b.e.windows.rcvWnd, |Spoken(s.a)|)
  }

  lemma DeliverableReceptive(s: System, capacity: nat, bound: u32)
    requires Deliverable(s, capacity, bound)
    ensures Linked(s.a, s.b) && Receptive(s.a, s.b, capacity)
  {
    hide Linked, LimitAdmits, CanGoOn, Spoken;
  }

  lemma RoundDeliverable(s: System, r: Schedule, bound: u32)
    requires Deliverable(s, r.capacity, bound) && TimersDue(s.a, s.b, r)
    ensures var s' := Round(s, r);
      && Deliverable(s', r.capacity, bound)
      && s'.a.sent == s.a.sent && s'.a.e.mss == s.a.e.mss && Spoken(s'.a) == Spoken(s.a)
      && s'.a.e.out.una >= s.a.e.out.una
  {
    DeliverableReceptive(s, r.capacity, bound);
    hide Round, Linked, TimersDue, LimitAdmits, CanGoOn, Fragments, Spoken;
    RoundKeeps(s, r);
    SpokenSame(s.a, Round(s, r).a);
  }

  // ---------------------------------------------------------------- the advertised window

  /** After a drain fewer segments are queued than the next message has. */
  lemma DrainedQueueShort(s: Peer, r: Peer, bound: u32)
    requires Link(s, r) && PeekSize(r.e.inbox).Err? && MessagesWithin(s.sent, s.e.mss, bound) && bound > 0
    ensures |r.e.inbox.queue| < bound
  {
    if r.e.inbox.queue != [] {
      NextMessage(r.e.inbox, r.received, s.sent, s.e.mss, s.e.out.nxt);
      Reassembly(r.e.inbox, s.sent[|r.received|], s.e.mss);
    }
  }

  lemma OpenAdvertised(e: Endpoint, bound: u32)
    requires |e.inbox.queue| < bound && Advertises(e.windows.rcvWnd, bound)
    ensures AdvertisedWindow(e) >= 1
  {
    var wnd, held := e.windows.rcvWnd, |e.inbox.queue|;
    WrapSmall(held);
    assert UnusedWindow(e) == wnd - held;
    assert wnd == wnd / 0x1_0000 * 0x1_0000 + wnd % 0x1_0000;
    SmallerResidue(wnd, held);
  }

  lemma SmallerResidue(x: nat, k: nat)
    requires k < x % 0x1_0000
    ensures (x - k) % 0x1_0000 == x % 0x1_0000 - k
  {
  }

  // ---------------------------------------------------------------- deliveries without data

  predicate NoPush(ps: seq<Packet>) {
    forall i :: 0 <= i < |ps| ==> ps[i].header.cmd != PUSH
  }

  lemma {:induction false} NoPushKeepsInbox(e: Endpoint, ps: seq<Packet>)
    requires NoPush(ps)
    ensures HandleAll(e, ps).inbox == e.inbox
    decreases |ps|
  {
    if ps != [] {
      HandledInbox(e, ps[0]);
      hide HandlePacket;
      NoPushKeepsInbox(HandlePacket(e, ps[0]), ps[1..]);
    }
  }

  predicate GroupsProbe(groups: seq<seq<Packet>>) {
    exists i :: 0 <= i < |groups| && HasProbe(groups[i])
  }

  /** Datagrams without data change no inbox; one with a WASK makes the receiver owe its window. */
  lemma {:induction false} DeliveriesAsk(me: Peer, other: Peer, groups: seq<seq<Packet>>)
    requires Linked(me, other) && Mailed(groups, other)
    requires forall i :: 0 <= i < |groups| ==> NoPush(groups[i])
    ensures var me' := DeliverAll(me, other.wire, EncodeGroups(other.e.build, groups));
      && me'.e.inbox == me.e.inbox
      && (me.e.probe.askTell || GroupsProbe(groups) ==> me'.e.probe.askTell)
    decreases |groups|
  {
    hide Linked, PeerStep, EncodeAll, AllWellFormed, NoPush, HasProbe, Living;
    if groups != [] {
      MailedTail(groups, other);
      GroupKeeps(me, other, groups[0]);
      GroupAsks(me, other, groups[0]);
      if GroupsProbe(groups) && !HasProbe(groups[0]) {
        var i :| 0 <= i < |groups| && HasProbe(groups[i]);
        assert groups[1..][i - 1] == groups[i];
      }
      hide EncodeGroups, Mailed;
      var me1 := PeerStep(me, other.wire, Action.Deliver(EncodeAll(other.e.build, groups[0])));
      DeliveriesAsk(me1, other, groups[1..]);
    }
  }

  lemma GroupAsks(me: Peer, other: Peer, group: seq<Packet>)
    requires Linked(me, other) && AllWellFormed(other.e.conv, group) && group != [] && NoPush(group)
    requires EncodeAll(other.e.build, group) in other.wire
    ensures var me' := PeerStep(me, other.wire, Action.Deliver(EncodeAll(other.e.build, group)));
      && me'.e.inbox == me.e.inbox
      && (me.e.probe.askTell || HasProbe(group) ==> me'.e.probe.askTell)
  {
    hide Linked, PeerStep, HandleAll, FastAcks, EncodeAll, HasProbe, Conclude;
    var fast := FastAcks(NO_FAST_ACK, group);
    DeliverGroup(me, other, group);
    NoPushKeepsInbox(me.e, group);
    ProbeIsNoted(me.e, group);
    ConcludeKeeps(HandleAll(me.e, group), me.e.out.una, fast);
    ConcludeCalm(HandleAll(me.e, group), me.e.out.una, fast);
  }

  /** Datagrams that all carry one window leave it in force; without any, the old one stays. */
  lemma {:induction false} DeliveriesWindow(me: Peer, other: Peer, groups: seq<seq<Packet>>, wnd: u16)
    requires Linked(me, other) && Mailed(groups, other)
    requires forall i :: 0 <= i < |groups| ==> AllSay(groups[i], wnd)
    ensures var me' := DeliverAll(me, other.wire, EncodeGroups(other.e.build, groups));
      me'.e.windows.rmtWnd == if groups == [] then me.e.windows.rmtWnd else wnd
    decreases |groups|
  {
    hide Linked, PeerStep, EncodeAll, AllWellFormed, AllSay, Living;
    if groups != [] {
      MailedTail(groups, other);
      GroupKeeps(me, other, groups[0]);
      GroupSays(me, other, groups[0], wnd);
      hide EncodeGroups, Mailed;
      var me1 := PeerStep(me, other.wire, Action.Deliver(EncodeAll(other.e.build, groups[0])));
      DeliveriesWindow(me1, other, groups[1..], wnd);
    }
  }

  predicate AllSay(ps: seq<Packet>, wnd: u16) {
    forall i :: 0 <= i < |ps| ==> ps[i].header.wnd == wnd
  }

  lemma GroupSays(me: Peer, other: Peer, group: seq<Packet>, wnd: u16)
    requires Linked(me, other) && AllWellFormed(other.e.conv, group) && group != [] && AllSay(group, wnd)
    requires EncodeAll(other.e.build, group) in other.wire
    ensures PeerStep(me, other.wire, Action.Deliver(EncodeAll(other.e.build, group))).e.windows.rmtWnd == wnd
  {
    hide Linked, PeerStep, HandleAll, FastAcks, EncodeAll, Conclude;
    var fast := FastAcks(NO_FAST_ACK, group);
    DeliverGroup(me, other, group);
    LastWindowCounts(me.e, group);
    ConcludeCalm(HandleAll(me.e, group), me.e.out.una, fast);
  }

  lemma GroupsWithin(groups: seq<seq<Packet>>)
    ensures forall i, j :: 0 <= i < |groups| && 0 <= j < |groups[i]| ==> groups[i][j] in Concat(groups)
  {
    ConcatCovers(groups);
    forall i, j | 0 <= i < |groups| && 0 <= j < |groups[i]|
      ensures groups[i][j] in Concat(groups)
    {
      assert groups[i] in groups && groups[i][j] in groups[i];
    }
  }

  lemma GroupsHaveNoPush(groups: seq<seq<Packet>>)
    requires NoPush(Concat(groups))
    ensures forall i :: 0 <= i < |groups| ==> NoPush(groups[i])
  {
    GroupsWithin(groups);
    hide Concat;
  }

  lemma GroupsAllSay(groups: seq<seq<Packet>>, wnd: u16)
    requires AllSay(Concat(groups), wnd)
    ensures forall i :: 0 <= i < |groups| ==> AllSay(groups[i], wnd)
  {
    GroupsWithin(groups);
    hide Concat;
  }

  lemma GroupsHaveProbe(groups: seq<seq<Packet>>)
    requires HasProbe(Concat(groups))
    ensures GroupsProbe(groups)
  {
    ConcatCovers(groups);
    hide Concat;
    var ps := Concat(groups);
    var k :| 0 <= k < |ps| && ps[k].header.cmd == WASK;
    assert ps[k] in ps;
    var g :| g in groups && ps[k] in g;
    var i :| 0 <= i < |groups| && groups[i] == g;
    var j :| 0 <= j < |g| && g[j] == ps[k];
    assert HasProbe(groups[i]);
  }

  // ---------------------------------------------------------------- reopening a closed window

  /** Nothing is buffered, and the congestion or the remote window lets nothing new through. */
  predicate Closed(e: Endpoint) {
    e.out.buf == [] && CongestionWindow(e.windows) == 0
  }

  /** A flush with the window closed: no data, an open congestion window, and the prober's move. */
  lemma ClosedFlush(e: Endpoint)
    requires Closed(e) && e.out.una == e.out.nxt && e.timing.updated
    ensures var f, probe := Endpoints.Flush(e), FlushedProbe(e);
      && f.out == e.out && f.windows.cwnd >= 1 && f.windows.rmtWnd == e.windows.rmtWnd
      && f.probe == probe.(askSend := false, askTell := false)
      && NoPush(FlushPackets(e))
      && (probe.askSend ==> HasProbe(FlushPackets(e)))
  {
    AdmitExact(e.out, 0, StampOf(e), e.estimate.rto);
    assert AdmitCount(e.out, 0) == 0;
    AdmitNone(e.out, StampOf(e), e.estimate.rto);
    FlushClears(e);
    FlushKeepsBuild(e);
    ClosedPackets(e);
    hide Admit, AdmitFirst, CongestionWindow, FlushedWindows, FlushedTuning, FlushedProbe, PassOf, StampOf,
         FlushPackets;
    assert ProcessedAll(PassOf(e), []) == [];
  }

  lemma ClosedPackets(e: Endpoint)
    requires Endpoints.Admitted(e).buf == []
    ensures NoPush(FlushPackets(e))
    ensures FlushedProbe(e).askSend ==> HasProbe(FlushPackets(e))
  {
    var acks := AckPackets(StampOf(e), e.acks);
    hide Endpoints.Admitted, StampOf, FlushedProbe, LastAck, PassOf;
    assert FlushPackets(e) == acks + ProbePackets(StampOf(e), FlushedProbe(e), LastAck(e.acks)) + [];
    if FlushedProbe(e).askSend {
      assert FlushPackets(e)[|acks|].header.cmd == WASK;
    }
  }

  /** What the prober does at a flush that finds the remote window closed. */
  lemma ClosedProbe(p: Probe, now: u32)
    ensures var p' := Probing.Update(p, now, 0);
      && (p'.probeWait != 0 || p'.askSend)
      && (p.probeWait != 0 && Due(now, p.tsProbe) ==> p'.askSend)
  {
    hide TimeDelta, Wrap32;
  }

  /** The outward half of a round with the window closed: B's inbox stays, and a probe is heard. */
  lemma ClosedOutward(s: System, r: Schedule)
    requires Linked(s.a, s.b) && TimersDue(s.a, s.b, r) && Closed(s.a.e)
    ensures var t, probe := StagesOf(s, r), FlushedProbe(Ticked(s.a.e, Wrap32(r.at)));
      && t.a1.e.out == s.a.e.out && t.a1.e.windows.cwnd >= 1
      && t.a1.e.windows.rmtWnd == s.a.e.windows.rmtWnd
      && t.a1.e.probe == probe.(askSend := false, askTell := false)
      && t.b1.e.inbox == t.b0.e.inbox && t.b1.e.windows.rcvWnd == t.b0.e.windows.rcvWnd
      && (probe.askSend ==> t.b1.e.probe.askTell)
  {
    hide UpdateDatagrams, Mailed, EncodeGroups, FlushDue, Drained, Endpoints.Recv, Endpoints.Flush, Linked, Living,
         DeliverAll, Concat, PeerStep, Wrap32, Outgoing, FlushPackets, FlushedProbe, NoPush, HasProbe, GroupsProbe,
         CongestionWindow, TimersDue, NextFlush;
    OutwardStages(s, r);
    TickedUpdated(s.a.e, Wrap32(r.at));
    EmptyBufferUna(s.a, s.b);
    var t, groups := StagesOf(s, r), UpdateDatagrams(s.a.e, Wrap32(r.at));
    ClosedFlush(Ticked(s.a.e, Wrap32(r.at)));
    GroupsHaveNoPush(groups);
    if FlushedProbe(Ticked(s.a.e, Wrap32(r.at))).askSend {
      GroupsHaveProbe(groups);
    }
    LinkedSwap(t.a1, t.b0);
    DeliveriesAsk(t.b0, t.a1, groups);
  }

  lemma TickedUpdated(e: Endpoint, now: u32)
    ensures Ticked(e, now).timing.updated && Ticked(e, now).timing.current == now
    ensures Ticked(e, now) == e.(timing := Ticked(e, now).timing)
  {
    hide FlushDue;
  }

  lemma EmptyBufferUna(me: Peer, other: Peer)
    requires Linked(me, other) && me.e.out.buf == []
    ensures me.e.out.una == me.e.out.nxt
  {
    NumbersWithin(me, other);
    hide Linked, AllCarry, Remaining;
  }

  /** The returning half: whatever B says carries its window, and it says something when asked. */
  lemma ClosedReturn(s: System, r: Schedule)
    requires Linked(s.a, s.b) && TimersDue(s.a, s.b, r)
    ensures var t := StagesOf(s, r);
      var wnd := AdvertisedWindow(t.b1.e);
      && (t.a2.e.windows.rmtWnd == t.a1.e.windows.rmtWnd || t.a2.e.windows.rmtWnd == wnd)
      && (t.b1.e.probe.askTell ==> t.a2.e.windows.rmtWnd == wnd)
  {
    hide UpdateDatagrams, Mailed, EncodeGroups, FlushDue, Drained, Endpoints.Recv, Endpoints.Flush, Linked, Living,
         DeliverAll, Concat, PeerStep, Wrap32, Outgoing, FlushPackets, AllSay, TimersDue, NextFlush;
    OutwardStages(s, r);
    ReturnStages(s, r);
    var t := StagesOf(s, r);
    var ticked, groups := Ticked(t.b1.e, Wrap32(r.back)), UpdateDatagrams(t.b1.e, Wrap32(r.back));
    var wnd := AdvertisedWindow(t.b1.e);
    TickedUpdated(t.b1.e, Wrap32(r.back));
    FlushSaysWindow(ticked);
    SaysWindow(ticked, t.b1.e);
    GroupsAllSay(groups, wnd);
    if t.b1.e.probe.askTell {
      FlushAnswers(ticked);
      assert groups == [] ==> Concat(groups) == [] by {
        ConcatNothing();
      }
    }
    LinkedSwap(t.b2, t.a1);
    DeliveriesWindow(t.a1, t.b2, groups, wnd);
  }

  lemma ConcatNothing()
    ensures Concat([]) == []
  {
  }

  lemma SaysWindow(e: Endpoint, e': Endpoint)
    requires e == e'.(timing := e.timing)
    ensures AdvertisedWindow(e) == AdvertisedWindow(e') && AllSay(FlushPackets(e), AdvertisedWindow(e'))
  {
    FlushSaysWindow(e);
    hide FlushPackets;
  }

  lemma FlushAnswers(e: Endpoint)
    requires e.probe.askTell
    ensures FlushPackets(e) != []
  {
    assert FlushedProbe(e).askTell;
    hide StampOf, LastAck, FlushedProbe, Endpoints.Admitted, Emitted, AckPackets, PassOf, Service;
  }

  /** What A can tell of its window after a round that began with it closed. */
  predicate Reopening(e: Endpoint, e': Endpoint, now: u32) {
    && e'.out.buf == [] && e'.out.queue == e.out.queue && e'.out.nxt == e.out.nxt
    && e'.windows.cwnd >= 1
    && (e.windows.rmtWnd > 0 ==> e'.windows.rmtWnd > 0)
    && (e.windows.rmtWnd == 0 ==> e'.windows.rmtWnd > 0 || e'.probe.probeWait != 0)
    && (e.windows.rmtWnd == 0 && e.probe.probeWait != 0 && Due(now, e.probe.tsProbe) ==> e'.windows.rmtWnd > 0)
  }

  /** B advertises an open window all through a round in which A sends no data. */
  lemma ReceiverAdvertises(s: System, r: Schedule, bound: u32)
    requires Equipped(s, r.capacity, bound) && TimersDue(s.a, s.b, r) && Closed(s.a.e)
    ensures AdvertisedWindow(StagesOf(s, r).b1.e) >= 1
  {
    hide UpdateDatagrams, Mailed, EncodeGroups, Drained, Endpoints.Recv, Endpoints.Flush, Living, Local,
         DeliverAll, Concat, PeerStep, Wrap32, Outgoing, FlushPackets, TimersDue, Closed, Link, LimitAdmits, Fragments,
         AdvertisedWindow, Advertises, PeekSize, Ticked, FlushedProbe;
    OutwardStages(s, r);
    ClosedOutward(s, r);
    var t := StagesOf(s, r);
    DrainedPeekFails(t.b0, s.a, r.capacity);
    DrainedQueueShort(s.a, t.b0, bound);
    OpenAdvertised(t.b1.e, bound);
  }

  /** One round with the window closed, when B advertises an open one. */
  lemma ClosedRoundOpens(s: System, r: Schedule)
    requires Linked(s.a, s.b) && TimersDue(s.a, s.b, r) && Closed(s.a.e)
    requires AdvertisedWindow(StagesOf(s, r).b1.e) >= 1
    ensures Reopening(s.a.e, Round(s, r).a.e, Wrap32(r.at))
  {
    hide UpdateDatagrams, Mailed, EncodeGroups, Drained, Endpoints.Recv, Endpoints.Flush, Living, Linked,
         DeliverAll, Concat, PeerStep, Outgoing, FlushPackets, TimersDue, LimitAdmits, Fragments,
         AdvertisedWindow, Advertises, PeekSize, CongestionWindow, NextFlush, Wrap32, Probing.Update;
    var t := StagesOf(s, r);
    OutwardStages(s, r);
    ReturnStages(s, r);
    ClosedOutward(s, r);
    ClosedReturn(s, r);
    TickedUpdated(s.a.e, Wrap32(r.at));
    ClosedProbe(s.a.e.probe, Wrap32(r.at));
  }

  lemma ClosedRound(s: System, r: Schedule, bound: u32)
    requires Equipped(s, r.capacity, bound) && TimersDue(s.a, s.b, r) && Closed(s.a.e)
    ensures Reopening(s.a.e, Round(s, r).a.e, Wrap32(r.at))
  {
    hide Linked, StagesOf, TimersDue, Closed, LimitAdmits, Fragments, AdvertisedWindow, Advertises, Round;
    ReceiverAdvertises(s, r, bound);
    ClosedRoundOpens(s, r);
  }

  /**
   A closed window reopens: two fair rounds, the second at the time of the probe, leave A with a
   congestion and a remote window that let its next fragment through. It takes one flush to open
   the congestion window, one to arm the prober, and a WASK answered by a WINS.
   */
  lemma WindowReopens(s: System, capacity: nat, bound: u32) returns (rs: seq<Schedule>)
    requires Deliverable(s, capacity, bound) && Closed(s.a.e)
    ensures Fair(s, rs, capacity) && |rs| <= 2
    ensures var s' := RoundAll(s, rs);
      && Deliverable(s', capacity, bound)
      && s'.a.e.out.buf == [] && s'.a.e.out.queue == s.a.e.out.queue && s'.a.e.out.nxt == s.a.e.out.nxt
      && CongestionWindow(s'.a.e.windows) > 0
      && s'.a.sent == s.a.sent && s'.a.e.mss == s.a.e.mss && s'.a.e.out.una >= s.a.e.out.una
  {
    var r := RoundAt(s, capacity, s.a.e.probe.tsProbe);
    RoundAtWorks(s, capacity, s.a.e.probe.tsProbe);
    hide Linked, TimersDue, LimitAdmits, Fragments, Spoken, CanGoOn, Round, FlushDue, Due, Wrap32, RoundAt, Later,
         MessagesWithin, Advertises;
    ClosedRound(s, r, bound);
    RoundDeliverable(s, r, bound);
    FairOne(s, r, capacity);
    var s1 := Round(s, r);
    if s1.a.e.windows.rmtWnd > 0 {
      rs := [r];
    } else {
      var r1 := RoundAt(s1, capacity, s1.a.e.probe.tsProbe);
      RoundAtWorks(s1, capacity, s1.a.e.probe.tsProbe);
      ClosedRound(s1, r1, bound);
      RoundDeliverable(s1, r1, bound);
      FairOne(s1, r1, capacity);
      FairConcat(s, [r], [r1], capacity);
      rs := [r] + [r1];
    }
  }

  // ---------------------------------------------------------------- one more fragment

  /** With a segment buffered, or the window open and one queued, the next round can be chosen due. */
  lemma FrontBecomesDue(s: System, capacity: nat, bound: u32) returns (r: Schedule)
    requires Deliverable(s, capacity, bound) && s.a.e.out.una < |Spoken(s.a)|
    requires s.a.e.out.buf != [] || CongestionWindow(s.a.e.windows) > 0
    ensures FlushesDue(s.a, s.b, r) && r.capacity == capacity && r.at >= s.a.clock && r.back >= s.b.clock
  {
    var target := if s.a.e.out.buf != [] then s.a.e.out.buf[0].meta.resendts else 0;
    r := RoundAt(s, capacity, target);
    RoundAtWorks(s, capacity, target);
    hide Linked, TimersDue, LimitAdmits, Fragments, Spoken, CanGoOn, FlushDue, Due, Wrap32, RoundAt, MessagesWithin,
         Advertises, CongestionWindow, NextFlush;
    NumbersWithin(s.a, s.b);
    TickedUpdated(s.a.e, Wrap32(r.at));
    if s.a.e.out.buf != [] {
      OldFrontDue(Ticked(s.a.e, Wrap32(r.at)));
    } else {
      NewFrontDue(Ticked(s.a.e, Wrap32(r.at)), Spoken(s.a));
    }
  }

  lemma OldFrontDue(e: Endpoint)
    requires e.out.una <= e.out.nxt && e.out.buf != [] && Due(e.timing.current, e.out.buf[0].meta.resendts)
    ensures FrontDue(e)
  {
    AdmitExact(e.out, CongestionWindow(e.windows), StampOf(e), e.estimate.rto);
    hide Admit, AdmitCount, Due, CongestionWindow, AdvertisedWindow;
  }

  lemma NewFrontDue(e: Endpoint, stream: seq<Frag>)
    requires OutboxMatches(e.out, e.conv, stream) && e.out.buf == [] && e.out.una < |stream|
    requires 0 < CongestionWindow(e.windows) <= e.windows.sndWnd && e.out.una + e.windows.sndWnd < 0x1_0000_0000
    ensures FrontDue(e)
  {
    AdmitExact(e.out, CongestionWindow(e.windows), StampOf(e), e.estimate.rto);
    hide Admit, Due, CongestionWindow, StampOf;
    assert AdmitCount(e.out, CongestionWindow(e.windows)) > 0;
  }

  /** From every state short of full acknowledgement at most three fair rounds acknowledge more. */
  lemma MoreAcknowledged(s: System, capacity: nat, bound: u32) returns (rs: seq<Schedule>)
    requires Deliverable(s, capacity, bound) && s.a.e.out.una < |Spoken(s.a)|
    ensures Fair(s, rs, capacity) && |rs| <= 3
    ensures var s' := RoundAll(s, rs);
      && Deliverable(s', capacity, bound)
      && s'.a.sent == s.a.sent && s'.a.e.mss == s.a.e.mss && s'.a.e.out.una > s.a.e.out.una
  {
    hide Linked, TimersDue, FrontDue, LimitAdmits, Fragments, Spoken, CanGoOn, Round, MessagesWithin, Advertises,
         CongestionWindow;
    var s1, before := s, [];
    if Closed(s.a.e) {
      before := WindowReopens(s, capacity, bound);
      s1 := RoundAll(s, before);
    }
    SpokenSame(s.a, s1.a);
    NumbersWithin(s.a, s.b);
    EmptyBuffersMatch(s, s1);
    var r := FrontBecomesDue(s1, capacity, bound);
    DeliverableReceptive(s1, capacity, bound);
    RoundAcknowledges(s1, r);
    RoundDeliverable(s1, r, bound);
    FairOne(s1, r, capacity);
    FairConcat(s, before, [r], capacity);
    rs := before + [r];
  }

  lemma EmptyBuffersMatch(s: System, s1: System)
    requires Linked(s.a, s.b) && Linked(s1.a, s1.b)
    requires s1 == s || (s.a.e.out.buf == [] && s1.a.e.out.buf == [] && s1.a.e.out.nxt == s.a.e.out.nxt)
    ensures s1.a.e.out.una == s.a.e.out.una
  {
    if s1 != s {
      EmptyBufferUna(s.a, s.b);
      EmptyBufferUna(s1.a, s1.b);
    }
  }

  // ---------------------------------------------------------------- every message

  /**
   Eventual delivery: from every state in which B can go on there is a finite schedule of fair
   rounds, on clocks that never go back, after which everything is acknowledged and B's
   application, reading what is there, has received every message A sent.
   */
  lemma {:induction false} EverythingArrives(s: System, capacity: nat, bound: u32) returns (rs: seq<Schedule>)
    requires Deliverable(s, capacity, bound)
    ensures Fair(s, rs, capacity)
    ensures RoundAll(s, rs).a.e.out.una == |Spoken(s.a)|
    ensures Drained(RoundAll(s, rs).b, capacity).received == s.a.sent
    ensures |rs| <= 3 * (|Spoken(s.a)| - s.a.e.out.una)
    decreases |Spoken(s.a)| - s.a.e.out.una
  {
    hide Linked, LimitAdmits, Fragments, Spoken, CanGoOn, MessagesWithin, Advertises, Drained;
    NumbersWithin(s.a, s.b);
    if s.a.e.out.una == |Spoken(s.a)| {
      rs := [];
      AcknowledgedIsReadable(s, capacity, bound);
    } else {
      var first := MoreAcknowledged(s, capacity, bound);
      var s1 := RoundAll(s, first);
      SpokenSame(s.a, s1.a);
      NumbersWithin(s1.a, s1.b);
      var rest := EverythingArrives(s1, capacity, bound);
      FairConcat(s, first, rest, capacity);
      rs := first + rest;
    }
  }

  /** Once every fragment is acknowledged, reading what is there yields every message. */
  lemma AcknowledgedIsReadable(s: System, capacity: nat, bound: u32)
    requires Deliverable(s, capacity, bound) && s.a.e.out.una == |Spoken(s.a)|
    ensures Drained(s.b, capacity).received == s.a.sent
  {
    hide Local, LimitAdmits, Fragments, Spoken, CanGoOn, MessagesWithin, Advertises, Drained, Endpoints.Recv, PeekSize,
         Link;
    LinkedSwap(s.a, s.b);
    DrainedKeeps(s.b, s.a, capacity);
    var b := Drained(s.b, capacity);
    LinkedSwap(b, s.a);
    DrainedPeekFails(b, s.a, capacity);
    NothingLeft(s.a, b);
  }

  // ---------------------------------------------------------------- exactly when

  /** Nothing to read, something left to receive, and every number the window admits is held. */
  ghost predicate Stuck(a: Peer, b: Endpoint) {
    && !CanGoOn(b.inbox, b.windows.rcvWnd, |Spoken(a)|)
    && |Spoken(a)| + b.windows.rcvWnd < 0x1_0000_0000
  }

  lemma StuckPacket(me: Peer, other: Peer, p: Packet)
    requires Link(other, me) && p in other.spoken && Stuck(other, me.e)
    ensures HandlePacket(me.e, p).inbox == me.e.inbox
    ensures HandlePacket(me.e, p).windows.rcvWnd == me.e.windows.rcvWnd
  {
    hide Link, HandlePacket, CanGoOn, Spoken, Emplace, Wrap32;
    HandledInbox(me.e, p);
    PacketCalm(me.e, p);
    var r, wnd, sn := me.e.inbox, me.e.windows.rcvWnd, p.header.sn;
    if p.header.cmd == PUSH && FitsReceiveWindow(me.e.windows, r.nxt, sn) && ShouldReceive(r, sn) {
      PushNumber(other, me, p);
      WrapSmall(r.nxt + wnd);
      StuckEmplace(r, wnd, |Spoken(other)|, Segment(p.header, p.data, NEW_METADATA));
    }
  }

  /** A PUSH on the wire carries a number of the stream. */
  lemma PushNumber(s: Peer, r: Peer, p: Packet)
    requires Link(s, r) && p in s.spoken && p.header.cmd == PUSH
    ensures p.header.sn < |Spoken(s)| && r.e.inbox.nxt <= |Spoken(s)| && Sorted(r.e.inbox.buf)
  {
    hide Replies, Scheduled, OutboxMatches, NoLoss, GoodMessages, Stream, Sorted, QueueContinues;
    assert PushOk(p, s.e.out.nxt, Spoken(s), s.log);
  }

  lemma StuckEmplace(r: Inbox, wnd: u32, top: nat, seg: Segment)
    requires !CanGoOn(r, wnd, top) && Sorted(r.buf) && r.nxt <= seg.header.sn < r.nxt + wnd && seg.header.sn < top
    ensures Emplace(r, seg) == r
  {
    hide PeekSize, Settle, InsertPos;
    assert !Missing(r, wnd, top, seg.header.sn);
    DuplicateTestExact(r.buf, seg.header.sn);
  }

  lemma {:induction false} StuckPackets(me: Peer, other: Peer, ps: seq<Packet>)
    requires Link(me, other) && Link(other, me) && (forall p :: p in ps ==> p in other.spoken)
    requires Stuck(other, me.e)
    ensures HandleAll(me.e, ps).inbox == me.e.inbox
    decreases |ps|
  {
    hide Link, HandlePacket, CanGoOn, Spoken;
    if ps != [] {
      PacketAsSender(me, other, ps[0]);
      PacketAsReceiver(other, me, ps[0]);
      StuckPacket(me, other, ps[0]);
      StuckPackets(me.(e := HandlePacket(me.e, ps[0])), other, ps[1..]);
    }
  }

  lemma {:induction false} StuckDeliveries(me: Peer, other: Peer, groups: seq<seq<Packet>>)
    requires Linked(me, other) && Mailed(groups, other) && Stuck(other, me.e)
    ensures DeliverAll(me, other.wire, EncodeGroups(other.e.build, groups)).e.inbox == me.e.inbox
    decreases |groups|
  {
    hide Linked, PeerStep, EncodeAll, AllWellFormed, CanGoOn, Spoken, Living;
    if groups != [] {
      MailedTail(groups, other);
      GroupKeeps(me, other, groups[0]);
      StuckGroup(me, other, groups[0]);
      hide EncodeGroups, Mailed;
      var me1 := PeerStep(me, other.wire, Action.Deliver(EncodeAll(other.e.build, groups[0])));
      StuckDeliveries(me1, other, groups[1..]);
    }
  }

  lemma StuckGroup(me: Peer, other: Peer, group: seq<Packet>)
    requires Linked(me, other) && AllWellFormed(other.e.conv, group) && group != [] && Stuck(other, me.e)
    requires EncodeAll(other.e.build, group) in other.wire
    ensures PeerStep(me, other.wire, Action.Deliver(EncodeAll(other.e.build, group))).e.inbox == me.e.inbox
  {
    hide PeerStep, HandleAll, FastAcks, EncodeAll, Conclude, Link, Local, Stuck;
    DeliverGroup(me, other, group);
    StuckPackets(me, other, group);
    ConcludeKeeps(HandleAll(me.e, group), me.e.out.una, FastAcks(NO_FAST_ACK, group));
  }

  /** A round leaves a stuck receiver as it is. */
  lemma StuckRound(s: System, r: Schedule)
    requires Linked(s.a, s.b) && TimersDue(s.a, s.b, r) && Stuck(s.a, s.b.e)
    ensures var s' := Round(s, r);
      && Linked(s'.a, s'.b) && Stuck(s'.a, s'.b.e)
      && s'.b.e.inbox == s.b.e.inbox && s'.b.received == s.b.received && s'.a.sent == s.a.sent
  {
    hide UpdateDatagrams, Mailed, EncodeGroups, FlushDue, Endpoints.Recv, Endpoints.Flush, Linked, Living,
         DeliverAll, Concat, PeerStep, Wrap32, Outgoing, FlushPackets, TimersDue, CanGoOn, Spoken, NextFlush;
    StuckCannotRead(s.a, s.b, r.capacity);
    OutwardStages(s, r);
    ReturnStages(s, r);
    RoundKeeps(s, r);
    var t := StagesOf(s, r);
    UpdateKeepsRest(s.a, t.b0, r.at);
    SpokenSame(s.a, t.a1);
    SpokenSame(s.a, t.a2);
    LinkedSwap(t.a1, t.b0);
    StuckDeliveries(t.b0, t.a1, UpdateDatagrams(s.a.e, Wrap32(r.at)));
    UpdateKeepsRest(t.b1, t.a1, r.back);
    ReceivedStays(t.b1, t.a1.wire, r.back);
  }

  lemma ReceivedStays(me: Peer, incoming: set<seq<u8>>, now: nat)
    ensures PeerStep(me, incoming, Action.Update(now)).received == me.received
  {
    hide Endpoints.Update, UpdateDatagrams;
  }

  lemma StuckCannotRead(a: Peer, b: Peer, capacity: nat)
    requires Stuck(a, b.e)
    ensures Endpoints.Recv(b.e, capacity).1.Err? && Drained(b, capacity) == b
    ensures PeekSize(b.e.inbox).Err?
  {
    hide PeekSize, Settle, TakeCount;
  }

  lemma {:induction false} StuckForever(s: System, rs: seq<Schedule>, capacity: nat)
    requires Linked(s.a, s.b) && Stuck(s.a, s.b.e) && Fair(s, rs, capacity)
    ensures var s' := RoundAll(s, rs);
      Drained(s'.b, capacity).received == s.b.received && s'.b.e.inbox == s.b.e.inbox
    decreases |rs|
  {
    hide Linked, Stuck, Round, TimersDue;
    if rs == [] {
      StuckCannotRead(s.a, s.b, capacity);
    } else {
      StuckRound(s, rs[0]);
      StuckForever(Round(s, rs[0]), rs[1..], capacity);
    }
  }

  /**
   Delivery, exactly. In every reachable state in which B's queue has room for every message and
   its window is not advertised as 0 when read out, and the numbers in play stay a window below
   2^32, some finite schedule of fair rounds delivers every message A has sent if and only if B
   can go on: it has a message to read, or has everything already, or misses a number its window
   admits and A has. No step taken before, no loss and no setting changes that.
   */
  lemma DeliveryExactly(build: Build, conv: u32, mssA: Mss, mssB: Mss, steps: seq<(Side, Action)>,
                        capacity: nat, bound: u32)
    requires Provided(Run(Initial(build, conv, mssA, mssB), steps), capacity, bound)
    ensures var s := Run(Initial(build, conv, mssA, mssB), steps);
      (exists rs :: Fair(s, rs, capacity) && Drained(RoundAll(s, rs).b, capacity).received == s.a.sent)
      <==> CanGoOn(s.b.e.inbox, s.b.e.windows.rcvWnd, |Spoken(s.a)|)
  {
    var s := Run(Initial(build, conv, mssA, mssB), steps);
    EveryRunLinked(build, conv, mssA, mssB, steps);
    hide Run, Local, LimitAdmits, Fragments, Spoken, MessagesWithin, Advertises, RoundAll, Drained, Fair, PeekSize,
         Link;
    if CanGoOn(s.b.e.inbox, s.b.e.windows.rcvWnd, |Spoken(s.a)|) {
      var rs := EverythingArrives(s, capacity, bound);
      assert Fair(s, rs, capacity);
    } else {
      StuckUndelivered(s, capacity);
    }
  }

  lemma StuckUndelivered(s: System, capacity: nat)
    requires Linked(s.a, s.b) && Stuck(s.a, s.b.e)
    ensures forall rs :: Fair(s, rs, capacity) ==> Drained(RoundAll(s, rs).b, capacity).received != s.a.sent
  {
    hide Local, Link, Spoken, Fair, RoundAll, Drained, PeekSize;
    AllReceivedExactly(s.a, s.b);
    forall rs | Fair(s, rs, capacity)
      ensures Drained(RoundAll(s, rs).b, capacity).received != s.a.sent
    {
      StuckForever(s, rs, capacity);
    }
  }
}
