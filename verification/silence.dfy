/** A window advertised as 0: when a sender that has heard it can ever send again. */
module Silence {
  import opened Words
  import opened Segments
  import opened Codec
  import opened Receiving
  import opened Congestion
  import opened Packing
  import opened Fragmentation
  import opened Transmission
  import opened Endpoints
  import opened Matching
  import opened Links
  import opened Flushing
  import opened Safety
  import opened Progress
  import opened Rounds
  import opened Delivery
  import opened Witnesses

  /** Nothing is in flight, A has heard a window of 0, and B has read what there is. */
  predicate Shut(s: System) {
    && s.a.e.out.buf == [] && s.a.e.windows.rmtWnd == 0
    && PeekSize(s.b.e.inbox).Err?
  }

  lemma NothingToRead(p: Peer, capacity: nat)
    requires PeekSize(p.e.inbox).Err?
    ensures Drained(p, capacity) == p
  {
    hide PeekSize;
  }

  lemma ShutIsClosed(e: Endpoint)
    requires e.out.buf == [] && e.windows.rmtWnd == 0
    ensures Closed(e)
  {
  }

  /** A round leaves what B holds, and A with what it has to send. */
  lemma ShutRound(s: System, r: Schedule)
    requires Linked(s.a, s.b) && TimersDue(s.a, s.b, r) && Shut(s)
    ensures var s', t := Round(s, r), StagesOf(s, r);
      && Linked(s'.a, s'.b) && s'.a.sent == s.a.sent && s'.a.e.mss == s.a.e.mss
      && s'.b.e.inbox == s.b.e.inbox && s'.b.e.windows.rcvWnd == s.b.e.windows.rcvWnd && s'.b.received == s.b.received
      && s'.a.e.out.buf == [] && s'.a.e.out.queue == s.a.e.out.queue && s'.a.e.windows.sndWnd == s.a.e.windows.sndWnd
      && t.b1.e.inbox == s.b.e.inbox && t.b1.e.windows.rcvWnd == s.b.e.windows.rcvWnd
  {
    hide UpdateDatagrams, Mailed, EncodeGroups, Drained, Endpoints.Recv, Endpoints.Flush, Linked, Living, DeliverAll,
         Concat, PeerStep, Wrap32, Outgoing, FlushPackets, FlushedProbe, CongestionWindow, TimersDue, NextFlush,
         PeekSize;
    ShutIsClosed(s.a.e);
    NothingToRead(s.b, r.capacity);
    RoundKeeps(s, r);
    OutwardStages(s, r);
    ReturnStages(s, r);
    ClosedOutward(s, r);
    var t := StagesOf(s, r);
    UpdateKeepsRest(t.b1, t.a1, r.back);
    UpdateReceives(t.b1, t.a1.wire, r.back);
  }

  lemma UpdateReceives(me: Peer, incoming: set<seq<u8>>, now: nat)
    ensures PeerStep(me, incoming, Action.Update(now)).received == me.received
  {
    hide Endpoints.Update, UpdateDatagrams;
  }

  lemma SameAdvertised(e: Endpoint, e': Endpoint)
    requires e'.inbox == e.inbox && e'.windows.rcvWnd == e.windows.rcvWnd
    ensures AdvertisedWindow(e') == AdvertisedWindow(e)
  {
  }

  /** While B advertises 0, a round leaves A shut. */
  lemma SilentRound(s: System, r: Schedule)
    requires Linked(s.a, s.b) && TimersDue(s.a, s.b, r) && Shut(s) && AdvertisedWindow(s.b.e) == 0
    ensures Shut(Round(s, r)) && AdvertisedWindow(Round(s, r).b.e) == 0
  {
    hide Linked, TimersDue, AdvertisedWindow, PeekSize, StagesOf, CongestionWindow, NextFlush, FlushedProbe;
    ShutRound(s, r);
    ShutIsClosed(s.a.e);
    ClosedOutward(s, r);
    ClosedReturn(s, r);
    SameAdvertised(s.b.e, Round(s, r).b.e);
    SameAdvertised(s.b.e, StagesOf(s, r).b1.e);
    EndOfRound(s, r);
    hide Round;
  }

  lemma EndOfRound(s: System, r: Schedule)
    ensures Round(s, r).a == StagesOf(s, r).a2 && Round(s, r).b == StagesOf(s, r).b2
  {
  }

  /** Silence lasts: no fair schedule opens the window, and B receives nothing more. */
  lemma {:induction false} SilencedForever(s: System, rs: seq<Schedule>, capacity: nat)
    requires Linked(s.a, s.b) && Shut(s) && AdvertisedWindow(s.b.e) == 0 && Fair(s, rs, capacity)
    ensures var s' := RoundAll(s, rs);
      && Linked(s'.a, s'.b) && Shut(s') && CongestionWindow(s'.a.e.windows) == 0
      && s'.b.received == s.b.received && s'.a.e.out.queue == s.a.e.out.queue && s'.a.sent == s.a.sent
    decreases |rs|
  {
    hide Linked, TimersDue, AdvertisedWindow, Round, PeekSize;
    if rs != [] {
      ShutRound(s, rs[0]);
      SilentRound(s, rs[0]);
      SilencedForever(Round(s, rs[0]), rs[1..], capacity);
    }
  }

  /** A fair round at the time of the probe, in which B advertises an open window. */
  lemma SpokenRound(s: System, r: Schedule)
    requires Linked(s.a, s.b) && TimersDue(s.a, s.b, r) && Shut(s) && AdvertisedWindow(s.b.e) != 0
    ensures Reopening(s.a.e, Round(s, r).a.e, Wrap32(r.at))
  {
    hide Linked, TimersDue, AdvertisedWindow, PeekSize, StagesOf, CongestionWindow, Round;
    ShutRound(s, r);
    ShutIsClosed(s.a.e);
    SameAdvertised(s.b.e, StagesOf(s, r).b1.e);
    ClosedRoundOpens(s, r);
  }

  lemma ShutReopens(s: System, capacity: nat) returns (rs: seq<Schedule>)
    requires Linked(s.a, s.b) && Shut(s) && AdvertisedWindow(s.b.e) != 0 && s.a.e.windows.sndWnd > 0
    ensures Fair(s, rs, capacity) && CongestionWindow(RoundAll(s, rs).a.e.windows) > 0
  {
    hide Linked, TimersDue, AdvertisedWindow, PeekSize, Round, Wrap32, RoundAt, Due;
    var r := RoundAt(s, capacity, s.a.e.probe.tsProbe);
    RoundAtWorks(s, capacity, s.a.e.probe.tsProbe);
    ShutRound(s, r);
    SpokenRound(s, r);
    FairOne(s, r, capacity);
    var s1 := Round(s, r);
    if s1.a.e.windows.rmtWnd > 0 {
      rs := [r];
    } else {
      SameAdvertised(s.b.e, s1.b.e);
      var r1 := RoundAt(s1, capacity, s1.a.e.probe.tsProbe);
      RoundAtWorks(s1, capacity, s1.a.e.probe.tsProbe);
      ShutRound(s1, r1);
      SpokenRound(s1, r1);
      FairOne(s1, r1, capacity);
      FairConcat(s, [r], [r1], capacity);
      rs := [r] + [r1];
    }
  }

  /**
   When a closed window ever opens again, exactly: with nothing in flight, a remote window of 0
   heard and B read out, some fair schedule lets A send again if and only if the window B then
   advertises is not 0.
   */
  lemma OpensExactly(s: System, capacity: nat)
    requires Linked(s.a, s.b) && Shut(s) && s.a.e.windows.sndWnd > 0
    ensures (exists rs :: Fair(s, rs, capacity) && CongestionWindow(RoundAll(s, rs).a.e.windows) > 0)
       <==> AdvertisedWindow(s.b.e) != 0
  {
    hide Linked, AdvertisedWindow, Fair, RoundAll, Shut, CongestionWindow;
    if AdvertisedWindow(s.b.e) != 0 {
      var rs := ShutReopens(s, capacity);
      assert Fair(s, rs, capacity);
    } else {
      forall rs | Fair(s, rs, capacity)
        ensures CongestionWindow(RoundAll(s, rs).a.e.windows) == 0
      {
        SilencedForever(s, rs, capacity);
      }
    }
  }

  /** While the silence lasts what A still has to send is never delivered. */
  lemma SilencedUndelivered(s: System, capacity: nat)
    requires Linked(s.a, s.b) && Shut(s) && AdvertisedWindow(s.b.e) == 0 && s.a.e.out.queue != []
    ensures forall rs :: Fair(s, rs, capacity) ==> Drained(RoundAll(s, rs).b, capacity).received != s.a.sent
  {
    hide Linked, AdvertisedWindow, Fair, RoundAll, PeekSize, Drained;
    forall rs | Fair(s, rs, capacity)
      ensures Drained(RoundAll(s, rs).b, capacity).received != s.a.sent
    {
      SilencedForever(s, rs, capacity);
      var s' := RoundAll(s, rs);
      NothingToRead(s'.b, capacity);
      NotAllYet(s'.a, s'.b);
    }
  }

  lemma NotAllYet(s: Peer, r: Peer)
    requires Linked(s, r) && PeekSize(r.e.inbox).Err? && s.e.out.queue != []
    ensures r.received != s.sent
  {
    AllReceivedExactly(s, r);
    hide PeekSize, Local, Spoken, Pushes, Replies, Scheduled, NoLoss;
  }

  // ---------------------------------------------------------------- a run that falls silent

  const WIDE: u32 := 0x1_0000

  function Opening(): seq<(Side, Action)> {
    [(B, Action.Configure(ReceiveWindow(WIDE))), (A, Action.Configure(CongestionWindowEnabled(false))),
     (A, Action.Send([7]))]
  }

  lemma OpeningDone(build: Build, conv: u32, mssA: Mss, mssB: Mss)
    ensures var s := Run(Initial(build, conv, mssA, mssB), Opening());
      && s.a.sent == [[7]] && s.b.received == [] && Fresh(s.a.e) && !s.a.e.timing.updated
      && s.a.e.out.queue == [Queued(Frag(0, [7]))] && s.a.e.windows.rcvWnd == WND_RCV
      && s.b.e.inbox == Inbox([], [], WIDE, 0) && s.b.e.windows.rcvWnd == WIDE
  {
    var s0, steps := Initial(build, conv, mssA, mssB), Opening();
    hide Run;
    RunTwo(s0, steps[0], steps[1]);
    RunAppend(s0, steps[..2], steps[2..]);
    RunOne(Run(s0, steps[..2]), A, steps[2].1);
    assert steps[..2] == [steps[0], steps[1]] && steps[2..] == [steps[2]] && steps[..2] + steps[2..] == steps;
    assert Fragments([7], mssA) == [Frag(0, [7])];
    assert [] + QueuedAll([Frag(0, [7])]) == [Queued(Frag(0, [7]))];
  }

  /** The single data packet of A's first update. */
  predicate Sole(ps: seq<Packet>) {
    |ps| == 1 && ps[0].header.cmd == PUSH && ps[0].header.sn == 0 && ps[0].header.frg == 0 && ps[0].header.len == 1
  }

  lemma OpeningUpdate(build: Build, conv: u32, mssA: Mss, mssB: Mss)
    ensures var s := Run(Initial(build, conv, mssA, mssB), Opening());
      var groups := UpdateDatagrams(s.a.e, 0);
      var a := PeerStep(s.a, s.b.wire, Action.Update(0));
      && Linked(a, s.b) && Mailed(groups, a) && a.sent == [[7]] && a.e.windows.rcvWnd == WND_RCV
      && Outgoing(s.a, 0) == EncodeGroups(a.e.build, groups)
      && Sole(Concat(groups)) && a.e.out.nxt == 1 && a.e.out.queue == []
  {
    var s := Run(Initial(build, conv, mssA, mssB), Opening());
    OpeningDone(build, conv, mssA, mssB);
    EveryRunLinked(build, conv, mssA, mssB, Opening());
    FirstDue(s.a.e.timing);
    hide Run, Linked, PeerStep, FlushDue, UpdateDatagrams, Mailed, FlushPackets, EncodeGroups, Concat, Fresh, Opening,
         Initial, Endpoints.Flush;
    UpdateMails(s.a, s.b, 0);
    WrapSmall(0);
    UpdateKeepsRest(s.a, s.b, 0);
    TickedFresh(s.a.e);
    FreshFlush(Ticked(s.a.e, 0));
    FreshNumbers(Ticked(s.a.e, 0));
    assert Sole(FlushPackets(Ticked(s.a.e, 0)));
  }

  lemma FreshNumbers(e: Endpoint)
    requires Fresh(e) && e.timing.updated
    ensures Endpoints.Flush(e).out.nxt == |e.out.queue| && Endpoints.Flush(e).out.queue == []
  {
    AllNumbered(e);
    hide Fresh, Endpoints.Admitted, FlushedWindows, FlushedTuning, FlushedProbe, ProcessedAll, PassOf;
  }

  lemma {:induction false} SoleTaken(ps: seq<Packet>)
    requires Sole(ps)
    ensures TakeIn(Inbox([], [], WIDE, 0), WIDE, ps)
         == Inbox([], [Segment(ps[0].header, ps[0].data, NEW_METADATA)], WIDE, 1)
  {
    var r, seg := Inbox([], [], WIDE, 0), Segment(ps[0].header, ps[0].data, NEW_METADATA);
    assert ps == [ps[0]];
    TakenInOne(r, WIDE, ps[0]);
    var inserted := Inbox([seg], [], WIDE, 0);
    assert r.(buf := r.buf[..0] + [seg] + r.buf[0..]) == inserted;
    assert Settle(inserted) == Settle(Inbox(inserted.buf[1..], inserted.queue + [seg], WIDE, 1));
    assert inserted.buf[1..] == [] && inserted.queue + [seg] == [seg];
    hide TakeIn;
  }

  /** B with A's one message queued, and its acknowledgement owed. */
  predicate Holding(b: Peer) {
    && |b.e.inbox.queue| == 1 && b.e.inbox.queue[0].header.frg == 0 && b.e.inbox.queue[0].header.len == 1
    && b.e.inbox == Inbox([], b.e.inbox.queue, WIDE, 1)
    && b.e.windows.rcvWnd == WIDE && AcksNumber(b.e.acks, 0)
  }

  lemma SoleArrives(a: Peer, b: Peer, groups: seq<seq<Packet>>)
    requires Linked(a, b) && Mailed(groups, a) && Sole(Concat(groups)) && a.e.out.nxt == 1
    requires b.e.inbox == Inbox([], [], WIDE, 0) && b.e.windows.rcvWnd == WIDE
    ensures var b' := DeliverAll(b, a.wire, EncodeGroups(a.e.build, groups));
      Linked(a, b') && b'.received == b.received && Holding(b')
  {
    hide Linked, Mailed, DeliverAll, Concat, TakeIn, EncodeGroups, Living, AcksNumber, GroupsHave, HasCommand;
    LinkedSwap(a, b);
    DeliveriesTakeIn(b, a, groups);
    DeliveriesKeep(b, a, groups);
    SoleTaken(Concat(groups));
    var p := Concat(groups)[0];
    assert p in Concat(groups);
    InToIndex(Concat(groups), p);
    ConcatHas(groups, PUSH, 0);
    DeliveriesScheduleAck(b, a, groups, 0);
    LinkedSwap(DeliverAll(b, a.wire, EncodeGroups(a.e.build, groups)), a);
  }

  function QuietRun(build: Build, conv: u32, mssA: Mss, mssB: Mss): seq<(Side, Action)> {
    var s := Run(Initial(build, conv, mssA, mssB), Opening());
    Opening() + [(A, Action.Update(0))] + Deliveries(Outgoing(s.a, 0))
  }

  /** One message on its way to being read and acknowledged. */
  ghost predicate Unread(s: System) {
    && Linked(s.a, s.b) && s.a.sent == [[7]] && s.a.e.windows.rcvWnd == WND_RCV && s.b.received == []
    && s.a.e.out.nxt == 1 && s.a.e.out.queue == [] && Holding(s.b)
  }

  lemma QuietRunEnds(build: Build, conv: u32, mssA: Mss, mssB: Mss)
    ensures Unread(Run(Initial(build, conv, mssA, mssB), QuietRun(build, conv, mssA, mssB)))
  {
    hide Run, Linked, PeerStep, UpdateDatagrams, Mailed, EncodeGroups, Concat, Sole, Fresh, Opening, Initial,
         DeliverAll, Deliveries, Holding;
    var s0, update := Initial(build, conv, mssA, mssB), [(A, Action.Update(0))];
    var s := Run(s0, Opening());
    OpeningDone(build, conv, mssA, mssB);
    OpeningUpdate(build, conv, mssA, mssB);
    var s1 := Step(s, A, Action.Update(0));
    RunAppend(s0, Opening(), update);
    RunOne(s, A, Action.Update(0));
    RunAppend(s0, Opening() + update, Deliveries(Outgoing(s.a, 0)));
    RunDelivers(s1, Outgoing(s.a, 0));
    SoleArrives(s1.a, s1.b, UpdateDatagrams(s.a.e, 0));
  }

  // ---------------------------------------------------------------- the round that reads and acknowledges

  /** Reading the one message empties B's queue and touches little else. */
  lemma ReadsSole(b: Peer)
    requires Holding(b) && AllSized(b.e.inbox.queue)
    ensures var b' := Drained(b, 1);
      && b'.e.inbox == Inbox([], [], WIDE, 1) && b'.e.windows == b.e.windows && b'.e.acks == b.e.acks
      && |b'.received| == |b.received| + 1 && |b'.received[|b.received|]| == 1
  {
    var queue := b.e.inbox.queue;
    hide AcksNumber;
    assert queue[..1] == queue && queue[1..] == [];
    assert TotalLength(queue) == 1 + TotalLength([]);
    assert SpanLength(queue) == 1 && PeekSize(b.e.inbox) == Ok(1);
    assert TakeCount(queue, 1) == 1;
    JoinedLength(queue);
    var b1 := PeerStep(b, {}, Action.Recv(1));
    assert b1.e.inbox == Inbox([], [], WIDE, 1);
    assert Endpoints.Recv(b1.e, 1).1.Err?;
    hide PeekSize, TakeCount, Settle;
    assert Drained(b1, 1) == b1;
  }

  lemma EverythingRead(s: Peer, r: Peer)
    requires Linked(s, r) && r.received == s.sent
    ensures r.e.inbox.queue == [] && PeekSize(r.e.inbox).Err?
  {
    hide Local, Pushes, Replies, Scheduled, NoLoss, AllCarry, GoodMessages;
  }

  lemma EmptyWideAdvertises(e: Endpoint)
    requires e.inbox.queue == [] && e.windows.rcvWnd == WIDE
    ensures AdvertisedWindow(e) == 0
  {
  }

  lemma HeldIsSized(s: Peer, r: Peer)
    requires Linked(s, r)
    ensures AllSized(r.e.inbox.queue)
  {
    hide Local, Pushes, Replies, Scheduled, NoLoss, AllCarry, GoodMessages;
  }

  lemma NothingNumbered(e: Endpoint)
    requires e.out.queue == []
    ensures Endpoints.Flush(e).out.nxt == e.out.nxt && Endpoints.Flush(e).out.queue == []
  {
    hide FlushedWindows, FlushedTuning, FlushedProbe, ProcessedAll, PassOf, StampOf, CongestionWindow;
  }

  /** Half of the round: B reads, owes its acknowledgement, and has an empty queue throughout. */
  lemma ReadingStages(s: System, r: Schedule)
    requires Unread(s) && TimersDue(s.a, s.b, r) && r.capacity == 1
    ensures var t := StagesOf(s, r);
      && t.b1.received == [[7]] && t.b1.e.inbox.queue == [] && t.b1.e.windows.rcvWnd == WIDE
      && AcksNumber(t.b1.e.acks, 0)
      && t.a1.e.out.nxt == 1 && t.a1.e.out.queue == []
  {
    hide UpdateDatagrams, Mailed, EncodeGroups, Drained, Endpoints.Recv, Endpoints.Flush, Linked, Living, DeliverAll,
         Concat, PeerStep, Wrap32, Outgoing, FlushPackets, FlushDue, NextFlush, AcksNumber, TimersDue;
    var t, groups := StagesOf(s, r), UpdateDatagrams(s.a.e, Wrap32(r.at));
    OutwardStages(s, r);
    HeldIsSized(s.a, s.b);
    ReadsSole(s.b);
    TickedUpdated(s.a.e, Wrap32(r.at));
    NothingNumbered(Ticked(s.a.e, Wrap32(r.at)));
    UpdateKeepsRest(s.a, t.b0, r.at);
    LinkedSwap(t.a1, t.b0);
    DeliveriesScheduleAck(t.b0, t.a1, groups, 0);
    ReadWhole(s.a, t.b0);
    LinkedSwap(t.b1, t.a1);
    EverythingRead(t.a1, t.b1);
  }

  lemma ReadWhole(s: Peer, r: Peer)
    requires Linked(s, r) && s.sent == [[7]] && |r.received| == 1
    ensures r.received == [[7]]
  {
    hide Local, Pushes, Replies, Scheduled, NoLoss, AllCarry, GoodMessages, OutboxMatches, InboxMatches;
    assert r.received <= s.sent;
  }

  lemma AllAcknowledged(me: Peer, other: Peer)
    requires Linked(me, other) && me.e.out.una > 0 && me.e.out.nxt == 1
    ensures me.e.out.buf == []
  {
    hide Local, Pushes, Replies, Scheduled, NoLoss, AllCarry, GoodMessages, InboxMatches, Remaining;
    NumbersWithin(me, other);
  }

  /** A hears that the acknowledgement comes with a window of 0. */
  lemma QuietRound(s: System, r: Schedule)
    requires Unread(s) && TimersDue(s.a, s.b, r) && r.capacity == 1
    ensures var s' := Round(s, r);
      && Linked(s'.a, s'.b) && Shut(s') && AdvertisedWindow(s'.b.e) == 0
      && s'.a.sent == [[7]] && s'.b.received == [[7]] && s'.a.e.out.queue == [] && s'.a.e.windows.rcvWnd == WND_RCV
  {
    hide UpdateDatagrams, Mailed, EncodeGroups, Drained, Endpoints.Recv, Endpoints.Flush, Linked, Living, DeliverAll,
         Concat, PeerStep, Wrap32, Outgoing, FlushPackets, FlushDue, NextFlush, AcksNumber, TimersDue, AllSay, PeekSize,
         AdvertisedWindow, HasCommand, GroupsHave;
    var t, groups := StagesOf(s, r), UpdateDatagrams(StagesOf(s, r).b1.e, Wrap32(r.back));
    RoundKeeps(s, r);
    OutwardStages(s, r);
    ReturnStages(s, r);
    ReadingStages(s, r);
    UpdateKeepsRest(s.a, t.b0, r.at);
    EmptyWideAdvertises(t.b1.e);
    UpdateKeepsRest(t.b1, t.a1, r.back);
    UpdateReceives(t.b1, t.a1.wire, r.back);
    EmptyWideAdvertises(t.b2.e);
    AckReturns(t.a1, t.b1, t.b2, r.back, 0);
    SomethingSaid(t.b1.e, r.back);
    TickedUpdated(t.b1.e, Wrap32(r.back));
    SaysWindow(Ticked(t.b1.e, Wrap32(r.back)), t.b1.e);
    GroupsAllSay(groups, 0);
    LinkedSwap(t.b2, t.a1);
    DeliveriesWindow(t.a1, t.b2, groups, 0);
    AllAcknowledged(t.a2, t.b2);
    LinkedSwap(t.a2, t.b2);
    EverythingRead(t.a2, t.b2);
  }

  lemma SomethingSaid(e: Endpoint, back: nat)
    requires AcksNumber(e.acks, 0)
    requires Concat(UpdateDatagrams(e, Wrap32(back))) == FlushPackets(Ticked(e, Wrap32(back)))
    ensures UpdateDatagrams(e, Wrap32(back)) != []
  {
    hide FlushPackets, UpdateDatagrams, AcksNumber, Concat, Wrap32;
    TickedUpdated(e, Wrap32(back));
    AckIsSent(Ticked(e, Wrap32(back)), 0);
    if UpdateDatagrams(e, Wrap32(back)) == [] {
      ConcatNothing();
    }
  }

  lemma OneByteFits(rcvWnd: u32, mss: Mss)
    requires rcvWnd >= 1
    ensures SendError(1, rcvWnd, mss) == None
  {
    SendAcceptsExactly(1, rcvWnd, mss);
    BytesMonotone(1, Min(rcvWnd, MAX_FRAGMENTS), mss);
    BytesSteps(0, mss);
    hide Bytes, SendError;
  }

  lemma SendsOneMore(me: Peer)
    requires me.e.windows.rcvWnd >= 1
    ensures var me' := PeerStep(me, {}, Action.Send([8]));
      && me'.sent == me.sent + [[8]] && |me'.e.out.queue| == |me.e.out.queue| + 1
      && me'.e.out.buf == me.e.out.buf && me'.e.windows == me.e.windows
  {
    OneByteFits(me.e.windows.rcvWnd, me.e.mss);
    assert Fragments([8], me.e.mss) == [Frag(0, [8])];
    hide Fragments, SendError;
  }

  /**
   Silence is reached: B sets a receive window of 65536, reads A's first message before it
   acknowledges it, and so advertises 0; A's second message is then never sent.
   */
  lemma SilenceReached(build: Build, conv: u32, mssA: Mss, mssB: Mss)
    ensures var s1 := Run(Initial(build, conv, mssA, mssB), QuietRun(build, conv, mssA, mssB));
      var s := Step(Round(s1, RoundAt(s1, 1, 0)), A, Action.Send([8]));
      && TimersDue(s1.a, s1.b, RoundAt(s1, 1, 0))
      && Shut(s) && AdvertisedWindow(s.b.e) == 0
      && s.a.sent == [[7], [8]] && s.b.received == [[7]]
      && forall rs :: Fair(s, rs, 1) ==> Drained(RoundAll(s, rs).b, 1).received != s.a.sent
  {
    hide Run, QuietRun, Initial, Linked, Round, TimersDue, AdvertisedWindow, Fair, RoundAll, Drained, PeekSize, RoundAt;
    QuietRunEnds(build, conv, mssA, mssB);
    var s1 := Run(Initial(build, conv, mssA, mssB), QuietRun(build, conv, mssA, mssB));
    RoundAtWorks(s1, 1, 0);
    QuietRound(s1, RoundAt(s1, 1, 0));
    var s2 := Round(s1, RoundAt(s1, 1, 0));
    SendKeeps(s2.a, s2.b, [8]);
    SendsOneMore(s2.a);
    SilencedUndelivered(Step(s2, A, Action.Send([8])), 1);
  }
}
