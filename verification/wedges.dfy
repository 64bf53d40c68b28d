/** Receivers that can never go on: exactly which, that nothing helps them, and runs that reach them. */
module Wedges {
  import opened Words
  import opened Segments
  import opened Codec
  import opened Receiving
  import opened Sending
  import opened Fragmentation
  import opened Endpoints
  import opened Links
  import opened Progress
  import opened Rounds
  import opened Laws

  // ---------------------------------------------------------------- the dead receiver

  /** Every number the window admits is held already. */
  ghost predicate Full(r: Inbox, wnd: u32) {
    forall sn: u32 :: r.nxt <= sn < r.nxt + wnd ==> HasSn(r.buf, sn)
  }

  ghost predicate Dead(r: Inbox, wnd: u32) {
    PeekSize(r).Err? && Full(r, wnd)
  }

  /** Arrivals judged by one receive window, and reads of any kind. */
  predicate Under(events: seq<Receiving.Event>, wnd: u32) {
    forall i :: 0 <= i < |events| && events[i].Arrival? ==> events[i].wnd == wnd
  }

  lemma DeadEmplace(r: Inbox, wnd: u32, seg: Segment)
    requires Dead(r, wnd) && Sorted(r.buf) && r.nxt <= seg.header.sn < r.nxt + wnd
    ensures Emplace(r, seg) == r
  {
    DuplicateTestExact(r.buf, seg.header.sn);
    hide PeekSize, Settle, InsertPos;
  }

  lemma {:induction false} DeadStays(t: Trace, wnd: u32, events: seq<Receiving.Event>)
    requires Dead(t.inbox, wnd) && Sorted(t.inbox.buf) && t.inbox.nxt + wnd < 0x1_0000_0000 && Under(events, wnd)
    ensures AdvanceAll(t, events).inbox == t.inbox && AdvanceAll(t, events).taken == t.taken
    decreases |events|
  {
    hide PeekSize, Emplace, Full, Receiving.Advance;
    if events != [] {
      var last := |events| - 1;
      DeadStays(t, wnd, events[..last]);
      DeadEvent(AdvanceAll(t, events[..last]), wnd, events[last]);
    }
  }

  lemma DeadEvent(t: Trace, wnd: u32, e: Receiving.Event)
    requires Dead(t.inbox, wnd) && Sorted(t.inbox.buf) && t.inbox.nxt + wnd < 0x1_0000_0000
    requires e.Arrival? ==> e.wnd == wnd
    ensures Receiving.Advance(t, e).inbox == t.inbox && Receiving.Advance(t, e).taken == t.taken
  {
    hide PeekSize, Emplace, Full;
    match e
    case Arrival(seg, _) =>
      WrapSmall(t.inbox.nxt + wnd);
      if t.inbox.nxt <= seg.header.sn < t.inbox.nxt + wnd {
        DeadEmplace(t.inbox, wnd, seg);
      }
    case Take(_, _) =>
  }

  /** Something that still changes an inbox which is not dead. */
  lemma AliveMoves(t: Trace, wnd: u32) returns (e: Receiving.Event)
    requires !Dead(t.inbox, wnd) && Sorted(t.inbox.buf) && t.inbox.nxt + wnd < 0x1_0000_0000
    ensures Under([e], wnd) && Receiving.Advance(t, e).inbox != t.inbox
  {
    var r := t.inbox;
    if PeekSize(r).Ok? {
      e := Take(PeekSize(r).value, wnd);
      ReadMoves(t, wnd);
    } else {
      var sn: u32 :| r.nxt <= sn < r.nxt + wnd && !HasSn(r.buf, sn);
      e := Arrival(Segment(Header(0, PUSH, 0, 0, 0, sn, 0, 0), [], NEW_METADATA), wnd);
      ArrivalMoves(t, wnd, e.seg);
    }
  }

  lemma ReadMoves(t: Trace, wnd: u32)
    requires PeekSize(t.inbox).Ok?
    ensures Receiving.Advance(t, Take(PeekSize(t.inbox).value, wnd)).inbox != t.inbox
  {
    var r := t.inbox;
    var n := TakeCount(r.queue, PeekSize(r).value);
    SettleKeepsTotal(r.(queue := r.queue[n..]));
    hide Settle, TakeCount;
  }

  lemma ArrivalMoves(t: Trace, wnd: u32, seg: Segment)
    requires Sorted(t.inbox.buf) && t.inbox.nxt <= seg.header.sn < t.inbox.nxt + wnd < 0x1_0000_0000
    requires !HasSn(t.inbox.buf, seg.header.sn)
    ensures Receiving.Advance(t, Arrival(seg, wnd)).inbox != t.inbox
  {
    var r := t.inbox;
    WrapSmall(r.nxt + wnd);
    DuplicateTestExact(r.buf, seg.header.sn);
    SettleKeepsTotal(r.(buf := Inserted(r.buf, seg)));
    hide Settle, HasSn, Sorted, PeekSize, Wrap32;
  }

  /**
   Dead, exactly: no sequence of arrivals and reads ever changes an inbox if and only if there is
   nothing to read and no number in [rcv_nxt, rcv_nxt + rcv_wnd) is missing.
   */
  lemma DeadExactly(t: Trace, wnd: u32)
    requires Sorted(t.inbox.buf) && t.inbox.nxt + wnd < 0x1_0000_0000
    ensures Dead(t.inbox, wnd)
       <==> forall events :: Under(events, wnd) ==> AdvanceAll(t, events).inbox == t.inbox
  {
    if Dead(t.inbox, wnd) {
      forall events | Under(events, wnd)
        ensures AdvanceAll(t, events).inbox == t.inbox
      {
        DeadStays(t, wnd, events);
      }
    } else {
      var e := AliveMoves(t, wnd);
      assert [e][..0] == [];
      assert AdvanceAll(t, [e]) == Receiving.Advance(AdvanceAll(t, []), e);
    }
  }

  // ---------------------------------------------------------------- for good, whatever is called

  predicate KeepsOwnWindow(calls: seq<Action>) {
    forall i :: 0 <= i < |calls| && calls[i].Configure? ==> !calls[i].setting.ReceiveWindow?
  }

  lemma {:induction false} DeadPackets(e: Endpoint, ps: seq<Packet>)
    requires Dead(e.inbox, e.windows.rcvWnd) && Sorted(e.inbox.buf)
    requires e.inbox.nxt + e.windows.rcvWnd < 0x1_0000_0000
    ensures HandleAll(e, ps).inbox == e.inbox && HandleAll(e, ps).windows.rcvWnd == e.windows.rcvWnd
    decreases |ps|
  {
    hide PeekSize, Full, Emplace;
    if ps != [] {
      var p, r, wnd := ps[0], e.inbox, e.windows.rcvWnd;
      HandledInbox(e, p);
      PacketCalm(e, p);
      WrapSmall(r.nxt + wnd);
      if r.nxt <= p.header.sn < r.nxt + wnd {
        DeadEmplace(r, wnd, Segment(p.header, p.data, NEW_METADATA));
      }
      hide HandlePacket;
      DeadPackets(HandlePacket(e, p), ps[1..]);
    }
  }

  lemma DeadInput(e: Endpoint, data: seq<u8>)
    requires Dead(e.inbox, e.windows.rcvWnd) && Sorted(e.inbox.buf)
    requires e.inbox.nxt + e.windows.rcvWnd < 0x1_0000_0000
    ensures Input(e, data).0.inbox == e.inbox && Input(e, data).0.windows.rcvWnd == e.windows.rcvWnd
  {
    var ps := Parse(e.build, e.conv, data).packets;
    hide Parse, HandleAll, FastAcks, Conclude, Dead, Sorted;
    DeadPackets(e, ps);
    ConcludeKeeps(HandleAll(e, ps), e.out.una, FastAcks(NO_FAST_ACK, ps));
  }

  lemma DeadStep(me: Peer, incoming: set<seq<u8>>, a: Action)
    requires Dead(me.e.inbox, me.e.windows.rcvWnd) && Sorted(me.e.inbox.buf)
    requires me.e.inbox.nxt + me.e.windows.rcvWnd < 0x1_0000_0000
    requires a.Configure? ==> !a.setting.ReceiveWindow?
    ensures var me' := PeerStep(me, incoming, a);
      && me'.e.inbox == me.e.inbox && me'.e.windows.rcvWnd == me.e.windows.rcvWnd
      && me'.received == me.received
  {
    hide Full, PeekSize, Sorted;
    match a
    case Send(msg) => hide Fragments;
    case Recv(_) =>
    case Update(now) =>
      FlushKeepsBuild(Ticked(me.e, Wrap32(now)));
      hide Endpoints.Flush, FlushDue, UpdateDatagrams;
    case Flush =>
      FlushKeepsBuild(me.e);
      hide Endpoints.Flush, FlushDatagrams;
    case Check(_) => hide TimeDelta;
    case Deliver(d) =>
      DeadInput(me.e, d);
      hide Input;
    case Configure(_) =>
  }

  /**
   A dead receiver is dead for good: whatever calls are made and whatever bytes arrive, its inbox
   and what its application has received stay as they are until the receive window is set again.
   */
  lemma {:induction false} DeadForever(me: Peer, calls: seq<Action>)
    requires Dead(me.e.inbox, me.e.windows.rcvWnd) && Sorted(me.e.inbox.buf)
    requires me.e.inbox.nxt + me.e.windows.rcvWnd < 0x1_0000_0000 && KeepsOwnWindow(calls)
    ensures var me' := Called(me, calls);
      && me'.e.inbox == me.e.inbox && me'.e.windows.rcvWnd == me.e.windows.rcvWnd
      && me'.received == me.received
  {
    hide Dead, Sorted, PeerStep;
    if calls != [] {
      var last := |calls| - 1;
      DeadForever(me, calls[..last]);
      DeadStep(Called(me, calls[..last]), if calls[last].Deliver? then {calls[last].datagram} else {}, calls[last]);
    }
  }

  // ---------------------------------------------------------------- the wedged queue

  /** A full queue whose front message does not fit. */
  predicate Wedged(r: Inbox) {
    |r.queue| >= r.limit && PeekSize(r).Err?
  }

  /** The queue side of an inbox; the reorder buffer may still fill up. */
  predicate SameQueue(r: Inbox, r': Inbox) {
    r'.queue == r.queue && r'.limit == r.limit && r'.nxt == r.nxt
  }

  lemma {:induction false} WedgedPackets(e: Endpoint, ps: seq<Packet>)
    requires Wedged(e.inbox)
    ensures SameQueue(e.inbox, HandleAll(e, ps).inbox)
    decreases |ps|
  {
    if ps != [] {
      HandledInbox(e, ps[0]);
      WedgedEmplace(e.inbox, Segment(ps[0].header, ps[0].data, NEW_METADATA));
      PeekOfQueue(e.inbox, HandlePacket(e, ps[0]).inbox);
      hide HandlePacket, Emplace, PeekSize;
      WedgedPackets(HandlePacket(e, ps[0]), ps[1..]);
    }
  }

  lemma WedgedEmplace(r: Inbox, seg: Segment)
    requires Wedged(r)
    ensures SameQueue(r, Emplace(r, seg))
  {
    hide PeekSize, InsertPos;
  }

  lemma PeekOfQueue(r: Inbox, r': Inbox)
    ensures r'.queue == r.queue ==> PeekSize(r') == PeekSize(r)
  {
  }

  lemma WedgedStep(me: Peer, incoming: set<seq<u8>>, a: Action)
    requires Wedged(me.e.inbox) && (a.Configure? ==> !a.setting.ReceiveWindow?)
    ensures var me' := PeerStep(me, incoming, a);
      SameQueue(me.e.inbox, me'.e.inbox) && me'.received == me.received
  {
    match a
    case Send(msg) => hide Fragments;
    case Recv(_) =>
    case Update(now) =>
      FlushKeepsBuild(Ticked(me.e, Wrap32(now)));
      hide Endpoints.Flush, FlushDue, UpdateDatagrams;
    case Flush =>
      FlushKeepsBuild(me.e);
      hide Endpoints.Flush, FlushDatagrams;
    case Check(_) => hide TimeDelta;
    case Deliver(d) =>
      var ps := Parse(me.e.build, me.e.conv, d).packets;
      WedgedPackets(me.e, ps);
      hide Parse, HandleAll, FastAcks, PeekSize, Conclude;
      ConcludeKeeps(HandleAll(me.e, ps), me.e.out.una, FastAcks(NO_FAST_ACK, ps));
    case Configure(_) =>
  }

  /**
   The wedge is permanent: whatever calls are made and whatever bytes arrive, a full queue that
   cannot be read keeps its segments, and its application receives nothing more, until the
   receive window is set again.
   */
  lemma {:induction false} WedgedForever(me: Peer, calls: seq<Action>)
    requires Wedged(me.e.inbox) && KeepsOwnWindow(calls)
    ensures var me' := Called(me, calls);
      SameQueue(me.e.inbox, me'.e.inbox) && me'.received == me.received
  {
    hide PeerStep, PeekSize;
    if calls != [] {
      var last := |calls| - 1;
      var before := Called(me, calls[..last]);
      WedgedForever(me, calls[..last]);
      PeekOfQueue(me.e.inbox, before.e.inbox);
      WedgedStep(before, if calls[last].Deliver? then {calls[last].datagram} else {}, calls[last]);
    }
  }

  /**
   Raising the limit does not by itself free a queue that cannot be read, and segments already
   held do not either. A segment with a new number makes rcv_nxt move exactly when rcv_nxt is
   then in the buffer and the queue is below the new limit.
   */
  lemma RaisedLimitWaits(r: Inbox, limit: u32, seg: Segment, capacity: nat, wnd: u32)
    requires PeekSize(r).Err? && Sorted(r.buf) && Bounded(r.buf)
    requires forall i :: 0 <= i < |r.buf| ==> r.nxt <= r.buf[i].header.sn
    requires r.nxt <= seg.header.sn < 0xFFFF_FFFF
    ensures var raised := r.(limit := limit);
      && Receiving.Recv(raised, capacity, wnd).Err?
      && (HasSn(r.buf, seg.header.sn) ==> Emplace(raised, seg) == raised)
      && (!HasSn(r.buf, seg.header.sn) ==>
            (Emplace(raised, seg).nxt > r.nxt
             <==> (HasSn(r.buf, r.nxt) || seg.header.sn == r.nxt) && |r.queue| < limit))
  {
    DuplicateTestExact(r.buf, seg.header.sn);
    InsertedMembers(r.buf, seg);
    PeekOfQueue(r, r.(limit := limit));
    if !HasSn(r.buf, seg.header.sn) {
      InsertedFrom(r.buf, seg);
      InsertedSorted(r.buf, seg);
      var inserted := Inbox(Inserted(r.buf, seg), r.queue, limit, r.nxt);
      hide Settle, PeekSize, Inserted;
      assert forall i :: 0 <= i < |inserted.buf| ==> r.nxt <= inserted.buf[i].header.sn < 0xFFFF_FFFF by {
        forall i | 0 <= i < |inserted.buf|
          ensures r.nxt <= inserted.buf[i].header.sn < 0xFFFF_FFFF
        {
          assert inserted.buf[i] == seg || inserted.buf[i] in r.buf;
        }
      }
      DrainMoves(inserted);
    }
  }

  /** A drain moves rcv_nxt exactly when rcv_nxt is in the buffer and the queue has room. */
  lemma DrainMoves(r: Inbox)
    requires Sorted(r.buf) && Bounded(r.buf)
    requires forall i :: 0 <= i < |r.buf| ==> r.nxt <= r.buf[i].header.sn
    ensures Settle(r).nxt > r.nxt <==> HasSn(r.buf, r.nxt) && |r.queue| < r.limit
  {
    SettleMoves(r);
    hide Settle;
    if HasSn(r.buf, r.nxt) {
      FrontIsSmallest(r.buf, r.nxt);
    }
  }
}
