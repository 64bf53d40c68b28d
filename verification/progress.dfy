/**
 Progress: when the receiving application reads, and one flush in each direction gets through,
 the oldest unacknowledged segment is acknowledged.
 */
module Progress {
  import opened Words
  import opened Segments
  import opened Receiving
  import opened Sending
  import opened Congestion
  import opened Fragmentation
  import opened Endpoints
  import opened Matching
  import opened Links
  import opened Flushing
  import opened Safety

  // ---------------------------------------------------------------- the receive queue

  /** The queue limit admits every message whole. */
  predicate LimitAdmits(limit: u32, msgs: seq<seq<u8>>, mss: Mss) {
    limit >= 1 && forall i :: 0 <= i < |msgs| ==> |Fragments(msgs[i], mss)| <= limit
  }

  /**
   A full queue at a message boundary: reading works exactly when the next message fits the
   limit.
   */
  lemma FullQueueReads(s: Peer, r: Peer)
    requires Link(s, r) && r.e.inbox.queue != [] && |r.e.inbox.queue| == r.e.inbox.limit
    ensures |r.received| < |s.sent|
    ensures PeekSize(r.e.inbox).Ok? <==> |Fragments(s.sent[|r.received|], s.e.mss)| <= r.e.inbox.limit
  {
    NextMessage(r.e.inbox, r.received, s.sent, s.e.mss, s.e.out.nxt);
    Reassembly(r.e.inbox, s.sent[|r.received|], s.e.mss);
  }

  /** A reading that finds nothing more leaves room in a queue that admits every message. */
  lemma DrainedHasRoom(s: Peer, r: Peer)
    requires Link(s, r) && PeekSize(r.e.inbox).Err?
    requires LimitAdmits(r.e.inbox.limit, s.sent, s.e.mss)
    ensures |r.e.inbox.queue| < r.e.inbox.limit
  {
    if r.e.inbox.queue != [] {
      NextMessage(r.e.inbox, r.received, s.sent, s.e.mss, s.e.out.nxt);
      Reassembly(r.e.inbox, s.sent[|r.received|], s.e.mss);
    }
  }

  /**
   The front of the buffer waits only because the queue is full or has a message to read. Unlike
   `Settled`, this survives a change of the queue limit.
   */
  predicate Loose(r: Inbox) {
    r.buf != [] && r.buf[0].header.sn == r.nxt ==> |r.queue| >= r.limit || PeekSize(r).Ok?
  }

  /** Changing the limit of a queue that was full of whole messages leaves something to read. */
  lemma LimitChangeLoose(s: Peer, r: Peer, limit: u32)
    requires Link(s, r) && Loose(r.e.inbox) && LimitAdmits(r.e.inbox.limit, s.sent, s.e.mss)
    ensures Loose(r.e.inbox.(limit := limit))
  {
    if |r.e.inbox.queue| >= r.e.inbox.limit {
      NextMessage(r.e.inbox, r.received, s.sent, s.e.mss, s.e.out.nxt);
      Reassembly(r.e.inbox, s.sent[|r.received|], s.e.mss);
    }
  }

  lemma FrontIsSmallest(buf: seq<Segment>, nxt: u32)
    requires Sorted(buf) && HasSn(buf, nxt)
    requires forall i :: 0 <= i < |buf| ==> nxt <= buf[i].header.sn
    ensures buf[0].header.sn == nxt
  {
    var i :| 0 <= i < |buf| && buf[i].header.sn == nxt;
    assert buf[0].header.sn <= buf[i].header.sn;
  }

  /** A number the sender has, the window test admits, and the receiver does not hold. */
  predicate Missing(r: Inbox, wnd: u32, top: nat, sn: u32) {
    r.nxt <= sn < r.nxt + wnd && sn < top && !HasSn(r.buf, sn)
  }

  /**
   Whether the receiver of `top` fragments can go on: there is a message to read, or nothing left
   to receive, or a number it is still waiting for and would admit.
   */
  ghost predicate CanGoOn(r: Inbox, wnd: u32, top: nat) {
    PeekSize(r).Ok? || r.nxt == top || exists sn: u32 :: Missing(r, wnd, top, sn)
  }

  /** A receiver with room for every message that waits only with cause can go on. */
  lemma LooseLive(s: Peer, r: Peer)
    requires Link(s, r) && Loose(r.e.inbox) && r.e.windows.rcvWnd > 0
    requires LimitAdmits(r.e.inbox.limit, s.sent, s.e.mss)
    ensures CanGoOn(r.e.inbox, r.e.windows.rcvWnd, |Spoken(s)|)
  {
    if PeekSize(r.e.inbox).Err? && r.e.inbox.nxt != |Spoken(s)| {
      DrainedHasRoom(s, r);
      var nxt := r.e.inbox.nxt;
      hide PeekSize, LimitAdmits, Pushes, Replies, Scheduled, GoodMessages, Stream, QueueContinues, NoLoss;
      if HasSn(r.e.inbox.buf, nxt) {
        FrontIsSmallest(r.e.inbox.buf, nxt);
      }
      assert Missing(r.e.inbox, r.e.windows.rcvWnd, |Spoken(s)|, nxt);
    }
  }

  /**
   Once the application has read everything there is, rcv_nxt is snd_nxt or the number of a
   segment still in the send buffer, unless its segment already waits in the reorder buffer; and
   the receiver's window admits the oldest unacknowledged segment if it can go on.
   */
  lemma DrainedFrontier(s: Peer, r: Peer)
    requires Link(s, r) && PeekSize(r.e.inbox).Err?
    ensures HasSn(r.e.inbox.buf, r.e.inbox.nxt)
         || r.e.inbox.nxt == s.e.out.nxt || HasSn(s.e.out.buf, r.e.inbox.nxt)
    ensures CanGoOn(r.e.inbox, r.e.windows.rcvWnd, |Spoken(s)|) && s.e.out.una < |Spoken(s)| ==>
              s.e.out.una < r.e.inbox.nxt + r.e.windows.rcvWnd
  {
    var r0, wnd, top := r.e.inbox, r.e.windows.rcvWnd, |Spoken(s)|;
    hide PeekSize, Pushes, Replies, Scheduled, GoodMessages, Spoken, QueueContinues, BufferMatches, AllCarry;
    assert Held(r0, r0.nxt) <==> HasSn(r0.buf, r0.nxt);
    if CanGoOn(r0, wnd, top) && r0.nxt != top {
      var sn: u32 :| Missing(r0, wnd, top, sn);
      assert !Held(r0, sn);
      InBufferAbove(s.e.out, sn);
    }
  }

  lemma InBufferAbove(o: Outbox, sn: u32)
    requires Tracked(o)
    ensures HasSn(o.buf, sn) ==> o.una <= sn
  {
  }

  // ---------------------------------------------------------------- reading until nothing is left

  lemma {:induction false} SettleKeepsTotal(r: Inbox)
    ensures |Settle(r).queue| + |Settle(r).buf| == |r.queue| + |r.buf|
    decreases |r.buf|
  {
    if !(r.buf == [] || r.buf[0].header.sn != r.nxt || |r.queue| >= r.limit) {
      SettleKeepsTotal(Inbox(r.buf[1..], r.queue + [r.buf[0]], r.limit, Wrap32(r.nxt + 1)));
    }
  }

  lemma RecvShrinks(e: Endpoint, capacity: nat)
    requires Endpoints.Recv(e, capacity).1.Ok?
    ensures var e' := Endpoints.Recv(e, capacity).0;
      |e'.inbox.queue| + |e'.inbox.buf| < |e.inbox.queue| + |e.inbox.buf|
  {
    var n := TakeCount(e.inbox.queue, PeekSize(e.inbox).value);
    SettleKeepsTotal(e.inbox.(queue := e.inbox.queue[n..]));
    hide Settle, TakeCount;
  }

  /** recv() until it fails; every success removes at least one segment. */
  function Drained(p: Peer, capacity: nat): Peer
    decreases |p.e.inbox.queue| + |p.e.inbox.buf|
  {
    if Endpoints.Recv(p.e, capacity).1.Err? then p
    else
      RecvShrinks(p.e, capacity);
      Drained(PeerStep(p, {}, Action.Recv(capacity)), capacity)
  }

  /** What a drain leaves alone. */
  predicate SameSending(p: Peer, p': Peer) {
    && p'.e.out == p.e.out && p'.sent == p.sent && p'.wire == p.wire
    && p'.e.windows == p.e.windows && p'.e.timing == p.e.timing && p'.e.mss == p.e.mss
    && p'.e.inbox.limit == p.e.inbox.limit
  }

  lemma RecvSettles(me: Peer, other: Peer, capacity: nat)
    requires Linked(me, other) && Endpoints.Recv(me.e, capacity).1.Ok?
    ensures SameSending(me, PeerStep(me, {}, Action.Recv(capacity)))
    ensures Settled(PeerStep(me, {}, Action.Recv(capacity)).e.inbox)
    ensures Loose(PeerStep(me, {}, Action.Recv(capacity)).e.inbox)
  {
    var n := TakeCount(me.e.inbox.queue, PeekSize(me.e.inbox).value);
    ConsumeMatches(me.e.inbox, Spoken(other), |Stream(me.received, other.e.mss)|, other.e.out.nxt, n);
    SettleMatches(me.e.inbox.(queue := me.e.inbox.queue[n..]), Spoken(other),
                  |Stream(me.received, other.e.mss)| + n, other.e.out.nxt);
    hide Settle, TakeCount, Linked, Stream, InboxMatches, Settled, PeekSize;
  }

  /** The receiver of what `s` sends has room for each of its messages and can go on. */
  ghost predicate Living(s: Peer, e: Endpoint) {
    && LimitAdmits(e.inbox.limit, s.sent, s.e.mss) && e.windows.rcvWnd > 0
    && CanGoOn(e.inbox, e.windows.rcvWnd, |Spoken(s)|)
  }

  lemma RecvLives(me: Peer, other: Peer, capacity: nat)
    requires Linked(me, other) && Endpoints.Recv(me.e, capacity).1.Ok?
    requires LimitAdmits(me.e.inbox.limit, other.sent, other.e.mss) && me.e.windows.rcvWnd > 0
    ensures Living(other, PeerStep(me, {}, Action.Recv(capacity)).e)
  {
    hide Link, Local, Loose, LimitAdmits, CanGoOn, PeerStep, Spoken;
    RecvKeeps(me, other, capacity);
    RecvSettles(me, other, capacity);
    var me' := PeerStep(me, {}, Action.Recv(capacity));
    assert me' == PeerStep(me, other.wire, Action.Recv(capacity)) by {
      RecvIgnoresWire(me, other, capacity);
    }
    LooseLive(other, me');
  }

  lemma RecvIgnoresWire(me: Peer, other: Peer, capacity: nat)
    ensures PeerStep(me, {}, Action.Recv(capacity)) == PeerStep(me, other.wire, Action.Recv(capacity))
  {
    hide Endpoints.Recv;
  }

  /** Reading until nothing is left: everything else stays, and a receiver that can go on still can. */
  lemma {:induction false} DrainedKeeps(me: Peer, other: Peer, capacity: nat)
    requires Linked(me, other)
    ensures var p := Drained(me, capacity);
      && Linked(p, other) && SameSending(me, p)
      && Endpoints.Recv(p.e, capacity).1.Err?
      && (Living(other, me.e) ==> Living(other, p.e))
    decreases |me.e.inbox.queue| + |me.e.inbox.buf|
  {
    hide Linked, LimitAdmits, CanGoOn, Spoken;
    if Endpoints.Recv(me.e, capacity).1.Ok? {
      RecvShrinks(me.e, capacity);
      RecvKeeps(me, other, capacity);
      RecvSettles(me, other, capacity);
      var me' := PeerStep(me, {}, Action.Recv(capacity));
      RecvIgnoresWire(me, other, capacity);
      if Living(other, me.e) {
        RecvLives(me, other, capacity);
      }
      hide PeerStep, Endpoints.Recv;
      DrainedKeeps(me', other, capacity);
    }
  }

  /** With room for any message, a drain ends only when peek_size() fails. */
  lemma DrainedPeekFails(me: Peer, other: Peer, capacity: nat)
    requires Link(other, me) && Endpoints.Recv(me.e, capacity).1.Err?
    requires forall i :: 0 <= i < |other.sent| ==> |other.sent[i]| <= capacity
    ensures PeekSize(me.e.inbox).Err?
  {
    if me.e.inbox.queue != [] {
      NextMessage(me.e.inbox, me.received, other.sent, other.e.mss, other.e.out.nxt);
      Reassembly(me.e.inbox, other.sent[|me.received|], other.e.mss);
    }
  }

  // ---------------------------------------------------------------- a segment reaches the peer

  predicate AcksNumber(acks: seq<Acknowledgement>, sn: u32) {
    exists i :: 0 <= i < |acks| && acks[i].sn == sn
  }

  predicate HasCommand(ps: seq<Packet>, cmd: u8, sn: u32) {
    exists i :: 0 <= i < |ps| && ps[i].header.cmd == cmd && ps[i].header.sn == sn
  }

  /** The window test cannot wrap while the sender has numbered less than a u32 of segments. */
  predicate WindowFits(e: Endpoint, top: u32) {
    0 < e.windows.rcvWnd && top + e.windows.rcvWnd < 0x1_0000_0000
  }

  lemma PacketKeepsAcks(me: Peer, other: Peer, p: Packet, sn: u32)
    requires Link(me, other) && Link(other, me) && p in other.spoken
    requires WindowFits(me.e, other.e.out.nxt)
    ensures var e' := HandlePacket(me.e, p);
      && e'.windows.rcvWnd == me.e.windows.rcvWnd && e'.inbox.nxt >= me.e.inbox.nxt
      && (AcksNumber(me.e.acks, sn) ==> AcksNumber(e'.acks, sn))
      && (p.header.cmd == PUSH && p.header.sn == sn && sn < me.e.inbox.nxt + me.e.windows.rcvWnd ==>
            AcksNumber(e'.acks, sn))
  {
    HandledInbox(me.e, p);
    assert PushOk(p, other.e.out.nxt, Spoken(other), other.log);
    assert HandlePacket(me.e, p).windows.rcvWnd == me.e.windows.rcvWnd;
    if p.header.cmd == PUSH {
      PushAsReceiver(me.e.inbox, Spoken(other), |Stream(me.received, other.e.mss)|, other.e.out.nxt, other.log, p);
    }
    var acks := me.e.acks;
    hide HandlePacket, Emplace, Pushes, Replies, Scheduled, OutboxMatches, NoLoss, GoodMessages, Stream, AckOk, Held;
    if AcksNumber(acks, sn) {
      var i :| 0 <= i < |acks| && acks[i].sn == sn;
      assert (acks + [Acknowledgement(p.header.sn, p.header.ts)])[i].sn == sn;
    }
    assert (acks + [Acknowledgement(p.header.sn, p.header.ts)])[|acks|].sn == p.header.sn;
    if p.header.cmd == PUSH && p.header.sn == sn && sn < me.e.inbox.nxt + me.e.windows.rcvWnd {
      assert FitsReceiveWindow(me.e.windows, me.e.inbox.nxt, sn);
    }
  }

  lemma {:induction false} PacketsScheduleAck(me: Peer, other: Peer, ps: seq<Packet>, sn: u32)
    requires Link(me, other) && Link(other, me) && (forall p :: p in ps ==> p in other.spoken)
    requires WindowFits(me.e, other.e.out.nxt)
    ensures var e' := HandleAll(me.e, ps);
      && e'.windows.rcvWnd == me.e.windows.rcvWnd && e'.inbox.nxt >= me.e.inbox.nxt
      && (AcksNumber(me.e.acks, sn) ==> AcksNumber(e'.acks, sn))
      && (HasCommand(ps, PUSH, sn) && sn < me.e.inbox.nxt + me.e.windows.rcvWnd ==> AcksNumber(e'.acks, sn))
    decreases |ps|
  {
    hide Link, HandlePacket, AcksNumber;
    if ps != [] {
      PacketAsSender(me, other, ps[0]);
      PacketAsReceiver(other, me, ps[0]);
      PacketKeepsAcks(me, other, ps[0], sn);
      HasCommandSplit(ps, PUSH, sn);
      hide HasCommand;
      PacketsScheduleAck(me.(e := HandlePacket(me.e, ps[0])), other, ps[1..], sn);
    }
  }

  lemma HasCommandSplit(ps: seq<Packet>, cmd: u8, sn: u32)
    requires ps != []
    ensures HasCommand(ps, cmd, sn)
       <==> (ps[0].header.cmd == cmd && ps[0].header.sn == sn) || HasCommand(ps[1..], cmd, sn)
  {
    if HasCommand(ps, cmd, sn) {
      var i :| 0 <= i < |ps| && ps[i].header.cmd == cmd && ps[i].header.sn == sn;
      assert i > 0 ==> ps[1..][i - 1] == ps[i];
    }
    if HasCommand(ps[1..], cmd, sn) {
      var i :| 0 <= i < |ps[1..]| && ps[1..][i].header.cmd == cmd && ps[1..][i].header.sn == sn;
      assert ps[i + 1] == ps[1..][i];
    }
  }

  // ---------------------------------------------------------------- an acknowledgement comes back

  /** An acknowledgement of the oldest segment moves snd_una past it. */
  lemma AckAdvances(o: Outbox, conv: u32, stream: seq<Frag>, sn: u32)
    requires OutboxMatches(o, conv, stream) && sn < o.nxt && sn <= o.una
    ensures AckReceived(o, sn).una > sn
  {
    AckMatches(o, conv, stream, sn);
    AckReceivedTracked(o, sn);
    var o' := AckReceived(o, sn);
    hide AckReceived, OutboxMatches;
    if o'.buf != [] {
      assert o'.buf[0].header.sn == sn ==> HasSn(o'.buf, sn);
    }
  }

  lemma PacketAdvances(me: Peer, other: Peer, p: Packet, sn: u32)
    requires Link(me, other) && p in other.spoken && sn <= me.e.out.una
    ensures var o := HandlePacket(me.e, p).out;
      && o.una >= me.e.out.una && o.nxt == me.e.out.nxt
      && (p.header.cmd == ACK && p.header.sn == sn ==> o.una > sn)
  {
    HandledOutbox(me.e, p);
    assert ReplyOk(p, other.e.inbox, me.e.out.nxt, me.log);
    hide HandlePacket, Pushes, Replies, Scheduled, NoLoss, GoodMessages, InboxMatches, Held, Logged;
    var o1 := UnaReceived(me.e.out, p.header.una);
    UnaMatches(me.e.out, me.e.conv, Spoken(me), p.header.una);
    UnaReceivedTracked(me.e.out, p.header.una);
    hide OutboxMatches, UnaReceived;
    if p.header.cmd == ACK {
      AckMatches(o1, me.e.conv, Spoken(me), p.header.sn);
      AckReceivedTracked(o1, p.header.sn) by {
        assert Tracked(o1);
      }
      if p.header.sn == sn {
        AckAdvances(o1, me.e.conv, Spoken(me), sn);
      }
    }
  }

  lemma {:induction false} PacketsAdvance(me: Peer, other: Peer, ps: seq<Packet>, sn: u32)
    requires Link(me, other) && Link(other, me) && (forall p :: p in ps ==> p in other.spoken)
    requires sn <= me.e.out.una
    ensures var o := HandleAll(me.e, ps).out;
      o.una >= me.e.out.una && (HasCommand(ps, ACK, sn) ==> o.una > sn)
    decreases |ps|
  {
    hide Link, HandlePacket;
    if ps != [] {
      PacketAsSender(me, other, ps[0]);
      PacketAsReceiver(other, me, ps[0]);
      PacketAdvances(me, other, ps[0], sn);
      HasCommandSplit(ps, ACK, sn);
      hide HasCommand;
      PacketsAdvance(me.(e := HandlePacket(me.e, ps[0])), other, ps[1..], sn);
    }
  }
}
