/** Safety over every run of two endpoints. */
module Safety {
  import opened Words
  import opened Segments
  import opened Codec
  import opened Receiving
  import opened Sending
  import opened Congestion
  import opened Packing
  import opened Fragmentation
  import opened Endpoints
  import opened Matching
  import opened Links
  import opened Flushing

  datatype Side = A | B

  datatype System = System(a: Peer, b: Peer)

  function Step(s: System, side: Side, action: Action): System {
    match side
    case A => System(PeerStep(s.a, s.b.wire, action), s.b)
    case B => System(s.a, PeerStep(s.b, s.a.wire, action))
  }

  function Run(s: System, steps: seq<(Side, Action)>): System {
    if steps == [] then s
    else Step(Run(s, steps[..|steps| - 1]), steps[|steps| - 1].0, steps[|steps| - 1].1)
  }

  /** Two fresh endpoints of one conversation, with segment sizes of their own. */
  function Initial(build: Build, conv: u32, mssA: Mss, mssB: Mss): System {
    System(Links.Start(build, conv, mssA), Links.Start(build, conv, mssB))
  }

  // ---------------------------------------------------------------- the remaining steps

  lemma SendKeeps(me: Peer, other: Peer, msg: seq<u8>)
    requires Linked(me, other)
    ensures Linked(PeerStep(me, other.wire, Action.Send(msg)), other)
  {
    var me' := PeerStep(me, other.wire, Action.Send(msg));
    if SendError(|msg|, me.e.windows.rcvWnd, me.e.mss) == None {
      var frags := Fragments(msg, me.e.mss);
      var stream := Spoken(me);
      FragmentCount(msg, me.e.mss);
      FragmentsExact(msg, me.e.mss);
      StreamAppend(me.sent, msg, me.e.mss);
      assert Spoken(me') == stream + frags;
      hide Fragments, Stream, Ceiling;
      QueueMatches(me.e.out, me.e.conv, stream, frags);
      var top := me.e.out.nxt;
      InboxMatchesMore(other.e.inbox, stream, |Stream(other.received, me.e.mss)|, top, stream + frags, top);
      PushesMore(me.spoken, top, stream, me.log, top, stream + frags, me.log);
      hide OutboxMatches, InboxMatches, Pushes, Scheduled, Replies, QueuedAll, Parses;
    }
  }

  /** A message is returned only whole, and only as the next one the other side sent. */
  lemma RecvDelivers(me: Peer, other: Peer, capacity: nat)
    requires Link(other, me) && Endpoints.Recv(me.e, capacity).1.Ok?
    ensures var (e', result) := Endpoints.Recv(me.e, capacity);
      var received' := me.received + [result.value];
      && received' <= other.sent
      && InboxMatches(e'.inbox, Spoken(other), |Stream(received', other.e.mss)|, other.e.out.nxt)
      && HoldsMore(me.e.inbox, e'.inbox)
      && PeekSize(me.e.inbox) == Ok(|result.value|)
  {
    var r, mss, k := me.e.inbox, other.e.mss, |me.received|;
    var stream, top := Spoken(other), other.e.out.nxt;
    var consumed := |Stream(me.received, mss)|;
    NextMessage(r, me.received, other.sent, mss, top);
    var msg := other.sent[k];
    StreamAppend(me.received, msg, mss);
    Reassembly(r, msg, mss);
    var n := |Fragments(msg, mss)|;
    hide Fragments, Stream, Joined, PeekSize, TakeCount, GoodMessages, OutboxMatches, Pushes, Replies,
         Scheduled, NoLoss;
    TakenSettles(r, stream, consumed, top, n);
    hide InboxMatches, Settle, HoldsMore;
    assert Endpoints.Recv(me.e, capacity).0.inbox == Settle(r.(queue := r.queue[n..]));
  }

  /** Reading `n` segments and draining moves the boundary and forgets nothing that is held. */
  lemma TakenSettles(r: Inbox, stream: seq<Frag>, consumed: nat, top: u32, n: nat)
    requires InboxMatches(r, stream, consumed, top) && n <= |r.queue|
    ensures var r' := Settle(r.(queue := r.queue[n..]));
      InboxMatches(r', stream, consumed + n, top) && HoldsMore(r, r')
  {
    ConsumeMatches(r, stream, consumed, top, n);
    var rest := r.(queue := r.queue[n..]);
    SettleMatches(rest, stream, consumed + n, top);
    hide InboxMatches, Settle;
    assert forall sn: u32 :: Held(rest, sn) <==> Held(r, sn);
  }

  /** A non-empty queue at a message boundary starts with the next message. */
  lemma NextMessage(r: Inbox, received: seq<seq<u8>>, sent: seq<seq<u8>>, mss: Mss, top: u32)
    requires received <= sent && GoodMessages(sent, mss) && r.queue != []
    requires InboxMatches(r, Stream(sent, mss), |Stream(received, mss)|, top)
    ensures |received| < |sent|
    ensures var msg := sent[|received|];
      && received + [msg] <= sent
      && msg != [] && |Fragments(msg, mss)| <= 255
      && AllSized(r.queue)
      && StartsWith(r.queue, Fragments(msg, mss))
  {
    hide BufferMatches, Fragments, Stream, StartsWith, QueueContinues, AllSized;
    NotAllReceived(r.queue, received, sent, mss);
    var k := |received|;
    var msg := sent[k];
    assert sent[..k + 1] == received + [msg];
    StreamAppend(received, msg, mss);
    StreamPrefix(sent, k + 1, mss);
    QueueStarts(r.queue, Stream(received, mss), Fragments(msg, mss), Stream(sent, mss));
  }

  lemma NotAllReceived(queue: seq<Segment>, received: seq<seq<u8>>, sent: seq<seq<u8>>, mss: Mss)
    requires received <= sent && queue != []
    requires QueueContinues(queue, |Stream(received, mss)|, Stream(sent, mss))
    ensures |received| < |sent|
  {
    hide Stream;
    assert |received| == |sent| ==> received == sent;
  }

  lemma QueueStarts(queue: seq<Segment>, consumed: seq<Frag>, next: seq<Frag>, stream: seq<Frag>)
    requires QueueContinues(queue, |consumed|, stream) && consumed + next <= stream
    ensures StartsWith(queue, next) && AllSized(queue)
  {
    assert forall i :: 0 <= i < |next| ==> next[i] == stream[|consumed| + i];
  }

  lemma RecvKeeps(me: Peer, other: Peer, capacity: nat)
    requires Linked(me, other)
    ensures Linked(PeerStep(me, other.wire, Action.Recv(capacity)), other)
  {
    var me' := PeerStep(me, other.wire, Action.Recv(capacity));
    assert me'.e.out == me.e.out && me'.e.acks == me.e.acks && me'.e.timing == me.e.timing;
    if Endpoints.Recv(me.e, capacity).1.Ok? {
      RecvDelivers(me, other, capacity);
      hide Endpoints.Recv, InboxMatches, OutboxMatches, HoldsMore, Replies, Pushes, Held, NoLoss, GoodMessages, Parses;
      ScheduledMore(me.e.acks, me.e.inbox, other.e.out.nxt, other.log, me'.e.inbox, other.e.out.nxt, other.log);
      ReceiverMoves(other, me, me');
      hide Scheduled;
    }
  }

  lemma ConfigureKeeps(me: Peer, other: Peer, s: Setting)
    requires Linked(me, other)
    ensures Linked(PeerStep(me, other.wire, Action.Configure(s)), other)
  {
    var me' := PeerStep(me, other.wire, Action.Configure(s));
    assert me'.e.out == me.e.out && me'.e.acks == me.e.acks;
    assert me'.e.inbox == me.e.inbox.(limit := me'.e.inbox.limit);
    assert me'.e.timing.current == me.e.timing.current && me'.e.mss == me.e.mss;
    assert me'.e.build == me.e.build && me'.e.conv == me.e.conv;
    hide Endpoints.Configure, Parses, OutboxMatches, Pushes, HasSn, GoodMessages, Stream;
    assert HoldsMore(me.e.inbox, me'.e.inbox);
    ScheduledMore(me.e.acks, me.e.inbox, other.e.out.nxt, other.log, me'.e.inbox, other.e.out.nxt, other.log);
    hide Scheduled, Replies, QueueContinues, BufferMatches, HoldsMore, NoLoss;
    ReceiverMoves(other, me, me');
  }

  lemma DeliverKeeps(me: Peer, other: Peer, d: seq<u8>)
    requires Linked(me, other)
    ensures Linked(PeerStep(me, other.wire, Action.Deliver(d)), other)
  {
    hide Link, Input, Parses, Wrap32;
    if d in other.wire {
      LinksDelivered(me, other, d);
    }
  }

  lemma LinksDelivered(me: Peer, other: Peer, d: seq<u8>)
    requires Linked(me, other) && d in other.wire
    ensures Link(me.(e := Input(me.e, d).0), other) && Link(other, me.(e := Input(me.e, d).0))
    ensures var e' := Input(me.e, d).0;
      e'.timing == me.e.timing && e'.build == me.e.build && e'.conv == me.e.conv && e'.mss == me.e.mss
  {
    hide Link, Input, Parses, Local;
    DeliverKeepsLinks(me, other, d);
  }

  lemma TimingKeeps(me: Peer, other: Peer, now: nat, timing: Timing)
    requires Linked(me, other) && timing.current == Wrap32(now)
    ensures Linked(Clocked(me, now).(e := me.e.(timing := timing)), other)
  {
    hide OutboxMatches, InboxMatches, Pushes, Replies, Scheduled, NoLoss, Parses, Wrap32, GoodMessages;
  }

  lemma ReEmit(me: Peer, ticked: Peer, e: Endpoint, groups: seq<seq<Packet>>)
    requires ticked == me.(e := ticked.e) && ticked.e.build == me.e.build
    ensures Emit(me, e, groups) == Emit(ticked, e, groups)
  {
  }

  lemma UpdateKeeps(me: Peer, other: Peer, now: nat)
    requires Linked(me, other)
    ensures Linked(PeerStep(me, other.wire, Action.Update(now)), other)
  {
    var time := Wrap32(now);
    var timing := NextFlush(me.e.timing, time);
    var ticked := Clocked(me, now).(e := Ticked(me.e, time));
    assert timing.current == time;
    hide NextFlush, Linked, Endpoints.Flush, FlushDatagrams, FlushDue, Wrap32;
    TimingKeeps(me, other, now, timing);
    if FlushDue(me.e.timing, time) {
      FlushKeeps(ticked, other);
      ReEmit(Clocked(me, now), ticked, Endpoints.Flush(ticked.e), FlushDatagrams(ticked.e));
    } else {
      ReEmit(Clocked(me, now), ticked, ticked.e, []);
      EmitNothing(ticked);
    }
  }

  lemma CheckKeeps(me: Peer, other: Peer, now: nat)
    requires Linked(me, other)
    ensures Linked(PeerStep(me, other.wire, Action.Check(now)), other)
  {
    hide OutboxMatches, InboxMatches, Pushes, Replies, Scheduled, NoLoss, Parses, Wrap32, GoodMessages, TimeDelta;
  }

  lemma PeerStepKeeps(me: Peer, other: Peer, action: Action)
    requires Linked(me, other)
    ensures Linked(PeerStep(me, other.wire, action), other)
  {
    hide Linked, PeerStep;
    match action
    case Send(msg) => SendKeeps(me, other, msg);
    case Recv(capacity) => RecvKeeps(me, other, capacity);
    case Update(now) => UpdateKeeps(me, other, now);
    case Flush => FlushStepKeeps(me, other);
    case Check(now) => CheckKeeps(me, other, now);
    case Deliver(d) => DeliverKeeps(me, other, d);
    case Configure(s) => ConfigureKeeps(me, other, s);
  }

  lemma FlushStepKeeps(me: Peer, other: Peer)
    requires Linked(me, other)
    ensures Linked(PeerStep(me, other.wire, Action.Flush), other)
  {
    hide Linked;
    FlushKeeps(me, other);
  }

  // ---------------------------------------------------------------- every run

  lemma LinkedSwap(a: Peer, b: Peer)
    requires Linked(a, b)
    ensures Linked(b, a)
  {
    hide Link, Local;
  }

  lemma StartsLinked(build: Build, conv: u32, mssA: Mss, mssB: Mss)
    ensures Linked(Links.Start(build, conv, mssA), Links.Start(build, conv, mssB))
  {
  }

  lemma {:induction false} EveryRunLinked(build: Build, conv: u32, mssA: Mss, mssB: Mss, steps: seq<(Side, Action)>)
    ensures var s := Run(Initial(build, conv, mssA, mssB), steps); Linked(s.a, s.b)
  {
    if steps == [] {
      StartsLinked(build, conv, mssA, mssB);
    } else {
      var last := |steps| - 1;
      EveryRunLinked(build, conv, mssA, mssB, steps[..last]);
      var s := Run(Initial(build, conv, mssA, mssB), steps[..last]);
      hide Linked, PeerStep;
      match steps[last].0
      case A => PeerStepKeeps(s.a, s.b, steps[last].1);
      case B =>
        LinkedSwap(s.a, s.b);
        PeerStepKeeps(s.b, s.a, steps[last].1);
        LinkedSwap(PeerStep(s.b, s.a.wire, steps[last].1), s.a);
    }
  }

  /**
   End-to-end delivery. In every run, with any loss, repetition and reordering of datagrams and
   any settings changed on the way, the messages recv() returned on one side are a prefix of the
   messages send() accepted on the other, boundary for boundary and byte for byte.
   */
  lemma DeliveredIsPrefixOfSent(build: Build, conv: u32, mssA: Mss, mssB: Mss, steps: seq<(Side, Action)>)
    ensures var s := Run(Initial(build, conv, mssA, mssB), steps);
      s.b.received <= s.a.sent && s.a.received <= s.b.sent
  {
    EveryRunLinked(build, conv, mssA, mssB, steps);
  }

  /**
   What `s` has numbered is in its buffer or held by `r`, and no acknowledgement `r` has put on the
   wire, by number or by una, speaks of a segment it does not hold or that was never numbered.
   */
  ghost predicate Lossless(s: Peer, r: Peer) {
    && (forall sn: u32 :: sn < s.e.out.nxt ==> HasSn(s.e.out.buf, sn) || Held(r.e.inbox, sn))
    && (forall p :: p in r.spoken ==> p.header.una <= r.e.inbox.nxt)
    && (forall p :: p in r.spoken && p.header.cmd == ACK ==>
          Held(r.e.inbox, p.header.sn) && p.header.sn < s.e.out.nxt)
  }

  lemma LinkLossless(s: Peer, r: Peer)
    requires Link(s, r)
    ensures Lossless(s, r)
  {
    hide Held, HasSn, OutboxMatches, InboxMatches, Pushes, Scheduled;
    forall p | p in r.spoken
      ensures p.header.una <= r.e.inbox.nxt
      ensures p.header.cmd == ACK ==> Held(r.e.inbox, p.header.sn) && p.header.sn < s.e.out.nxt
    {
      assert ReplyOk(p, r.e.inbox, s.e.out.nxt, s.log);
    }
  }

  /** No acknowledged data is lost, in either direction and in every run. */
  lemma NothingAcknowledgedIsLost(build: Build, conv: u32, mssA: Mss, mssB: Mss, steps: seq<(Side, Action)>)
    ensures var s := Run(Initial(build, conv, mssA, mssB), steps); Lossless(s.a, s.b) && Lossless(s.b, s.a)
  {
    EveryRunLinked(build, conv, mssA, mssB, steps);
    var s := Run(Initial(build, conv, mssA, mssB), steps);
    hide Run, Lossless, Link, Local;
    LinkLossless(s.a, s.b);
    LinkLossless(s.b, s.a);
  }

  /**
   snd_buf is strictly increasing within [snd_una, snd_nxt), snd_una is its front (or snd_nxt), the
   unnumbered fragments are exactly what remains, and the peer's rcv_nxt never passes snd_nxt.
   */
  predicate Kept(s: Peer, r: Peer) {
    && Tracked(s.e.out)
    && Remaining(s.e.out.queue, s.e.out.nxt, Spoken(s))
    && r.e.inbox.nxt <= s.e.out.nxt
  }

  /** Sender bookkeeping, on both sides and in every run. */
  lemma SenderBookkeeping(build: Build, conv: u32, mssA: Mss, mssB: Mss, steps: seq<(Side, Action)>)
    ensures var s := Run(Initial(build, conv, mssA, mssB), steps); Kept(s.a, s.b) && Kept(s.b, s.a)
  {
    EveryRunLinked(build, conv, mssA, mssB, steps);
  }

  /**
   Datagram `d` of `s` is the encoding of a group of packets, non-empty and at most one MTU long;
   input() of `r` accepts it, consumes all of it, and dispatches exactly that group, in order.
   */
  ghost predicate Accepted(s: Peer, r: Peer, d: seq<u8>) {
    && |d| <= s.e.mss + HEADER_SIZE
    && Input(r.e, d).1.Ok? && Input(r.e, d).1.value.totalBytes == |d|
    && exists group: seq<Packet> ::
         && Encloses(r.e.build, r.e.conv, s.e.mss, d, group, s.spoken)
         && Input(r.e, d).0 == Conclude(HandleAll(r.e, group), r.e.out.una, FastAcks(NO_FAST_ACK, group))
  }

  lemma WireAccepted(s: Peer, r: Peer, d: seq<u8>)
    requires Linked(s, r) && d in s.wire
    ensures Accepted(s, r, d)
  {
    assert Parses(s.e.build, s.e.conv, s.e.mss, d, s.spoken);
    hide Link, Parse, HandleAll, Conclude, FastAcks, EncodeAll, AllWellFormed, TallyAll, Size;
    var group :| Encloses(s.e.build, s.e.conv, s.e.mss, d, group, s.spoken);
    SizeIsEncodedLength(s.e.build, group);
  }

  /** Datagram round trip: each datagram a run has put on the wire, on either side, is accepted. */
  lemma EveryDatagramAccepted(build: Build, conv: u32, mssA: Mss, mssB: Mss, steps: seq<(Side, Action)>, d: seq<u8>)
    ensures var s := Run(Initial(build, conv, mssA, mssB), steps);
      && (d in s.a.wire ==> Accepted(s.a, s.b, d))
      && (d in s.b.wire ==> Accepted(s.b, s.a, d))
  {
    EveryRunLinked(build, conv, mssA, mssB, steps);
    var s := Run(Initial(build, conv, mssA, mssB), steps);
    hide Run, Linked, Accepted;
    LinkedSwap(s.a, s.b);
    if d in s.a.wire {
      WireAccepted(s.a, s.b, d);
    }
    if d in s.b.wire {
      WireAccepted(s.b, s.a, d);
    }
  }
}
