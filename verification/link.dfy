/**
 Two endpoints joined by a network that loses, repeats and reorders datagrams, and what every
 step of either endpoint keeps true of both.
 */
module Links {
  import opened Words
  import opened Segments
  import opened Codec
  import opened Receiving
  import opened Sending
  import opened Congestion
  import opened Packing
  import opened Fragmentation
  import opened Endpoints
  import opened Matching

  /** An endpoint and the history of one run: nothing in the history influences a step. */
  datatype Peer = Peer(
    e: Endpoint,
    sent: seq<seq<u8>>,      // messages send() accepted
    received: seq<seq<u8>>,  // messages recv() returned
    wire: set<seq<u8>>,      // datagrams given to the output callback
    spoken: set<Packet>,     // the packets in those datagrams
    log: set<(u32, nat)>,    // number and clock reading of every transmission
    clock: nat,              // unbounded reading of the clock last passed to update()
    monotone: bool)          // whether those readings never went back

  datatype Action =
    | Send(msg: seq<u8>)
    | Recv(capacity: nat)
    | Update(now: nat)
    | Flush
    | Check(now: nat)
    | Deliver(datagram: seq<u8>)
    | Configure(setting: Setting)

  function Start(build: Build, conv: u32, mss: Mss): Peer {
    Peer(New(build, conv, mss), [], [], {}, {}, {}, 0, true)
  }

  function Transmissions(ps: seq<Packet>, clock: nat): set<(u32, nat)> {
    set p | p in ps && p.header.cmd == PUSH :: (p.header.sn, clock)
  }

  /** Hands datagrams to the network. */
  function Emit(me: Peer, e: Endpoint, groups: seq<seq<Packet>>): Peer {
    var ps := Concat(groups);
    me.(e := e,
        wire := me.wire + (set d | d in EncodeGroups(me.e.build, groups)),
        spoken := me.spoken + (set p | p in ps),
        log := me.log + Transmissions(ps, me.clock))
  }

  function Clocked(me: Peer, now: nat): Peer {
    me.(clock := now, monotone := me.monotone && me.clock <= now)
  }

  /** One call on one endpoint; a datagram can be delivered whenever it was ever sent. */
  function PeerStep(me: Peer, incoming: set<seq<u8>>, action: Action): Peer {
    match action
    case Send(msg) =>
      var (e, r) := Endpoints.Send(me.e, msg);
      me.(e := e, sent := if r.Ok? then me.sent + [msg] else me.sent)
    case Recv(capacity) =>
      var (e, r) := Endpoints.Recv(me.e, capacity);
      me.(e := e, received := if r.Ok? then me.received + [r.value] else me.received)
    case Update(now) =>
      Emit(Clocked(me, now), Endpoints.Update(me.e, Wrap32(now)), UpdateDatagrams(me.e, Wrap32(now)))
    case Flush => Emit(me, Endpoints.Flush(me.e), FlushDatagrams(me.e))
    case Check(now) => me.(e := Endpoints.Check(me.e, Wrap32(now)).0)
    case Deliver(d) => if d in incoming then me.(e := Input(me.e, d).0) else me
    case Configure(s) => me.(e := Endpoints.Configure(me.e, s))
  }

  // ---------------------------------------------------------------- the invariant of one direction

  /** Segment `sn` was transmitted when the sender's clock showed `ts`. */
  ghost predicate Logged(log: set<(u32, nat)>, sn: u32, ts: u32) {
    exists at: nat :: (sn, at) in log && Wrap32(at) == ts
  }

  predicate GoodMessages(msgs: seq<seq<u8>>, mss: Mss) {
    forall i :: 0 <= i < |msgs| ==> msgs[i] != [] && |Fragments(msgs[i], mss)| <= 255
  }

  ghost predicate PushOk(p: Packet, top: u32, stream: seq<Frag>, log: set<(u32, nat)>) {
    p.header.cmd == PUSH ==>
      && p.header.sn < top <= |stream|
      && Frag(p.header.frg, p.data) == stream[p.header.sn]
      && p.header.len == |p.data|
      && Logged(log, p.header.sn, p.header.ts)
  }

  ghost predicate Pushes(spoken: set<Packet>, top: u32, stream: seq<Frag>, log: set<(u32, nat)>) {
    forall p :: p in spoken ==> PushOk(p, top, stream, log)
  }

  /** An acknowledgement speaks of a transmitted segment that the receiving side holds. */
  ghost predicate AckOk(r: Inbox, top: u32, log: set<(u32, nat)>, sn: u32, ts: u32) {
    Held(r, sn) && sn < top && Logged(log, sn, ts)
  }

  ghost predicate Scheduled(acks: seq<Acknowledgement>, r: Inbox, top: u32, log: set<(u32, nat)>) {
    forall i :: 0 <= i < |acks| ==> AckOk(r, top, log, acks[i].sn, acks[i].ts)
  }

  ghost predicate ReplyOk(p: Packet, r: Inbox, top: u32, log: set<(u32, nat)>) {
    p.header.una <= r.nxt && (p.header.cmd == ACK ==> AckOk(r, top, log, p.header.sn, p.header.ts))
  }

  ghost predicate Replies(spoken: set<Packet>, r: Inbox, top: u32, log: set<(u32, nat)>) {
    forall p :: p in spoken ==> ReplyOk(p, r, top, log)
  }

  /** Every numbered segment is still in the send buffer or held by the receiving side. */
  ghost predicate NoLoss(o: Outbox, r: Inbox) {
    forall sn: u32 :: sn < o.nxt ==> HasSn(o.buf, sn) || Held(r, sn)
  }

  /** The stream of fragments one peer has handed to its endpoint. */
  function Spoken(s: Peer): seq<Frag> {
    Stream(s.sent, s.e.mss)
  }

  /** What holds between a sending peer and the peer that receives from it. */
  ghost predicate Link(s: Peer, r: Peer) {
    && GoodMessages(s.sent, s.e.mss)
    && r.received <= s.sent
    && OutboxMatches(s.e.out, s.e.conv, Spoken(s))
    && InboxMatches(r.e.inbox, Spoken(s), |Stream(r.received, s.e.mss)|, s.e.out.nxt)
    && Pushes(s.spoken, s.e.out.nxt, Spoken(s), s.log)
    && NoLoss(s.e.out, r.e.inbox)
    && Scheduled(r.e.acks, r.e.inbox, s.e.out.nxt, s.log)
    && Replies(r.spoken, r.e.inbox, s.e.out.nxt, s.log)
  }

  /** Datagram `d` is the encoding of `group`, at most one MTU long, and parses back into it. */
  ghost predicate Encloses(build: Build, conv: u32, mss: Mss, d: seq<u8>, group: seq<Packet>, spoken: set<Packet>) {
    && Sendable(group, mss) && AllWellFormed(conv, group)
    && d == EncodeAll(build, group) && |d| >= HEADER_SIZE
    && Parse(build, conv, d) == Parsed(group, Finished(|d|))
    && forall p :: p in group ==> p in spoken
  }

  /** Every datagram on the wire encloses a group of spoken packets. */
  ghost predicate Parses(build: Build, conv: u32, mss: Mss, d: seq<u8>, spoken: set<Packet>) {
    exists group: seq<Packet> :: Encloses(build, conv, mss, d, group, spoken)
  }

  ghost predicate Local(p: Peer) {
    && (forall d :: d in p.wire ==> Parses(p.e.build, p.e.conv, p.e.mss, d, p.spoken))
    && p.e.timing.current == Wrap32(p.clock)
    && (p.monotone ==> forall t :: t in p.log ==> t.1 <= p.clock)
  }

  // ---------------------------------------------------------------- growth

  lemma LoggedMore(log: set<(u32, nat)>, log': set<(u32, nat)>, sn: u32, ts: u32)
    requires Logged(log, sn, ts) && log <= log'
    ensures Logged(log', sn, ts)
  {
    var at: nat :| (sn, at) in log && Wrap32(at) == ts;
    assert (sn, at) in log';
  }

  lemma PushesMore(spoken: set<Packet>, top: u32, stream: seq<Frag>, log: set<(u32, nat)>,
                   top': u32, stream': seq<Frag>, log': set<(u32, nat)>)
    requires Pushes(spoken, top, stream, log)
    requires top <= top' <= |stream'| && stream <= stream' && log <= log'
    ensures Pushes(spoken, top', stream', log')
  {
    forall p | p in spoken && p.header.cmd == PUSH ensures PushOk(p, top', stream', log') {
      assert PushOk(p, top, stream, log);
      LoggedMore(log, log', p.header.sn, p.header.ts);
    }
  }

  /** The receiving side only ever holds more. */
  ghost predicate HoldsMore(r: Inbox, r': Inbox) {
    r.nxt <= r'.nxt && forall sn: u32 :: Held(r, sn) ==> Held(r', sn)
  }

  lemma AckOkMore(r: Inbox, top: u32, log: set<(u32, nat)>, r': Inbox, top': u32, log': set<(u32, nat)>,
                  sn: u32, ts: u32)
    requires AckOk(r, top, log, sn, ts) && HoldsMore(r, r') && top <= top' && log <= log'
    ensures AckOk(r', top', log', sn, ts)
  {
    LoggedMore(log, log', sn, ts);
  }

  lemma RepliesMore(spoken: set<Packet>, r: Inbox, top: u32, log: set<(u32, nat)>,
                    r': Inbox, top': u32, log': set<(u32, nat)>)
    requires Replies(spoken, r, top, log) && HoldsMore(r, r') && top <= top' && log <= log'
    ensures Replies(spoken, r', top', log')
  {
    forall p | p in spoken ensures ReplyOk(p, r', top', log') {
      assert ReplyOk(p, r, top, log);
      if p.header.cmd == ACK {
        AckOkMore(r, top, log, r', top', log', p.header.sn, p.header.ts);
      }
    }
  }

  lemma ScheduledMore(acks: seq<Acknowledgement>, r: Inbox, top: u32, log: set<(u32, nat)>,
                      r': Inbox, top': u32, log': set<(u32, nat)>)
    requires Scheduled(acks, r, top, log) && HoldsMore(r, r') && top <= top' && log <= log'
    ensures Scheduled(acks, r', top', log')
  {
    forall i | 0 <= i < |acks| ensures AckOk(r', top', log', acks[i].sn, acks[i].ts) {
      AckOkMore(r, top, log, r', top', log', acks[i].sn, acks[i].ts);
    }
  }

  /** The receiving peer changes: it holds more, and has scheduled and said only what is so. */
  lemma ReceiverMoves(s: Peer, r: Peer, r': Peer)
    requires Link(s, r) && HoldsMore(r.e.inbox, r'.e.inbox)
    requires r'.received <= s.sent
    requires InboxMatches(r'.e.inbox, Spoken(s), |Stream(r'.received, s.e.mss)|, s.e.out.nxt)
    requires Scheduled(r'.e.acks, r'.e.inbox, s.e.out.nxt, s.log)
    requires r'.spoken == r.spoken || Replies(r'.spoken, r'.e.inbox, s.e.out.nxt, s.log)
    ensures Link(s, r')
  {
    RepliesMore(r.spoken, r.e.inbox, s.e.out.nxt, s.log, r'.e.inbox, s.e.out.nxt, s.log);
    hide OutboxMatches, InboxMatches, Pushes, Scheduled, Replies, Held, GoodMessages;
  }

  lemma HoldsSame(r: Inbox)
    ensures HoldsMore(r, r)
  {
  }

  // ---------------------------------------------------------------- input

  lemma HandledOutbox(e: Endpoint, p: Packet)
    ensures var o := UnaReceived(e.out, p.header.una);
      HandlePacket(e, p).out == if p.header.cmd == ACK then AckReceived(o, p.header.sn) else o
    ensures HandlePacket(e, p).conv == e.conv && HandlePacket(e, p).mss == e.mss
    ensures HandlePacket(e, p).build == e.build && HandlePacket(e, p).timing == e.timing
  {
    hide UnaReceived, AckReceived, Emplace;
  }

  lemma HandledInbox(e: Endpoint, p: Packet)
    ensures var e' := HandlePacket(e, p);
      var fits := p.header.cmd == PUSH && FitsReceiveWindow(e.windows, e.inbox.nxt, p.header.sn);
      && e'.acks == (if fits then e.acks + [Acknowledgement(p.header.sn, p.header.ts)] else e.acks)
      && e'.inbox == (if fits && ShouldReceive(e.inbox, p.header.sn)
                      then Emplace(e.inbox, Segment(p.header, p.data, NEW_METADATA)) else e.inbox)
  {
    hide UnaReceived, AckReceived, Emplace;
  }

  /** An acknowledged segment may leave the send buffer: the receiving side holds it. */
  lemma PacketAsSender(me: Peer, other: Peer, p: Packet)
    requires Link(me, other) && p in other.spoken
    ensures Link(me.(e := HandlePacket(me.e, p)), other)
  {
    HandledOutbox(me.e, p);
    var o, stream := me.e.out, Spoken(me);
    var o1 := UnaReceived(o, p.header.una);
    UnaMatches(o, me.e.conv, stream, p.header.una);
    if p.header.cmd == ACK {
      AckMatches(o1, me.e.conv, stream, p.header.sn);
    }
    assert ReplyOk(p, other.e.inbox, o.nxt, me.log);
    hide HandlePacket, UnaReceived, AckReceived, OutboxMatches, InboxMatches, Pushes, Scheduled, Replies, HasSn, Logged;
    assert NoLoss(HandlePacket(me.e, p).out, other.e.inbox);
  }

  lemma PushAsReceiver(r: Inbox, stream: seq<Frag>, consumed: nat, top: u32, log: set<(u32, nat)>, p: Packet)
    requires InboxMatches(r, stream, consumed, top) && PushOk(p, top, stream, log) && p.header.cmd == PUSH
    ensures var r' := if ShouldReceive(r, p.header.sn)
                      then Emplace(r, Segment(p.header, p.data, NEW_METADATA)) else r;
      && InboxMatches(r', stream, consumed, top)
      && HoldsMore(r, r')
      && AckOk(r', top, log, p.header.sn, p.header.ts)
  {
    hide InboxMatches, HasSn, Logged, Emplace;
    if ShouldReceive(r, p.header.sn) {
      var seg := Segment(p.header, p.data, NEW_METADATA);
      assert FragOf(seg) == stream[p.header.sn];
      EmplaceMatches(r, stream, consumed, top, seg);
    }
  }

  /** A PUSH is acknowledged only once it is held. */
  lemma PacketAsReceiver(other: Peer, me: Peer, p: Packet)
    requires Link(other, me) && p in other.spoken
    ensures Link(other, me.(e := HandlePacket(me.e, p)))
  {
    HandledInbox(me.e, p);
    var r, top := me.e.inbox, other.e.out.nxt;
    assert PushOk(p, top, Spoken(other), other.log);
    HoldsSame(r);
    var e' := HandlePacket(me.e, p);
    var consumed := |Stream(me.received, other.e.mss)|;
    hide HandlePacket, InboxMatches, HoldsMore, AckOk, Emplace, ShouldReceive, FitsReceiveWindow, Replies,
         Pushes, NoLoss, OutboxMatches;
    if p.header.cmd == PUSH && FitsReceiveWindow(me.e.windows, r.nxt, p.header.sn) {
      PushAsReceiver(r, Spoken(other), consumed, top, other.log, p);
      ScheduledMore(me.e.acks, r, top, other.log, e'.inbox, top, other.log);
    }
    ReceiverMoves(other, me, me.(e := e'));
  }

  lemma {:induction false} PacketsKeepLinks(me: Peer, other: Peer, ps: seq<Packet>)
    requires Link(me, other) && Link(other, me)
    requires forall p :: p in ps ==> p in other.spoken
    ensures Link(me.(e := HandleAll(me.e, ps)), other)
    ensures Link(other, me.(e := HandleAll(me.e, ps)))
    ensures HandleAll(me.e, ps).timing == me.e.timing
    ensures HandleAll(me.e, ps).build == me.e.build && HandleAll(me.e, ps).conv == me.e.conv
    ensures HandleAll(me.e, ps).mss == me.e.mss
    decreases |ps|
  {
    hide Link, HandlePacket;
    if ps != [] {
      PacketAsSender(me, other, ps[0]);
      PacketAsReceiver(other, me, ps[0]);
      HandledOutbox(me.e, ps[0]);
      PacketsKeepLinks(me.(e := HandlePacket(me.e, ps[0])), other, ps[1..]);
    }
  }

  lemma ConcludeKeepsLinks(me: Peer, other: Peer, before: u32, fast: FastAck)
    requires Link(me, other) && Link(other, me)
    ensures Link(me.(e := Conclude(me.e, before, fast)), other)
    ensures Link(other, me.(e := Conclude(me.e, before, fast)))
    ensures var e' := Conclude(me.e, before, fast);
      e'.timing == me.e.timing && e'.build == me.e.build && e'.conv == me.e.conv && e'.mss == me.e.mss
  {
    var o := me.e.out;
    BumpAlike(o.buf, fast.maxack);
    var buf' := AcknowledgeFast(o, fast).buf;
    assert AllAlike(o.buf, buf');
    AlikeMatches(o, me.e.conv, Spoken(me), buf');
    hide AdjustParameters, AllAlike, HasSn, Held, OutboxMatches, InboxMatches, Pushes, Scheduled, Replies, BumpBefore;
    assert Conclude(me.e, before, fast).out == o.(buf := buf');
  }

  lemma DeliverKeepsLinks(me: Peer, other: Peer, d: seq<u8>)
    requires Link(me, other) && Link(other, me)
    requires Local(other) && d in other.wire
    requires me.e.build == other.e.build && me.e.conv == other.e.conv
    ensures Link(me.(e := Input(me.e, d).0), other)
    ensures Link(other, me.(e := Input(me.e, d).0))
    ensures var e' := Input(me.e, d).0;
      e'.timing == me.e.timing && e'.build == me.e.build && e'.conv == me.e.conv && e'.mss == me.e.mss
  {
    assert Parses(other.e.build, other.e.conv, other.e.mss, d, other.spoken);
    var ps := Parse(me.e.build, me.e.conv, d).packets;
    hide Link, EncodeAll, AllWellFormed, Sendable, Parse, Conclude, HandleAll, FastAcks;
    PacketsKeepLinks(me, other, ps);
    ConcludeKeepsLinks(me.(e := HandleAll(me.e, ps)), other, me.e.out.una, FastAcks(NO_FAST_ACK, ps));
  }
}
