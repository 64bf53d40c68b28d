/** A run whose fast resend overflows the congestion window in bytes. */
module Overflows {
  import opened Words
  import opened Segments
  import opened Codec
  import opened Sending
  import opened Congestion
  import opened Timeouts
  import opened Fragmentation
  import opened Transmission
  import opened Endpoints
  import opened Links
  import opened Rounds
  import opened Balance
  import opened Laws
  import opened Witnesses

  const SEGMENT: Mss := 0x4000_0000

  function Fourth(conv: u32): Packet {
    Packet(Header(conv, ACK, 0, WND_SND, 0, 3, 0, 0), [])
  }

  /** Four segments sent, with fastresend 2, and three acknowledgements of the fourth. */
  function Skipping(build: Build, conv: u32): seq<Action> {
    var d := EncodeAll(build, [Fourth(conv)]);
    [Action.Configure(FastResend(2)), Action.Configure(CongestionWindowEnabled(false)),
     Action.Send([7]), Action.Send([7]), Action.Send([7]), Action.Send([7]), Action.Update(0),
     Action.Deliver(d), Action.Deliver(d), Action.Deliver(d)]
  }

  function Bytewise(n: nat): seq<Segment> {
    seq(n, i requires 0 <= i < n => Queued(Frag(0, [7])))
  }

  /** `n` one-byte messages queued at an endpoint that has not flushed yet. */
  predicate Queueing(e: Endpoint, n: nat) {
    && e == New(e.build, e.conv, SEGMENT).(
              out := EMPTY_OUTBOX.(queue := Bytewise(n)),
              windows := INITIAL_WINDOWS.(enabled := false),
              tuning := New(e.build, e.conv, SEGMENT).tuning.(fastresend := 2))
  }

  lemma SendQueues(e: Endpoint, n: nat)
    requires Queueing(e, n)
    ensures var e' := Endpoints.Send(e, [7]).0; Queueing(e', n + 1) && e'.build == e.build && e'.conv == e.conv
  {
    assert Fragments([7], e.mss) == [Frag(0, [7])];
    hide Fragments;
    assert Bytewise(n) + QueuedAll([Frag(0, [7])]) == Bytewise(n + 1);
  }

  lemma PreparedQueues(e: Endpoint)
    requires e == New(e.build, e.conv, SEGMENT)
    ensures var c := Endpoints.Configure(Endpoints.Configure(e, FastResend(2)), CongestionWindowEnabled(false));
      Queueing(c, 0) && c.build == e.build && c.conv == e.conv
  {
    assert Bytewise(0) == [];
  }

  // ---------------------------------------------------------------- sent, then skipped

  /** Segments numbered from 0, sent once at time 0 and skipped `k` times. */
  predicate AllSkipped(buf: seq<Segment>, k: u32) {
    forall i :: 0 <= i < |buf| ==>
      buf[i].header.sn == i && buf[i].meta.xmit == 1 && buf[i].meta.resendts == 225 && buf[i].meta.fastack == k
  }

  /** Four numbers in flight, the first `n` still unacknowledged. */
  predicate Flying(e: Endpoint, n: nat, k: u32) {
    && e.out.una == 0 && e.out.nxt == 4 && e.out.queue == [] && |e.out.buf| == n && AllSkipped(e.out.buf, k)
    && e.windows == INITIAL_WINDOWS.(enabled := false, cwnd := 1, incr := SEGMENT) && e.mss == SEGMENT
    && e.tuning.fastresend == 2 && e.tuning.fastlimit == FASTACK_LIMIT
    && e.timing.updated && e.timing.current == 0
  }

  lemma {:induction false} AllFirst(p: Pass, buf: seq<Segment>)
    requires forall i :: 0 <= i < |buf| ==> Judge(p, buf[i]) == First
    ensures CountOf(p, buf, Fast) == 0 && CountOf(p, buf, TimedOut) == 0
  {
    hide Judge;
    if buf != [] {
      AllFirst(p, buf[..|buf| - 1]);
    }
  }

  lemma {:induction false} AllFast(p: Pass, buf: seq<Segment>)
    requires forall i :: 0 <= i < |buf| ==> Judge(p, buf[i]) == Fast
    ensures CountOf(p, buf, Fast) == |buf| && CountOf(p, buf, TimedOut) == 0
  {
    hide Judge;
    if buf != [] {
      AllFast(p, buf[..|buf| - 1]);
    }
  }

  lemma SentOnce(p: Pass, q: Segment, sn: u32, stamp: Stamp, rto: u32)
    requires p.stamp.ts == 0 && p.rto == RTO_DEF && p.rtomin == RTO_DEF / 8
    ensures var seg := Numbered(q, sn, stamp, rto);
      && Judge(p, seg) == First
      && Processed(p, seg).header.sn == sn && Processed(p, seg).meta == Metadata(225, RTO_DEF, 0, 1)
  {
    hide TimeDelta;
  }

  lemma FlushSends(e: Endpoint)
    requires Fresh(e) && |e.out.queue| == 4 && e.timing.updated && e.timing.current == 0
    requires e.estimate.rto == RTO_DEF && e.tuning.nodelay == 0 && e.mss == SEGMENT
    requires e.windows == INITIAL_WINDOWS.(enabled := false)
    requires e.tuning.fastresend == 2 && e.tuning.fastlimit == FASTACK_LIMIT
    ensures Flying(Endpoints.Flush(e), 4, 0)
  {
    var o, p := Endpoints.Admitted(e), PassOf(e);
    AllNumbered(e);
    assert p.stamp.ts == 0 && p.rto == RTO_DEF && p.rtomin == RTO_DEF / 8;
    hide Endpoints.Admitted, StampOf, Numbered, Judge, Processed, Fresh, PassOf, CountOf, FlushedProbe;
    forall i | 0 <= i < |o.buf|
      ensures Judge(p, o.buf[i]) == First && Processed(p, o.buf[i]).header.sn == i
      ensures Processed(p, o.buf[i]).meta == Metadata(225, RTO_DEF, 0, 1)
    {
      SentOnce(p, e.out.queue[i], i, StampOf(e), e.estimate.rto);
    }
    AllFirst(p, o.buf);
    hide ReachesDeadLink;
  }

  lemma UpdateSends(e: Endpoint)
    requires Queueing(e, 4)
    ensures var e' := Endpoints.Update(e, 0); Flying(e', 4, 0) && e'.build == e.build && e'.conv == e.conv
  {
    var t := Ticked(e, 0);
    FirstDue(e.timing);
    TickedUpdatedAt(e);
    assert t == e.(timing := t.timing);
    hide NextFlush, FlushDue, Ticked;
    assert CongestionWindow(e.windows) == WND_SND;
    assert Fresh(t);
    hide Fresh, Queueing, CongestionWindow, Flying;
    FlushSends(t);
    FlushKeepsBuild(t);
    FlushKeepsConv(t);
    hide Endpoints.Flush;
  }

  lemma TickedUpdatedAt(e: Endpoint)
    ensures Ticked(e, 0).timing.updated && Ticked(e, 0).timing.current == 0
  {
    hide FlushDue;
  }

  lemma FlushKeepsConv(e: Endpoint)
    ensures Endpoints.Flush(e).conv == e.conv
  {
  }

  // ---------------------------------------------------------------- three acknowledgements of number 3

  lemma {:induction false} ErasesFourth(buf: seq<Segment>, k: u32)
    requires AllSkipped(buf, k) && 3 <= |buf| <= 4
    ensures EraseBefore(buf, 0) == buf && EraseSn(buf, 3) == buf[..3]
  {
    assert buf == [buf[0]] + buf[1..] && buf[1..] == [buf[1]] + buf[2..] && buf[2..] == [buf[2]] + buf[3..];
    assert EraseSn(buf[3..], 3) == [];
    assert EraseSn(buf[2..], 3) == [buf[2]] + EraseSn(buf[2..][1..], 3);
    assert EraseSn(buf[1..], 3) == [buf[1]] + EraseSn(buf[1..][1..], 3);
    assert buf[..3] == [buf[0]] + ([buf[1]] + ([buf[2]] + []));
  }

  lemma BumpsAll(buf: seq<Segment>, k: u32)
    requires AllSkipped(buf, k) && |buf| == 3 && k < 10
    ensures AllSkipped(BumpBefore(buf, 3), k + 1)
  {
    BumpIsMap(buf, 3);
    hide BumpBefore;
  }

  lemma FourthHandled(e: Endpoint, n: nat, k: u32)
    requires Flying(e, n, k) && 3 <= n <= 4
    ensures var h := HandleAll(e, [Fourth(e.conv)]);
      && h.out == e.out.(buf := e.out.buf[..3]) && h.windows == e.windows && h.mss == e.mss
      && h.tuning == e.tuning && h.timing == e.timing && h.build == e.build && h.conv == e.conv
  {
    var p := Fourth(e.conv);
    var h := HandlePacket(e, p);
    ErasesFourth(e.out.buf, k);
    hide EraseBefore, EraseSn, Timeouts.Update;
    assert [p][1..] == [] && HandleAll(e, [p]) == HandleAll(h, []);
  }

  lemma FourthSkips(e: Endpoint, n: nat, k: u32)
    requires Flying(e, n, k) && 3 <= n <= 4 && k < 10
    ensures var e' := Input(e, EncodeAll(e.build, [Fourth(e.conv)])).0;
      Flying(e', 3, k + 1) && e'.build == e.build && e'.conv == e.conv
  {
    var p := Fourth(e.conv);
    hide EncodeAll, Input, HandleAll, Parse;
    InputGroup(e, [p]);
    FourthHandled(e, n, k);
    assert [p][1..] == [];
    assert FastAcks(NO_FAST_ACK, [p]) == FastAcks(FastAck(3, 0), []) == FastAck(3, 0);
    BumpsAll(e.out.buf[..3], k);
    hide BumpBefore, FastAcks;
  }

  // ---------------------------------------------------------------- the run

  /** The endpoint after one call more. */
  lemma CalledNext(me: Peer, calls: seq<Action>, k: nat)
    requires k < |calls| && !calls[k].Deliver?
    ensures var e, e' := Called(me, calls[..k]).e, Called(me, calls[..k + 1]).e;
      match calls[k]
      case Configure(s) => e' == Endpoints.Configure(e, s)
      case Send(msg) => e' == Endpoints.Send(e, msg).0
      case Update(now) => e' == Endpoints.Update(e, Wrap32(now))
      case _ => true
  {
    hide Called, Endpoints.Update, Endpoints.Send, UpdateDatagrams, Endpoints.Configure, Wrap32;
    CalledMore(me, calls[..k], calls[k]);
    assert calls[..k] + [calls[k]] == calls[..k + 1];
  }

  /** The state while the messages are queued. */
  predicate Preparing(me: Peer, calls: seq<Action>, k: nat, n: nat)
    requires k <= |calls|
  {
    var e := Called(me, calls[..k]).e;
    Queueing(e, n) && e.build == me.e.build && e.conv == me.e.conv
  }

  lemma PreparedFirst(me: Peer, calls: seq<Action>)
    requires |calls| >= 2 && me.e == New(me.e.build, me.e.conv, SEGMENT)
    requires calls[0] == Action.Configure(FastResend(2)) && calls[1] == Action.Configure(CongestionWindowEnabled(false))
    ensures Preparing(me, calls, 2, 0)
  {
    hide Called, Queueing, New, Endpoints.Configure;
    NoCalls(me, calls);
    CalledNext(me, calls, 0);
    CalledNext(me, calls, 1);
    PreparedQueues(me.e);
  }

  lemma QueuedNext(me: Peer, calls: seq<Action>, k: nat, n: nat)
    requires k < |calls| && calls[k] == Action.Send([7]) && Preparing(me, calls, k, n)
    ensures Preparing(me, calls, k + 1, n + 1)
  {
    hide Called, Queueing, Endpoints.Send;
    CalledNext(me, calls, k);
    SendQueues(Called(me, calls[..k]).e, n);
  }

  lemma SkippingPrefix(me: Peer)
    requires me.e == New(me.e.build, me.e.conv, SEGMENT)
    ensures var calls := Skipping(me.e.build, me.e.conv);
      var e := Called(me, calls[..7]).e;
      Flying(e, 4, 0) && e.build == me.e.build && e.conv == me.e.conv
  {
    hide Called, Queueing, Flying, Endpoints.Update, Wrap32, Skipping, New;
    var calls := Skipping(me.e.build, me.e.conv);
    SkippingAre(me.e.build, me.e.conv);
    PreparedFirst(me, calls);
    QueuedNext(me, calls, 2, 0);
    QueuedNext(me, calls, 3, 1);
    QueuedNext(me, calls, 4, 2);
    QueuedNext(me, calls, 5, 3);
    CalledNext(me, calls, 6);
    WrapSmall(0);
    UpdateSends(Called(me, calls[..6]).e);
  }

  lemma SkippingAre(build: Build, conv: u32)
    ensures var calls := Skipping(build, conv);
      && |calls| == 10
      && calls[0] == Action.Configure(FastResend(2)) && calls[1] == Action.Configure(CongestionWindowEnabled(false))
      && (forall i :: 2 <= i < 6 ==> calls[i] == Action.Send([7])) && calls[6] == Action.Update(0)
      && (forall i :: 7 <= i < 10 ==> calls[i] == Action.Deliver(EncodeAll(build, [Fourth(conv)])))
  {
    hide EncodeAll;
  }

  lemma NoCalls(me: Peer, calls: seq<Action>)
    ensures Called(me, calls[..0]) == me
  {
  }

  lemma SkippingCalls(me: Peer)
    requires me.e == New(me.e.build, me.e.conv, SEGMENT)
    ensures Flying(Called(me, Skipping(me.e.build, me.e.conv)).e, 3, 3)
  {
    hide Called, EncodeAll, Input, New, Flying, Skipping;
    var calls, d := Skipping(me.e.build, me.e.conv), EncodeAll(me.e.build, [Fourth(me.e.conv)]);
    SkippingAre(me.e.build, me.e.conv);
    SkippingPrefix(me);
    assert calls[..7] + [calls[7]] == calls[..8] && calls[..8] + [calls[8]] == calls[..9]
        && calls[..9] + [calls[9]] == calls;
    CalledDeliver(me, calls[..7], d);
    CalledDeliver(me, calls[..8], d);
    CalledDeliver(me, calls[..9], d);
    FourthSkips(Called(me, calls[..7]).e, 4, 0);
    FourthSkips(Called(me, calls[..8]).e, 3, 1);
    FourthSkips(Called(me, calls[..9]).e, 3, 2);
  }

  /** With three of four segments skipped three times, a flush restarts the window at 4 segments. */
  lemma FlyingOverflows(e: Endpoint)
    requires Flying(e, 3, 3)
    ensures Balanced(e.windows, e.mss) && !Balanced(Endpoints.Flush(e).windows, e.mss) && !FlushFits(e)
  {
    var p := PassOf(e);
    assert Endpoints.Admitted(e) == e.out;
    assert !Due(0, 225);
    assert p.stamp.ts == 0 && p.resent == 2 && p.fastlimit == FASTACK_LIMIT;
    hide Endpoints.Admitted, PassOf, CountOf, Due;
    AllFast(p, e.out.buf);
    FlushBalancedExactly(e);
    assert RestartWindow(Wrap32(4), 2) == 4;
    assert Bytes(4, SEGMENT) == 0x1_0000_0000;
    hide Endpoints.Flush;
  }

  /**
   A fast resend can overflow at a reachable endpoint. With segments of 2^30 bytes and fastresend 2,
   four in flight and the fourth acknowledged three times, the next flush restarts the window at
   4 segments, whose bytes wrap to 0.
   */
  lemma RestartOverflows(build: Build, conv: u32)
    ensures var me, calls := Links.Start(build, conv, SEGMENT), Skipping(build, conv);
      && Balanced(Called(me, calls).e.windows, SEGMENT)
      && !Balanced(Called(me, calls + [Action.Flush]).e.windows, SEGMENT)
  {
    var me, calls := Links.Start(build, conv, SEGMENT), Skipping(build, conv);
    hide Called, Endpoints.Flush, FlushDatagrams, FlushFits, Balanced, Skipping;
    SkippingCalls(me);
    FlyingOverflows(Called(me, calls).e);
    CalledMore(me, calls, Action.Flush);
  }
}
