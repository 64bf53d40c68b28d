/** Runs in which the receiver can always go on: its application never sets too small a window. */
module RoomyRuns {
  import opened Words
  import opened Segments
  import opened Codec
  import opened Receiving
  import opened Sending
  import opened Congestion
  import opened Fragmentation
  import opened Endpoints
  import opened Links
  import opened Flushing
  import opened Safety
  import opened Progress
  import opened Rounds
  import opened Delivery

  /** Receive windows the application of B sets, at whatever time, are at least `bound`. */
  predicate KeepsReceiveWindow(step: (Side, Action), bound: u32) {
    step.0 == B && step.1.Configure? && step.1.setting.ReceiveWindow? ==> step.1.setting.value >= bound
  }

  /** A bound above the default window needs a window set before anything else happens. */
  predicate OpensWide(steps: seq<(Side, Action)>, bound: u32) {
    bound <= WND_RCV
    || (steps != [] && steps[0].0 == B && steps[0].1.Configure? && steps[0].1.setting.ReceiveWindow?)
  }

  /** A receiving side with room for messages of `bound` fragments, waiting only with cause. */
  predicate Roomy(e: Endpoint, bound: u32) {
    Loose(e.inbox) && e.inbox.limit >= bound >= 1 && e.windows.rcvWnd >= WND_RCV
  }

  lemma DeliverKeepsReceiver(me: Peer, other: Peer, d: seq<u8>, bound: u32)
    requires Linked(me, other) && Roomy(me.e, bound)
    ensures Roomy(PeerStep(me, other.wire, Action.Deliver(d)).e, bound)
  {
    hide Link, Local, Parse, HandleAll, Conclude, FastAcks, Loose, Input;
    if d in other.wire {
      WireParses(other, d);
      InputKeepsReceiver(me, other, d);
    }
  }

  lemma InputKeepsReceiver(me: Peer, other: Peer, d: seq<u8>)
    requires Link(me, other) && Link(other, me)
    requires forall p :: p in Parse(me.e.build, me.e.conv, d).packets ==> p in other.spoken
    ensures var e' := Input(me.e, d).0;
      && (Loose(me.e.inbox) ==> Loose(e'.inbox))
      && e'.inbox.limit == me.e.inbox.limit && e'.windows.rcvWnd == me.e.windows.rcvWnd
  {
    hide Link, Parse, HandleAll, Conclude, FastAcks, Loose;
    var ps := Parse(me.e.build, me.e.conv, d).packets;
    PacketsKeepLoose(me, other, ps);
    PacketsKeepWindow(me.e, ps);
    ConcludeKeeps(HandleAll(me.e, ps), me.e.out.una, FastAcks(NO_FAST_ACK, ps));
  }

  lemma {:induction false} PacketsKeepWindow(e: Endpoint, ps: seq<Packet>)
    ensures HandleAll(e, ps).windows.rcvWnd == e.windows.rcvWnd && HandleAll(e, ps).mss == e.mss
    decreases |ps|
  {
    if ps != [] {
      PacketsKeepWindow(HandlePacket(e, ps[0]), ps[1..]);
      hide UnaReceived, AckReceived, Emplace, HandleAll;
    }
  }

  lemma ConfigureKeepsReceiver(me: Peer, other: Peer, s: Setting, bound: u32)
    requires Link(other, me) && Roomy(me.e, bound)
    requires MessagesWithin(other.sent, other.e.mss, bound)
    requires s.ReceiveWindow? ==> s.value >= bound
    ensures Roomy(Endpoints.Configure(me.e, s), bound)
  {
    if s.ReceiveWindow? {
      LimitChangeLoose(other, me, s.value);
    }
    hide Link, PeekSize, Fragments;
  }

  lemma StepKeepsReceiver(me: Peer, other: Peer, action: Action, bound: u32)
    requires Linked(me, other) && Roomy(me.e, bound) && MessagesWithin(other.sent, other.e.mss, bound)
    requires KeepsReceiveWindow((B, action), bound)
    ensures Roomy(PeerStep(me, other.wire, action).e, bound)
  {
    hide Link, Local, Loose, MessagesWithin;
    match action
    case Send(msg) => hide Fragments;
    case Recv(capacity) =>
      if Endpoints.Recv(me.e, capacity).1.Ok? {
        RecvSettles(me, other, capacity);
      }
      hide Receiving.Recv;
    case Update(now) =>
      FlushKeepsBuild(Ticked(me.e, Wrap32(now)));
      hide Endpoints.Flush, FlushDue, UpdateDatagrams;
    case Flush =>
      FlushKeepsBuild(me.e);
      hide Endpoints.Flush, FlushDatagrams;
    case Check(now) => hide TimeDelta;
    case Deliver(d) =>
      hide PeerStep, Roomy;
      DeliverKeepsReceiver(me, other, d, bound);
    case Configure(s) =>
      hide Roomy, Endpoints.Configure;
      ConfigureKeepsReceiver(me, other, s, bound);
  }

  /** Messages once accepted stay in the history. */
  lemma SentGrows(s: System, side: Side, action: Action)
    ensures s.a.sent <= Step(s, side, action).a.sent && Step(s, side, action).a.e.mss == s.a.e.mss
  {
    if side == A {
      match action
      case Update(now) => FlushKeepsBuild(Ticked(s.a.e, Wrap32(now)));
      case Flush => FlushKeepsBuild(s.a.e);
      case Deliver(d) => InputKeepsMss(s.a.e, d);
      case _ =>
    }
    hide Endpoints.Flush, FlushDatagrams, UpdateDatagrams, Input, FlushDue, Fragments, Receiving.Recv;
  }

  lemma InputKeepsMss(e: Endpoint, d: seq<u8>)
    ensures Input(e, d).0.mss == e.mss
  {
    var ps := Parse(e.build, e.conv, d).packets;
    hide Parse, HandleAll, Conclude, FastAcks;
    PacketsKeepWindow(e, ps);
    ConcludeKeeps(HandleAll(e, ps), e.out.una, FastAcks(NO_FAST_ACK, ps));
  }

  lemma WithinPrefix(msgs: seq<seq<u8>>, msgs': seq<seq<u8>>, mss: Mss, bound: u32)
    requires msgs <= msgs' && MessagesWithin(msgs', mss, bound)
    ensures MessagesWithin(msgs, mss, bound)
  {
  }

  lemma OpenedRoomy(build: Build, conv: u32, mssA: Mss, mssB: Mss, steps: seq<(Side, Action)>, bound: u32)
    requires 1 <= bound && |steps| <= 1 && OpensWide(steps, bound)
    requires forall i :: 0 <= i < |steps| ==> KeepsReceiveWindow(steps[i], bound)
    requires bound <= WND_RCV ==> steps == []
    ensures Roomy(Run(Initial(build, conv, mssA, mssB), steps).b.e, bound)
  {
    var s := Initial(build, conv, mssA, mssB);
    if steps != [] {
      assert Run(s, steps[..0]) == s;
      assert KeepsReceiveWindow(steps[0], bound);
    }
  }

  lemma {:induction false} ReceiverStaysRoomy(build: Build, conv: u32, mssA: Mss, mssB: Mss,
                                              steps: seq<(Side, Action)>, bound: u32)
    requires 1 <= bound && OpensWide(steps, bound)
    requires forall i :: 0 <= i < |steps| ==> KeepsReceiveWindow(steps[i], bound)
    requires var a := Run(Initial(build, conv, mssA, mssB), steps).a; MessagesWithin(a.sent, a.e.mss, bound)
    ensures Roomy(Run(Initial(build, conv, mssA, mssB), steps).b.e, bound)
  {
    hide Linked, PeerStep, Roomy, MessagesWithin;
    if steps == [] || (bound > WND_RCV && |steps| == 1) {
      OpenedRoomy(build, conv, mssA, mssB, steps, bound);
    } else {
      var last := |steps| - 1;
      var s := Run(Initial(build, conv, mssA, mssB), steps[..last]);
      var (side, action) := steps[last];
      SentGrows(s, side, action);
      WithinPrefix(s.a.sent, Step(s, side, action).a.sent, s.a.e.mss, bound);
      ReceiverStaysRoomy(build, conv, mssA, mssB, steps[..last], bound);
      EveryRunLinked(build, conv, mssA, mssB, steps[..last]);
      assert KeepsReceiveWindow(steps[last], bound);
      if side == B {
        LinkedSwap(s.a, s.b);
        StepKeepsReceiver(s.b, s.a, action, bound);
      }
    }
  }

  /**
   When B's receive window was never set below the fragment count of any message, B can go on in
   every state of the run, whatever loss, repetition and reordering there was.
   */
  lemma RoomyRunsCanGoOn(build: Build, conv: u32, mssA: Mss, mssB: Mss, steps: seq<(Side, Action)>, bound: u32)
    requires 1 <= bound && OpensWide(steps, bound)
    requires forall i :: 0 <= i < |steps| ==> KeepsReceiveWindow(steps[i], bound)
    requires var a := Run(Initial(build, conv, mssA, mssB), steps).a; MessagesWithin(a.sent, a.e.mss, bound)
    ensures var s := Run(Initial(build, conv, mssA, mssB), steps);
      && LimitAdmits(s.b.e.inbox.limit, s.a.sent, s.a.e.mss)
      && CanGoOn(s.b.e.inbox, s.b.e.windows.rcvWnd, |Spoken(s.a)|)
  {
    EveryRunLinked(build, conv, mssA, mssB, steps);
    ReceiverStaysRoomy(build, conv, mssA, mssB, steps, bound);
    var s := Run(Initial(build, conv, mssA, mssB), steps);
    hide Run, Local, Loose, Fragments, Spoken, Link, OpensWide, CanGoOn;
    LooseLive(s.a, s.b);
  }

  /** Progress from every reachable state. */
  lemma EveryRunProgresses(build: Build, conv: u32, mssA: Mss, mssB: Mss, steps: seq<(Side, Action)>, r: Schedule)
    requires var s := Run(Initial(build, conv, mssA, mssB), steps);
      Receptive(s.a, s.b, r.capacity) && FlushesDue(s.a, s.b, r)
    ensures var s := Run(Initial(build, conv, mssA, mssB), steps);
      Round(s, r).a.e.out.una > s.a.e.out.una
  {
    EveryRunLinked(build, conv, mssA, mssB, steps);
    hide Run, Linked, FlushesDue, Round, Receptive;
    RoundAcknowledges(Run(Initial(build, conv, mssA, mssB), steps), r);
  }

  // ---------------------------------------------------------------- a run to start from

  /** The hypotheses of delivery are met from the start, for any message of at most 128 fragments. */
  lemma FirstMessageArrives(build: Build, conv: u32, mssA: Mss, mssB: Mss, msg: seq<u8>)
    requires msg != [] && |Fragments(msg, mssA)| <= WND_RCV
    ensures var s := Run(Initial(build, conv, mssA, mssB), [(A, Action.Send(msg))]);
      exists rs :: Fair(s, rs, |msg|) && Drained(RoundAll(s, rs).b, |msg|).received == [msg]
  {
    hide Run, Fragments, Fair, Drained, RoundAll, CanGoOn, Spoken;
    var steps := [(A, Action.Send(msg))];
    var s := Run(Initial(build, conv, mssA, mssB), steps);
    FirstSend(build, conv, mssA, mssB, msg);
    assert MessagesWithin(s.a.sent, s.a.e.mss, WND_RCV);
    assert Provided(s, |msg|, WND_RCV);
    hide Provided;
    RoomyRunsCanGoOn(build, conv, mssA, mssB, steps, WND_RCV);
    DeliveryExactly(build, conv, mssA, mssB, steps, |msg|, WND_RCV);
  }

  lemma FirstSend(build: Build, conv: u32, mssA: Mss, mssB: Mss, msg: seq<u8>)
    requires msg != [] && |Fragments(msg, mssA)| <= WND_RCV
    ensures var s := Run(Initial(build, conv, mssA, mssB), [(A, Action.Send(msg))]);
      && s.a.sent == [msg] && s.b == Links.Start(build, conv, mssB) && s.a.e.mss == mssA
      && s.a.e.windows.sndWnd == WND_SND && |Spoken(s.a)| <= WND_RCV
  {
    var s0 := Initial(build, conv, mssA, mssB);
    var steps := [(A, Action.Send(msg))];
    FragmentCount(msg, mssA);
    assert steps[..0] == [] && Run(s0, steps) == Step(Run(s0, steps[..0]), A, steps[0].1);
    StreamAppend([], msg, mssA);
    assert [] + [msg] == [msg];
    hide Fragments, SegmentCount;
  }
}
