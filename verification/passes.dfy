/** What one flush does to each segment, to the windows and to the counters, on the endpoint's own fields. */
module Passes {
  import opened Words
  import opened Segments
  import opened Codec
  import opened Receiving
  import opened Sending
  import opened Congestion
  import opened Probing
  import opened Transmission
  import opened Endpoints

  // ---------------------------------------------------------------- what is sent, and why

  predicate Unsent(seg: Segment) {
    seg.meta.xmit == 0
  }

  /** Sent before, and its time has come. */
  predicate Expired(e: Endpoint, seg: Segment) {
    !Unsent(seg) && TimeDelta(e.timing.current, seg.meta.resendts) >= 0
  }

  /** Sent before, its time not come, skipped more than fastresend times, and below fastlimit sends. */
  predicate Skippable(e: Endpoint, seg: Segment) {
    && !Unsent(seg) && !Expired(e, seg)
    && 0 < e.tuning.fastresend < seg.meta.fastack
    && (e.tuning.fastlimit == 0 || seg.meta.xmit < e.tuning.fastlimit)
  }

  lemma JudgedByFields(e: Endpoint, seg: Segment)
    ensures Judge(PassOf(e), seg)
         == if Unsent(seg) then First else if Expired(e, seg) then TimedOut
            else if Skippable(e, seg) then Fast else Idle
  {
    hide StampOf, AdvertisedWindow, TimeDelta;
    assert PassOf(e).stamp.ts == e.timing.current by {
      StampTime(e);
    }
  }

  lemma StampTime(e: Endpoint)
    ensures StampOf(e).ts == e.timing.current
  {
    hide AdvertisedWindow;
  }

  /** The timeout after one more timeout, in each of the three modes. */
  function BackoffOf(e: Endpoint, rto: u32): nat {
    match e.tuning.nodelay
    case 0 => if rto < e.estimate.rto then rto + e.estimate.rto else 2 * rto
    case 1 => rto + rto / 2
    case _ => rto + e.estimate.rto / 2
  }

  /** The metadata of a segment after a flush that found it as `m`. */
  predicate Retimes(e: Endpoint, seg: Segment, m': Metadata) {
    var now, m := e.timing.current, seg.meta;
    if Unsent(seg) then
      && m'.rto == e.estimate.rto && m'.fastack == m.fastack && m'.xmit == 1
      && m'.resendts == Wrap32(now + m'.rto + (if e.tuning.nodelay == 0 then m'.rto / 8 else 0))
    else if Expired(e, seg) then
      && m'.rto == Wrap32(BackoffOf(e, m.rto)) && m'.fastack == m.fastack && m'.xmit == Wrap32(m.xmit + 1)
      && m'.resendts == Wrap32(now + m'.rto)
    else if Skippable(e, seg) then
      && m'.rto == m.rto && m'.fastack == 0 && m'.xmit == Wrap32(m.xmit + 1)
      && m'.resendts == Wrap32(now + m'.rto)
    else m' == m
  }

  lemma RetimedByFields(e: Endpoint, seg: Segment)
    ensures Retimes(e, seg, Processed(PassOf(e), seg).meta)
    ensures Judge(PassOf(e), seg) == Idle ==> Processed(PassOf(e), seg) == seg
  {
    JudgedByFields(e, seg);
    StampTime(e);
    NextXmit(0);
    hide StampOf, Wrap32, Judge, Expired, Skippable;
  }

  /**
   One flush, segment by segment: an unsent one is sent with the estimate as its timeout, one
   eighth longer at first in the normal mode; one whose time has come backs off, by its own timeout
   or the estimate if that is larger, or by half of one of them in the two nodelay modes; one
   skipped more than fastresend times is sent again at once with its skips forgotten; every other
   stays as it is.
   */
  lemma FlushRetimesExactly(e: Endpoint, i: nat)
    requires e.timing.updated && i < |Endpoints.Admitted(e).buf|
    ensures |Endpoints.Flush(e).out.buf| == |Endpoints.Admitted(e).buf|
    ensures var seg, seg' := Endpoints.Admitted(e).buf[i], Endpoints.Flush(e).out.buf[i];
      && Retimes(e, seg, seg'.meta) && seg'.data == seg.data && seg'.header.sn == seg.header.sn
      && (!Unsent(seg) && !Expired(e, seg) && !Skippable(e, seg) ==> seg' == seg)
  {
    var seg := Endpoints.Admitted(e).buf[i];
    RetimedByFields(e, seg);
    JudgedByFields(e, seg);
    assert Endpoints.Flush(e).out.buf == ProcessedAll(PassOf(e), Endpoints.Admitted(e).buf);
    hide Endpoints.Flush, Endpoints.Admitted, PassOf, Judge, Retimed, Retimes, Expired, Skippable;
  }

  // ---------------------------------------------------------------- how often

  function Count(buf: seq<Segment>, ok: Segment -> bool): nat {
    if buf == [] then 0 else Count(buf[..|buf| - 1], ok) + (if ok(buf[|buf| - 1]) then 1 else 0)
  }

  lemma {:induction false} CountsAgree(e: Endpoint, buf: seq<Segment>)
    ensures CountOf(PassOf(e), buf, First) == Count(buf, Unsent)
    ensures CountOf(PassOf(e), buf, TimedOut) == Count(buf, (seg: Segment) => Expired(e, seg))
    ensures CountOf(PassOf(e), buf, Fast) == Count(buf, (seg: Segment) => Skippable(e, seg))
  {
    hide Judge, PassOf, TimeDelta;
    if buf != [] {
      CountsAgree(e, buf[..|buf| - 1]);
      JudgedByFields(e, buf[|buf| - 1]);
    }
  }

  lemma {:induction false} CountPositive(buf: seq<Segment>, ok: Segment -> bool)
    ensures Count(buf, ok) > 0 <==> exists seg :: seg in buf && ok(seg)
  {
    if buf != [] {
      CountPositive(buf[..|buf| - 1], ok);
      assert forall seg :: seg in buf <==> seg in buf[..|buf| - 1] || seg == buf[|buf| - 1];
    }
  }

  predicate AnyExpired(e: Endpoint) {
    exists seg :: seg in Endpoints.Admitted(e).buf && Expired(e, seg)
  }

  predicate AnySkippable(e: Endpoint) {
    exists seg :: seg in Endpoints.Admitted(e).buf && Skippable(e, seg)
  }

  lemma CountsMean(e: Endpoint)
    ensures CountOf(PassOf(e), Endpoints.Admitted(e).buf, TimedOut) > 0 <==> AnyExpired(e)
    ensures CountOf(PassOf(e), Endpoints.Admitted(e).buf, Fast) > 0 <==> AnySkippable(e)
  {
    var buf := Endpoints.Admitted(e).buf;
    hide Endpoints.Admitted, PassOf, Expired, Skippable, CountOf;
    CountsAgree(e, buf);
    CountPositive(buf, (seg: Segment) => Expired(e, seg));
    CountPositive(buf, (seg: Segment) => Skippable(e, seg));
  }

  // ---------------------------------------------------------------- the windows

  /** The congestion window a fast resend restarts at, which is then halved by a loss. */
  function Restarted(e: Endpoint): u32 {
    var o := Endpoints.Admitted(e);
    Wrap32(Max(Wrap32(o.nxt - o.una) / 2, THRESH_MIN) + e.tuning.fastresend)
  }

  /**
   How the congestion window reacts to one flush. With a timeout it falls to one segment, and the
   threshold to half the window before it, at least 2; with fast resends only it restarts at half
   the flight, at least 2, plus fastresend, with that half as the threshold; and otherwise it stays,
   but for a window of 0, which opens to one segment. No other window is touched.
   */
  lemma FlushReactsExactly(e: Endpoint)
    requires e.timing.updated
    ensures var w, w', o := e.windows, Endpoints.Flush(e).windows, Endpoints.Admitted(e);
      && w' == w.(cwnd := w'.cwnd, incr := w'.incr, ssthresh := w'.ssthresh)
      && (AnyExpired(e) ==>
            && w'.cwnd == 1 && w'.incr == e.mss
            && w'.ssthresh == Max((if AnySkippable(e) then Restarted(e) else w.cwnd) / 2, THRESH_MIN))
      && (!AnyExpired(e) && AnySkippable(e) ==>
            && w'.ssthresh == Max(Wrap32(o.nxt - o.una) / 2, THRESH_MIN)
            && w'.cwnd == Max(Restarted(e), 1))
      && (!AnyExpired(e) && !AnySkippable(e) ==>
            w'.ssthresh == w.ssthresh && (if w.cwnd == 0 then w'.cwnd == 1 && w'.incr == e.mss else w' == w))
  {
    hide Endpoints.Flush, Endpoints.Admitted, PassOf, CountOf, Reacted, EnsureOnePacket, AnyExpired, AnySkippable,
         Wrap32, Max;
    FlushReacts(e);
    CountsMean(e);
    ReactionOf(e.windows, e.mss, PassOf(e), Endpoints.Admitted(e));
    if AnySkippable(e) {
      SkippableThreshold(e);
    }
  }

  lemma FlushReacts(e: Endpoint)
    requires e.timing.updated
    ensures Endpoints.Flush(e).windows
         == EnsureOnePacket(Reacted(e.windows, e.mss, PassOf(e), Endpoints.Admitted(e)), e.mss)
  {
    hide Endpoints.Admitted, PassOf, Reacted, EnsureOnePacket, FlushedTuning, FlushedProbe, ProcessedAll;
  }

  lemma ReactionOf(w: Windows, mss: Mss, p: Pass, o: Outbox)
    ensures var w' := EnsureOnePacket(Reacted(w, mss, p, o), mss);
      var half := Max(Wrap32(o.nxt - o.una) / 2, THRESH_MIN);
      var restarted := Wrap32(half + p.resent);
      var lost, skipped := CountOf(p, o.buf, TimedOut) > 0, CountOf(p, o.buf, Fast) > 0;
      && w' == w.(cwnd := w'.cwnd, incr := w'.incr, ssthresh := w'.ssthresh)
      && (lost ==>
            && w'.cwnd == 1 && w'.incr == mss
            && w'.ssthresh == Max((if skipped then restarted else w.cwnd) / 2, THRESH_MIN))
      && (!lost && skipped ==> w'.ssthresh == half && w'.cwnd == Max(restarted, 1))
      && (!lost && !skipped ==>
            w'.ssthresh == w.ssthresh && (if w.cwnd == 0 then w'.cwnd == 1 && w'.incr == mss else w' == w))
  {
    hide CountOf, Wrap32, Bytes;
  }

  lemma SkippableThreshold(e: Endpoint)
    requires AnySkippable(e)
    ensures PassOf(e).resent == e.tuning.fastresend
  {
    hide StampOf, Endpoints.Admitted;
  }

  // ---------------------------------------------------------------- the report and the link state

  /** What a flush reports, counted on the fields of the segments it found. */
  lemma FlushReportsExactly(e: Endpoint)
    requires e.timing.updated
    ensures var r, buf := FlushReport(e), Endpoints.Admitted(e).buf;
      && r.ackCount == |e.acks|
      && r.timeoutCount == Count(buf, (seg: Segment) => Expired(e, seg))
      && r.fastCount == Count(buf, (seg: Segment) => Skippable(e, seg))
      && r.pushCount == Count(buf, Unsent) + r.timeoutCount + r.fastCount
      && r.waskCount == (if FlushedProbe(e).askSend then 1 else 0)
      && r.winsCount == (if e.probe.askTell then 1 else 0)
    ensures Endpoints.Flush(e).tuning.xmit == Wrap32(e.tuning.xmit + FlushReport(e).timeoutCount)
  {
    var buf := Endpoints.Admitted(e).buf;
    UpdateKeepsTell(e.probe, e.timing.current, e.windows.rmtWnd);
    hide Endpoints.Admitted, PassOf, FlushDatagrams, Expired, Skippable, CountOf, Count, ReachesDeadLink,
         Probing.Update, FlushedWindows, ProcessedAll, Emitted, Unsent;
    CountsAgree(e, buf);
    EmittedCount(PassOf(e), buf);
  }

  /** The segments that leave with a flush: all but those it leaves as they are. */
  predicate Leaves(e: Endpoint, seg: Segment) {
    Unsent(seg) || Expired(e, seg) || Skippable(e, seg)
  }

  /**
   The link is declared dead by exactly the flush that sends a segment whose count of sends reaches
   the threshold, and stays dead.
   */
  lemma FlushDeadExactly(e: Endpoint)
    requires e.timing.updated
    ensures var buf, buf' := Endpoints.Admitted(e).buf, Endpoints.Flush(e).out.buf;
      && |buf'| == |buf|
      && (Endpoints.Flush(e).tuning.dead
          <==> e.tuning.dead
               || exists i :: 0 <= i < |buf| && Leaves(e, buf[i]) && buf'[i].meta.xmit >= e.tuning.deadLink)
  {
    var p, buf := PassOf(e), Endpoints.Admitted(e).buf;
    assert Endpoints.Flush(e).out.buf == ProcessedAll(p, buf);
    assert Endpoints.Flush(e).tuning.dead == (e.tuning.dead || ReachesDeadLink(p, buf, e.tuning.deadLink));
    hide Endpoints.Flush, Endpoints.Admitted, PassOf, Processed, Judge, Leaves;
    forall i | 0 <= i < |buf|
      ensures Judge(p, buf[i]) != Idle <==> Leaves(e, buf[i])
    {
      JudgedByFields(e, buf[i]);
      LeavesMeans(e, buf[i]);
    }
  }

  lemma LeavesMeans(e: Endpoint, seg: Segment)
    ensures Leaves(e, seg) <==> Unsent(seg) || Expired(e, seg) || Skippable(e, seg)
  {
    hide Expired, Skippable;
  }

  // ---------------------------------------------------------------- the report of input()

  function CountCommand(ps: seq<Packet>, cmd: u8): nat {
    if ps == [] then 0
    else CountCommand(ps[..|ps| - 1], cmd) + (if ps[|ps| - 1].header.cmd == cmd then 1 else 0)
  }

  /** A number outside [rcv_nxt, rcv_nxt + rcv_wnd), the upper bound wrapped. */
  predicate Refuses(e: Endpoint, sn: u32) {
    sn < e.inbox.nxt || sn >= Wrap32(e.inbox.nxt + e.windows.rcvWnd)
  }

  /** The data packets refused, each judged by the endpoint as the packets before it left it. */
  function Refused(e: Endpoint, ps: seq<Packet>): nat {
    if ps == [] then 0
    else
      var before, p := ps[..|ps| - 1], ps[|ps| - 1];
      Refused(e, before) + (if p.header.cmd == PUSH && Refuses(HandleAll(e, before), p.header.sn) then 1 else 0)
  }

  lemma {:induction false} HandleAllAppend(e: Endpoint, ps: seq<Packet>, p: Packet)
    ensures HandleAll(e, ps + [p]) == HandlePacket(HandleAll(e, ps), p)
    decreases |ps|
  {
    hide HandlePacket;
    if ps == [] {
      assert ps + [p] == [p] && [p][1..] == [];
    } else {
      assert (ps + [p])[1..] == ps[1..] + [p];
      HandleAllAppend(HandlePacket(e, ps[0]), ps[1..], p);
    }
  }

  lemma {:induction false} TallyAllAppend(r: InputResult, e: Endpoint, ps: seq<Packet>, p: Packet)
    ensures TallyAll(r, e, ps + [p]) == Tally(TallyAll(r, e, ps), HandleAll(e, ps), p)
    decreases |ps|
  {
    hide HandlePacket, Tally;
    if ps == [] {
      assert ps + [p] == [p] && [p][1..] == [];
    } else {
      assert (ps + [p])[1..] == ps[1..] + [p];
      TallyAllAppend(Tally(r, e, ps[0]), HandlePacket(e, ps[0]), ps[1..], p);
    }
  }

  lemma DroppedMeans(e: Endpoint, p: Packet)
    ensures Dropped(e, p) <==> p.header.cmd == PUSH && Refuses(e, p.header.sn)
  {
    hide UnaReceived, Wrap32;
  }

  predicate TallyIs(r: InputResult, e: Endpoint, ps: seq<Packet>) {
    && r.ackCount == CountCommand(ps, ACK) && r.waskCount == CountCommand(ps, WASK)
    && r.winsCount == CountCommand(ps, WINS) && r.droppedPushCount == Refused(e, ps)
  }

  lemma {:induction false} TallyCounts(e: Endpoint, ps: seq<Packet>)
    ensures TallyIs(TallyAll(NO_INPUT, e, ps), e, ps)
  {
    hide HandleAll, Refuses, Dropped;
    if ps == [] {
      assert TallyAll(NO_INPUT, e, ps) == NO_INPUT;
    } else {
      hide TallyAll;
      var last := |ps| - 1;
      TallyCounts(e, ps[..last]);
      assert ps == ps[..last] + [ps[last]];
      TallyAllAppend(NO_INPUT, e, ps[..last], ps[last]);
      DroppedMeans(HandleAll(e, ps[..last]), ps[last]);
    }
  }

  /**
   The acknowledgements a datagram makes input() owe: one for each data packet below the bound of the
   receive window as it stands by then, in order, whether the packet is new or seen before.
   */
  function Owed(e: Endpoint, ps: seq<Packet>): seq<Acknowledgement> {
    if ps == [] then []
    else
      var before, h := ps[..|ps| - 1], ps[|ps| - 1].header;
      var bound := Wrap32(HandleAll(e, before).inbox.nxt + e.windows.rcvWnd);
      Owed(e, before) + (if h.cmd == PUSH && h.sn < bound then [Acknowledgement(h.sn, h.ts)] else [])
  }

  lemma HandledAcks(e: Endpoint, p: Packet)
    ensures var h := p.header;
      && HandlePacket(e, p).windows.rcvWnd == e.windows.rcvWnd
      && HandlePacket(e, p).acks
         == e.acks + (if h.cmd == PUSH && h.sn < Wrap32(e.inbox.nxt + e.windows.rcvWnd)
                      then [Acknowledgement(h.sn, h.ts)] else [])
  {
    hide UnaReceived, AckReceived, Emplace, Wrap32;
  }

  lemma {:induction false} HandledOwed(e: Endpoint, ps: seq<Packet>)
    ensures HandleAll(e, ps).acks == e.acks + Owed(e, ps)
    ensures HandleAll(e, ps).windows.rcvWnd == e.windows.rcvWnd
  {
    hide HandlePacket, Wrap32;
    if ps != [] {
      hide HandleAll;
      var last := |ps| - 1;
      HandledOwed(e, ps[..last]);
      assert ps == ps[..last] + [ps[last]];
      HandleAllAppend(e, ps[..last], ps[last]);
      HandledAcks(HandleAll(e, ps[..last]), ps[last]);
    }
  }

  /**
   input(), on arbitrary bytes and whether or not it succeeds, adds exactly these acknowledgements to
   the ones already owed.
   */
  lemma InputOwesExactly(e: Endpoint, data: seq<u8>)
    ensures Input(e, data).0.acks
         == e.acks + if |data| < HEADER_SIZE then [] else Owed(e, Parse(e.build, e.conv, data).packets)
  {
    HandledOwed(e, Parse(e.build, e.conv, data).packets);
    hide Parse, HandleAll, FastAcks, AdjustParameters, BumpBefore, Owed;
  }

  /**
   What a successful input() reports, on arbitrary bytes: the packets dispatched of each kind, the
   data packets refused, each by the window and rcv_nxt it met, and the bytes consumed.
   */
  lemma InputReportsExactly(e: Endpoint, data: seq<u8>)
    requires Input(e, data).1.Ok?
    ensures var parsed, r := Parse(e.build, e.conv, data), Input(e, data).1.value;
      TallyIs(r, e, parsed.packets) && parsed.outcome == Finished(r.totalBytes)
  {
    TallyCounts(e, Parse(e.build, e.conv, data).packets);
    hide Parse, HandleAll, TallyAll, Conclude, FastAcks, CountCommand, Refused;
  }
}
