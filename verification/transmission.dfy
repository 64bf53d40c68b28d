/**
 One pass of a flush over the send buffer: what is sent for the first time, resent after its
 timeout, or fast-resent; and the backoff of its timeout.
 */
module Transmission {
  import opened Words
  import opened Segments
  import opened Sending
  import opened Timeouts

  /** What one pass reads: header stamp, timeout estimate, thresholds and mode. */
  datatype Pass = Pass(stamp: Stamp, rto: u32, rtomin: u32, resent: u32, fastlimit: u32, nodelay: u32)

  datatype Verdict = Idle | First | TimedOut | Fast

  predicate Due(current: u32, resendts: u32) {
    TimeDelta(current, resendts) >= 0
  }

  function Judge(p: Pass, seg: Segment): Verdict {
    if seg.meta.xmit == 0 then First
    else if Due(p.stamp.ts, seg.meta.resendts) then TimedOut
    else if p.resent < seg.meta.fastack && (seg.meta.xmit < p.fastlimit || p.fastlimit == 0) then Fast
    else Idle
  }

  /** The timeout after one more timeout; every addition wraps. */
  function BackedOff(rto: u32, estimate: u32, nodelay: u32): u32 {
    if nodelay == 0 then Wrap32(rto + Max(rto, estimate))
    else Wrap32(rto + (if nodelay < 2 then rto else estimate) / 2)
  }

  function Retimed(p: Pass, m: Metadata, v: Verdict): Metadata {
    var xmit := Wrap32(m.xmit + 1);
    match v
    case Idle => m
    case First => Metadata(Wrap32(p.stamp.ts + p.rto + p.rtomin), p.rto, m.fastack, xmit)
    case TimedOut =>
      var rto := BackedOff(m.rto, p.rto, p.nodelay);
      Metadata(Wrap32(p.stamp.ts + rto), rto, m.fastack, xmit)
    case Fast => Metadata(Wrap32(p.stamp.ts + m.rto), m.rto, 0, xmit)
  }

  function Stamped(h: Header, stamp: Stamp): Header {
    h.(ts := stamp.ts, wnd := stamp.wnd, una := stamp.una)
  }

  /** The segment after the pass; only a sent one changes. */
  function Processed(p: Pass, seg: Segment): Segment {
    var v := Judge(p, seg);
    if v == Idle then seg
    else Segment(Stamped(seg.header, p.stamp), seg.data, Retimed(p, seg.meta, v))
  }

  function ProcessedAll(p: Pass, buf: seq<Segment>): seq<Segment> {
    seq(|buf|, i requires 0 <= i < |buf| => Processed(p, buf[i]))
  }

  function PacketOf(seg: Segment): Packet {
    Packet(seg.header, seg.data)
  }

  /** The packets a pass emits, in buffer order. */
  function Emitted(p: Pass, buf: seq<Segment>): seq<Packet> {
    if buf == [] then []
    else
      var last := |buf| - 1;
      Emitted(p, buf[..last])
      + (if Judge(p, buf[last]) == Idle then [] else [PacketOf(Processed(p, buf[last]))])
  }

  function CountOf(p: Pass, buf: seq<Segment>, v: Verdict): nat {
    if buf == [] then 0
    else CountOf(p, buf[..|buf| - 1], v) + (if Judge(p, buf[|buf| - 1]) == v then 1 else 0)
  }

  /** A sent segment has reached the transmission count at which the link is declared dead. */
  predicate ReachesDeadLink(p: Pass, buf: seq<Segment>, deadLink: u32) {
    exists i :: 0 <= i < |buf| && Judge(p, buf[i]) != Idle && Processed(p, buf[i]).meta.xmit >= deadLink
  }

  // ---------------------------------------------------------------- what a pass keeps

  lemma ProcessedAlike(p: Pass, buf: seq<Segment>)
    ensures AllAlike(buf, ProcessedAll(p, buf))
  {
  }

  /** `q` is what a pass emits for `seg`. */
  predicate Emits(p: Pass, seg: Segment, q: Packet) {
    Judge(p, seg) != Idle && q == PacketOf(Processed(p, seg))
  }

  /** The emitted packets are exactly the stamped forms of the segments that are not idle. */
  lemma {:induction false} EmittedFrom(p: Pass, buf: seq<Segment>)
    ensures forall q :: q in Emitted(p, buf) <==> exists seg :: seg in buf && Emits(p, seg, q)
  {
    if buf != [] {
      var last := |buf| - 1;
      EmittedFrom(p, buf[..last]);
      assert buf == buf[..last] + [buf[last]];
      hide Judge, Processed;
      forall q | q in Emitted(p, buf)
        ensures exists seg :: seg in buf && Emits(p, seg, q)
      {
        if q in Emitted(p, buf[..last]) {
          var seg :| seg in buf[..last] && Emits(p, seg, q);
          assert seg in buf;
        } else {
          assert Emits(p, buf[last], q);
        }
      }
      forall q, seg | seg in buf && Emits(p, seg, q)
        ensures q in Emitted(p, buf)
      {
        if seg in buf[..last] {
          assert q in Emitted(p, buf[..last]);
        }
      }
    }
  }

  lemma {:induction false} EmittedCount(p: Pass, buf: seq<Segment>)
    ensures |Emitted(p, buf)| == CountOf(p, buf, First) + CountOf(p, buf, TimedOut) + CountOf(p, buf, Fast)
  {
    if buf != [] {
      hide Judge, Processed;
      EmittedCount(p, buf[..|buf| - 1]);
    }
  }

  // ---------------------------------------------------------------- the retransmission schedule

  /** How far ahead the pass schedules a segment it sends. */
  function Slack(p: Pass, seg: Segment): nat {
    match Judge(p, seg)
    case First => p.rto + p.rtomin
    case TimedOut => BackedOff(seg.meta.rto, p.rto, p.nodelay)
    case _ => seg.meta.rto
  }

  lemma AheadByDelta(current: u32, slack: nat)
    requires slack < 0x1_0000_0000
    ensures Due(current, Wrap32(current + slack)) <==> slack == 0 || slack > 0x8000_0000
  {
  }

  /**
   After a flush no segment is due again at the same clock reading, exactly when the slack it was
   given lies in (0, 2^31]; with a larger one it would be resent by every following flush.
   */
  lemma ScheduledAhead(p: Pass, seg: Segment)
    requires Slack(p, seg) < 0x1_0000_0000
    ensures Due(p.stamp.ts, Processed(p, seg).meta.resendts)
       <==> Judge(p, seg) != Idle && (Slack(p, seg) == 0 || Slack(p, seg) > 0x8000_0000)
    ensures seg.meta.xmit < 0xFFFF_FFFF ==> Processed(p, seg).meta.xmit >= 1
  {
    hide Wrap32, TimeDelta, BackedOff;
    if Judge(p, seg) != Idle {
      AheadByDelta(p.stamp.ts, Slack(p, seg));
    }
    NextXmit(seg.meta.xmit);
  }

  lemma NextXmit(xmit: u32)
    ensures Wrap32(xmit + 1) == if xmit < 0xFFFF_FFFF then xmit + 1 else 0
  {
  }

  lemma LargestTimeout()
    ensures Doubled(RTO_MAX, 16) == 60000 * 0x1_0000
  {
    assert Doubled(60000, 8) == 60000 * 0x100;
    assert Doubled(60000, 16) == 60000 * 0x1_0000;
  }

  lemma BackoffStep(rto: u32, estimate: u32, nodelay: u32, bound: nat)
    requires rto <= bound && RTO_MAX <= bound && estimate <= RTO_MAX && 2 * bound < 0x1_0000_0000
    ensures BackedOff(rto, estimate, nodelay) <= 2 * bound
    ensures BackedOff(rto, estimate, nodelay) >= rto
    ensures nodelay == 0 ==> BackedOff(rto, estimate, nodelay) >= 2 * rto
  {
    hide Wrap32;
    WrapSmall(rto + Max(rto, estimate));
    WrapSmall(rto + rto / 2);
    WrapSmall(rto + estimate / 2);
  }

  // ---------------------------------------------------------------- the life of one segment

  /** What can happen to one buffered segment. */
  datatype Happening = Skipped(fastack: u32) | Flushed(pass: Pass)

  /** A segment, how often it has been sent in each way, and the timeout of its first send. */
  datatype Life = Life(seg: Segment, sends: nat, timeouts: nat, fastResends: nat, first: u32)

  /** A segment as numbering leaves it. */
  function Born(seg: Segment): Life {
    Life(seg, 0, 0, 0, 0)
  }

  function Live(l: Life, h: Happening): Life {
    match h
    case Skipped(fastack) => l.(seg := l.seg.(meta := l.seg.meta.(fastack := fastack)))
    case Flushed(p) =>
      var v := Judge(p, l.seg);
      Life(Processed(p, l.seg),
           l.sends + (if v == Idle then 0 else 1),
           l.timeouts + (if v == TimedOut then 1 else 0),
           l.fastResends + (if v == Fast then 1 else 0),
           if v == First then p.rto else l.first)
  }

  function LiveAll(l: Life, hs: seq<Happening>): Life {
    if hs == [] then l else Live(LiveAll(l, hs[..|hs| - 1]), hs[|hs| - 1])
  }

  predicate AllPasses(hs: seq<Happening>, ok: Pass -> bool) {
    forall i :: 0 <= i < |hs| && hs[i].Flushed? ==> ok(hs[i].pass)
  }

  /**
   With one positive fastlimit throughout, a segment is fast-resent at most fastlimit - 1 times,
   whatever acknowledgements skip it and whenever flushes come.
   */
  lemma {:induction false} FastResendsLimited(seg: Segment, hs: seq<Happening>, limit: u32)
    requires limit > 0 && seg.meta.xmit == 0 && |hs| < 0xFFFF_FFFF
    requires AllPasses(hs, (p: Pass) => p.fastlimit == limit)
    ensures var l := LiveAll(Born(seg), hs);
      && l.sends <= |hs|
      && l.seg.meta.xmit == l.sends
      && l.fastResends <= Max(0, l.sends - 1)
      && l.fastResends <= limit - 1
  {
    if hs != [] {
      var last := |hs| - 1;
      FastResendsLimited(seg, hs[..last], limit);
      LiveLimited(LiveAll(Born(seg), hs[..last]), hs[last], limit);
      hide Live;
    }
  }

  lemma LiveLimited(l: Life, h: Happening, limit: u32)
    requires l.seg.meta.xmit == l.sends < 0xFFFF_FFFF && limit > 0
    requires l.fastResends <= Max(0, l.sends - 1) && l.fastResends <= limit - 1
    requires h.Flushed? ==> h.pass.fastlimit == limit
    ensures var l' := Live(l, h);
      && l.sends <= l'.sends <= l.sends + 1
      && l'.seg.meta.xmit == l'.sends
      && l'.fastResends <= Max(0, l'.sends - 1)
      && l'.fastResends <= limit - 1
  {
    NextXmit(l.seg.meta.xmit);
    hide Wrap32, Due, BackedOff;
  }

  // ---------------------------------------------------------------- backoff

  /** The timeout a segment carries after `timeouts` timeouts, the first send having had `first`. */
  predicate Backed(l: Life) {
    l.sends > 0 && l.timeouts <= 16 ==>
      && l.first <= RTO_MAX
      && l.first <= l.seg.meta.rto <= Doubled(RTO_MAX, l.timeouts) < 0x1_0000_0000
  }

  predicate Doubling(l: Life) {
    l.sends > 0 && l.timeouts <= 16 ==> l.seg.meta.rto >= Doubled(l.first, l.timeouts)
  }

  lemma LiveBacked(l: Life, h: Happening)
    requires Backed(l) && l.seg.meta.xmit == l.sends < 0xFFFF_FFFF
    requires l.sends == 0 ==> l.timeouts == 0
    requires h.Flushed? ==> h.pass.rto <= RTO_MAX
    ensures Backed(Live(l, h))
    ensures Doubling(l) && (h.Flushed? ==> h.pass.nodelay == 0) ==> Doubling(Live(l, h))
  {
    var l' := Live(l, h);
    LargestTimeout();
    hide Wrap32, Due, BackedOff;
    if h.Flushed? && l'.timeouts <= 16 {
      DoubledGrows(RTO_MAX, l'.timeouts, 16);
      if Judge(h.pass, l.seg) == TimedOut {
        DoubledGrows(RTO_MAX, 0, l.timeouts);
        BackoffStep(l.seg.meta.rto, h.pass.rto, h.pass.nodelay, Doubled(RTO_MAX, l.timeouts));
      }
    }
  }

  /**
   Backoff: whatever idle flushes, skips and fast resends come in between, a segment that has
   timed out k <= 16 times carries a timeout of at most 60000 * 2^k in every mode, without
   wrapping; and with nodelay 0 throughout, of at least 2^k times that of its first send.
   */
  lemma {:induction false} BackoffBounds(seg: Segment, hs: seq<Happening>)
    requires seg.meta.xmit == 0 && |hs| < 0xFFFF_FFFF
    requires AllPasses(hs, (p: Pass) => p.rto <= RTO_MAX)
    ensures var l := LiveAll(Born(seg), hs);
      && l.seg.meta.xmit == l.sends <= |hs| && (l.sends == 0 ==> l.timeouts == 0)
      && Backed(l)
      && (AllPasses(hs, (p: Pass) => p.nodelay == 0) ==> Doubling(l))
  {
    if hs != [] {
      var last := |hs| - 1;
      var l := LiveAll(Born(seg), hs[..last]);
      BackoffBounds(seg, hs[..last]);
      LiveBacked(l, hs[last]);
      LiveCounts(l, hs[last]);
      hide Live, Backed, Doubling;
    }
  }

  lemma LiveCounts(l: Life, h: Happening)
    requires l.seg.meta.xmit == l.sends < 0xFFFF_FFFF
    ensures var l' := Live(l, h);
      l'.seg.meta.xmit == l'.sends && l.sends <= l'.sends <= l.sends + 1
      && (l'.sends == 0 ==> l'.timeouts == l.timeouts)
  {
    NextXmit(l.seg.meta.xmit);
    hide Wrap32, Due, BackedOff;
  }

  lemma {:induction false} FirstWithin(seg: Segment, hs: seq<Happening>, lo: u32)
    requires seg.meta.xmit == 0 && |hs| < 0xFFFF_FFFF
    requires AllPasses(hs, (p: Pass) => p.rto >= lo)
    ensures var l := LiveAll(Born(seg), hs);
      && l.seg.meta.xmit == l.sends <= |hs| && (l.sends > 0 ==> l.first >= lo)
  {
    if hs != [] {
      var last := |hs| - 1;
      FirstWithin(seg, hs[..last], lo);
      LiveCounts(LiveAll(Born(seg), hs[..last]), hs[last]);
      hide Processed, Wrap32, Due;
    }
  }

  /** Estimates within their range, and the slack of a first send at most an eighth of them. */
  predicate Ordinary(p: Pass) {
    RTO_NDL <= p.rto <= RTO_MAX && p.rtomin <= p.rto / 8
  }

  /**
   A segment that has timed out at most 15 times lies ahead of every flush, whatever it went
   through before: no later flush at the same reading sends it again.
   */
  lemma AlwaysAhead(seg: Segment, hs: seq<Happening>)
    requires seg.meta.xmit == 0 && hs != [] && |hs| < 0xFFFF_FFFF && hs[|hs| - 1].Flushed?
    requires AllPasses(hs, Ordinary)
    ensures var l := LiveAll(Born(seg), hs);
      l.timeouts <= 15 ==> !Due(hs[|hs| - 1].pass.stamp.ts, l.seg.meta.resendts)
  {
    var last := |hs| - 1;
    var before, p := LiveAll(Born(seg), hs[..last]), hs[last].pass;
    assert AllPasses(hs, (q: Pass) => q.rto <= RTO_MAX) && AllPasses(hs, (q: Pass) => q.rto >= RTO_NDL);
    BackoffBounds(seg, hs[..last]);
    BackoffBounds(seg, hs);
    FirstWithin(seg, hs[..last], RTO_NDL);
    FirstWithin(seg, hs, RTO_NDL);
    assert LiveAll(Born(seg), hs) == Live(before, hs[last]);
    hide LiveAll, Doubling;
    SlackAhead(before, p);
  }

  lemma SlackAhead(l: Life, p: Pass)
    requires Backed(l) && Ordinary(p) && (l.sends > 0 ==> l.first >= RTO_NDL)
    requires l.seg.meta.xmit == l.sends && (l.sends == 0 ==> l.timeouts == 0)
    requires Backed(Live(l, Flushed(p))) && Live(l, Flushed(p)).first >= RTO_NDL
    requires Live(l, Flushed(p)).sends > 0
    ensures Live(l, Flushed(p)).timeouts <= 15 ==> !Due(p.stamp.ts, Processed(p, l.seg).meta.resendts)
  {
    if Live(l, Flushed(p)).timeouts <= 15 {
      DoubledGrows(RTO_MAX, Live(l, Flushed(p)).timeouts, 15);
      LargestTimeout();
      assert Doubled(RTO_MAX, 16) == 2 * Doubled(RTO_MAX, 15);
      hide Due, Wrap32, Doubled;
      ScheduledAhead(p, l.seg);
    }
  }

  /** A life in which every flush after the first comes exactly when the segment times out. */
  function Unanswered(seg: Segment, n: nat): seq<Happening> {
    if n == 0 then [Flushed(Punctual(0))]
    else
      var before := Unanswered(seg, n - 1);
      before + [Flushed(Punctual(LiveAll(Born(seg), before).seg.meta.resendts))]
  }

  function Punctual(ts: u32): Pass {
    Pass(Stamp(0, 0, ts, 0), RTO_MAX, 0, 0xFFFF_FFFF, 0, 0)
  }

  lemma {:induction false} UnansweredBacksOff(seg: Segment, n: nat)
    requires seg.meta.xmit == 0 && n <= 17
    ensures var l := LiveAll(Born(seg), Unanswered(seg, n));
      && l.sends == n + 1 && l.timeouts == n && l.seg.meta.xmit == n + 1
      && l.seg.meta.rto == Wrap32(Doubled(RTO_MAX, n))
  {
    var hs := Unanswered(seg, n);
    if n == 0 {
      assert LiveAll(Born(seg), hs[..0]) == Born(seg);
    } else {
      UnansweredBacksOff(seg, n - 1);
      var l := LiveAll(Born(seg), Unanswered(seg, n - 1));
      assert hs[..|hs| - 1] == Unanswered(seg, n - 1);
      assert LiveAll(Born(seg), hs) == Live(l, hs[|hs| - 1]);
      hide LiveAll, Unanswered, Live;
      TimesOutAgain(l, n);
    }
  }

  lemma TimesOutAgain(l: Life, n: nat)
    requires 0 < n <= 17 && l.seg.meta.xmit == l.sends == n && l.timeouts == n - 1
    requires l.seg.meta.rto == Wrap32(Doubled(RTO_MAX, n - 1))
    ensures var l' := Live(l, Flushed(Punctual(l.seg.meta.resendts)));
      && l'.sends == n + 1 && l'.timeouts == n && l'.seg.meta.xmit == n + 1
      && l'.seg.meta.rto == Wrap32(Doubled(RTO_MAX, n))
  {
    DoubledGrows(RTO_MAX, n - 1, 16);
    DoubledGrows(RTO_MAX, 0, n - 1);
    LargestTimeout();
    assert Due(l.seg.meta.resendts, l.seg.meta.resendts);
    WrapSmall(n + 1);
    WrapSmall(Doubled(RTO_MAX, n - 1));
    hide Wrap32, Due;
  }

  /**
   The seventeenth timeout of a segment first sent with the largest estimate wraps: its timeout
   is then shorter than after the sixteenth, so the bound on the number of timeouts is exact.
   */
  lemma BackoffOverflows(seg: Segment)
    requires seg.meta.xmit == 0
    ensures var l16, l17 := LiveAll(Born(seg), Unanswered(seg, 16)), LiveAll(Born(seg), Unanswered(seg, 17));
      && l16.timeouts == 16 && l17.timeouts == 17
      && l16.seg.meta.rto == Doubled(RTO_MAX, 16)
      && l17.seg.meta.rto < l16.seg.meta.rto
  {
    hide Unanswered, LiveAll;
    UnansweredBacksOff(seg, 16);
    UnansweredBacksOff(seg, 17);
    LargestTimeout();
    DoubledNext(RTO_MAX, 16);
    hide Doubled;
  }

  lemma DoubledNext(base: nat, k: nat)
    ensures Doubled(base, k + 1) == 2 * Doubled(base, k)
  {
  }
}
