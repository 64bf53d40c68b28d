/** The flush timer in wrapping 32-bit time: update(), check(), and hopping from one to the other. */
module Timers {
  import opened Words
  import opened Segments
  import opened Transmission
  import opened Endpoints

  /** How far ahead of `now` the next flush is. */
  function Ahead(t: Timing, now: u32): int {
    TimeDelta(t.tsFlush, now)
  }

  predicate IntervalOk(t: Timing) {
    10 <= t.interval <= 5000
  }

  lemma DeltaFlips(a: u32, b: u32)
    ensures TimeDelta(a, b) != -0x8000_0000 ==> TimeDelta(b, a) == -TimeDelta(a, b)
  {
  }

  lemma DeltaShifts(a: u32, b: u32, n: int)
    requires -0x8000_0000 <= TimeDelta(a, b) + n < 0x8000_0000
    ensures TimeDelta(Wrap32(a + n), b) == TimeDelta(a, b) + n
  {
  }

  lemma DeltaSelf(a: u32)
    ensures TimeDelta(a, a) == 0
  {
  }

  /**
   After any update the next flush lies ahead, by at most 10 s; by at most one interval if this
   update flushed.
   */
  lemma UpdateArmsTimer(t: Timing, now: u32)
    requires IntervalOk(t)
    ensures var t' := NextFlush(t, now);
      && t'.updated && t'.current == now && t'.interval == t.interval
      && 0 < Ahead(t', now) <= 10000
      && (FlushDue(t, now) ==> Ahead(t', now) <= t.interval)
  {
    var r := Rearmed(t, now);
    DeltaSelf(now);
    DeltaFlips(now, r.tsFlush);
    hide TimeDelta, Wrap32;
    var slap := TimeDelta(now, r.tsFlush);
    assert -10000 <= slap < 10000;
    if FlushDue(t, now) {
      DeltaShifts(r.tsFlush, now, t.interval);
      DeltaShifts(now, now, t.interval);
      DeltaFlips(Wrap32(r.tsFlush + t.interval), now);
    }
  }

  /** Between updates: the timer has been armed and is still ahead. */
  predicate Waiting(t: Timing, now: u32) {
    IntervalOk(t) && t.updated && 0 < Ahead(t, now) <= 10000
  }

  lemma WaitingTimer(t: Timing, now: u32)
    requires Waiting(t, now)
    ensures Ahead(t, now) < 10000 ==> CheckTimer(t, now) == t
    ensures Ahead(t, now) == 10000 ==> CheckTimer(t, now) == t.(tsFlush := now)
    ensures TimeDelta(now, t.tsFlush) == -Ahead(t, now)
  {
    DeltaFlips(t.tsFlush, now);
  }

  /** check() answers no earlier than now, no later than one interval, nor than the next flush. */
  lemma CheckAnswerBounds(t: Timing, buf: seq<Segment>, now: u32)
    requires IntervalOk(t)
    ensures var d := TimeDelta(CheckAnswer(t, buf, now), now);
      0 <= d <= t.interval && (d > 0 ==> d <= Ahead(CheckTimer(t, now), now))
  {
    DeltaSelf(now);
    var t' := CheckTimer(t, now);
    DeltaFlips(now, t'.tsFlush);
    hide TimeDelta, Wrap32, EarliestTransmit;
    if t.updated && TimeDelta(now, t'.tsFlush) < 0 {
      var nextFlush := Max(0, TimeDelta(t'.tsFlush, now));
      var minimal := match EarliestTransmit(buf, now)
                     case Some(d) => Min(d, nextFlush)
                     case None => nextFlush;
      DeltaShifts(now, now, Min(t.interval, minimal));
    }
  }

  /** The earliest-transmission scan answers 0 exactly when some reading is not after now. */
  lemma {:induction false} EarliestZero(buf: seq<Segment>, now: u32, best: u32)
    requires best > 0
    ensures EarliestFrom(buf, now, best) == Some(0)
       <==> exists i :: 0 <= i < |buf| && buf[i].meta.resendts <= now
    decreases |buf|
  {
    if buf != [] && buf[0].meta.resendts > now {
      var next := Min(best, Wrap32(buf[0].meta.resendts - now));
      EarliestZero(buf[1..], now, next);
      if i :| 0 <= i < |buf[1..]| && buf[1..][i].meta.resendts <= now {
        assert buf[i + 1].meta.resendts <= now;
      }
      if i :| 0 <= i < |buf| && buf[i].meta.resendts <= now {
        assert buf[1..][i - 1].meta.resendts <= now;
      }
    }
  }

  predicate Overdue(buf: seq<Segment>, now: u32) {
    exists i :: 0 <= i < |buf| && buf[i].meta.resendts <= now
  }

  /** The scan finds the least distance to a retransmission, or the start value if that is less. */
  lemma {:induction false} EarliestLeast(buf: seq<Segment>, now: u32, best: u32)
    requires best > 0 && !Overdue(buf, now)
    ensures var d := match EarliestFrom(buf, now, best) case Some(d) => d case None => 0xFFFF_FFFF;
      && 0 < d <= best
      && (forall i :: 0 <= i < |buf| ==> d <= buf[i].meta.resendts - now)
      && (d == best || exists i :: 0 <= i < |buf| && d == buf[i].meta.resendts - now)
    decreases |buf|
  {
    if buf != [] {
      assert buf[0].meta.resendts > now;
      WrapSmall(buf[0].meta.resendts - now);
      var next := Min(best, buf[0].meta.resendts - now);
      RestNotOverdue(buf, now);
      hide Wrap32, Overdue;
      EarliestLeast(buf[1..], now, next);
      var d := match EarliestFrom(buf[1..], now, next) case Some(d) => d case None => 0xFFFF_FFFF;
      forall i | 0 <= i < |buf| ensures d <= buf[i].meta.resendts - now {
        if i > 0 {
          assert buf[1..][i - 1] == buf[i];
        }
      }
      if d != next {
        var i :| 0 <= i < |buf[1..]| && d == buf[1..][i].meta.resendts - now;
        assert buf[i + 1] == buf[1..][i];
      }
    }
  }

  lemma RestNotOverdue(buf: seq<Segment>, now: u32)
    requires buf != []
    ensures Overdue(buf[1..], now) ==> Overdue(buf, now)
  {
    if i :| 0 <= i < |buf[1..]| && buf[1..][i].meta.resendts <= now {
      assert buf[i + 1].meta.resendts <= now;
    }
  }

  /** How far ahead of `now` check() may put the next call. */
  predicate Heeds(t: Timing, buf: seq<Segment>, now: u32, d: int) {
    && d <= t.interval && d <= Ahead(t, now)
    && forall i :: 0 <= i < |buf| ==> d <= buf[i].meta.resendts - now
  }

  /**
   What check() answers. Before the first update(), with the flush due, or with the timer 10 s or
   more away on either side, which it then restarts, it answers now; and so it does with a segment
   overdue. Otherwise it answers the earliest of one interval ahead, the next flush, and every
   retransmission in the buffer.
   */
  lemma CheckAnswersEarliest(e: Endpoint, now: u32)
    requires IntervalOk(e.timing)
    ensures var t, buf, ahead := e.timing, e.out.buf, Ahead(e.timing, now);
      var (e', next) := Check(e, now);
      var d := TimeDelta(next, now);
      && (if !t.updated || ahead <= 0 || ahead >= 10000 || Overdue(buf, now) then next == now
          else
            && Heeds(t, buf, now, d)
            && (d == t.interval || d == ahead || exists i :: 0 <= i < |buf| && d == buf[i].meta.resendts - now))
      && e' == if t.updated && (ahead <= -10000 || ahead >= 10000) then e.(timing := t.(tsFlush := now)) else e
  {
    var t, buf, ahead := e.timing, e.out.buf, Ahead(e.timing, now);
    DeltaSelf(now);
    DeltaFlips(t.tsFlush, now);
    ShiftNothing(now);
    LeastDelta(t.tsFlush, now);
    hide TimeDelta, Wrap32, EarliestFrom, Overdue;
    if t.updated && 0 < ahead < 10000 {
      EarliestZero(buf, now, 0xFFFF_FFFF);
      OverdueMeans(buf, now);
      if !Overdue(buf, now) {
        EarliestLeast(buf, now, 0xFFFF_FFFF);
        var best := match EarliestTransmit(buf, now) case Some(d) => Min(d, ahead) case None => ahead;
        DeltaShifts(now, now, Min(t.interval, best));
      }
    }
  }

  lemma OverdueMeans(buf: seq<Segment>, now: u32)
    ensures Overdue(buf, now) <==> exists i :: 0 <= i < |buf| && buf[i].meta.resendts <= now
  {
  }

  lemma LeastDelta(a: u32, b: u32)
    ensures TimeDelta(a, b) == -0x8000_0000 <==> TimeDelta(b, a) == -0x8000_0000
  {
  }

  /**
   Calling update() at the time check() answers, on the timer check() leaves, moves on or flushes
   exactly when no buffered segment is overdue, or check() has restarted the timer, which it does
   at 10 s ahead. Otherwise check() answers now while update() still waits for its timer, so the
   pair of calls makes no headway until the clock does.
   */
  lemma HopMakesHeadway(t: Timing, buf: seq<Segment>, now: u32)
    requires Waiting(t, now)
    ensures var next := CheckAnswer(t, buf, now);
      (next != now || FlushDue(CheckTimer(t, now), next)) <==> !Overdue(buf, now) || Ahead(t, now) == 10000
  {
    WaitingTimer(t, now);
    EarliestZero(buf, now, 0xFFFF_FFFF);
    DeltaSelf(now);
    hide TimeDelta, Wrap32, EarliestFrom;
    if Ahead(t, now) == 10000 {
    } else if !Overdue(buf, now) {
      var minimal := match EarliestTransmit(buf, now)
                     case Some(d) => Min(d, Ahead(t, now))
                     case None => Ahead(t, now);
      ShiftMoves(now, Min(t.interval, minimal));
    } else {
      ShiftNothing(now);
    }
  }

  lemma ShiftMoves(now: u32, n: int)
    requires 0 < n < 0x1_0000_0000
    ensures Wrap32(now + n) != now
  {
  }

  lemma ShiftNothing(now: u32)
    ensures Wrap32(now + 0) == now
  {
  }

  /** Hopping from check() to update() flushes within `n` hops. */
  predicate FlushesWithin(t: Timing, now: u32, n: nat)
    decreases n
  {
    n > 0 && IntervalOk(t)
    && var t' := CheckTimer(t, now);
       var next := CheckAnswer(t, [], now);
       FlushDue(t', next) || FlushesWithin(NextFlush(t', next), next, n - 1)
  }

  lemma EmptyHop(t: Timing, now: u32)
    requires Waiting(t, now) && Ahead(t, now) < 10000
    ensures var next := CheckAnswer(t, [], now);
      CheckTimer(t, now) == t
      && Ahead(t, next) == Ahead(t, now) - Min(t.interval, Ahead(t, now))
  {
    WaitingTimer(t, now);
    var n := Min(t.interval, Ahead(t, now));
    hide Wrap32, TimeDelta;
    assert CheckAnswer(t, [], now) == Wrap32(now + n);
    BehindShift(t.tsFlush, now, n);
  }

  lemma BehindShift(a: u32, b: u32, n: int)
    requires -0x8000_0000 <= TimeDelta(a, b) - n < 0x8000_0000
    ensures TimeDelta(a, Wrap32(b + n)) == TimeDelta(a, b) - n
  {
  }

  /** With nothing in flight, at most one hop per 10 ms of remaining wait leads to a flush. */
  lemma {:induction false} HopsReachFlush(t: Timing, now: u32, n: nat)
    requires Waiting(t, now) && Ahead(t, now) <= 10 * n
    ensures FlushesWithin(t, now, n)
    decreases n
  {
    DeltaSelf(now);
    WaitingTimer(t, now);
    hide TimeDelta, Wrap32;
    if Ahead(t, now) == 10000 {
      assert FlushDue(t.(tsFlush := now), now);
    } else {
      EmptyHop(t, now);
      var next := CheckAnswer(t, [], now);
      AheadDue(t, next);
      if !FlushDue(t, next) {
        assert NextFlush(t, next) == t.(current := next);
        HopsReachFlush(NextFlush(t, next), next, n - 1);
      }
    }
  }

  lemma AheadDue(t: Timing, now: u32)
    requires t.updated && 0 <= Ahead(t, now) < 10000
    ensures FlushDue(t, now) <==> Ahead(t, now) == 0
    ensures Ahead(t, now) > 0 ==> NextFlush(t, now) == t.(current := now)
  {
    DeltaFlips(t.tsFlush, now);
  }

  /**
   check() compares retransmission times plainly, the flush compares them modulo 2^32: the two
   agree exactly when the readings are within 2^31 of each other as plain numbers.
   */
  lemma PlainComparisonAgrees(now: u32, resendts: u32)
    ensures (resendts <= now <==> Due(now, resendts)) <==> -0x8000_0000 <= now - resendts < 0x8000_0000
  {
  }
}
