/** When update() flushes: exactly, for one call, and once per interval over a run. */
module Periods {
  import opened Words
  import opened Congestion
  import opened Endpoints
  import opened Links
  import opened Frames
  import opened Laws
  import opened Timers

  // ---------------------------------------------------------------- one call

  /** The endpoint with update() entered at `now` and its next flush set to `tsFlush`. */
  function At(e: Endpoint, now: u32, tsFlush: u32): Endpoint {
    e.(timing := Timing(e.timing.interval, true, now, tsFlush))
  }

  /** update() that flushes, and its next flush is set to `tsFlush`. */
  predicate Flushes(e: Endpoint, now: u32, tsFlush: u32) {
    && Endpoints.Update(e, now) == Endpoints.Flush(At(e, now, tsFlush))
    && UpdateDatagrams(e, now) == FlushDatagrams(At(e, now, tsFlush))
  }

  /** update() that only reads the clock. */
  predicate Waits(e: Endpoint, now: u32) {
    Endpoints.Update(e, now) == At(e, now, e.timing.tsFlush) && UpdateDatagrams(e, now) == []
  }

  lemma FreshTimer(t: Timing, now: u32)
    requires IntervalOk(t) && !t.updated
    ensures FlushDue(t, now) && NextFlush(t, now) == Timing(t.interval, true, now, Wrap32(now + t.interval))
  {
    NoDelta(now);
    BehindShift(now, now, t.interval);
    hide TimeDelta, Wrap32;
  }

  lemma RunningTimer(t: Timing, now: u32)
    requires IntervalOk(t) && t.updated
    ensures var slap := TimeDelta(now, t.tsFlush);
      var r := Timing(t.interval, true, now, Wrap32(now + t.interval));
      && (FlushDue(t, now) <==> slap >= 0 || slap < -10000)
      && NextFlush(t, now)
         == if slap >= t.interval || slap < -10000 then r
            else if slap >= 0 then r.(tsFlush := Wrap32(t.tsFlush + t.interval)) else r.(tsFlush := t.tsFlush)
  {
    var slap := TimeDelta(now, t.tsFlush);
    NoDelta(now);
    BehindShift(now, now, t.interval);
    if 0 <= slap < 10000 {
      BehindShift(now, t.tsFlush, t.interval);
    }
    hide TimeDelta, Wrap32;
  }

  /**
   One update(), exactly. The first one flushes and sets the next flush one interval ahead. Later
   ones, late by `slap`: at less than one interval the next flush is one interval after the one now
   due, so lateness does not add up; at one interval or more, or more than 10 s early, it is one
   interval after now; and up to 10 s early nothing happens.
   */
  lemma UpdateExactly(e: Endpoint, now: u32)
    requires IntervalOk(e.timing)
    ensures var t, slap := e.timing, TimeDelta(now, e.timing.tsFlush);
      if !t.updated || slap >= t.interval || slap < -10000 then Flushes(e, now, Wrap32(now + t.interval))
      else if slap >= 0 then Flushes(e, now, Wrap32(t.tsFlush + t.interval))
      else Waits(e, now)
  {
    hide Endpoints.Flush, FlushDatagrams, TimeDelta, Wrap32, NextFlush, FlushDue;
    if !e.timing.updated {
      FreshTimer(e.timing, now);
    } else {
      RunningTimer(e.timing, now);
    }
  }

  // ---------------------------------------------------------------- the period over a run of calls

  /** The unwrapped clock readings of the update() calls. */
  function Readings(calls: seq<Action>): seq<nat> {
    if calls == [] then []
    else Readings(calls[..|calls| - 1]) + (if calls[|calls| - 1].Update? then [calls[|calls| - 1].now] else [])
  }

  /** Readings that never go back, each less than one interval after the one before. */
  predicate Regular(times: seq<nat>, interval: u32) {
    forall i :: 0 < i < |times| ==> times[i - 1] <= times[i] < times[i - 1] + interval
  }

  /** No change of the interval, and no check(). */
  predicate KeepsTimer(calls: seq<Action>) {
    forall i :: 0 <= i < |calls| ==> !calls[i].Check? && !(calls[i].Configure? && calls[i].setting.Interval?)
  }

  /** The number of the period, counted from 0, in which a reading lies. */
  function PeriodOf(start: nat, now: nat, interval: u32): nat
    requires start <= now && interval > 0
  {
    (now - start) / interval
  }

  lemma StepTimer(me: Peer, incoming: set<seq<u8>>, a: Action)
    requires !a.Update? && !a.Check? && !(a.Configure? && a.setting.Interval?)
    ensures PeerStep(me, incoming, a).e.timing == me.e.timing
  {
    CallsKeepApart(me, incoming, a);
    hide Endpoints.Flush, Endpoints.Send, Endpoints.Recv, Endpoints.Update, Endpoints.Check, Input, FlushDatagrams,
         UpdateDatagrams;
  }

  lemma {:induction false} RegularFrom(times: seq<nat>, interval: u32)
    requires Regular(times, interval) && times != []
    ensures times[0] <= times[|times| - 1]
  {
    if |times| > 1 {
      RegularFrom(times[..|times| - 1], interval);
    }
  }

  lemma RegularFront(times: seq<nat>, now: nat, interval: u32)
    requires Regular(times + [now], interval)
    ensures Regular(times, interval)
  {
    forall i | 0 < i < |times|
      ensures times[i - 1] <= times[i] < times[i - 1] + interval
    {
      assert (times + [now])[i] == times[i] && (times + [now])[i - 1] == times[i - 1];
    }
  }

  lemma ReadingsMore(calls: seq<Action>, interval: u32)
    requires calls != [] && Regular(Readings(calls), interval)
    ensures Regular(Readings(calls[..|calls| - 1]), interval)
  {
    if calls[|calls| - 1].Update? {
      RegularFront(Readings(calls[..|calls| - 1]), calls[|calls| - 1].now, interval);
    } else {
      assert Readings(calls) == Readings(calls[..|calls| - 1]);
    }
  }

  /** The timer stands at the end of the period of the last reading. */
  predicate AtPeriod(t: Timing, interval: u32, start: nat, last: nat)
    requires start <= last && interval > 0
  {
    && t.updated && t.interval == interval
    && t.tsFlush == Wrap32(start + (PeriodOf(start, last, interval) + 1) * interval)
  }

  /** What the timer is after the given readings. */
  predicate Keeping(t: Timing, interval: u32, times: seq<nat>)
    requires interval > 0
  {
    IntervalOk(t) && t.interval == interval
    && if times == [] then !t.updated
       else times[0] <= times[|times| - 1] && AtPeriod(t, interval, times[0], times[|times| - 1])
  }

  /** Arithmetic of one more reading, less than one interval after the last. */
  lemma NextPeriod(start: nat, last: nat, now: nat, interval: u32)
    requires start <= last <= now < last + interval && interval > 0
    ensures var k, k' := PeriodOf(start, last, interval), PeriodOf(start, now, interval);
      var due := start + (k + 1) * interval;
      && due - interval <= now < due + interval
      && (now < due ==> k' == k)
      && (now >= due ==> k' == k + 1 && start + (k' + 1) * interval == due + interval)
  {
    var k := PeriodOf(start, last, interval);
    ProductSteps(k, interval);
    WholeIntervals(last - start, interval);
    QuotientIs(now - start, interval, if now < start + (k + 1) * interval then k else k + 1);
  }

  lemma ProductSteps(k: nat, d: nat)
    ensures (k + 1) * d == k * d + d && (k + 2) * d == k * d + 2 * d
  {
  }

  lemma WholeIntervals(x: nat, d: nat)
    requires d > 0
    ensures x / d * d <= x < x / d * d + d
  {
  }

  lemma QuotientIs(x: nat, d: nat, q: nat)
    requires d > 0 && q * d <= x < (q + 1) * d
    ensures x / d == q
  {
    QuotientAtLeast(x, d, q);
    QuotientBelow(x, d, q + 1);
  }

  lemma OnePeriod(e: Endpoint, start: nat, last: nat, now: nat)
    requires IntervalOk(e.timing) && start <= last <= now < last + e.timing.interval
    requires AtPeriod(e.timing, e.timing.interval, start, last)
    ensures var interval := e.timing.interval;
      var next := Wrap32(start + (PeriodOf(start, now, interval) + 1) * interval);
      if PeriodOf(start, now, interval) > PeriodOf(start, last, interval) then Flushes(e, Wrap32(now), next)
      else Waits(e, Wrap32(now)) && next == e.timing.tsFlush
  {
    hide Wrap32, TimeDelta, Flushes, Waits, PeriodOf;
    var interval := e.timing.interval;
    var k, k' := PeriodOf(start, last, interval), PeriodOf(start, now, interval);
    var due, next := start + (k + 1) * interval, start + (k' + 1) * interval;
    NextPeriod(start, last, now, interval);
    assert if now < due then k' == k && next == due else k' == k + 1 && next == due + interval;
    DueDelta(e, now, due, interval);
    UpdateExactly(e, Wrap32(now));
  }

  lemma DueDelta(e: Endpoint, now: nat, due: nat, interval: u32)
    requires e.timing.tsFlush == Wrap32(due) && due - interval <= now < due + interval && interval <= 5000
    ensures TimeDelta(Wrap32(now), e.timing.tsFlush) == now - due
    ensures Wrap32(e.timing.tsFlush + interval) == Wrap32(due + interval)
  {
    TimeDeltaIsElapsed(now, due);
    WrapSum(due, interval);
    hide Wrap32, TimeDelta;
  }

  lemma FirstPeriod(e: Endpoint, start: nat)
    requires IntervalOk(e.timing) && !e.timing.updated
    ensures var next := start + (PeriodOf(start, start, e.timing.interval) + 1) * e.timing.interval;
      Flushes(e, Wrap32(start), Wrap32(next))
  {
    hide Wrap32, TimeDelta, Flushes, Waits;
    UpdateExactly(e, Wrap32(start));
    WrapSum(start, e.timing.interval);
  }

  /** What an update leaves in the timer. */
  lemma UpdatedTimer(e: Endpoint, now: u32, tsFlush: u32)
    requires Flushes(e, now, tsFlush) || (Waits(e, now) && tsFlush == e.timing.tsFlush)
    ensures Endpoints.Update(e, now).timing == Timing(e.timing.interval, true, now, tsFlush)
  {
    FlushLeaves(At(e, now, tsFlush));
    hide Endpoints.Flush, FlushDatagrams, Endpoints.Update, UpdateDatagrams;
  }

  /** An update() that flushes when it is the first of its period, and not otherwise. */
  predicate OncePerPeriod(e: Endpoint, times: seq<nat>, now: nat, interval: u32)
    requires interval > 0
  {
    var start := (times + [now])[0];
    && start <= now && (times != [] ==> start <= times[|times| - 1])
    && var k := PeriodOf(start, now, interval);
       if times == [] || k > PeriodOf(start, times[|times| - 1], interval)
       then Flushes(e, Wrap32(now), Wrap32(start + (k + 1) * interval))
       else Waits(e, Wrap32(now)) && e.timing.tsFlush == Wrap32(start + (k + 1) * interval)
  }

  /** One more reading, from a timer that keeps its period. */
  lemma ReadOn(e: Endpoint, interval: u32, times: seq<nat>, now: nat)
    requires interval > 0 && Keeping(e.timing, interval, times) && Regular(times + [now], interval)
    ensures OncePerPeriod(e, times, now, interval)
  {
    hide Endpoints.Update, UpdateDatagrams, Flushes, Waits, Wrap32, PeriodOf;
    if times == [] {
      FirstPeriod(e, now);
    } else {
      var last := times[|times| - 1];
      assert (times + [now])[|times| - 1] == last && (times + [now])[|times|] == now;
      OnePeriod(e, times[0], last, now);
    }
  }

  lemma ReadKeeps(e: Endpoint, interval: u32, times: seq<nat>, now: nat)
    requires interval > 0 && Keeping(e.timing, interval, times) && OncePerPeriod(e, times, now, interval)
    ensures Keeping(Endpoints.Update(e, Wrap32(now)).timing, interval, times + [now])
  {
    hide Endpoints.Update, UpdateDatagrams, Flushes, Waits, Wrap32, PeriodOf;
    var start := (times + [now])[0];
    UpdatedTimer(e, Wrap32(now), Wrap32(start + (PeriodOf(start, now, interval) + 1) * interval));
  }

  /**
   The timer of a run, on an unwrapped clock: with readings less than one interval apart, and
   whatever else is called between them, the next flush stands at start + (k + 1) * interval, where
   k is the period of the last reading, however late each reading was and however often the 32-bit
   clock has wrapped.
   */
  lemma {:induction false} TimerKeepsPeriod(me: Peer, calls: seq<Action>)
    requires IntervalOk(me.e.timing) && !me.e.timing.updated && KeepsTimer(calls)
    requires Regular(Readings(calls), me.e.timing.interval)
    ensures Keeping(Called(me, calls).e.timing, me.e.timing.interval, Readings(calls))
  {
    if calls != [] {
      var n, interval := |calls| - 1, me.e.timing.interval;
      var before, a := Called(me, calls[..n]), calls[n];
      ReadingsMore(calls, interval);
      TimerKeepsPeriod(me, calls[..n]);
      hide Endpoints.Update, UpdateDatagrams, Keeping, OncePerPeriod, Wrap32, Regular;
      if a.Update? {
        ReadOn(before.e, interval, Readings(calls[..n]), a.now);
        ReadKeeps(before.e, interval, Readings(calls[..n]), a.now);
      } else {
        StepTimer(before, if a.Deliver? then {a.datagram} else {}, a);
        assert Readings(calls) == Readings(calls[..n]);
        hide PeerStep;
      }
    }
  }

  /**
   Flushes do not drift: with readings less than one interval apart, an update() flushes exactly
   when it is the first one at or after start + k * interval for some k, and it then sets the next
   flush to start + (k + 1) * interval.
   */
  lemma FlushesEachPeriod(me: Peer, calls: seq<Action>, now: nat)
    requires IntervalOk(me.e.timing) && !me.e.timing.updated && KeepsTimer(calls)
    requires Regular(Readings(calls) + [now], me.e.timing.interval)
    ensures OncePerPeriod(Called(me, calls).e, Readings(calls), now, me.e.timing.interval)
  {
    hide Called, Readings, Keeping, OncePerPeriod, KeepsTimer, Regular;
    RegularFront(Readings(calls), now, me.e.timing.interval);
    TimerKeepsPeriod(me, calls);
    ReadOn(Called(me, calls).e, me.e.timing.interval, Readings(calls), now);
  }
}
