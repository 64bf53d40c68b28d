/** What the zero-window prober computes. */
module Probing {
  import opened Words

  const PROBE_INIT: u32 := 7000
  const PROBE_LIMIT: u32 := 120000

  datatype Probe = Probe(askSend: bool, askTell: bool, tsProbe: u32, probeWait: u32)

  const NO_PROBE := Probe(false, false, 0, 0)

  function NextWait(wait: u32): u32 {
    var base := Max(wait, PROBE_INIT);
    Min(Wrap32(base + base / 2), PROBE_LIMIT)
  }

  function Update(p: Probe, current: u32, rmtWnd: u32): Probe {
    if rmtWnd != 0 then p.(tsProbe := 0, probeWait := 0)
    else if p.probeWait == 0 then
      p.(probeWait := PROBE_INIT, tsProbe := Wrap32(current + PROBE_INIT))
    else if TimeDelta(current, p.tsProbe) >= 0 then
      var wait := NextWait(p.probeWait);
      p.(probeWait := wait, tsProbe := Wrap32(current + wait), askSend := true)
    else p
  }

  lemma UpdateKeepsTell(p: Probe, current: u32, rmtWnd: u32)
    ensures Update(p, current, rmtWnd).askTell == p.askTell
  {
    hide TimeDelta, Wrap32;
  }

  /** The waits between probes run from 7 s up to 120 s, and nothing else. */
  predicate WaitInRange(p: Probe) {
    p.probeWait == 0 || PROBE_INIT <= p.probeWait <= PROBE_LIMIT
  }

  // ---------------------------------------------------------------- the probe on an unwrapped clock

  /** After a flush at `last`: the probe is unarmed, or due at `due`, later than that flush. */
  ghost predicate Armed(p: Probe, last: nat, due: nat) {
    && WaitInRange(p)
    && (p.probeWait != 0 ==> p.tsProbe == Wrap32(due) && last < due <= last + p.probeWait)
  }

  /** When the probe is due after a flush at `now` that finds the remote window closed. */
  function NextDue(p: Probe, due: nat, now: nat): nat {
    if p.probeWait == 0 then now + PROBE_INIT
    else if due <= now then now + NextWait(p.probeWait)
    else due
  }

  lemma TimeDeltaExact(now: nat, due: nat)
    requires -0x8000_0000 <= now - due < 0x8000_0000
    ensures TimeDelta(Wrap32(now), Wrap32(due)) == now - due
  {
    TimeDeltaIsElapsed(now, due);
  }

  /**
   A flush less than 2^31 ms after the last one finds the probe due exactly when the unwrapped
   clock has reached its time, asks then and only then, and leaves the next time ahead of it.
   */
  lemma UpdateArmed(p: Probe, last: nat, due: nat, now: nat)
    requires Armed(p, last, due) && last <= now < last + 0x8000_0000
    ensures Armed(Update(p, Wrap32(now), 0), now, NextDue(p, due, now))
    ensures Update(p, Wrap32(now), 0).probeWait >= Max(p.probeWait, PROBE_INIT)
    ensures Update(p, Wrap32(now), 0).askSend <==> p.askSend || (p.probeWait != 0 && due <= now)
  {
    WrapSum(now, PROBE_INIT);
    WrapSum(now, NextWait(p.probeWait));
    if p.probeWait != 0 {
      TimeDeltaExact(now, due);
    }
    hide Wrap32, TimeDelta;
    NextWaitGrows(p.probeWait);
  }

  lemma NextWaitGrows(wait: u32)
    requires wait == 0 || PROBE_INIT <= wait <= PROBE_LIMIT
    ensures Max(wait, PROBE_INIT) <= NextWait(wait) <= PROBE_LIMIT
  {
  }

  /** Flushes at the given readings, all with the remote window closed. */
  function UpdateAll(p: Probe, times: seq<nat>): Probe {
    if times == [] then p
    else Update(UpdateAll(p, times[..|times| - 1]), Wrap32(times[|times| - 1]), 0)
  }

  function LastTime(last: nat, times: seq<nat>): nat {
    if times == [] then last else times[|times| - 1]
  }

  /** Flush times that never go back, each less than 2^31 ms after the one before. */
  predicate Flowing(last: nat, times: seq<nat>) {
    times == []
    || (var before := LastTime(last, times[..|times| - 1]);
        Flowing(last, times[..|times| - 1]) && before <= times[|times| - 1] < before + 0x8000_0000)
  }

  /** Nothing is asked before the time the probe was armed for. */
  lemma {:induction false} SilentBefore(p: Probe, last: nat, due: nat, times: seq<nat>)
    requires Armed(p, last, due) && p.probeWait != 0 && !p.askSend && Flowing(last, times)
    requires forall i :: 0 <= i < |times| ==> times[i] < due
    ensures UpdateAll(p, times) == p && LastTime(last, times) < due
    ensures Armed(p, LastTime(last, times), due)
  {
    hide Wrap32, TimeDelta;
    if times != [] {
      var n := |times| - 1;
      SilentBefore(p, last, due, times[..n]);
      TimeDeltaExact(times[n], due);
    }
  }

  lemma {:induction false} AskingStays(p: Probe, times: seq<nat>, k: nat)
    requires k <= |times| && UpdateAll(p, times[..k]).askSend
    ensures UpdateAll(p, times).askSend
    decreases |times| - k
  {
    if k < |times| {
      assert times[..k + 1][..k] == times[..k];
      AskingStays(p, times, k + 1);
    } else {
      assert times[..k] == times;
    }
  }

  lemma {:induction false} FlowingPrefix(last: nat, times: seq<nat>, k: nat)
    requires k <= |times| && Flowing(last, times)
    ensures Flowing(last, times[..k])
  {
    if k < |times| {
      var n := |times| - 1;
      assert times[..n][..k] == times[..k];
      FlowingPrefix(last, times[..n], k);
    } else {
      assert times[..k] == times;
    }
  }

  /**
   Zero-window probing on time: while the remote window stays closed, a run of flushes has asked
   for it exactly when one of them came at or after the time the probe was armed for, however
   often the 32-bit clock has wrapped on the way. So the first flush past that time asks.
   */
  lemma {:induction false} ProbesOnTime(p: Probe, last: nat, due: nat, times: seq<nat>)
    requires Armed(p, last, due) && p.probeWait != 0 && !p.askSend && Flowing(last, times)
    ensures UpdateAll(p, times).askSend <==> exists i :: 0 <= i < |times| && due <= times[i]
  {
    if forall i :: 0 <= i < |times| ==> times[i] < due {
      SilentBefore(p, last, due, times);
    } else {
      var n := |times| - 1;
      FlowingPrefix(last, times, n);
      if exists i :: 0 <= i < n && due <= times[..n][i] {
        var i :| 0 <= i < n && due <= times[..n][i];
        ProbesOnTime(p, last, due, times[..n]);
        AskingStays(p, times, n);
      } else {
        forall i | 0 <= i < n ensures times[..n][i] < due {
        }
        SilentBefore(p, last, due, times[..n]);
        assert due <= times[n];
        UpdateArmed(p, LastTime(last, times[..n]), due, times[n]);
      }
    }
  }

  /** The time a probe is armed for is at most 120 s after the flush that armed it. */
  lemma DueWithinLimit(p: Probe, last: nat, due: nat, now: nat)
    requires Armed(p, last, due) && last <= now < last + 0x8000_0000
    ensures now < NextDue(p, due, now) <= now + PROBE_LIMIT
  {
    UpdateArmed(p, last, due, now);
    hide Wrap32, TimeDelta;
  }

  /** The waits between unanswered probes, in full: from 7 s by halves again, in nine steps to 120 s. */
  lemma WaitLadder()
    ensures NextWait(7000) == 10500 && NextWait(10500) == 15750 && NextWait(15750) == 23625
    ensures NextWait(23625) == 35437 && NextWait(35437) == 53155 && NextWait(53155) == 79732
    ensures NextWait(79732) == 119598 && NextWait(119598) == 120000 && NextWait(120000) == 120000
  {
  }

  /**
   What one flush does to the prober: an open window stops it, a closed one starts it at 7 s, and a
   probe whose time has come is sent and waits half as long again, at most 120 s.
   */
  lemma UpdateExactly(p: Probe, now: u32, rmtWnd: u32)
    requires WaitInRange(p)
    ensures var p' := Update(p, now, rmtWnd);
      && p'.askTell == p.askTell
      && (rmtWnd > 0 ==> p'.probeWait == 0 && p'.tsProbe == 0 && p'.askSend == p.askSend)
      && (rmtWnd == 0 && p.probeWait == 0 ==>
            p'.probeWait == 7000 && TimeDelta(p'.tsProbe, now) == 7000 && p'.askSend == p.askSend)
      && (rmtWnd == 0 && p.probeWait > 0 && TimeDelta(now, p.tsProbe) < 0 ==> p' == p)
      && (rmtWnd == 0 && p.probeWait > 0 && TimeDelta(now, p.tsProbe) >= 0 ==>
            && p'.askSend && TimeDelta(p'.tsProbe, now) == p'.probeWait <= 120000
            && (p'.probeWait < 120000 ==> 2 * p'.probeWait <= 3 * p.probeWait < 2 * p'.probeWait + 2)
            && (p'.probeWait == 120000 ==> 3 * p.probeWait >= 240000))
  {
    DeltaAhead(now, PROBE_INIT);
    DeltaAhead(now, NextWait(p.probeWait));
    hide TimeDelta;
    if p.probeWait > 0 {
      WrapSmall(p.probeWait + p.probeWait / 2);
    }
    hide Wrap32;
  }

  lemma DeltaAhead(now: u32, wait: u32)
    ensures wait < 0x8000_0000 ==> TimeDelta(Wrap32(now + wait), now) == wait
  {
  }

  /** Each unanswered probe waits half as long again, capped at 120 s: never shorter. */
  lemma WaitsGrow(p: Probe, current: u32)
    requires WaitInRange(p)
    ensures var p' := Update(p, current, 0); WaitInRange(p') && p'.probeWait >= Max(p.probeWait, PROBE_INIT)
  {
  }
}
