/** The congestion controller, the timeout calculator and the window prober, updated in place. */
module Controllers {
  import opened Words
  import opened Congestion
  import opened Timeouts
  import opened Probing

  class CongestionController {
    const mss: Mss
    var congestionWindow: bool
    var rcvWnd: u32
    var rmtWnd: u32
    var sndWnd: u32
    var ssthresh: u32
    var cwnd: u32
    var incr: u32

    ghost function Value(): Windows
      reads this
    {
      Windows(congestionWindow, rcvWnd, rmtWnd, sndWnd, ssthresh, cwnd, incr)
    }

    constructor (mss: Mss)
      ensures this.mss == mss && Value() == INITIAL_WINDOWS
    {
      this.mss := mss;
      congestionWindow := true;
      rcvWnd, rmtWnd, sndWnd := WND_RCV, WND_SND, WND_SND;
      ssthresh, cwnd, incr := THRESH_INIT, 0, 0;
    }

    method SetReceiveWindow(value: u32)
      modifies this
      ensures Value() == Congestion.SetReceiveWindow(old(Value()), value)
    {
      rcvWnd := Max(value, WND_RCV);
    }

    method FitsReceiveWindow(rcvNxt: u32, sn: u32) returns (fits: bool)
      ensures fits == Congestion.FitsReceiveWindow(Value(), rcvNxt, sn)
    {
      fits := sn < Wrap32(rcvNxt + rcvWnd);
    }

    method PacketsResent(packetsInFlight: u32, resent: u32)
      modifies this
      ensures Value() == Congestion.PacketsResent(old(Value()), mss, packetsInFlight, resent)
    {
      ssthresh := Max(packetsInFlight / 2, THRESH_MIN);
      cwnd := Wrap32(ssthresh + resent);
      incr := Wrap32(Bytes(cwnd, mss));
    }

    method PacketLost()
      modifies this
      ensures Value() == Congestion.PacketLost(old(Value()), mss)
    {
      ssthresh := Max(cwnd / 2, THRESH_MIN);
      cwnd := 1;
      incr := mss;
    }

    method AdjustParameters()
      modifies this
      ensures Value() == Congestion.AdjustParameters(old(Value()), mss)
    {
      hide Bytes, Share, Ceiling, Wrap32;
      if cwnd < rmtWnd {
        if cwnd < ssthresh {
          cwnd := Wrap32(cwnd + 1);
          incr := Wrap32(incr + mss);
        } else {
          if incr < mss {
            incr := mss;
          }
          incr := Wrap32(incr + Share(mss, incr) + mss / 16);
          if Bytes(Wrap32(cwnd + 1), mss) <= incr {
            cwnd := Wrap32(Ceiling(incr, mss));
          }
        }
        if cwnd > rmtWnd {
          cwnd := rmtWnd;
          incr := Wrap32(Bytes(rmtWnd, mss));
        }
      }
    }

    method EnsureAtLeastOnePacketInFlight()
      modifies this
      ensures Value() == EnsureOnePacket(old(Value()), mss)
    {
      if cwnd < 1 {
        cwnd := 1;
        incr := mss;
      }
    }

    method CalculateCongestionWindow() returns (window: u32)
      ensures window == CongestionWindow(Value())
    {
      window := Min(sndWnd, rmtWnd);
      if congestionWindow {
        window := Min(cwnd, window);
      }
    }
  }

  class RtoCalculator {
    var interval: u32
    var srtt: u32
    var rttvar: u32
    var rto: u32
    var lastRtt: u32
    var minrto: u32

    ghost function Value(): Estimate
      reads this
    {
      Estimate(interval, srtt, rttvar, rto, lastRtt, minrto)
    }

    constructor ()
      ensures Value() == INITIAL_ESTIMATE
    {
      interval, srtt, rttvar, rto, lastRtt, minrto := 0, 0, 0, RTO_DEF, 0, RTO_MIN;
    }

    method UpdateRto(current: u32, ts: u32)
      modifies this
      ensures Value() == Timeouts.Update(old(Value()), current, ts)
    {
      hide Wrap32, AsI32;
      var rtt := TimeDelta(current, ts);
      DeltaInRange(current, ts);
      hide TimeDelta;
      if rtt < 0 {
        return;
      }
      lastRtt := rtt;
      if srtt == 0 {
        srtt := rtt;
        rttvar := rtt / 2;
      } else {
        var delta := Abs(rtt - AsI32(srtt));
        rttvar := Wrap32(3 * rttvar + delta) / 4;
        srtt := Wrap32(7 * srtt + rtt) / 8;
      }
      var timeout := Wrap32(srtt + Max(interval, Wrap32(4 * rttvar)));
      rto := Clamp(timeout, minrto, RTO_MAX);
    }
  }

  lemma DeltaInRange(a: u32, b: u32)
    ensures -0x8000_0000 <= TimeDelta(a, b) < 0x8000_0000
  {
  }

  class WindowProber {
    var probe: bv32
    var tsProbe: u32
    var probeWait: u32

    ghost function Value(): Probe
      reads this
    {
      Probe(probe & 1 != 0, probe & 2 != 0, tsProbe, probeWait)
    }

    constructor ()
      ensures Value() == NO_PROBE
    {
      probe, tsProbe, probeWait := 0, 0, 0;
    }

    method Update(current: u32, rmtWnd: u32)
      modifies this
      ensures Value() == Probing.Update(old(Value()), current, rmtWnd)
    {
      hide Wrap32, TimeDelta;
      if rmtWnd != 0 {
        tsProbe := 0;
        probeWait := 0;
        return;
      }
      if probeWait == 0 {
        probeWait := PROBE_INIT;
        tsProbe := Wrap32(current + probeWait);
      } else {
        if TimeDelta(current, tsProbe) >= 0 {
          if probeWait < PROBE_INIT {
            probeWait := PROBE_INIT;
          }
          probeWait := Wrap32(probeWait + probeWait / 2);
          if probeWait > PROBE_LIMIT {
            probeWait := PROBE_LIMIT;
          }
          tsProbe := Wrap32(current + probeWait);
          AskSend();
        }
      }
    }

    method AskSend()
      modifies this`probe
      ensures Value() == old(Value()).(askSend := true)
    {
      SetBits(probe);
      probe := probe | 1;
    }

    method AskTell()
      modifies this`probe
      ensures Value() == old(Value()).(askTell := true)
    {
      SetBits(probe);
      probe := probe | 2;
    }

    method HasFlags() returns (askSend: bool, askTell: bool)
      ensures askSend == Value().askSend && askTell == Value().askTell
    {
      askSend := probe & 1 != 0;
      askTell := probe & 2 != 0;
    }

    method ResetFlags()
      modifies this`probe
      ensures Value() == old(Value()).(askSend := false, askTell := false)
    {
      probe := 0;
    }
  }

  lemma SetBits(b: bv32)
    ensures (b | 1) & 1 != 0 && (b | 1) & 2 == b & 2
    ensures (b | 2) & 2 != 0 && (b | 2) & 1 == b & 1
  {
  }
}
