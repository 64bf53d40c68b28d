/** What the congestion controller computes, in u32 arithmetic with explicit wrap-around. */
module Congestion {
  import opened Words

  const WND_SND: u32 := 32
  const WND_RCV: u32 := 128
  const THRESH_INIT: u32 := 2
  const THRESH_MIN: u32 := 2

  /** Maximum segment size: the MTU less one header, at least one byte. */
  type Mss = x: int | 1 <= x < 0x1_0000_0000 witness 1

  /** The size of `n` full segments. */
  function Bytes(n: int, mss: Mss): int {
    n * mss
  }

  /** The part of a segment by which one acknowledgement grows `incr` bytes. */
  function Share(mss: Mss, incr: int): nat
    requires incr >= mss
  {
    mss * mss / incr
  }

  /** The number of segments that cover `x` bytes. */
  function Ceiling(x: nat, mss: Mss): nat {
    (x + mss - 1) / mss
  }

  datatype Windows = Windows(
    enabled: bool, rcvWnd: u32, rmtWnd: u32, sndWnd: u32, ssthresh: u32, cwnd: u32, incr: u32)

  const INITIAL_WINDOWS := Windows(true, WND_RCV, WND_SND, WND_SND, THRESH_INIT, 0, 0)

  function SetReceiveWindow(w: Windows, rcvWnd: u32): Windows {
    w.(rcvWnd := Max(rcvWnd, WND_RCV))
  }

  /** The admission test of input(); its bound wraps. */
  predicate FitsReceiveWindow(w: Windows, rcvNxt: u32, sn: u32) {
    sn < Wrap32(rcvNxt + w.rcvWnd)
  }

  function PacketsResent(w: Windows, mss: Mss, inFlight: u32, resent: u32): Windows {
    var ssthresh := Max(inFlight / 2, THRESH_MIN);
    var cwnd := Wrap32(ssthresh + resent);
    w.(ssthresh := ssthresh, cwnd := cwnd, incr := Wrap32(Bytes(cwnd, mss)))
  }

  function PacketLost(w: Windows, mss: Mss): Windows {
    w.(ssthresh := Max(w.cwnd / 2, THRESH_MIN), cwnd := 1, incr := mss)
  }

  /** One step of growth in the congestion-avoidance phase. */
  function Grown(incr: u32, mss: Mss): u32 {
    var base := Max(incr, mss);
    Wrap32(base + Share(mss, base) + mss / 16)
  }

  function Raised(w: Windows, mss: Mss): Windows {
    if w.cwnd < w.ssthresh then w.(cwnd := Wrap32(w.cwnd + 1), incr := Wrap32(w.incr + mss))
    else
      var incr := Grown(w.incr, mss);
      w.(incr := incr,
         cwnd := if Bytes(Wrap32(w.cwnd + 1), mss) <= incr then Wrap32(Ceiling(incr, mss)) else w.cwnd)
  }

  function AdjustParameters(w: Windows, mss: Mss): Windows {
    if w.cwnd >= w.rmtWnd then w
    else
      var r := Raised(w, mss);
      if r.cwnd > r.rmtWnd then r.(cwnd := r.rmtWnd, incr := Wrap32(Bytes(r.rmtWnd, mss))) else r
  }

  function EnsureOnePacket(w: Windows, mss: Mss): Windows {
    if w.cwnd < 1 then w.(cwnd := 1, incr := mss) else w
  }

  function CongestionWindow(w: Windows): u32 {
    var cwnd := Min(w.sndWnd, w.rmtWnd);
    if w.enabled then Min(w.cwnd, cwnd) else cwnd
  }

  // ---------------------------------------------------------------- the balance of cwnd and incr

  /** incr counts bytes: it stays within one segment of cwnd segments. */
  predicate Balanced(w: Windows, mss: Mss) {
    && w.ssthresh >= THRESH_MIN
    && (w.cwnd == 0 ==> w.incr == 0)
    && (w.cwnd > 0 ==> Bytes(w.cwnd - 1, mss) < w.incr < Bytes(w.cwnd + 1, mss))
  }

  lemma ProductOrder(a: int, b: int, m: nat)
    ensures a <= b ==> a * m <= b * m
    ensures a < b ==> a * m + m <= b * m
  {
    if a < b {
      ProductNonNegative(b - a - 1, m);
      assert (b - a - 1) * m == b * m - a * m - m;
    }
  }

  lemma ProductNonNegative(a: nat, m: nat)
    ensures a * m >= 0
  {
  }

  lemma BytesMonotone(a: int, b: int, mss: Mss)
    requires a <= b
    ensures Bytes(a, mss) <= Bytes(b, mss)
    ensures a < b ==> Bytes(a, mss) + mss <= Bytes(b, mss)
  {
    ProductOrder(a, b, mss);
  }

  lemma BytesSteps(n: int, mss: Mss)
    ensures Bytes(n + 1, mss) == Bytes(n, mss) + mss
    ensures Bytes(n - 1, mss) == Bytes(n, mss) - mss
    ensures Bytes(n + 2, mss) == Bytes(n, mss) + 2 * mss
    ensures Bytes(0, mss) == 0 && Bytes(1, mss) == mss
  {
  }

  lemma QuotientAtLeast(x: nat, d: nat, q: nat)
    requires d > 0 && q * d <= x
    ensures x / d >= q
  {
    ProductOrder(x / d, q, d);
  }

  lemma QuotientBelow(x: nat, d: nat, q: nat)
    requires d > 0 && x < q * d
    ensures x / d < q
  {
    ProductOrder(q, x / d, d);
  }

  lemma HalfSquare(mss: Mss, incr: int)
    requires incr >= 2 * mss
    ensures mss * mss < (mss / 2 + 1) * incr
  {
    var half := mss / 2 + 1;
    ProductOrder(2 * mss, incr, half);
    ProductOrder(mss, 2 * half, mss);
    assert 2 * half * mss == half * (2 * mss);
  }

  lemma ShareBounds(mss: Mss, incr: int)
    requires incr > mss
    ensures Share(mss, incr) < mss
    ensures incr >= 2 * mss ==> Share(mss, incr) <= mss / 2
    ensures Share(mss, incr) == 0 <==> mss * mss < incr
  {
    ProductOrder(mss, incr, mss);
    QuotientBelow(mss * mss, incr, mss);
    if incr >= 2 * mss {
      HalfSquare(mss, incr);
      QuotientBelow(mss * mss, incr, mss / 2 + 1);
    }
    if mss * mss < incr {
      QuotientBelow(mss * mss, incr, 1);
    } else {
      QuotientAtLeast(mss * mss, incr, 1);
    }
  }

  lemma WrapLess(x: nat)
    ensures if x < 0x1_0000_0000 then Wrap32(x) == x else Wrap32(x) <= x - 0x1_0000_0000
  {
  }

  /** incr after one raise, before it is stored in a u32. */
  function NextIncr(w: Windows, mss: Mss): nat {
    if w.cwnd < w.ssthresh then w.incr + mss
    else
      var base := Max(w.incr, mss);
      base + Share(mss, base) + mss / 16
  }

  /** In congestion avoidance incr grows by less than the distance to two more segments. */
  lemma GrownBounds(w: Windows, mss: Mss)
    requires Balanced(w, mss) && THRESH_MIN <= w.ssthresh <= w.cwnd
    ensures mss < w.incr
    ensures w.incr <= NextIncr(w, mss) == w.incr + Share(mss, w.incr) + mss / 16 <= Bytes(w.cwnd + 2, mss)
    ensures NextIncr(w, mss) < w.incr + 2 * mss
    ensures Grown(w.incr, mss) == Wrap32(NextIncr(w, mss))
  {
    assert Bytes(4, mss) == 4 * mss && Bytes(1, mss) == mss;
    hide Bytes, Share, Wrap32;
    BytesMonotone(1, w.cwnd - 1, mss);
    BytesMonotone(4, w.cwnd + 2, mss);
    BytesSteps(w.cwnd, mss);
    ShareBounds(mss, w.incr);
  }

  lemma CeilingBounds(x: nat, mss: Mss, c: nat)
    requires Bytes(c, mss) <= x <= Bytes(c + 1, mss)
    ensures var q := Ceiling(x, mss);
      c <= q <= c + 1 && Bytes(q - 1, mss) < x <= Bytes(q, mss)
  {
    QuotientAtLeast(x + mss - 1, mss, c);
    BytesSteps(c + 1, mss);
    QuotientBelow(x + mss - 1, mss, c + 2);
    if x <= Bytes(c, mss) {
      BytesSteps(c, mss);
      QuotientBelow(x + mss - 1, mss, c + 1);
    } else {
      BytesSteps(c, mss);
      QuotientAtLeast(x + mss - 1, mss, c + 1);
    }
  }

  lemma CeilingOfPositive(x: nat, mss: Mss)
    requires x >= mss
    ensures 1 <= Ceiling(x, mss) <= x
  {
    QuotientAtLeast(x + mss - 1, mss, 1);
    ProductOrder(1, mss, x + 1);
    assert mss * (x + 1) == mss * x + mss;
    QuotientBelow(x + mss - 1, mss, x + 1);
  }

  lemma CeilingAtMost(x: nat, mss: Mss)
    ensures 0 <= Ceiling(x, mss) <= x
  {
    if x >= mss {
      CeilingOfPositive(x, mss);
    } else if x > 0 {
      QuotientBelow(x + mss - 1, mss, 2);
    } else {
      QuotientBelow(mss - 1, mss, 1);
    }
  }

  /** One raise in congestion avoidance: incr grows, and cwnd covers it once it covers one more segment. */
  lemma AvoidanceGrows(w: Windows, mss: Mss)
    requires Balanced(w, mss) && THRESH_MIN <= w.ssthresh <= w.cwnd < w.rmtWnd
    requires NextIncr(w, mss) < 0x1_0000_0000
    ensures var r, incr := Raised(w, mss), NextIncr(w, mss);
      && r == w.(cwnd := r.cwnd, incr := incr) && w.cwnd <= r.cwnd <= w.cwnd + 2
      && (if incr < Bytes(w.cwnd + 1, mss) then r.cwnd == w.cwnd
          else r.cwnd > w.cwnd && Bytes(r.cwnd - 1, mss) < incr <= Bytes(r.cwnd, mss))
  {
    hide Bytes, NextIncr, Wrap32, Grown, Ceiling;
    GrownBounds(w, mss);
    WrapSmall(NextIncr(w, mss));
    WrapSmall(w.cwnd + 1);
    if Bytes(w.cwnd + 1, mss) <= NextIncr(w, mss) {
      CeilingBounds(NextIncr(w, mss), mss, w.cwnd + 1);
      CeilingAtMost(NextIncr(w, mss), mss);
      WrapSmall(Ceiling(NextIncr(w, mss), mss));
    }
  }

  /** It leaves the window balanced. */
  lemma AvoidanceRaise(w: Windows, mss: Mss)
    requires Balanced(w, mss) && THRESH_MIN <= w.ssthresh <= w.cwnd < w.rmtWnd
    requires NextIncr(w, mss) < 0x1_0000_0000
    ensures var r := Raised(w, mss);
      && Balanced(r, mss) && w.cwnd <= r.cwnd <= w.cwnd + 2 && r == w.(cwnd := r.cwnd, incr := r.incr)
      && Bytes(r.cwnd - 1, mss) < NextIncr(w, mss)
  {
    hide Bytes, Raised, NextIncr;
    AvoidanceGrows(w, mss);
    GrownBounds(w, mss);
    BytesSteps(Raised(w, mss).cwnd, mss);
  }

  lemma SlowStartRaise(w: Windows, mss: Mss)
    requires Balanced(w, mss) && w.cwnd < w.ssthresh && w.cwnd < w.rmtWnd
    ensures var r := Raised(w, mss);
      && r == w.(cwnd := w.cwnd + 1, incr := Wrap32(NextIncr(w, mss)))
      && (Balanced(r, mss) <==> NextIncr(w, mss) < 0x1_0000_0000)
  {
    WrapSmall(w.cwnd + 1);
    WrapLess(w.incr + mss);
    hide Bytes, Wrap32;
    BytesSteps(w.cwnd, mss);
    BytesSteps(w.cwnd + 1, mss);
    if w.cwnd > 0 {
      BytesMonotone(1, w.cwnd, mss);
    }
    BytesSteps(0, mss);
  }

  /** A raise in congestion avoidance whose incr wraps: cwnd stays. */
  lemma WrappedRaise(w: Windows, mss: Mss)
    requires Balanced(w, mss) && THRESH_MIN <= w.ssthresh <= w.cwnd < w.rmtWnd
    requires NextIncr(w, mss) >= 0x1_0000_0000
    ensures var r := Raised(w, mss);
      && r == w.(incr := Wrap32(NextIncr(w, mss)))
      && (Balanced(r, mss) <==> Bytes(w.cwnd - 1, mss) < Wrap32(NextIncr(w, mss)))
  {
    hide Bytes, Ceiling, Grown, NextIncr;
    GrownBounds(w, mss);
    WrapLess(NextIncr(w, mss));
    WrapSmall(w.cwnd + 1);
    hide Wrap32;
    BytesMonotone(3, w.cwnd + 1, mss);
    BytesSteps(1, mss);
  }

  /**
   Room to raise the window: none is to be raised, or the new incr fits a u32. The last case, in
   which incr wraps and is still large enough, needs segments of more than 2^30 bytes.
   */
  predicate AdjustFits(w: Windows, mss: Mss) {
    || w.cwnd >= w.rmtWnd
    || NextIncr(w, mss) < 0x1_0000_0000
    || (w.ssthresh <= w.cwnd && Bytes(w.cwnd - 1, mss) < Wrap32(NextIncr(w, mss)))
  }

  lemma OrdinarySegments(w: Windows, mss: Mss)
    requires Balanced(w, mss) && mss <= 0x4000_0000
    ensures AdjustFits(w, mss) <==> w.cwnd >= w.rmtWnd || NextIncr(w, mss) < 0x1_0000_0000
  {
    if w.ssthresh <= w.cwnd && NextIncr(w, mss) >= 0x1_0000_0000 {
      GrownBounds(w, mss);
      ShareBounds(mss, w.incr);
      WrapLess(NextIncr(w, mss));
      BytesSteps(0, mss);
      BytesMonotone(1, w.cwnd - 1, mss);
      hide Bytes, Share, Wrap32, NextIncr;
    }
  }

  /**
   adjust_parameters keeps a balanced window balanced exactly when its raise fits; it then never
   shrinks cwnd, raises it by at most 2, and never past rmt_wnd.
   */
  lemma AdjustBalancedExactly(w: Windows, mss: Mss)
    requires Balanced(w, mss)
    ensures Balanced(AdjustParameters(w, mss), mss) <==> AdjustFits(w, mss)
    ensures AdjustFits(w, mss) ==>
              var w' := AdjustParameters(w, mss);
              && w.cwnd <= w'.cwnd <= w.cwnd + 2
              && (w'.cwnd > w.cwnd ==> w'.cwnd <= w.rmtWnd)
              && w' == w.(cwnd := w'.cwnd, incr := w'.incr)
  {
    hide Bytes, Raised, NextIncr, Wrap32;
    if w.cwnd < w.rmtWnd {
      if w.cwnd < w.ssthresh {
        SlowStartRaise(w, mss);
      } else if NextIncr(w, mss) < 0x1_0000_0000 {
        AvoidanceRaise(w, mss);
        if Raised(w, mss).cwnd > w.rmtWnd {
          CappedRaise(w.rmtWnd, Raised(w, mss).cwnd - 1, mss, NextIncr(w, mss));
        }
      } else {
        WrappedRaise(w, mss);
      }
    }
  }

  /**
   How adjust_parameters grows a window that fits: by one segment below the threshold, and from the
   threshold on by a segment once incr, which gains MSS^2/incr + MSS/16 each time, covers one more;
   but never past the remote window.
   */
  lemma AdjustGrowsExactly(w: Windows, mss: Mss)
    requires Balanced(w, mss) && w.cwnd < w.rmtWnd && NextIncr(w, mss) < 0x1_0000_0000
    ensures var w' := AdjustParameters(w, mss);
      if w.cwnd < w.ssthresh then w' == w.(cwnd := w.cwnd + 1, incr := w.incr + mss)
      else
        && mss < w.incr
        && var incr := w.incr + mss * mss / w.incr + mss / 16;
           && (w'.cwnd == w.cwnd <==> incr < Bytes(w.cwnd + 1, mss))
           && (w'.cwnd == w.cwnd ==> w'.incr == incr)
           && (w'.cwnd > w.cwnd && w'.incr != incr ==> w'.cwnd == w.rmtWnd)
  {
    hide Bytes, NextIncr, Wrap32, Raised;
    if w.cwnd < w.ssthresh {
      SlowStartRaise(w, mss);
      NextInSlowStart(w, mss);
      WrapSmall(NextIncr(w, mss));
    } else {
      GrownBounds(w, mss);
      AvoidanceGrows(w, mss);
    }
  }

  lemma NextInSlowStart(w: Windows, mss: Mss)
    requires w.cwnd < w.ssthresh
    ensures NextIncr(w, mss) == w.incr + mss
  {
  }

  /** A window capped below a raise that fits is balanced. */
  lemma CappedRaise(cap: u32, c: nat, mss: Mss, incr: nat)
    requires 0 < cap <= c && Bytes(c, mss) < incr < 0x1_0000_0000
    ensures var bytes := Wrap32(Bytes(cap, mss)); Bytes(cap - 1, mss) < bytes < Bytes(cap + 1, mss)
  {
    hide Bytes;
    BytesMonotone(cap, c, mss);
    BytesMonotone(0, cap, mss);
    BytesSteps(cap, mss);
    BytesSteps(0, mss);
    WrapSmall(Bytes(cap, mss));
    hide Wrap32;
  }

  /** With room for two more segments the raise fits. */
  lemma RoomFits(w: Windows, mss: Mss)
    requires Balanced(w, mss) && Bytes(w.cwnd + 2, mss) < 0x1_0000_0000
    ensures NextIncr(w, mss) < 0x1_0000_0000 && AdjustFits(w, mss)
  {
    BytesSteps(w.cwnd, mss);
    BytesSteps(w.cwnd + 1, mss);
    if w.cwnd >= w.ssthresh {
      GrownBounds(w, mss);
    }
    hide Bytes, Share, Wrap32;
  }

  /** The window a fast resend restarts at. */
  function RestartWindow(inFlight: u32, resent: u32): u32 {
    Wrap32(Max(inFlight / 2, THRESH_MIN) + resent)
  }

  /**
   A fast resend leaves the window balanced exactly when half the flight, at least 2, plus the
   threshold, as a u32, makes a window whose bytes fit a u32.
   */
  lemma RestartBalancedExactly(w: Windows, mss: Mss, inFlight: u32, resent: u32)
    ensures Balanced(PacketsResent(w, mss, inFlight, resent), mss)
       <==> Bytes(RestartWindow(inFlight, resent), mss) < 0x1_0000_0000
  {
    var c := RestartWindow(inFlight, resent);
    ProductNonNegative(c, mss);
    BytesSteps(c, mss);
    WrapLess(Bytes(c, mss));
    hide Bytes, Wrap32;
  }

  /** What can happen to the controller. */
  datatype Event =
    | Adjust
    | Resent(inFlight: u32, resent: u32)
    | Lost
    | Flushed
    | RemoteWindow(wnd: u32)

  function Apply(w: Windows, mss: Mss, e: Event): Windows {
    match e
    case Adjust => AdjustParameters(w, mss)
    case Resent(inFlight, resent) => PacketsResent(w, mss, inFlight, resent)
    case Lost => PacketLost(w, mss)
    case Flushed => EnsureOnePacket(w, mss)
    case RemoteWindow(wnd) => w.(rmtWnd := wnd)
  }

  function ApplyAll(w: Windows, mss: Mss, events: seq<Event>): Windows {
    if events == [] then w
    else Apply(ApplyAll(w, mss, events[..|events| - 1]), mss, events[|events| - 1])
  }

  /** An event that leaves a balanced window balanced. */
  predicate EventFits(w: Windows, mss: Mss, e: Event) {
    match e
    case Adjust => AdjustFits(w, mss)
    case Resent(inFlight, resent) => Bytes(RestartWindow(inFlight, resent), mss) < 0x1_0000_0000
    case _ => true
  }

  lemma ApplyBalancedExactly(w: Windows, mss: Mss, e: Event)
    requires Balanced(w, mss)
    ensures Balanced(Apply(w, mss, e), mss) <==> EventFits(w, mss, e)
  {
    hide Bytes, AdjustParameters, PacketsResent, AdjustFits, RestartWindow;
    match e
    case Adjust => AdjustBalancedExactly(w, mss);
    case Resent(inFlight, resent) => RestartBalancedExactly(w, mss, inFlight, resent);
    case Lost => BytesSteps(1, mss);
    case Flushed => BytesSteps(1, mss);
    case RemoteWindow(_) =>
  }

  /** The windows before and after each event are balanced. */
  predicate BalancedThroughout(mss: Mss, events: seq<Event>)
    decreases |events|
  {
    Balanced(ApplyAll(INITIAL_WINDOWS, mss, events), mss)
    && (events != [] ==> BalancedThroughout(mss, events[..|events| - 1]))
  }

  /** Each event fits the window it finds. */
  predicate EventsFit(mss: Mss, events: seq<Event>)
    decreases |events|
  {
    events == []
    || (var before := events[..|events| - 1];
        EventFits(ApplyAll(INITIAL_WINDOWS, mss, before), mss, events[|events| - 1]) && EventsFit(mss, before))
  }

  /**
   Over every run of events, from the initial windows on and for every segment size, cwnd and incr
   stay balanced exactly when each event fits: no growth and no restart whose bytes overflow.
   */
  lemma {:induction false} WindowsBalancedExactly(mss: Mss, events: seq<Event>)
    ensures BalancedThroughout(mss, events) <==> EventsFit(mss, events)
  {
    hide Apply, EventFits;
    if events == [] {
      assert Balanced(INITIAL_WINDOWS, mss);
    } else {
      hide Balanced;
      var before := events[..|events| - 1];
      WindowsBalancedExactly(mss, before);
      if BalancedThroughout(mss, before) {
        assert Balanced(ApplyAll(INITIAL_WINDOWS, mss, before), mss);
        ApplyBalancedExactly(ApplyAll(INITIAL_WINDOWS, mss, before), mss, events[|events| - 1]);
      }
    }
  }

  /**
   `cap` bounds the remote window, heard or set, and the window a fast resend restarts at: half
   the flight plus the resend threshold.
   */
  predicate CappedBy(e: Event, cap: nat) {
    && (e.Resent? ==> Max(e.inFlight / 2, THRESH_MIN) + e.resent <= cap)
    && (e.RemoteWindow? ==> e.wnd <= cap)
  }

  /** While cap + 2 segments fit a u32, no run of capped events takes cwnd past the cap. */
  lemma {:induction false} WindowsStayCapped(mss: Mss, events: seq<Event>, cap: nat)
    requires cap >= WND_SND && Bytes(cap + 2, mss) < 0x1_0000_0000
    requires forall i :: 0 <= i < |events| ==> CappedBy(events[i], cap)
    ensures var w := ApplyAll(INITIAL_WINDOWS, mss, events);
      Balanced(w, mss) && w.cwnd <= cap && w.rmtWnd <= cap
  {
    hide Bytes;
    if events != [] {
      var last := |events| - 1;
      WindowsStayCapped(mss, events[..last], cap);
      ApplyKeepsBalance(ApplyAll(INITIAL_WINDOWS, mss, events[..last]), mss, events[last], cap);
      hide Apply;
    }
  }

  lemma ApplyKeepsBalance(w: Windows, mss: Mss, e: Event, cap: nat)
    requires Balanced(w, mss) && w.cwnd <= cap && w.rmtWnd <= cap && 1 <= cap
    requires Bytes(cap + 2, mss) < 0x1_0000_0000 && CappedBy(e, cap)
    ensures var w' := Apply(w, mss, e); Balanced(w', mss) && w'.cwnd <= cap && w'.rmtWnd <= cap
  {
    hide Bytes, AdjustParameters, PacketsResent;
    BytesMonotone(w.cwnd + 2, cap + 2, mss);
    CapFits(cap, mss);
    BytesSteps(1, mss);
    match e
    case Adjust =>
      RoomFits(w, mss);
      AdjustBalancedExactly(w, mss);
    case Resent(inFlight, resent) =>
      BytesMonotone(Max(inFlight / 2, THRESH_MIN) + resent + 1, cap + 2, mss);
      RestartBalanced(w, mss, inFlight, resent);
    case Lost =>
    case Flushed =>
    case RemoteWindow(_) =>
  }

  lemma CapFits(cap: nat, mss: Mss)
    requires Bytes(cap + 2, mss) < 0x1_0000_0000
    ensures cap + 2 < 0x1_0000_0000
  {
    ProductOrder(1, mss, cap + 2);
    assert mss * (cap + 2) == Bytes(cap + 2, mss);
  }

  /** A restart is balanced while the restarted window fits a u32. */
  lemma RestartBalanced(w: Windows, mss: Mss, inFlight: u32, resent: u32)
    requires Bytes(Max(inFlight / 2, THRESH_MIN) + resent + 1, mss) < 0x1_0000_0000
    ensures Balanced(PacketsResent(w, mss, inFlight, resent), mss)
    ensures PacketsResent(w, mss, inFlight, resent).cwnd == Max(inFlight / 2, THRESH_MIN) + resent
    ensures PacketsResent(w, mss, inFlight, resent).rmtWnd == w.rmtWnd
  {
    hide Bytes;
    var c := Max(inFlight / 2, THRESH_MIN) + resent;
    CapFits(c - 1, mss);
    BytesSteps(c, mss);
    BytesMonotone(0, c, mss);
  }

  /** Growing never closes an open window, and touches no other. */
  lemma AdjustKeepsOpen(w: Windows, mss: Mss)
    ensures var w' := AdjustParameters(w, mss);
      && (w.cwnd >= 1 ==> w'.cwnd >= 1)
      && w' == w.(cwnd := w'.cwnd, incr := w'.incr)
  {
    if 1 <= w.cwnd < w.rmtWnd {
      WrapSmall(w.cwnd + 1);
      var incr := Grown(w.incr, mss);
      BytesMonotone(1, w.cwnd + 1, mss);
      BytesSteps(0, mss);
      hide Grown, Bytes, Wrap32;
      if incr >= mss {
        CeilingOfPositive(incr, mss);
        WrapSmall(Ceiling(incr, mss));
      }
      hide Ceiling;
    }
    hide Grown, Bytes, Wrap32, Ceiling;
  }

  // ---------------------------------------------------------------- growth in congestion avoidance

  predicate Avoiding(w: Windows, mss: Mss) {
    Balanced(w, mss) && w.ssthresh <= w.cwnd < w.rmtWnd && Bytes(w.cwnd + 2, mss) < 0x1_0000_0000
  }

  function Adjusted(w: Windows, mss: Mss, n: nat): Windows
    decreases n
  {
    if n == 0 then w else Adjusted(AdjustParameters(w, mss), mss, n - 1)
  }

  lemma AvoidingGrowth(w: Windows, mss: Mss)
    requires Avoiding(w, mss)
    ensures mss < w.incr && AdjustFits(w, mss)
    ensures Grown(w.incr, mss) == w.incr + Share(mss, w.incr) + mss / 16
  {
    hide Bytes, Share, Grown;
    RoomFits(w, mss);
    GrownBounds(w, mss);
    WrapSmall(NextIncr(w, mss));
    hide NextIncr, Wrap32;
  }

  lemma AvoidingStep(w: Windows, mss: Mss)
    requires Avoiding(w, mss)
    ensures var w' := AdjustParameters(w, mss);
      w'.cwnd > w.cwnd || (Avoiding(w', mss) && w'.incr >= w.incr + mss / 16 && w'.cwnd == w.cwnd)
  {
    hide Bytes, Share, Grown, AdjustFits;
    AvoidingGrowth(w, mss);
    AdjustBalancedExactly(w, mss);
  }

  lemma {:induction false} GrowthWithin(w: Windows, mss: Mss, n: nat)
    requires Avoiding(w, mss) && Bytes(w.cwnd + 1, mss) <= w.incr + n * (mss / 16)
    ensures exists k :: 0 <= k <= n && Adjusted(w, mss, k).cwnd > w.cwnd
    decreases n
  {
    assert n > 0;
    assert n * (mss / 16) == (n - 1) * (mss / 16) + mss / 16;
    hide Bytes, Balanced;
    var w' := AdjustParameters(w, mss);
    AvoidingStep(w, mss);
    hide AdjustParameters;
    assert Adjusted(w, mss, 1) == Adjusted(w', mss, 0) == w';
    if w'.cwnd == w.cwnd {
      GrowthWithin(w', mss, n - 1);
      var k :| 0 <= k <= n - 1 && Adjusted(w', mss, k).cwnd > w'.cwnd;
      assert Adjusted(w, mss, k + 1) == Adjusted(w', mss, k);
    }
  }

  /** With segments of at least 16 bytes, 62 acknowledged datagrams are enough to raise cwnd. */
  lemma GrowthIsLive(w: Windows, mss: Mss)
    requires Avoiding(w, mss) && mss >= 16
    ensures exists k :: 0 <= k <= 62 && Adjusted(w, mss, k).cwnd > w.cwnd
  {
    hide Bytes;
    BytesSteps(w.cwnd, mss);
    assert mss <= 31 * (mss / 16);
    GrowthWithin(w, mss, 62);
  }

  /** Smaller segments: growth stops for good exactly once incr exceeds the squared segment size. */
  lemma GrowthStalls(w: Windows, mss: Mss)
    requires Avoiding(w, mss)
    ensures AdjustParameters(w, mss) == w <==> mss < 16 && mss * mss < w.incr
  {
    hide Bytes, Share, Grown, AdjustFits;
    AvoidingGrowth(w, mss);
    AdjustBalancedExactly(w, mss);
    ShareBounds(mss, w.incr);
  }

  lemma {:induction false} StalledForever(w: Windows, mss: Mss, n: nat)
    requires Avoiding(w, mss) && mss < 16 && mss * mss < w.incr
    ensures Adjusted(w, mss, n) == w
  {
    hide Avoiding;
    if n > 0 {
      GrowthStalls(w, mss);
      hide AdjustParameters;
      StalledForever(w, mss, n - 1);
    }
  }
}
