/**
 What the retransmission timeout calculator computes: smoothed round-trip time, its variation,
 and the clamped timeout (section 2 of RFC 2988 in 32-bit integer arithmetic).
 */
module Timeouts {
  import opened Words

  const RTO_NDL: u32 := 30
  const RTO_MIN: u32 := 100
  const RTO_DEF: u32 := 200
  const RTO_MAX: u32 := 60000

  /** The largest sample for which no intermediate value of any run leaves a u32. */
  const SAFE_RTT: u32 := 0x1FFF_FFFF

  type Rtt = x: int | 0 <= x < 0x8000_0000

  datatype Estimate = Estimate(
    interval: u32, srtt: u32, rttvar: u32, rto: u32, lastRtt: u32, minrto: u32)

  const INITIAL_ESTIMATE := Estimate(0, 0, 0, RTO_DEF, 0, RTO_MIN)

  function Abs(x: int): nat {
    if x < 0 then -x else x
  }

  /** update_rto: a clock reading before the echoed timestamp is ignored. */
  function Update(e: Estimate, current: u32, ts: u32): Estimate {
    var rtt := TimeDelta(current, ts);
    if rtt < 0 then e else Sample(e, rtt)
  }

  /** The first measurement, or a quarter of the new deviation into the old variation. */
  function NextVariation(srtt: u32, rttvar: u32, rtt: Rtt): u32 {
    if srtt == 0 then rtt / 2 else Wrap32(3 * rttvar + Abs(rtt - AsI32(srtt))) / 4
  }

  /** The first measurement, or an eighth of the new sample into the old mean. */
  function NextSmoothed(srtt: u32, rtt: Rtt): u32 {
    if srtt == 0 then rtt else Wrap32(7 * srtt + rtt) / 8
  }

  function TimeoutFor(srtt: u32, rttvar: u32, interval: u32, minrto: u32): u32 {
    Clamp(Wrap32(srtt + Max(interval, Wrap32(4 * rttvar))), minrto, RTO_MAX)
  }

  function Sample(e: Estimate, rtt: Rtt): Estimate {
    var rttvar := NextVariation(e.srtt, e.rttvar, rtt);
    var srtt := NextSmoothed(e.srtt, rtt);
    e.(srtt := srtt, rttvar := rttvar, lastRtt := rtt,
       rto := TimeoutFor(srtt, rttvar, e.interval, e.minrto))
  }

  function SampleAll(e: Estimate, rtts: seq<Rtt>): Estimate {
    if rtts == [] then e else Sample(SampleAll(e, rtts[..|rtts| - 1]), rtts[|rtts| - 1])
  }

  // ---------------------------------------------------------------- the unbounded reference

  /** The same recurrence over unbounded integers. */
  datatype Exact = Exact(srtt: nat, rttvar: nat)

  function ExactSample(x: Exact, rtt: Rtt): Exact {
    if x.srtt == 0 then Exact(rtt, rtt / 2)
    else Exact((7 * x.srtt + rtt) / 8, (3 * x.rttvar + Abs(rtt - x.srtt)) / 4)
  }

  function ExactAll(x: Exact, rtts: seq<Rtt>): Exact {
    if rtts == [] then x else ExactSample(ExactAll(x, rtts[..|rtts| - 1]), rtts[|rtts| - 1])
  }

  predicate AllWithin(rtts: seq<Rtt>, lo: nat, hi: nat) {
    forall i :: 0 <= i < |rtts| ==> lo <= rtts[i] <= hi
  }

  /** The reference srtt is a mean: it stays between the least and the greatest sample. */
  lemma {:induction false} ExactIsMean(rtts: seq<Rtt>, lo: nat, hi: nat)
    requires rtts != [] && AllWithin(rtts, lo, hi)
    ensures var x := ExactAll(Exact(0, 0), rtts); lo <= x.srtt <= hi && x.rttvar <= hi
  {
    var last := |rtts| - 1;
    if last > 0 {
      ExactIsMean(rtts[..last], lo, hi);
    } else {
      assert rtts[..0] == [];
    }
  }

  lemma SampleIsExact(e: Estimate, rtt: Rtt)
    requires e.srtt <= SAFE_RTT && e.rttvar <= SAFE_RTT && rtt <= SAFE_RTT
    ensures Exact(Sample(e, rtt).srtt, Sample(e, rtt).rttvar)
         == ExactSample(Exact(e.srtt, e.rttvar), rtt)
  {
    hide Wrap32;
    WrapSmall(7 * e.srtt + rtt);
    WrapSmall(3 * e.rttvar + Abs(rtt - e.srtt));
  }

  lemma {:induction false} SafeSamplesExact(e: Estimate, rtts: seq<Rtt>)
    requires e.srtt == 0 && e.rttvar == 0 && AllWithin(rtts, 0, SAFE_RTT)
    ensures Exact(SampleAll(e, rtts).srtt, SampleAll(e, rtts).rttvar) == ExactAll(Exact(0, 0), rtts)
  {
    if rtts != [] {
      var last := |rtts| - 1;
      SafeSamplesExact(e, rtts[..last]);
      if last > 0 {
        ExactIsMean(rtts[..last], 0, SAFE_RTT);
      }
      hide Sample, ExactSample;
      SampleIsExact(SampleAll(e, rtts[..last]), rtts[last]);
    }
  }

  /** Two samples of 2^29 overflow the smoothed time to zero. */
  lemma TwoLargeSamplesOverflow(e: Estimate)
    requires e.srtt == 0
    ensures SampleAll(e, [0x2000_0000, 0x2000_0000]).srtt == 0
    ensures ExactAll(Exact(0, 0), [0x2000_0000, 0x2000_0000]).srtt == 0x2000_0000
  {
    var rtts: seq<Rtt> := [0x2000_0000, 0x2000_0000];
    assert rtts[..1] == [0x2000_0000];
    assert rtts[..1][..0] == [];
    assert SampleAll(e, rtts[..1]) == Sample(e, 0x2000_0000);
    assert Wrap32(7 * 0x2000_0000 + 0x2000_0000) == 0;
    hide TimeoutFor, NextVariation;
  }

  /**
   The 32-bit recurrences compute the exact ones for every run of samples up to `bound` exactly
   when the bound is below 2^29.
   */
  lemma ExactIffSafe(e: Estimate, bound: Rtt)
    requires e.srtt == 0 && e.rttvar == 0
    ensures (forall rtts: seq<Rtt> :: AllWithin(rtts, 0, bound) ==>
               Exact(SampleAll(e, rtts).srtt, SampleAll(e, rtts).rttvar) == ExactAll(Exact(0, 0), rtts))
       <==> bound <= SAFE_RTT
  {
    if bound <= SAFE_RTT {
      forall rtts: seq<Rtt> | AllWithin(rtts, 0, bound)
        ensures Exact(SampleAll(e, rtts).srtt, SampleAll(e, rtts).rttvar) == ExactAll(Exact(0, 0), rtts)
      {
        SafeSamplesExact(e, rtts);
      }
    } else {
      TwoLargeSamplesOverflow(e);
      assert AllWithin([0x2000_0000, 0x2000_0000], 0, bound);
    }
  }

  /** Whatever is sampled, the timeout stays between its configured minimum and a minute. */
  lemma {:induction false} RtoWithin(e: Estimate, rtts: seq<Rtt>)
    requires e.minrto <= e.rto <= RTO_MAX
    ensures e.minrto <= SampleAll(e, rtts).rto <= RTO_MAX
    ensures SampleAll(e, rtts).minrto == e.minrto && SampleAll(e, rtts).interval == e.interval
  {
    hide Wrap32, NextVariation, NextSmoothed;
    if rtts != [] {
      RtoWithin(e, rtts[..|rtts| - 1]);
    }
  }

  /** srtt is the mean and the timeout follows the formula of RFC 2988, for any safe run. */
  lemma TimeoutBounds(e: Estimate, rtts: seq<Rtt>, lo: nat, hi: nat)
    requires e.srtt == 0 && e.rttvar == 0 && e.minrto <= e.rto <= RTO_MAX
    requires e.interval < 0x8000_0000
    requires rtts != [] && AllWithin(rtts, lo, hi) && hi <= SAFE_RTT
    ensures var r := SampleAll(e, rtts);
      && lo <= r.srtt <= hi && r.rttvar <= hi && r.lastRtt == rtts[|rtts| - 1]
      && r.rto == Clamp(r.srtt + Max(e.interval, 4 * r.rttvar), e.minrto, RTO_MAX)
  {
    SafeSamplesExact(e, rtts);
    ExactIsMean(rtts, lo, hi);
    RtoWithin(e, rtts[..|rtts| - 1]);
    hide Sample, ExactAll;
    LastTimeout(SampleAll(e, rtts[..|rtts| - 1]), rtts[|rtts| - 1]);
  }

  lemma LastTimeout(e: Estimate, rtt: Rtt)
    requires Sample(e, rtt).srtt <= SAFE_RTT && Sample(e, rtt).rttvar <= SAFE_RTT
    requires e.interval < 0x8000_0000
    ensures var r := Sample(e, rtt);
      r.rto == Clamp(r.srtt + Max(e.interval, 4 * r.rttvar), e.minrto, RTO_MAX)
  {
    hide Wrap32, NextVariation, NextSmoothed;
    var r := Sample(e, rtt);
    WrapSmall(4 * r.rttvar);
    WrapSmall(r.srtt + Max(e.interval, 4 * r.rttvar));
  }

  // ---------------------------------------------------------------- convergence

  function Repeated(e: Estimate, rtt: Rtt, n: nat): Estimate {
    if n == 0 then e else Sample(Repeated(e, rtt, n - 1), rtt)
  }

  predicate Converged(srtt: u32, rtt: Rtt) {
    rtt - 7 <= srtt <= rtt
  }

  predicate Safe(e: Estimate) {
    e.srtt <= SAFE_RTT && e.rttvar <= SAFE_RTT
  }

  lemma SmoothedStep(srtt: u32, rtt: Rtt)
    requires srtt <= SAFE_RTT && rtt <= SAFE_RTT
    ensures var next := NextSmoothed(srtt, rtt);
      && next <= SAFE_RTT
      && Abs(next - rtt) <= Abs(srtt - rtt) - Abs(srtt - rtt) / 8
      && (Converged(srtt, rtt) ==> Converged(next, rtt))
      && (!Converged(srtt, rtt) ==> Abs(next - rtt) < Abs(srtt - rtt))
  {
    hide Wrap32;
    WrapSmall(7 * srtt + rtt);
  }

  lemma VariationStep(srtt: u32, rttvar: u32, rtt: Rtt, bound: nat)
    requires srtt <= SAFE_RTT && rttvar <= SAFE_RTT && rtt <= SAFE_RTT
    requires Abs(srtt - rtt) <= bound
    ensures var next := NextVariation(srtt, rttvar, rtt);
      && next <= SAFE_RTT
      && (rttvar > bound ==> next <= bound + 3 * (rttvar - bound) / 4 < rttvar)
      && (rttvar <= bound ==> next <= bound)
  {
    hide Wrap32;
    WrapSmall(3 * rttvar + Abs(rtt - srtt));
  }

  lemma SafeStep(e: Estimate, rtt: Rtt, bound: nat)
    requires Safe(e) && rtt <= SAFE_RTT && Abs(e.srtt - rtt) <= bound
    ensures var r := Sample(e, rtt);
      && Safe(r)
      && Abs(r.srtt - rtt) <= Abs(e.srtt - rtt) - Abs(e.srtt - rtt) / 8
      && (Converged(e.srtt, rtt) ==> Converged(r.srtt, rtt))
      && (!Converged(e.srtt, rtt) ==> Abs(r.srtt - rtt) < Abs(e.srtt - rtt))
      && (e.rttvar > bound ==> r.rttvar <= bound + 3 * (e.rttvar - bound) / 4 < e.rttvar)
      && (e.rttvar <= bound ==> r.rttvar <= bound)
  {
    hide NextSmoothed, NextVariation, TimeoutFor;
    SmoothedStep(e.srtt, rtt);
    VariationStep(e.srtt, e.rttvar, rtt, bound);
  }

  /** Under a constant sample the smoothed time arrives within 7 of it, and stays. */
  lemma {:induction false} SmoothedTimeConverges(e: Estimate, rtt: Rtt, n: nat)
    requires Safe(e) && rtt <= SAFE_RTT
    ensures var r := Repeated(e, rtt, n);
      && Safe(r)
      && Abs(r.srtt - rtt) <= Abs(e.srtt - rtt)
      && r.rttvar <= Max(e.rttvar, Abs(e.srtt - rtt))
      && (Converged(r.srtt, rtt) || Abs(r.srtt - rtt) + n <= Abs(e.srtt - rtt))
  {
    if n > 0 {
      SmoothedTimeConverges(e, rtt, n - 1);
      hide Sample;
      SafeStep(Repeated(e, rtt, n - 1), rtt, Abs(e.srtt - rtt));
    }
  }

  lemma {:induction false} VariationConverges(e: Estimate, rtt: Rtt, n: nat)
    requires Safe(e) && rtt <= SAFE_RTT && Converged(e.srtt, rtt)
    ensures Safe(Repeated(e, rtt, n)) && Converged(Repeated(e, rtt, n).srtt, rtt)
    ensures Repeated(e, rtt, n).rttvar <= 7 || Repeated(e, rtt, n).rttvar + n <= e.rttvar
  {
    if n > 0 {
      VariationConverges(e, rtt, n - 1);
      hide Sample;
      SafeStep(Repeated(e, rtt, n - 1), rtt, 7);
    }
  }

  lemma {:induction false} RepeatedSplit(e: Estimate, rtt: Rtt, m: nat, n: nat)
    ensures Repeated(e, rtt, m + n) == Repeated(Repeated(e, rtt, m), rtt, n)
    decreases n
  {
    hide Sample;
    if n > 0 {
      RepeatedSplit(e, rtt, m, n - 1);
      assert Repeated(e, rtt, m + n) == Sample(Repeated(e, rtt, m + n - 1), rtt);
    }
  }

  /** A distance of at most `n` units, or of at most 8. */
  predicate Units(d: nat, unit: nat, n: nat) {
    d <= 8 * unit || d <= n * unit
  }

  /** Eight samples halve the distance of the smoothed time, down to 8 units. */
  lemma {:induction false} DistanceHalves(e: Estimate, rtt: Rtt, unit: nat, n: nat)
    requires Safe(e) && rtt <= SAFE_RTT && unit >= 1 && n <= 8
    requires Units(Abs(e.srtt - rtt), unit, 16)
    ensures Safe(Repeated(e, rtt, n)) && Units(Abs(Repeated(e, rtt, n).srtt - rtt), unit, 16 - n)
  {
    hide Units, Abs, Sample;
    if n > 0 {
      DistanceHalves(e, rtt, unit, n - 1);
      var before := Repeated(e, rtt, n - 1);
      assert Repeated(e, rtt, n) == Sample(before, rtt);
      hide Repeated;
      SafeStep(before, rtt, Abs(before.srtt - rtt));
      OneUnitLess(16 - n, unit, Abs(before.srtt - rtt), Abs(Sample(before, rtt).srtt - rtt));
    }
  }

  /** A distance that loses an eighth loses a unit, down to 8 units. */
  lemma OneUnitLess(n: nat, unit: nat, d: nat, d': nat)
    requires d' <= d - d / 8 && Units(d, unit, n + 1)
    ensures Units(d', unit, n)
  {
    assert (n + 1) * unit == n * unit + unit;
  }

  /** From a distance of 8 * 2^m, 8 * m + 1 samples bring the smoothed time within 7. */
  lemma {:induction false} DistanceShrinks(e: Estimate, rtt: Rtt, m: nat)
    requires Safe(e) && rtt <= SAFE_RTT && Abs(e.srtt - rtt) <= Doubled(8, m)
    ensures var r := Repeated(e, rtt, 8 * m + 1); Safe(r) && Abs(r.srtt - rtt) <= 7
    decreases m
  {
    hide Sample;
    if m == 0 {
      SafeStep(e, rtt, Abs(e.srtt - rtt));
      assert Repeated(e, rtt, 1) == Sample(Repeated(e, rtt, 0), rtt);
    } else {
      EightFold(m - 1);
      var unit := Doubled(1, m - 1);
      DoubledGrows(1, 0, m - 1);
      DistanceHalves(e, rtt, unit, 8);
      var r := Repeated(e, rtt, 8);
      RepeatedSplit(e, rtt, 8, 8 * (m - 1) + 1);
      hide Repeated;
      DistanceShrinks(r, rtt, m - 1);
    }
  }

  lemma {:induction false} EightFold(m: nat)
    ensures Doubled(8, m) == 8 * Doubled(1, m)
  {
    if m > 0 {
      EightFold(m - 1);
    }
  }

  /** Once the smoothed time has arrived, three samples halve what the variation has above 7. */
  lemma {:induction false} VariationShrinks(e: Estimate, rtt: Rtt, k: nat)
    requires Safe(e) && rtt <= SAFE_RTT && Converged(e.srtt, rtt) && e.rttvar <= 7 + Doubled(1, k)
    ensures var r := Repeated(e, rtt, 3 * k + 1);
      Safe(r) && Converged(r.srtt, rtt) && r.rttvar <= 7
    decreases k
  {
    hide Sample;
    if k == 0 {
      SafeStep(e, rtt, 7);
      assert Repeated(e, rtt, 1) == Sample(Repeated(e, rtt, 0), rtt);
    } else {
      VariationHalves(e, rtt, Doubled(1, k - 1));
      var r := Repeated(e, rtt, 3);
      RepeatedSplit(e, rtt, 3, 3 * (k - 1) + 1);
      hide Repeated;
      VariationShrinks(r, rtt, k - 1);
    }
  }

  lemma VariationHalves(e: Estimate, rtt: Rtt, half: nat)
    requires Safe(e) && rtt <= SAFE_RTT && Converged(e.srtt, rtt) && e.rttvar <= 7 + 2 * half
    ensures var r := Repeated(e, rtt, 3); Safe(r) && Converged(r.srtt, rtt) && r.rttvar <= 7 + half
  {
    hide Sample;
    var r1 := Sample(e, rtt);
    var r2 := Sample(r1, rtt);
    SafeStep(e, rtt, 7);
    SafeStep(r1, rtt, 7);
    SafeStep(r2, rtt, 7);
    assert Repeated(e, rtt, 1) == Sample(Repeated(e, rtt, 0), rtt) == r1;
    assert Repeated(e, rtt, 2) == Sample(Repeated(e, rtt, 1), rtt) == r2;
    assert Repeated(e, rtt, 3) == Sample(Repeated(e, rtt, 2), rtt);
  }

  /** Distances of 8 * 2^m and 7 + 2^k are covered in a number of samples linear in m and k. */
  lemma EstimateConverges(e: Estimate, rtt: Rtt, m: nat, k: nat, n: nat)
    requires Safe(e) && rtt <= SAFE_RTT
    requires Abs(e.srtt - rtt) <= Doubled(8, m)
    requires Max(e.rttvar, Abs(e.srtt - rtt)) <= 7 + Doubled(1, k)
    requires n >= 8 * m + 3 * k + 10
    ensures var r := Repeated(e, rtt, n); Converged(r.srtt, rtt) && r.rttvar <= 7
  {
    hide Repeated, Sample, Doubled;
    var near := 8 * m + 1;
    DistanceShrinks(e, rtt, m);
    SmoothedTimeConverges(Repeated(e, rtt, near), rtt, 8);
    RepeatedSplit(e, rtt, near, 8);
    SmoothedTimeConverges(e, rtt, near + 8);
    var arrived := Repeated(e, rtt, near + 8);
    VariationShrinks(arrived, rtt, k);
    RepeatedSplit(e, rtt, near + 8, 3 * k + 1);
    var settled := near + 8 + 3 * k + 1;
    VariationConverges(Repeated(e, rtt, settled), rtt, n - settled);
    RepeatedSplit(e, rtt, settled, n - settled);
  }

  /**
   From any safe state, a constant round trip R brings the estimate to srtt in [R-7, R] and
   rttvar <= 7, and so the timeout down to max(minrto, R + max(interval, 28)), for good. The
   number of samples it takes is logarithmic in the distance.
   */
  lemma TimeoutConverges(e: Estimate, rtt: Rtt, m: nat, k: nat, n: nat)
    requires Safe(e) && rtt <= SAFE_RTT && e.interval < 0x8000_0000 && e.minrto <= RTO_MAX
    requires Abs(e.srtt - rtt) <= Doubled(8, m)
    requires Max(e.rttvar, Abs(e.srtt - rtt)) <= 7 + Doubled(1, k)
    requires n > 8 * m + 3 * k + 10
    ensures var r := Repeated(e, rtt, n);
      && Converged(r.srtt, rtt) && r.rttvar <= 7
      && r.rto <= Max(e.minrto, rtt + Max(e.interval, 28))
  {
    hide Sample;
    EstimateConverges(e, rtt, m, k, n);
    RepeatedConfig(e, rtt, n - 1);
    LastTimeout(Repeated(e, rtt, n - 1), rtt);
  }

  lemma DoubledLarge()
    ensures Doubled(1, 26) == 0x400_0000 && Doubled(1, 29) == 0x2000_0000
  {
    assert Doubled(1, 10) == 0x400;
    assert Doubled(1, 20) == 0x10_0000;
  }

  /** Whatever the safe state, 306 samples suffice. */
  lemma ConvergesWithin306(e: Estimate, rtt: Rtt, n: nat)
    requires Safe(e) && rtt <= SAFE_RTT && e.interval < 0x8000_0000 && e.minrto <= RTO_MAX && n >= 306
    ensures var r := Repeated(e, rtt, n);
      && Converged(r.srtt, rtt) && r.rttvar <= 7
      && r.rto <= Max(e.minrto, rtt + Max(e.interval, 28))
  {
    EightFold(26);
    DoubledLarge();
    hide Repeated, Doubled;
    TimeoutConverges(e, rtt, 26, 29, n);
  }

  lemma {:induction false} RepeatedConfig(e: Estimate, rtt: Rtt, n: nat)
    ensures Repeated(e, rtt, n).minrto == e.minrto && Repeated(e, rtt, n).interval == e.interval
  {
    if n > 0 {
      RepeatedConfig(e, rtt, n - 1);
    }
  }
}
