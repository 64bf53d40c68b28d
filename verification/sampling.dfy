/** Which round-trip times reach the timeout estimate: in one datagram, and over every run. */
module Sampling {
  import opened Words
  import opened Segments
  import opened Codec
  import opened Receiving
  import opened Sending
  import opened Congestion
  import opened Timeouts
  import opened Endpoints
  import opened Packing
  import opened Matching
  import opened Links
  import opened Frames
  import opened Flushing
  import opened Safety
  import opened Laws

  // ---------------------------------------------------------------- one datagram

  /** The times since the echoed timestamps of the ACKs, in order, where they are not negative. */
  function ElapsedTimes(current: u32, ps: seq<Packet>): seq<Rtt> {
    if ps == [] then []
    else
      var last := ps[|ps| - 1];
      var rtt := TimeDelta(current, last.header.ts);
      ElapsedTimes(current, ps[..|ps| - 1]) + (if last.header.cmd == ACK && rtt >= 0 then [rtt] else [])
  }

  lemma {:induction false} ElapsedFront(current: u32, p: Packet, ps: seq<Packet>)
    ensures ElapsedTimes(current, [p] + ps) == ElapsedTimes(current, [p]) + ElapsedTimes(current, ps)
  {
    hide TimeDelta;
    if ps == [] {
      assert [p] + ps == [p];
    } else {
      var last := |ps| - 1;
      ElapsedFront(current, p, ps[..last]);
      assert ([p] + ps)[..|[p] + ps| - 1] == [p] + ps[..last];
    }
  }

  lemma ElapsedOne(current: u32, p: Packet)
    ensures var rtt := TimeDelta(current, p.header.ts);
      ElapsedTimes(current, [p]) == if p.header.cmd == ACK && rtt >= 0 then [rtt] else []
  {
    hide TimeDelta;
    assert [p][..0] == [];
  }

  lemma {:induction false} SampleAllConcat(e: Estimate, a: seq<Rtt>, b: seq<Rtt>)
    ensures SampleAll(e, a + b) == SampleAll(SampleAll(e, a), b)
  {
    hide Sample;
    if b == [] {
      assert a + b == a;
    } else {
      var last := |b| - 1;
      SampleAllConcat(e, a, b[..last]);
      assert (a + b)[..|a + b| - 1] == a + b[..last];
    }
  }

  lemma SampleAllOne(e: Estimate, rtt: Rtt)
    ensures SampleAll(e, [rtt]) == Sample(e, rtt) && SampleAll(e, []) == e
  {
    hide Sample;
    assert [rtt][..0] == [];
  }

  lemma HandledEstimate(e: Endpoint, p: Packet)
    ensures var h := HandlePacket(e, p);
      && h.timing == e.timing
      && h.estimate == SampleAll(e.estimate, ElapsedTimes(e.timing.current, [p]))
  {
    ElapsedOne(e.timing.current, p);
    var rtt := TimeDelta(e.timing.current, p.header.ts);
    if rtt >= 0 {
      SampleAllOne(e.estimate, rtt);
    }
    hide UnaReceived, AckReceived, Emplace, TimeDelta, Sample, ElapsedTimes;
  }

  lemma {:induction false} HandledAllEstimate(e: Endpoint, ps: seq<Packet>)
    ensures HandleAll(e, ps).estimate == SampleAll(e.estimate, ElapsedTimes(e.timing.current, ps))
    decreases |ps|
  {
    if ps != [] {
      var h := HandlePacket(e, ps[0]);
      HandledEstimate(e, ps[0]);
      hide HandlePacket, ElapsedTimes, SampleAll;
      HandledAllEstimate(h, ps[1..]);
      assert ps == [ps[0]] + ps[1..];
      ElapsedFront(e.timing.current, ps[0], ps[1..]);
      SampleAllConcat(e.estimate, ElapsedTimes(e.timing.current, [ps[0]]), ElapsedTimes(e.timing.current, ps[1..]));
    }
  }

  /** The times a datagram's ACKs make input() sample. */
  function SampledBy(e: Endpoint, data: seq<u8>): seq<Rtt> {
    if |data| < HEADER_SIZE then []
    else ElapsedTimes(e.timing.current, Parse(e.build, e.conv, data).packets)
  }

  /**
   input(), on arbitrary bytes and whether or not it succeeds, samples the time since the echoed
   timestamp of each ACK it dispatches, in order, where that time is not negative, and nothing else.
   */
  lemma InputSamples(e: Endpoint, data: seq<u8>)
    ensures Input(e, data).0.estimate == SampleAll(e.estimate, SampledBy(e, data))
  {
    var ps := Parse(e.build, e.conv, data).packets;
    HandledAllEstimate(e, ps);
    hide Parse, HandleAll, FastAcks, AdjustParameters, BumpBefore, ElapsedTimes;
  }

  // ---------------------------------------------------------------- every run of calls

  /** The times sampled by one call. */
  function StepSamples(e: Endpoint, a: Action): seq<Rtt> {
    if a.Deliver? then SampledBy(e, a.datagram) else []
  }

  /** The times sampled over a run of calls. */
  function SampledIn(me: Peer, calls: seq<Action>): seq<Rtt> {
    if calls == [] then []
    else
      var before := calls[..|calls| - 1];
      SampledIn(me, before) + StepSamples(Called(me, before).e, calls[|calls| - 1])
  }

  /** What the samples alone decide: all but the timeout, which the settings clamp. */
  predicate SameMeans(e: Estimate, e': Estimate) {
    e.srtt == e'.srtt && e.rttvar == e'.rttvar && e.lastRtt == e'.lastRtt
  }

  lemma {:induction false} SampledAlike(e: Estimate, e': Estimate, rtts: seq<Rtt>)
    requires SameMeans(e, e')
    ensures SameMeans(SampleAll(e, rtts), SampleAll(e', rtts))
  {
    hide NextVariation, NextSmoothed, TimeoutFor;
    if rtts != [] {
      SampledAlike(e, e', rtts[..|rtts| - 1]);
    }
  }

  lemma StepMeans(me: Peer, a: Action)
    ensures var me' := PeerStep(me, if a.Deliver? then {a.datagram} else {}, a);
      SameMeans(me'.e.estimate, SampleAll(me.e.estimate, StepSamples(me.e, a)))
  {
    hide Input, SampledBy;
    if a.Deliver? {
      hide SampleAll;
      InputSamples(me.e, a.datagram);
    } else {
      CallsKeepApart(me, {}, a);
      hide PeerStep;
    }
  }

  /**
   Over every run of calls, whatever bytes arrive, the smoothed round-trip time, its variation and
   the last sample are those of the elapsed times of the ACKs delivered, one sample for each.
   */
  lemma {:induction false} EveryRunSamples(build: Build, conv: u32, mss: Mss, calls: seq<Action>)
    ensures var me := Links.Start(build, conv, mss);
      SameMeans(Called(me, calls).e.estimate, SampleAll(INITIAL_ESTIMATE, SampledIn(me, calls)))
  {
    hide SampleAll, StepSamples, PeerStep;
    var me := Links.Start(build, conv, mss);
    if calls == [] {
      StartMeans();
    } else {
      var last := |calls| - 1;
      var before, sampled := Called(me, calls[..last]), SampledIn(me, calls[..last]);
      EveryRunSamples(build, conv, mss, calls[..last]);
      StepMeans(before, calls[last]);
      var more := StepSamples(before.e, calls[last]);
      SampledAlike(before.e.estimate, SampleAll(INITIAL_ESTIMATE, sampled), more);
      SampleAllConcat(INITIAL_ESTIMATE, sampled, more);
    }
  }

  lemma StartMeans()
    ensures SampleAll(INITIAL_ESTIMATE, []) == INITIAL_ESTIMATE
  {
  }

  // ---------------------------------------------------------------- two endpoints

  function AcksOf(ps: seq<Packet>): seq<Packet> {
    if ps == [] then []
    else AcksOf(ps[..|ps| - 1]) + (if ps[|ps| - 1].header.cmd == ACK then [ps[|ps| - 1]] else [])
  }

  /** Each acknowledgement answers a transmission of its very number, at the time given for it. */
  ghost predicate Answers(s: Peer, acks: seq<Packet>, ats: seq<nat>) {
    && |ats| == |acks|
    && forall i :: 0 <= i < |acks| ==> (acks[i].header.sn, ats[i]) in s.log && ats[i] <= s.clock
  }

  predicate Recent(clock: nat, ats: seq<nat>) {
    forall i :: 0 <= i < |ats| ==> ats[i] <= clock < ats[i] + 0x8000_0000
  }

  function Ages(clock: nat, ats: seq<nat>): seq<Rtt>
    requires Recent(clock, ats)
  {
    seq(|ats|, i requires 0 <= i < |ats| => clock - ats[i])
  }

  /** An acknowledgement on the wire echoes the time of a transmission of its number. */
  lemma AckIsLogged(s: Peer, r: Peer, p: Packet) returns (at: nat)
    requires Linked(s, r) && s.monotone && p in r.spoken && p.header.cmd == ACK
    ensures (p.header.sn, at) in s.log && at <= s.clock && Wrap32(at) == p.header.ts
    ensures s.e.timing.current == Wrap32(s.clock)
  {
    hide OutboxMatches, InboxMatches, Pushes, Scheduled, NoLoss, Held, Parses, GoodMessages, Wrap32;
    assert ReplyOk(p, r.e.inbox, s.e.out.nxt, s.log);
    at :| (p.header.sn, at) in s.log && Wrap32(at) == p.header.ts;
  }

  lemma {:induction false} AcksAnswer(s: Peer, r: Peer, ps: seq<Packet>) returns (ats: seq<nat>)
    requires Linked(s, r) && s.monotone && forall p :: p in ps ==> p in r.spoken
    ensures Answers(s, AcksOf(ps), ats)
    ensures Recent(s.clock, ats) ==> ElapsedTimes(s.e.timing.current, ps) == Ages(s.clock, ats)
  {
    hide Linked, TimeDelta, Wrap32;
    if ps == [] {
      ats := [];
    } else {
      var last := ps[|ps| - 1];
      var before := AcksAnswer(s, r, ps[..|ps| - 1]);
      if last.header.cmd == ACK {
        assert last in ps;
        var at := AckIsLogged(s, r, last);
        TimeDeltaIsElapsed(s.clock, at);
        ats := before + [at];
        RecentFront(s.clock, before, at);
      } else {
        ats := before;
      }
    }
  }

  lemma RecentFront(clock: nat, ats: seq<nat>, at: nat)
    ensures Recent(clock, ats + [at]) ==>
              && Recent(clock, ats) && at <= clock < at + 0x8000_0000
              && Ages(clock, ats + [at]) == Ages(clock, ats) + [clock - at]
  {
    assert (ats + [at])[|ats|] == at;
    assert forall i :: 0 <= i < |ats| ==> (ats + [at])[i] == ats[i];
  }

  /**
   A delivery of `d` samples the ages of the transmissions its ACKs answer: the estimate afterwards
   is the one before with those ages sampled in order, as long as each fits an i32.
   */
  ghost predicate SamplesAges(s: Peer, d: seq<u8>) {
    exists ats: seq<nat> ::
      && Answers(s, AcksOf(Parse(s.e.build, s.e.conv, d).packets), ats)
      && (Recent(s.clock, ats) ==> Input(s.e, d).0.estimate == SampleAll(s.e.estimate, Ages(s.clock, ats)))
  }

  lemma WireSamplesAges(s: Peer, r: Peer, d: seq<u8>)
    requires Linked(s, r) && s.monotone && d in r.wire
    ensures SamplesAges(s, d)
  {
    WireHasSpoken(s, r, d);
    hide Linked, Parse, Input, AcksOf, ElapsedTimes, SampleAll, Answers, EncodeAll;
    var ps := Parse(s.e.build, s.e.conv, d).packets;
    var ats := AcksAnswer(s, r, ps);
    InputSamples(s.e, d);
  }

  lemma WireHasSpoken(s: Peer, r: Peer, d: seq<u8>)
    requires Linked(s, r) && d in r.wire
    ensures |d| >= HEADER_SIZE
    ensures forall p :: p in Parse(s.e.build, s.e.conv, d).packets ==> p in r.spoken
  {
    hide Link, Parse, EncodeAll, AllWellFormed, Size;
    assert Parses(r.e.build, r.e.conv, r.e.mss, d, r.spoken);
    var group :| Encloses(r.e.build, r.e.conv, r.e.mss, d, group, r.spoken);
  }

  /**
   Round-trip samples are never misattributed: in every run, on each side whose clock does not go
   back, what input() does to the estimate is to sample, for each ACK of any datagram the other side
   ever sent, the time since a transmission of that very number, retransmissions included.
   */
  lemma SamplesAreElapsedTimes(build: Build, conv: u32, mssA: Mss, mssB: Mss, steps: seq<(Side, Action)>, d: seq<u8>)
    ensures var s := Run(Initial(build, conv, mssA, mssB), steps);
      && (s.a.monotone && d in s.b.wire ==> SamplesAges(s.a, d))
      && (s.b.monotone && d in s.a.wire ==> SamplesAges(s.b, d))
  {
    EveryRunLinked(build, conv, mssA, mssB, steps);
    var s := Run(Initial(build, conv, mssA, mssB), steps);
    hide Run, Linked, SamplesAges;
    LinkedSwap(s.a, s.b);
    if s.a.monotone && d in s.b.wire {
      WireSamplesAges(s.a, s.b, d);
    }
    if s.b.monotone && d in s.a.wire {
      WireSamplesAges(s.b, s.a, d);
    }
  }
}
