/** The sending object: fragmentation, numbering, and the retransmission pass, in place. */
module Senders {
  import opened Words
  import opened Segments
  import opened Sending
  import opened Fragmentation
  import opened Congestion
  import opened Timeouts
  import opened Packing
  import opened Transmission
  import opened Controllers
  import opened SenderBuffers
  import opened Flushers
  import E = Endpoints

  class SharedCtx {
    var dead: bool
    var conv: u32
    var interval: u32

    constructor (conv: u32)
      ensures !dead && this.conv == conv && interval == E.INTERVAL
    {
      dead, this.conv, interval := false, conv, E.INTERVAL;
    }
  }

  /** Segments whose header announces their payload, none longer than a segment may be. */
  predicate Fits(segs: seq<Segment>, mss: Mss) {
    forall i :: 0 <= i < |segs| ==> Sized(segs[i]) && |segs[i].data| <= mss
  }

  datatype Counts = Counts(bytes: nat, pushes: nat, timeouts: nat, fasts: nat)

  const NO_COUNTS := Counts(0, 0, 0, 0)

  /** Everything one pass accumulates besides the buffer. */
  datatype Traced = Traced(
    flush: Packing.Flush, pushes: nat, timeouts: nat, fasts: nat, xmit: u32, dead: bool)

  function TraceStep(p: Pass, mss: Mss, deadLink: u32, t: Traced, seg: Segment): Traced {
    var v, seg' := Judge(p, seg), Processed(p, seg);
    Traced(if v == Idle then t.flush else Put(t.flush, mss, PacketOf(seg')),
           t.pushes + (if v == Idle then 0 else 1),
           t.timeouts + (if v == TimedOut then 1 else 0),
           t.fasts + (if v == Fast then 1 else 0),
           if v == TimedOut then Wrap32(t.xmit + 1) else t.xmit,
           t.dead || (v != Idle && seg'.meta.xmit >= deadLink))
  }

  /** The whole pass, as the packets, counts and dead-link test over its buffer say. */
  function TraceOf(p: Pass, mss: Mss, deadLink: u32, t: Traced, buf: seq<Segment>): Traced {
    Traced(PutAll(t.flush, mss, Emitted(p, buf)),
           t.pushes + |Emitted(p, buf)|,
           t.timeouts + CountOf(p, buf, TimedOut),
           t.fasts + CountOf(p, buf, Fast),
           Wrap32(t.xmit + CountOf(p, buf, TimedOut)),
           t.dead || ReachesDeadLink(p, buf, deadLink))
  }

  lemma TraceStart(p: Pass, mss: Mss, deadLink: u32, t: Traced)
    ensures TraceOf(p, mss, deadLink, t, []) == t
  {
  }

  lemma TraceNext(p: Pass, mss: Mss, deadLink: u32, t: Traced, buf: seq<Segment>, i: nat)
    requires i < |buf|
    ensures TraceOf(p, mss, deadLink, t, buf[..i + 1])
         == TraceStep(p, mss, deadLink, TraceOf(p, mss, deadLink, t, buf[..i]), buf[i])
  {
    hide Judge, Processed, Put, PutAll, Wrap32;
    var now := buf[..i + 1];
    assert now[..i] == buf[..i] && now[i] == buf[i];
    PutAllAppend(t.flush, mss, Emitted(p, buf[..i]), PacketOf(Processed(p, buf[i])));
    WrapStep(t.xmit + CountOf(p, buf[..i], TimedOut));
    DeadLinkStep(p, buf, i, deadLink);
    assert Emitted(p, buf[..i]) + [] == Emitted(p, buf[..i]);
  }

  lemma ProcessedForm(p: Pass, seg: Segment)
    ensures var v := Judge(p, seg);
      var retimed := seg.(meta := Retimed(p, seg.meta, v));
      Processed(p, seg)
      == if v == Idle then retimed else retimed.(header := Stamped(seg.header, p.stamp))
  {
    hide Judge;
  }

  lemma WrapStep(x: int)
    ensures Wrap32(Wrap32(x) + 1) == Wrap32(x + 1)
  {
  }

  lemma DeadLinkStep(p: Pass, buf: seq<Segment>, i: nat, deadLink: u32)
    requires i < |buf|
    ensures ReachesDeadLink(p, buf[..i + 1], deadLink)
       <==> ReachesDeadLink(p, buf[..i], deadLink)
            || (Judge(p, buf[i]) != Idle && Processed(p, buf[i]).meta.xmit >= deadLink)
  {
    hide Judge, Processed;
    var now := buf[..i + 1];
    forall j | 0 <= j < i ensures now[j] == buf[..i][j] {
    }
    assert now[i] == buf[i];
  }

  lemma ProcessedPrefix(p: Pass, all: seq<Segment>, i: nat)
    requires i <= |all|
    ensures var now := ProcessedAll(p, all[..i]) + all[i..];
      && (i == 0 ==> now == all)
      && (i < |all| ==>
            && now[i] == all[i]
            && now[i := Processed(p, all[i])] == ProcessedAll(p, all[..i + 1]) + all[i + 1..])
  {
    hide Processed;
  }

  /** Acknowledgements only remove segments, and fast acknowledgements leave payloads alone. */
  lemma {:induction false} AcknowledgedFits(buf: seq<Segment>, sn: u32, mss: Mss)
    requires Fits(buf, mss)
    ensures Fits(EraseBefore(buf, sn), mss)
    ensures Fits(EraseSn(buf, sn), mss)
    ensures Fits(BumpBefore(buf, sn), mss)
  {
    if buf != [] {
      AcknowledgedFits(buf[1..], sn, mss);
    }
  }

  class Sender {
    const mss: Mss
    const sharedCtx: SharedCtx
    const congestionController: CongestionController
    const rtoCalculator: RtoCalculator
    const flusher: Flusher
    const senderBuffer: SenderBuffer
    const segmentTracker: SegmentTracker
    var sndQueue: seq<Segment>
    var fastresend: u32
    var fastlimit: u32
    var nodelay: u32
    var xmit: u32
    var deadLink: u32

    ghost predicate Valid()
      reads this, senderBuffer, flusher, flusher.buffer
    {
      && flusher.mss == congestionController.mss == mss
      && flusher.Valid()
      && Fits(sndQueue, mss)
      && Fits(senderBuffer.sndBuf, mss)
    }

    ghost function Outbox(): Sending.Outbox
      reads this, senderBuffer, segmentTracker
    {
      Sending.Outbox.Outbox(segmentTracker.sndUna, segmentTracker.sndNxt, senderBuffer.sndBuf, sndQueue)
    }

    constructor (sharedCtx: SharedCtx, congestionController: CongestionController,
                 rtoCalculator: RtoCalculator, flusher: Flusher, senderBuffer: SenderBuffer,
                 segmentTracker: SegmentTracker)
      requires flusher.Valid() && flusher.mss == congestionController.mss && senderBuffer.sndBuf == []
      ensures Valid()
      ensures this.sharedCtx == sharedCtx && this.congestionController == congestionController
      ensures this.rtoCalculator == rtoCalculator && this.flusher == flusher
      ensures this.senderBuffer == senderBuffer && this.segmentTracker == segmentTracker
      ensures sndQueue == [] && fastresend == nodelay == xmit == 0
      ensures fastlimit == E.FASTACK_LIMIT && deadLink == E.DEADLINK
    {
      mss := flusher.mss;
      this.sharedCtx := sharedCtx;
      this.congestionController := congestionController;
      this.rtoCalculator := rtoCalculator;
      this.flusher := flusher;
      this.senderBuffer := senderBuffer;
      this.segmentTracker := segmentTracker;
      sndQueue := [];
      fastresend, fastlimit, nodelay, xmit, deadLink := 0, E.FASTACK_LIMIT, 0, 0, E.DEADLINK;
    }

    method EstimateSegmentsCount(size: nat) returns (count: nat)
      ensures count == SegmentCount(size, mss)
    {
      count := Max(1, (size + mss - 1) / mss);
    }

    method Send(buffer: seq<u8>) returns (result: Result<nat>)
      requires Valid()
      modifies this`sndQueue
      ensures Valid()
      ensures match SendError(|buffer|, congestionController.rcvWnd, mss)
        case Some(error) => result == Err(error) && sndQueue == old(sndQueue)
        case None => result == Ok(|buffer|)
                     && sndQueue == old(sndQueue) + QueuedAll(Fragments(buffer, mss))
    {
      if buffer == [] {
        return Err(BufferTooSmall);
      }
      var count := EstimateSegmentsCount(|buffer|);
      hide SegmentCount;
      if count > MAX_FRAGMENTS {
        return Err(TooManyFragments);
      }
      if count > congestionController.rcvWnd {
        return Err(ExceedsWindowSize);
      }
      var offset := Split(buffer, count);
      result := Ok(offset);
    }

    /** The fragmentation loop of send(). */
    method Split(buffer: seq<u8>, count: nat) returns (offset: nat)
      requires Valid() && buffer != [] && count == SegmentCount(|buffer|, mss) <= MAX_FRAGMENTS
      modifies this`sndQueue
      ensures Valid() && offset == |buffer|
      ensures sndQueue == old(sndQueue) + QueuedAll(Fragments(buffer, mss))
    {
      ghost var goal := sndQueue + QueuedAll(Fragments(buffer, mss));
      FragmentCount(buffer, mss);
      assert buffer[0..] == buffer;
      hide QueuedAll, SegmentCount;
      offset := 0;
      for i := 0 to count
        invariant Valid() && offset <= |buffer|
        invariant Splitting(buffer, mss, count - i, offset, sndQueue, goal)
      {
        SplitStep(buffer, mss, count - i, offset, sndQueue, goal);
        var size := Min(|buffer| - offset, mss);
        var data := buffer[offset..offset + size];
        var header := Header(0, 0, count - i - 1, 0, 0, 0, 0, Wrap32(|data|));
        WrapSmall(|data|);
        sndQueue := sndQueue + [Segment(header, data, NEW_METADATA)];
        offset := offset + size;
      }
    }

    method MoveSendQueueToBuffer(cwnd: u32, current: u32, unusedReceiveWindow: nat, rcvNxt: u32)
      requires Valid()
      modifies this`sndQueue, senderBuffer, segmentTracker`sndNxt
      ensures Valid()
      ensures Outbox() == Admit(old(Outbox()), cwnd,
                                Stamp(sharedCtx.conv, Wrap16(unusedReceiveWindow), current, rcvNxt),
                                rtoCalculator.rto)
    {
      var conv, rto := sharedCtx.conv, rtoCalculator.rto;
      ghost var stamp := Stamp(conv, Wrap16(unusedReceiveWindow), current, rcvNxt);
      while sndQueue != [] && segmentTracker.sndNxt < Wrap32(segmentTracker.sndUna + cwnd)
        invariant Valid()
        invariant Admit(Outbox(), cwnd, stamp, rto) == Admit(old(Outbox()), cwnd, stamp, rto)
        decreases |sndQueue|
      {
        var seg := sndQueue[0];
        var sn := segmentTracker.GetAndIncrementSndNxt();
        var header := Header(conv, PUSH, seg.header.frg, Wrap16(unusedReceiveWindow), current, sn,
                             rcvNxt, seg.header.len);
        var segment := Segment(header, seg.data, Metadata(current, rto, 0, 0));
        senderBuffer.PushSegment(segment);
        sndQueue := sndQueue[1..];
      }
    }

    /** process_segment: what the pass does to the segment at `i`, without sending it. */
    method ProcessSegment(p: Pass, i: nat) returns (verdict: Verdict)
      requires Valid() && i < |senderBuffer.sndBuf|
      modifies senderBuffer, this`xmit
      ensures Valid()
      ensures verdict == Judge(p, old(senderBuffer.sndBuf)[i])
      ensures var seg := old(senderBuffer.sndBuf)[i];
        senderBuffer.sndBuf == old(senderBuffer.sndBuf)[i := seg.(meta := Retimed(p, seg.meta, verdict))]
      ensures xmit == if verdict == TimedOut then Wrap32(old(xmit) + 1) else old(xmit)
    {
      hide Wrap32, TimeDelta;
      var seg := senderBuffer.sndBuf[i];
      var m := seg.meta;
      verdict := Idle;
      if m.xmit == 0 {
        m := m.(xmit := Wrap32(m.xmit + 1), rto := p.rto);
        m := m.(resendts := Wrap32(p.stamp.ts + m.rto + p.rtomin));
        verdict := First;
      } else if TimeDelta(p.stamp.ts, m.resendts) >= 0 {
        m := m.(xmit := Wrap32(m.xmit + 1));
        xmit := Wrap32(xmit + 1);
        if p.nodelay == 0 {
          m := m.(rto := Wrap32(m.rto + Max(m.rto, p.rto)));
        } else {
          var step := if p.nodelay < 2 then m.rto else p.rto;
          m := m.(rto := Wrap32(m.rto + step / 2));
        }
        m := m.(resendts := Wrap32(p.stamp.ts + m.rto));
        verdict := TimedOut;
      } else if p.resent < m.fastack && (m.xmit < p.fastlimit || p.fastlimit == 0) {
        m := m.(xmit := Wrap32(m.xmit + 1), fastack := 0, resendts := Wrap32(p.stamp.ts + m.rto));
        verdict := Fast;
      }
      senderBuffer.sndBuf := senderBuffer.sndBuf[i := seg.(meta := m)];
    }

    /** send_segment: stamps the segment at `i` and hands it to the flusher. */
    method SendSegment(p: Pass, i: nat, output: Output) returns (sent: nat)
      requires Valid() && output.Valid() && output.build == flusher.build
      requires i < |senderBuffer.sndBuf|
      modifies senderBuffer, flusher, flusher.buffer, output, sharedCtx`dead
      ensures Valid() && output.Valid()
      ensures var seg := old(senderBuffer.sndBuf)[i];
        var stamped := seg.(header := Stamped(seg.header, p.stamp));
        && senderBuffer.sndBuf == old(senderBuffer.sndBuf)[i := stamped]
        && flusher.Value(output) == Put(old(flusher.Value(output)), mss, PacketOf(stamped))
        && sharedCtx.dead == (old(sharedCtx.dead) || seg.meta.xmit >= deadLink)
      ensures TotalSize(output.groups) == TotalSize(old(output.groups)) + sent
    {
      hide Size, TotalSize;
      var seg := senderBuffer.sndBuf[i];
      seg := seg.(header := seg.header.(ts := p.stamp.ts));
      seg := seg.(header := seg.header.(wnd := p.stamp.wnd));
      seg := seg.(header := seg.header.(una := p.stamp.una));
      senderBuffer.sndBuf := senderBuffer.sndBuf[i := seg];
      sent := flusher.FlushIfDoesNotFit(output, seg.header.len);
      flusher.Emplace(seg.header, seg.data);
      if seg.meta.xmit >= deadLink {
        sharedCtx.dead := true;
      }
    }

    /** The loop over the buffer: every segment is judged, and sent unless it is idle. */
    method FlushSegments(p: Pass, output: Output) returns (counts: Counts)
      requires Valid() && output.Valid() && output.build == flusher.build
      modifies senderBuffer, this`xmit, flusher, flusher.buffer, output, sharedCtx`dead
      ensures Valid() && output.Valid()
      ensures senderBuffer.sndBuf == ProcessedAll(p, old(senderBuffer.sndBuf))
      ensures Trace(output, counts)
           == TraceOf(p, mss, deadLink, old(Trace(output, NO_COUNTS)), old(senderBuffer.sndBuf))
      ensures TotalSize(output.groups) == TotalSize(old(output.groups)) + counts.bytes
    {
      counts := NO_COUNTS;
      ghost var all, start := senderBuffer.sndBuf, Trace(output, counts);
      assert all[..0] == [];
      hide ProcessedAll, TraceOf, TotalSize, Emitted, CountOf;
      ProcessedPrefix(p, all, 0);
      TraceStart(p, mss, deadLink, start);
      for i := 0 to |senderBuffer.sndBuf|
        invariant Valid() && output.Valid() && |senderBuffer.sndBuf| == |all|
        invariant senderBuffer.sndBuf == ProcessedAll(p, all[..i]) + all[i..]
        invariant Trace(output, counts) == TraceOf(p, mss, deadLink, start, all[..i])
        invariant TotalSize(output.groups) == TotalSize(old(output.groups)) + counts.bytes
      {
        ProcessedPrefix(p, all, i);
        TraceNext(p, mss, deadLink, start, all, i);
        counts := CountSegment(p, i, output, counts);
      }
      assert all[..|all|] == all;
    }

    method FlushSegment(p: Pass, i: nat, output: Output) returns (verdict: Verdict, sent: nat)
      requires Valid() && output.Valid() && output.build == flusher.build
      requires i < |senderBuffer.sndBuf|
      modifies senderBuffer, this`xmit, flusher, flusher.buffer, output, sharedCtx`dead
      ensures Valid() && output.Valid()
      ensures verdict == Judge(p, old(senderBuffer.sndBuf)[i])
      ensures senderBuffer.sndBuf
           == old(senderBuffer.sndBuf)[i := Processed(p, old(senderBuffer.sndBuf)[i])]
      ensures var q := PacketOf(Processed(p, old(senderBuffer.sndBuf)[i]));
        flusher.Value(output)
        == if verdict == Idle then old(flusher.Value(output)) else Put(old(flusher.Value(output)), mss, q)
      ensures xmit == if verdict == TimedOut then Wrap32(old(xmit) + 1) else old(xmit)
      ensures sharedCtx.dead
           == (old(sharedCtx.dead)
               || (verdict != Idle && Processed(p, old(senderBuffer.sndBuf)[i]).meta.xmit >= deadLink))
      ensures TotalSize(output.groups) == TotalSize(old(output.groups)) + sent
    {
      ProcessedForm(p, senderBuffer.sndBuf[i]);
      hide TotalSize, Judge, Retimed, Put, Processed, Wrap32, Stamped;
      verdict := ProcessSegment(p, i);
      sent := 0;
      if verdict != Idle {
        sent := SendSegment(p, i, output);
      }
    }

    method CountSegment(p: Pass, i: nat, output: Output, before: Counts) returns (counts: Counts)
      requires Valid() && output.Valid() && output.build == flusher.build
      requires i < |senderBuffer.sndBuf|
      modifies senderBuffer, this`xmit, flusher, flusher.buffer, output, sharedCtx`dead
      ensures Valid() && output.Valid()
      ensures senderBuffer.sndBuf
           == old(senderBuffer.sndBuf)[i := Processed(p, old(senderBuffer.sndBuf)[i])]
      ensures Trace(output, counts)
           == TraceStep(p, mss, deadLink, old(Trace(output, before)), old(senderBuffer.sndBuf)[i])
      ensures TotalSize(output.groups) - counts.bytes == TotalSize(old(output.groups)) - before.bytes
    {
      hide TotalSize, Judge, Put, Processed, Wrap32;
      var verdict, sent := FlushSegment(p, i, output);
      counts := Counts(before.bytes + sent,
                       before.pushes + (if verdict == Idle then 0 else 1),
                       before.timeouts + (if verdict == TimedOut then 1 else 0),
                       before.fasts + (if verdict == Fast then 1 else 0));
    }

    ghost function Trace(output: Output, counts: Counts): Traced
      reads this, sharedCtx, flusher, output
    {
      Traced(flusher.Value(output), counts.pushes, counts.timeouts, counts.fasts, xmit, sharedCtx.dead)
    }

    /** What a pass starting now reads. */
    ghost function PassFor(current: u32, unusedReceiveWindow: nat, rcvNxt: u32): Pass
      reads this, sharedCtx, rtoCalculator
    {
      Pass(Stamp(sharedCtx.conv, Wrap16(unusedReceiveWindow), current, rcvNxt), rtoCalculator.rto,
           if nodelay == 0 then rtoCalculator.rto / 8 else 0,
           if fastresend > 0 then fastresend else 0xFFFF_FFFF, fastlimit, nodelay)
    }

    ghost function Admitted(p: Pass): Sending.Outbox
      reads this, senderBuffer, segmentTracker, congestionController
    {
      Admit(Outbox(), CongestionWindow(congestionController.Value()), p.stamp, p.rto)
    }

    method FlushDataSegments(output: Output, current: u32, unusedReceiveWindow: nat, rcvNxt: u32)
      returns (counts: Counts)
      requires Valid() && output.Valid() && output.build == flusher.build
      modifies this`sndQueue, this`xmit, senderBuffer, segmentTracker`sndNxt, congestionController
      modifies flusher, flusher.buffer, output, sharedCtx`dead
      ensures Valid() && output.Valid()
      ensures var p := old(PassFor(current, unusedReceiveWindow, rcvNxt));
        var o := old(Admitted(p));
        && Outbox() == o.(buf := ProcessedAll(p, o.buf))
        && Trace(output, counts) == TraceOf(p, mss, deadLink, old(Trace(output, NO_COUNTS)), o.buf)
        && congestionController.Value() == E.Reacted(old(congestionController.Value()), mss, p, o)
      ensures TotalSize(output.groups) == TotalSize(old(output.groups)) + counts.bytes
    {
      hide Admit, ProcessedAll, TotalSize, Emitted, CountOf;
      var cwnd := congestionController.CalculateCongestionWindow();
      MoveSendQueueToBuffer(cwnd, current, unusedReceiveWindow, rcvNxt);
      var resent := if fastresend > 0 then fastresend else 0xFFFF_FFFF;
      var rtomin := if nodelay == 0 then rtoCalculator.rto / 8 else 0;
      var stamp := Stamp(sharedCtx.conv, Wrap16(unusedReceiveWindow), current, rcvNxt);
      counts := RunPass(Pass(stamp, rtoCalculator.rto, rtomin, resent, fastlimit, nodelay), output);
    }

    /** The loop over the buffer, and what the windows make of it. */
    method RunPass(p: Pass, output: Output) returns (counts: Counts)
      requires Valid() && output.Valid() && output.build == flusher.build
      modifies this`xmit, senderBuffer, congestionController
      modifies flusher, flusher.buffer, output, sharedCtx`dead
      ensures Valid() && output.Valid()
      ensures var o := old(Outbox());
        && Outbox() == o.(buf := ProcessedAll(p, o.buf))
        && Trace(output, counts) == TraceOf(p, mss, deadLink, old(Trace(output, NO_COUNTS)), o.buf)
        && congestionController.Value() == E.Reacted(old(congestionController.Value()), mss, p, o)
      ensures TotalSize(output.groups) == TotalSize(old(output.groups)) + counts.bytes
    {
      hide ProcessedAll, TotalSize, Emitted, CountOf;
      counts := FlushSegments(p, output);
      React(counts, p.resent);
    }

    method React(counts: Counts, resent: u32)
      modifies congestionController
      ensures congestionController.Value()
           == var w := old(congestionController.Value());
              var inFlight := Wrap32(segmentTracker.sndNxt - segmentTracker.sndUna);
              var w' := if counts.fasts > 0 then PacketsResent(w, congestionController.mss, inFlight, resent) else w;
              if counts.timeouts > 0 then PacketLost(w', congestionController.mss) else w'
    {
      hide Wrap32, Congestion.PacketsResent, Congestion.PacketLost;
      WrapDifference(segmentTracker.sndNxt, segmentTracker.sndUna);
      if counts.fasts > 0 {
        var inFlight := segmentTracker.GetPacketsInFlightCount();
        congestionController.PacketsResent(inFlight, resent);
      }
      if counts.timeouts > 0 {
        congestionController.PacketLost();
      }
    }

    method SetFastresend(value: u32)
      modifies this`fastresend
      ensures fastresend == value
    {
      fastresend := value;
    }

    method SetFastlimit(value: u32)
      modifies this`fastlimit
      ensures fastlimit == value
    {
      fastlimit := value;
    }

    method SetNodelay(value: u32)
      modifies this`nodelay, rtoCalculator
      ensures nodelay == value
      ensures rtoCalculator.Value()
           == old(rtoCalculator.Value()).(minrto := if value > 0 then RTO_NDL else RTO_MIN)
    {
      nodelay := value;
      rtoCalculator.minrto := if value > 0 then RTO_NDL else RTO_MIN;
    }

    method SetDeadlink(value: u32)
      modifies this`deadLink
      ensures deadLink == value
    {
      deadLink := value;
    }
  }

  /** The fragmentation loop with `left` fragments to go: `queue` grows into `goal`. */
  ghost predicate Splitting(buffer: seq<u8>, mss: Mss, left: nat, offset: nat,
                            queue: seq<Segment>, goal: seq<Segment>)
    requires offset <= |buffer|
  {
    if left == 0 then offset == |buffer| && queue == goal
    else
      && offset < |buffer|
      && |Fragments(buffer[offset..], mss)| == left
      && queue + QueuedAll(Fragments(buffer[offset..], mss)) == goal
  }

  lemma SplitStep(buffer: seq<u8>, mss: Mss, left: nat, offset: nat,
                  queue: seq<Segment>, goal: seq<Segment>)
    requires 0 < left <= 0x100 && offset <= |buffer|
    requires Splitting(buffer, mss, left, offset, queue, goal)
    ensures var size := Min(|buffer| - offset, mss);
      && 0 < size
      && Splitting(buffer, mss, left - 1, offset + size,
                   queue + [Queued(Frag(left - 1, buffer[offset..offset + size]))], goal)
  {
    var rest := buffer[offset..];
    var frags := Fragments(rest, mss);
    FirstFragment(rest, mss);
    hide Fragments, Queued;
    QueuedCons(frags, queue);
    if |rest| > mss {
      assert rest[mss..] == buffer[offset + mss..];
      assert rest[..mss] == buffer[offset..offset + mss];
    } else {
      assert QueuedAll(frags[1..]) == [];
      assert rest == buffer[offset..offset + |rest|];
    }
    hide QueuedAll;
  }

  lemma QueuedCons(frags: seq<Frag>, queue: seq<Segment>)
    requires frags != []
    ensures queue + QueuedAll(frags) == queue + [Queued(frags[0])] + QueuedAll(frags[1..])
  {
    hide Queued;
    assert QueuedAll(frags) == [Queued(frags[0])] + QueuedAll(frags[1..]);
  }

  lemma FirstFragment(msg: seq<u8>, mss: Mss)
    ensures var frags := Fragments(msg, mss);
      if |msg| <= mss then frags == [Frag(0, msg)]
      else frags[0] == Frag((|frags| - 1) % 0x100, msg[..mss]) && frags[1..] == Fragments(msg[mss..], mss)
  {
  }
}
