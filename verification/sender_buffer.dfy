/** The send buffer, the sequence counters and the acknowledgement controller, updated in place. */
module SenderBuffers {
  import opened Words
  import opened Segments
  import opened Spec = Sending
  import opened Endpoints

  class SenderBuffer {
    var sndBuf: seq<Segment>

    constructor ()
      ensures sndBuf == []
    {
      sndBuf := [];
    }

    method PushSegment(segment: Segment)
      modifies this
      ensures sndBuf == old(sndBuf) + [segment]
    {
      sndBuf := sndBuf + [segment];
    }

    method GetFirstSequenceNumberInFlight() returns (sn: Option<u32>)
      ensures sn == if sndBuf == [] then None else Some(sndBuf[0].header.sn)
    {
      if sndBuf != [] {
        return Some(sndBuf[0].header.sn);
      }
      return None;
    }

    method Erase(sn: u32)
      modifies this
      ensures sndBuf == EraseSn(old(sndBuf), sn)
    {
      hide EraseSn;
      var it := 0;
      assert sndBuf[..0] + EraseSn(sndBuf[0..], sn) == EraseSn(sndBuf, sn) by {
        assert sndBuf[0..] == sndBuf;
      }
      while it < |sndBuf|
        invariant 0 <= it <= |sndBuf| && sndBuf == old(sndBuf)
        invariant EraseSn(sndBuf, sn) == sndBuf[..it] + EraseSn(sndBuf[it..], sn)
      {
        EraseStep(sndBuf, it, sn);
        if sn == sndBuf[it].header.sn {
          sndBuf := sndBuf[..it] + sndBuf[it + 1..];
          return;
        }
        if sn < sndBuf[it].header.sn {
          return;
        }
        it := it + 1;
      }
      EraseEnd(sndBuf, it, sn);
    }

    method EraseBefore(sn: u32)
      modifies this
      ensures sndBuf == Spec.EraseBefore(old(sndBuf), sn)
    {
      while sndBuf != []
        invariant Spec.EraseBefore(sndBuf, sn) == Spec.EraseBefore(old(sndBuf), sn)
      {
        if sn > sndBuf[0].header.sn {
          sndBuf := sndBuf[1..];
        } else {
          break;
        }
      }
    }

    method IncrementFastackBefore(sn: u32)
      modifies this
      ensures sndBuf == BumpBefore(old(sndBuf), sn)
    {
      ghost var all := sndBuf;
      var i := 0;
      BumpStart(all, sn);
      hide BumpBefore, Bumping;
      while i < |sndBuf|
        invariant 0 <= i <= |sndBuf| == |all|
        invariant Bumping(all, sndBuf, i, sn)
      {
        BumpStep(all, sndBuf, i, sn);
        var seg := sndBuf[i];
        if seg.header.sn < sn {
          var meta := seg.meta.(fastack := Wrap32(seg.meta.fastack + 1));
          sndBuf := sndBuf[i := seg.(meta := meta)];
        } else {
          return;
        }
        i := i + 1;
      }
      BumpEnd(all, sndBuf, i, sn);
    }

    method GetEarliestTransmitDelta(current: u32) returns (delta: Option<u32>)
      ensures delta == EarliestTransmit(sndBuf, current)
    {
      if sndBuf == [] {
        return None;
      }
      var packet: u32 := 0xFFFF_FFFF;
      var i := 0;
      while i < |sndBuf|
        invariant 0 <= i <= |sndBuf|
        invariant EarliestTransmit(sndBuf, current) == EarliestFrom(sndBuf[i..], current, packet)
      {
        var seg := sndBuf[i];
        assert seg == sndBuf[i..][0] && sndBuf[i..][1..] == sndBuf[i + 1..];
        if seg.meta.resendts <= current {
          return Some(0);
        }
        packet := Min(packet, Wrap32(seg.meta.resendts - current));
        i := i + 1;
      }
      if packet == 0xFFFF_FFFF {
        return None;
      }
      return Some(packet);
    }
  }

  // ---------------------------------------------------------------- the scans, one step at a time

  lemma EraseStep(all: seq<Segment>, it: nat, sn: u32)
    requires it < |all| && EraseSn(all, sn) == all[..it] + EraseSn(all[it..], sn)
    ensures sn == all[it].header.sn ==> EraseSn(all, sn) == all[..it] + all[it + 1..]
    ensures sn < all[it].header.sn ==> EraseSn(all, sn) == all
    ensures sn > all[it].header.sn ==> EraseSn(all, sn) == all[..it + 1] + EraseSn(all[it + 1..], sn)
  {
    assert all[it..][1..] == all[it + 1..];
    assert all[..it] + all[it..] == all;
    assert all[..it] + [all[it]] == all[..it + 1];
  }

  lemma EraseEnd(all: seq<Segment>, it: nat, sn: u32)
    requires it == |all| && EraseSn(all, sn) == all[..it] + EraseSn(all[it..], sn)
    ensures EraseSn(all, sn) == all
  {
  }

  /** The scan of increment_fastack_before has turned `all` into `now` up to index `i`. */
  ghost predicate Bumping(all: seq<Segment>, now: seq<Segment>, i: nat, sn: u32) {
    && i <= |now| == |all|
    && now[i..] == all[i..]
    && BumpBefore(all, sn) == now[..i] + BumpBefore(all[i..], sn)
  }

  lemma BumpStart(all: seq<Segment>, sn: u32)
    ensures Bumping(all, all, 0, sn)
  {
    assert all[0..] == all;
  }

  lemma BumpStep(all: seq<Segment>, now: seq<Segment>, i: nat, sn: u32)
    requires i < |all| && Bumping(all, now, i, sn)
    ensures now[i].header.sn < sn ==> Bumping(all, now[i := Bump(now[i])], i + 1, sn)
    ensures now[i].header.sn >= sn ==> now == BumpBefore(all, sn)
  {
    var next := now[i := Bump(now[i])];
    assert now[i] == now[i..][0] == all[i] == all[i..][0];
    assert all[i..][1..] == all[i + 1..] == now[i..][1..] == next[i + 1..];
    assert next[..i + 1] == now[..i] + [Bump(now[i])];
    assert now == now[..i] + now[i..];
    hide Bump;
  }

  lemma BumpEnd(all: seq<Segment>, now: seq<Segment>, i: nat, sn: u32)
    requires i == |all| && Bumping(all, now, i, sn)
    ensures now == BumpBefore(all, sn)
  {
  }

  class SegmentTracker {
    var sndUna: u32
    var sndNxt: u32

    constructor ()
      ensures sndUna == sndNxt == 0
    {
      sndUna, sndNxt := 0, 0;
    }

    method SetSndUna(una: u32)
      modifies this`sndUna
      ensures sndUna == una
    {
      sndUna := una;
    }

    method ResetSndUna()
      modifies this`sndUna
      ensures sndUna == sndNxt
    {
      sndUna := sndNxt;
    }

    method GetAndIncrementSndNxt() returns (sn: u32)
      modifies this`sndNxt
      ensures sn == old(sndNxt) && sndNxt == Wrap32(old(sndNxt) + 1)
    {
      sn := sndNxt;
      sndNxt := Wrap32(sndNxt + 1);
    }

    method GetPacketsInFlightCount() returns (count: u32)
      ensures sndUna <= sndNxt ==> count == sndNxt - sndUna
      ensures sndUna > sndNxt ==> count == sndNxt - sndUna + 0x1_0000_0000
    {
      count := Wrap32(sndNxt - sndUna);
    }
  }

  class FastAckCtx {
    var maxack: u32
    var latestTs: u32

    ghost function Value(): FastAck
      reads this
    {
      FastAck(maxack, latestTs)
    }

    constructor ()
      ensures Value() == NO_FAST_ACK
    {
      maxack, latestTs := NO_ACK, NO_ACK;
    }

    method IsValid() returns (valid: bool)
      ensures valid == (maxack != NO_ACK)
    {
      valid := maxack != NO_ACK;
    }

    method Update(sn: u32, ts: u32)
      modifies this
      ensures Value() == FastAckUpdate(old(Value()), sn, ts)
    {
      var valid := IsValid();
      if valid {
        if sn > maxack {
          maxack := sn;
          latestTs := ts;
        }
      } else {
        maxack := sn;
        latestTs := ts;
      }
    }
  }

  /** Acknowledgements in both directions; shares the buffer and the counters with the sender. */
  class AckController {
    const senderBuffer: SenderBuffer
    const segmentTracker: SegmentTracker
    var acklist: seq<Acknowledgement>

    /** Buffer and counters; the send queue lives elsewhere. */
    ghost function Outbox(): Spec.Outbox
      reads senderBuffer, segmentTracker
    {
      Spec.Outbox.Outbox(segmentTracker.sndUna, segmentTracker.sndNxt, senderBuffer.sndBuf, [])
    }

    constructor (senderBuffer: SenderBuffer, segmentTracker: SegmentTracker)
      ensures this.senderBuffer == senderBuffer && this.segmentTracker == segmentTracker
      ensures acklist == []
    {
      this.senderBuffer := senderBuffer;
      this.segmentTracker := segmentTracker;
      acklist := [];
    }

    method ShouldAcknowledge(sn: u32) returns (yes: bool)
      ensures yes == InFlight(Outbox(), sn)
    {
      yes := !(sn < segmentTracker.sndUna || sn >= segmentTracker.sndNxt);
    }

    method AcknowledgeFastack(ctx: FastAckCtx)
      modifies senderBuffer
      ensures Outbox() == AcknowledgeFast(old(Outbox()), ctx.Value())
      ensures ctx.Value() == old(ctx.Value())
    {
      var valid := ctx.IsValid();
      if !valid {
        return;
      }
      var should := ShouldAcknowledge(ctx.maxack);
      if !should {
        return;
      }
      senderBuffer.IncrementFastackBefore(ctx.maxack);
    }

    method UpdateRemoteUna()
      modifies segmentTracker`sndUna
      ensures segmentTracker.sndUna == FirstUnacked(senderBuffer.sndBuf, segmentTracker.sndNxt)
    {
      var first := senderBuffer.GetFirstSequenceNumberInFlight();
      if first.Some? {
        segmentTracker.SetSndUna(first.value);
      } else {
        segmentTracker.ResetSndUna();
      }
    }

    method AckReceived(sn: u32)
      modifies senderBuffer, segmentTracker`sndUna
      ensures Outbox() == Spec.AckReceived(old(Outbox()), sn)
    {
      var should := ShouldAcknowledge(sn);
      if should {
        senderBuffer.Erase(sn);
        UpdateRemoteUna();
      }
    }

    method UnaReceived(una: u32)
      modifies senderBuffer, segmentTracker`sndUna
      ensures Outbox() == Spec.UnaReceived(old(Outbox()), una)
    {
      senderBuffer.EraseBefore(una);
      UpdateRemoteUna();
    }

    method ScheduleAck(sn: u32, ts: u32)
      modifies this
      ensures acklist == old(acklist) + [Acknowledgement(sn, ts)]
    {
      acklist := acklist + [Acknowledgement(sn, ts)];
    }

    method Clear()
      modifies this
      ensures acklist == []
    {
      acklist := [];
    }
  }
}
