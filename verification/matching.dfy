/**
 How the sender's outbox and the receiver's inbox relate to the one stream of fragments that
 the sending application has handed over.
 */
module Matching {
  import opened Words
  import opened Segments
  import opened Receiving
  import opened Sending
  import opened Fragmentation

  // ---------------------------------------------------------------- the outbox

  /** A numbered segment carries the fragment its number names. */
  predicate Carries(seg: Segment, conv: u32, stream: seq<Frag>) {
    && seg.header.sn < |stream|
    && FragOf(seg) == stream[seg.header.sn]
    && Sized(seg)
    && seg.header.conv == conv
    && seg.header.cmd == PUSH
  }

  predicate AllCarry(buf: seq<Segment>, conv: u32, stream: seq<Frag>) {
    forall seg :: seg in buf ==> Carries(seg, conv, stream)
  }

  /** The queue is what remains of the stream from number `from` on. */
  predicate Remaining(queue: seq<Segment>, from: nat, stream: seq<Frag>) {
    && from + |queue| == |stream|
    && forall i :: 0 <= i < |queue| ==> FragOf(queue[i]) == stream[from + i] && Sized(queue[i])
  }

  predicate OutboxMatches(o: Outbox, conv: u32, stream: seq<Frag>) {
    Tracked(o) && AllCarry(o.buf, conv, stream) && Remaining(o.queue, o.nxt, stream)
  }

  lemma UnaMatches(o: Outbox, conv: u32, stream: seq<Frag>, una: u32)
    requires OutboxMatches(o, conv, stream)
    ensures OutboxMatches(UnaReceived(o, una), conv, stream)
    ensures forall x: u32 :: HasSn(UnaReceived(o, una).buf, x) <==> HasSn(o.buf, x) && x >= una
    ensures UnaReceived(o, una).nxt == o.nxt
  {
    EraseBeforeEffect(o.buf, una);
    UnaReceivedTracked(o, una);
    hide Tracked, Sorted, HasSn, EraseBefore, Carries;
  }

  lemma AckMatches(o: Outbox, conv: u32, stream: seq<Frag>, sn: u32)
    requires OutboxMatches(o, conv, stream)
    ensures OutboxMatches(AckReceived(o, sn), conv, stream)
    ensures forall x: u32 :: HasSn(o.buf, x) && x != sn ==> HasSn(AckReceived(o, sn).buf, x)
    ensures !HasSn(AckReceived(o, sn).buf, sn)
    ensures AckReceived(o, sn).nxt == o.nxt
  {
    EraseEffect(o.buf, sn);
    AckReceivedTracked(o, sn);
    hide Sorted, EraseSn, Carries;
  }

  lemma AlikeMatches(o: Outbox, conv: u32, stream: seq<Frag>, buf: seq<Segment>)
    requires OutboxMatches(o, conv, stream) && AllAlike(o.buf, buf)
    ensures OutboxMatches(o.(buf := buf), conv, stream)
    ensures forall x: u32 :: HasSn(buf, x) <==> HasSn(o.buf, x)
  {
    AlikeTracked(o, buf);
    AlikeNumbers(o.buf, buf);
    hide Tracked, Sorted, HasSn;
    forall seg | seg in buf ensures Carries(seg, conv, stream) {
      var i :| 0 <= i < |buf| && buf[i] == seg;
      assert o.buf[i] in o.buf && Alike(o.buf[i], buf[i]);
    }
  }

  lemma AdmitFirstTracked(o: Outbox, k: nat, stamp: Stamp, rto: u32)
    requires Tracked(o) && k <= |o.queue| && o.nxt + k < 0x1_0000_0000
    ensures Tracked(AdmitFirst(o, k, stamp, rto))
    ensures forall x: u32 :: HasSn(AdmitFirst(o, k, stamp, rto).buf, x)
                        <==> HasSn(o.buf, x) || o.nxt <= x < o.nxt + k
  {
    var buf := AdmitFirst(o, k, stamp, rto).buf;
    assert Appended(o.buf, o.nxt, k, buf);
    hide AdmitFirst, Numbered;
    AppendedTracked(o, k, buf);
    AppendedNumbers(o.buf, o.nxt, k, buf);
    hide Appended, HasSn, Sorted;
    assert AdmitFirst(o, k, stamp, rto) == Outbox(o.una, o.nxt + k, buf, o.queue[k..]) by {
      AdmitFirstForm(o, k, stamp, rto);
    }
  }

  lemma AdmitFirstForm(o: Outbox, k: nat, stamp: Stamp, rto: u32)
    requires k <= |o.queue| && o.nxt + k < 0x1_0000_0000
    ensures var o' := AdmitFirst(o, k, stamp, rto);
      o'.una == o.una && o'.nxt == o.nxt + k && o'.queue == o.queue[k..]
  {
  }

  /** `after` is `buf` followed by `k` segments with numbers from `nxt` on. */
  predicate Appended(buf: seq<Segment>, nxt: nat, k: nat, after: seq<Segment>) {
    && |after| == |buf| + k
    && (forall i :: 0 <= i < |buf| ==> after[i] == buf[i])
    && (forall i :: |buf| <= i < |after| ==> after[i].header.sn == nxt + (i - |buf|))
  }

  lemma AppendedTracked(o: Outbox, k: nat, buf: seq<Segment>)
    requires Tracked(o) && Appended(o.buf, o.nxt, k, buf) && o.nxt + k < 0x1_0000_0000 && k <= |o.queue|
    ensures Tracked(Outbox(o.una, o.nxt + k, buf, o.queue[k..]))
  {
    forall i, j | 0 <= i < j < |buf| ensures buf[i].header.sn < buf[j].header.sn {
      assert i < |o.buf| ==> InFlight(o, o.buf[i].header.sn);
    }
  }

  lemma AppendedNumbers(buf: seq<Segment>, nxt: u32, k: nat, after: seq<Segment>)
    requires Appended(buf, nxt, k, after)
    ensures forall x: u32 :: HasSn(after, x) <==> HasSn(buf, x) || nxt <= x < nxt + k
  {
    forall x: u32 | HasSn(buf, x) || nxt <= x < nxt + k ensures HasSn(after, x) {
      if HasSn(buf, x) {
        var i :| 0 <= i < |buf| && buf[i].header.sn == x;
        assert after[i].header.sn == x;
      } else {
        assert after[|buf| + (x - nxt)].header.sn == x;
      }
    }
  }

  lemma AdmitFirstCarries(o: Outbox, k: nat, stamp: Stamp, rto: u32, stream: seq<Frag>)
    requires k <= |o.queue| && o.nxt + k < 0x1_0000_0000
    requires AllCarry(o.buf, stamp.conv, stream) && Remaining(o.queue, o.nxt, stream)
    ensures AllCarry(AdmitFirst(o, k, stamp, rto).buf, stamp.conv, stream)
    ensures Remaining(AdmitFirst(o, k, stamp, rto).queue, o.nxt + k, stream)
  {
    var buf := AdmitFirst(o, k, stamp, rto).buf;
    forall seg | seg in buf ensures Carries(seg, stamp.conv, stream) {
      var i :| 0 <= i < |buf| && buf[i] == seg;
      if i >= |o.buf| {
        var j := i - |o.buf|;
        assert seg == Numbered(o.queue[j], o.nxt + j, stamp, rto);
        assert FragOf(o.queue[j]) == stream[o.nxt + j];
      }
    }
  }

  /** Numbering moves fragments from the queue to the buffer and loses none. */
  lemma AdmitMatches(o: Outbox, cwnd: u32, stamp: Stamp, rto: u32, stream: seq<Frag>)
    requires OutboxMatches(o, stamp.conv, stream)
    ensures OutboxMatches(Admit(o, cwnd, stamp, rto), stamp.conv, stream)
    ensures Admit(o, cwnd, stamp, rto).nxt >= o.nxt && Admit(o, cwnd, stamp, rto).una == o.una
    ensures forall x: u32 :: HasSn(Admit(o, cwnd, stamp, rto).buf, x)
                        <==> HasSn(o.buf, x) || o.nxt <= x < Admit(o, cwnd, stamp, rto).nxt
  {
    AdmitExact(o, cwnd, stamp, rto);
    var k := AdmitCount(o, cwnd);
    hide Admit, AdmitCount;
    AdmitFirstTracked(o, k, stamp, rto);
    AdmitFirstCarries(o, k, stamp, rto, stream);
    hide Tracked, HasSn, AllCarry, Remaining;
  }

  lemma QueueMatches(o: Outbox, conv: u32, stream: seq<Frag>, frags: seq<Frag>)
    requires OutboxMatches(o, conv, stream)
    requires forall i :: 0 <= i < |frags| ==> |frags[i].data| < 0x1_0000_0000
    ensures OutboxMatches(o.(queue := o.queue + QueuedAll(frags)), conv, stream + frags)
  {
    var queue := o.queue + QueuedAll(frags);
    forall i | 0 <= i < |queue| ensures FragOf(queue[i]) == (stream + frags)[o.nxt + i] && Sized(queue[i]) {
      if i >= |o.queue| {
        assert queue[i] == Queued(frags[i - |o.queue|]);
      }
    }
    assert Tracked(o.(queue := queue));
    hide Tracked, HasSn;
  }

  // ---------------------------------------------------------------- the inbox

  /** The receiving side has this segment: consumed, queued or buffered. */
  predicate Held(r: Inbox, sn: u32) {
    sn < r.nxt || HasSn(r.buf, sn)
  }

  /** Buffered segments carry their fragment and lie between rcv_nxt and the sender's snd_nxt. */
  predicate BufferMatches(buf: seq<Segment>, nxt: nat, top: nat, stream: seq<Frag>)
    requires top <= |stream|
  {
    && Sorted(buf)
    && forall i :: 0 <= i < |buf| ==>
         nxt <= buf[i].header.sn < top && FragOf(buf[i]) == stream[buf[i].header.sn] && Sized(buf[i])
  }

  /** The queue continues the stream right after what the application has consumed. */
  predicate QueueContinues(queue: seq<Segment>, consumed: nat, stream: seq<Frag>) {
    && consumed + |queue| <= |stream|
    && forall i :: 0 <= i < |queue| ==> FragOf(queue[i]) == stream[consumed + i] && Sized(queue[i])
  }

  predicate InboxMatches(r: Inbox, stream: seq<Frag>, consumed: nat, top: u32) {
    && consumed + |r.queue| == r.nxt <= top <= |stream|
    && QueueContinues(r.queue, consumed, stream)
    && BufferMatches(r.buf, r.nxt, top, stream)
  }

  lemma MovedBufferMatches(r: Inbox, stream: seq<Frag>, top: u32, k: nat)
    requires top <= |stream| && BufferMatches(r.buf, r.nxt, top, stream) && Consecutive(r, k)
    requires r.nxt <= top
    ensures BufferMatches(r.buf[k..], r.nxt + k, top, stream) && r.nxt + k <= top
  {
    var rest := r.buf[k..];
    if k > 0 {
      assert r.buf[k - 1].header.sn == r.nxt + k - 1;
    }
    forall i | 0 <= i < |rest| ensures rest[i] == r.buf[k + i] && rest[i].header.sn >= r.nxt + k {
      if k > 0 {
        assert r.buf[k - 1].header.sn < r.buf[k + i].header.sn;
      }
    }
    assert Sorted(rest);
    hide Sorted, Consecutive;
  }

  lemma MovedHeld(r: Inbox, k: nat)
    requires Sorted(r.buf) && Consecutive(r, k)
    ensures forall sn: u32 :: Held(Moved(r, k), sn) <==> Held(r, sn)
  {
    forall sn: u32 ensures Held(Moved(r, k), sn) <==> Held(r, sn) {
      if HasSn(r.buf, sn) {
        var i :| 0 <= i < |r.buf| && r.buf[i].header.sn == sn;
        assert i >= k ==> r.buf[k..][i - k].header.sn == sn;
      }
      if r.nxt <= sn < r.nxt + k {
        assert r.buf[sn - r.nxt].header.sn == sn;
      }
      if HasSn(r.buf[k..], sn) {
        var i :| 0 <= i < |r.buf[k..]| && r.buf[k..][i].header.sn == sn;
        assert r.buf[k + i].header.sn == sn;
      }
    }
  }

  lemma MovedQueueContinues(r: Inbox, stream: seq<Frag>, consumed: nat, top: u32, k: nat)
    requires InboxMatches(r, stream, consumed, top) && Consecutive(r, k) && r.nxt + k <= top
    ensures QueueContinues(r.queue + r.buf[..k], consumed, stream)
  {
    var queue := r.queue + r.buf[..k];
    forall i | 0 <= i < |queue| ensures FragOf(queue[i]) == stream[consumed + i] && Sized(queue[i]) {
      if i >= |r.queue| {
        assert queue[i] == r.buf[i - |r.queue|];
      }
    }
  }

  lemma SettleMatches(r: Inbox, stream: seq<Frag>, consumed: nat, top: u32)
    requires InboxMatches(r, stream, consumed, top)
    ensures InboxMatches(Settle(r), stream, consumed, top)
    ensures Settle(r).nxt >= r.nxt && Settle(r).limit == r.limit && Settled(Settle(r))
    ensures forall sn: u32 :: Held(Settle(r), sn) <==> Held(r, sn)
  {
    SettleEffect(r);
    var k := ReadyIn(r);
    hide Settle, ReadyIn, Settled;
    MovedBufferMatches(r, stream, top, k);
    MovedHeld(r, k);
    MovedQueueContinues(r, stream, consumed, top, k);
    hide BufferMatches, QueueContinues, Held;
  }

  lemma InsertedMatches(buf: seq<Segment>, nxt: nat, top: nat, stream: seq<Frag>, seg: Segment)
    requires top <= |stream| && BufferMatches(buf, nxt, top, stream)
    requires nxt <= seg.header.sn < top && FragOf(seg) == stream[seg.header.sn] && Sized(seg)
    ensures BufferMatches(Inserted(buf, seg), nxt, top, stream)
  {
    InsertedSorted(buf, seg);
    InsertedMembers(buf, seg);
    hide Sorted, HasSn;
  }

  /** A PUSH that carries its fragment is held afterwards, whether or not it is a duplicate. */
  lemma EmplaceMatches(r: Inbox, stream: seq<Frag>, consumed: nat, top: u32, seg: Segment)
    requires InboxMatches(r, stream, consumed, top)
    requires r.nxt <= seg.header.sn < top && FragOf(seg) == stream[seg.header.sn] && Sized(seg)
    ensures InboxMatches(Emplace(r, seg), stream, consumed, top)
    ensures Emplace(r, seg).nxt >= r.nxt && Emplace(r, seg).limit == r.limit
    ensures Emplace(r, seg) == r || Settled(Emplace(r, seg))
    ensures forall sn: u32 :: Held(Emplace(r, seg), sn) <==> Held(r, sn) || sn == seg.header.sn
  {
    DuplicateTestExact(r.buf, seg.header.sn);
    InsertedMembers(r.buf, seg);
    InsertedMatches(r.buf, r.nxt, top, stream, seg);
    var inserted := r.(buf := Inserted(r.buf, seg));
    hide BufferMatches, QueueContinues, Sorted, Settled, InsertPos;
    if !HasSn(r.buf, seg.header.sn) {
      SettleMatches(inserted, stream, consumed, top);
    }
  }

  /** Reading the front `n` segments moves the boundary between consumed and queued. */
  lemma ConsumeMatches(r: Inbox, stream: seq<Frag>, consumed: nat, top: u32, n: nat)
    requires InboxMatches(r, stream, consumed, top) && n <= |r.queue|
    ensures InboxMatches(r.(queue := r.queue[n..]), stream, consumed + n, top)
  {
    hide BufferMatches;
  }

  lemma InboxMatchesMore(r: Inbox, stream: seq<Frag>, consumed: nat, top: u32, stream': seq<Frag>, top': u32)
    requires InboxMatches(r, stream, consumed, top)
    requires stream <= stream' && top <= top' <= |stream'|
    ensures InboxMatches(r, stream', consumed, top')
  {
  }
}
