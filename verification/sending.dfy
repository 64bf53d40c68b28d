/**
 What the sending side keeps: the queue of fragments not yet numbered, the buffer of numbered
 segments not yet acknowledged, and the two counters snd_una and snd_nxt.
 */
module Sending {
  import opened Words
  import opened Segments

  datatype Outbox = Outbox(una: u32, nxt: u32, buf: seq<Segment>, queue: seq<Segment>)

  const EMPTY_OUTBOX := Outbox(0, 0, [], [])

  // ---------------------------------------------------------------- early-exit scans

  /** erase: stops at the number, or at the first larger one. */
  function EraseSn(buf: seq<Segment>, sn: u32): seq<Segment> {
    if buf == [] || sn < buf[0].header.sn then buf
    else if sn == buf[0].header.sn then buf[1..]
    else [buf[0]] + EraseSn(buf[1..], sn)
  }

  /** erase_before: drops segments from the front while they are smaller. */
  function EraseBefore(buf: seq<Segment>, sn: u32): seq<Segment> {
    if buf == [] || sn <= buf[0].header.sn then buf
    else EraseBefore(buf[1..], sn)
  }

  function Bump(seg: Segment): Segment {
    seg.(meta := seg.meta.(fastack := Wrap32(seg.meta.fastack + 1)))
  }

  /** increment_fastack_before: bumps segments from the front while they are smaller. */
  function BumpBefore(buf: seq<Segment>, sn: u32): (r: seq<Segment>)
    ensures |r| == |buf|
  {
    if buf == [] || buf[0].header.sn >= sn then buf
    else [Bump(buf[0])] + BumpBefore(buf[1..], sn)
  }

  /** The whole-buffer filter the scans are meant to compute. */
  function Keep(segs: seq<Segment>, p: Segment -> bool): seq<Segment> {
    if segs == [] then []
    else (if p(segs[0]) then [segs[0]] else []) + Keep(segs[1..], p)
  }

  lemma {:induction false} KeepAll(segs: seq<Segment>, p: Segment -> bool)
    requires forall i :: 0 <= i < |segs| ==> p(segs[i])
    ensures Keep(segs, p) == segs
  {
    if segs != [] {
      KeepAll(segs[1..], p);
    }
  }

  lemma SortedTail(buf: seq<Segment>)
    requires Sorted(buf) && buf != []
    ensures Sorted(buf[1..])
    ensures forall i :: 0 <= i < |buf[1..]| ==> buf[1..][i].header.sn > buf[0].header.sn
  {
  }

  /** On a sorted buffer each scan computes the plain filter, or map, over the whole buffer. */
  lemma {:induction false} EraseIsFilter(buf: seq<Segment>, sn: u32)
    requires Sorted(buf)
    ensures EraseSn(buf, sn) == Keep(buf, (seg: Segment) => seg.header.sn != sn)
  {
    if buf != [] {
      SortedTail(buf);
      if sn <= buf[0].header.sn {
        KeepAll(buf[1..], (seg: Segment) => seg.header.sn != sn);
      } else {
        EraseIsFilter(buf[1..], sn);
      }
    }
  }

  lemma {:induction false} EraseBeforeIsFilter(buf: seq<Segment>, sn: u32)
    requires Sorted(buf)
    ensures EraseBefore(buf, sn) == Keep(buf, (seg: Segment) => seg.header.sn >= sn)
  {
    if buf != [] {
      SortedTail(buf);
      if sn <= buf[0].header.sn {
        KeepAll(buf, (seg: Segment) => seg.header.sn >= sn);
      } else {
        EraseBeforeIsFilter(buf[1..], sn);
      }
    }
  }

  lemma {:induction false} BumpIsMap(buf: seq<Segment>, sn: u32)
    requires Sorted(buf)
    ensures forall i :: 0 <= i < |buf| ==>
      BumpBefore(buf, sn)[i] == if buf[i].header.sn < sn then Bump(buf[i]) else buf[i]
  {
    if buf != [] {
      SortedTail(buf);
      BumpIsMap(buf[1..], sn);
    }
  }

  // ---------------------------------------------------------------- acknowledgements

  function FirstUnacked(buf: seq<Segment>, nxt: u32): u32 {
    if buf == [] then nxt else buf[0].header.sn
  }

  predicate InFlight(o: Outbox, sn: u32) {
    o.una <= sn < o.nxt
  }

  function Refreshed(o: Outbox, buf: seq<Segment>): Outbox {
    o.(buf := buf, una := FirstUnacked(buf, o.nxt))
  }

  function UnaReceived(o: Outbox, una: u32): Outbox {
    Refreshed(o, EraseBefore(o.buf, una))
  }

  function AckReceived(o: Outbox, sn: u32): Outbox {
    if InFlight(o, sn) then Refreshed(o, EraseSn(o.buf, sn)) else o
  }

  /** The largest acknowledged number of one datagram; 0xffffffff stands for none yet. */
  datatype FastAck = FastAck(maxack: u32, latestTs: u32)

  const NO_ACK: u32 := 0xFFFF_FFFF
  const NO_FAST_ACK := FastAck(NO_ACK, NO_ACK)

  function FastAckUpdate(f: FastAck, sn: u32, ts: u32): FastAck {
    if f.maxack != NO_ACK && sn <= f.maxack then f else FastAck(sn, ts)
  }

  function AcknowledgeFast(o: Outbox, f: FastAck): Outbox {
    if f.maxack == NO_ACK || !InFlight(o, f.maxack) then o
    else o.(buf := BumpBefore(o.buf, f.maxack))
  }

  /** snd_buf is strictly increasing within [snd_una, snd_nxt), and snd_una is its front. */
  predicate Tracked(o: Outbox) {
    && Sorted(o.buf)
    && o.una <= o.nxt
    && o.una == FirstUnacked(o.buf, o.nxt)
    && forall i :: 0 <= i < |o.buf| ==> InFlight(o, o.buf[i].header.sn)
  }

  /** Every element of `after` was in `before`. */
  predicate Within(after: seq<Segment>, before: seq<Segment>) {
    forall seg :: seg in after ==> seg in before
  }

  lemma {:induction false} EraseBeforeEffect(buf: seq<Segment>, sn: u32)
    requires Sorted(buf)
    ensures Sorted(EraseBefore(buf, sn)) && Within(EraseBefore(buf, sn), buf)
    ensures forall x: u32 :: HasSn(EraseBefore(buf, sn), x) <==> HasSn(buf, x) && x >= sn
  {
    if buf != [] && sn > buf[0].header.sn {
      SortedTail(buf);
      EraseBeforeEffect(buf[1..], sn);
      HasSnSplit(buf);
    } else {
      forall x: u32 | HasSn(buf, x) ensures x >= sn {
        var i :| 0 <= i < |buf| && buf[i].header.sn == x;
      }
    }
  }

  lemma HasSnSplit(buf: seq<Segment>)
    requires buf != []
    ensures forall x: u32 :: HasSn(buf, x) <==> x == buf[0].header.sn || HasSn(buf[1..], x)
  {
    forall x: u32 | HasSn(buf[1..], x) ensures HasSn(buf, x) {
      var i :| 0 <= i < |buf[1..]| && buf[1..][i].header.sn == x;
      assert buf[i + 1].header.sn == x;
    }
    forall x: u32 | HasSn(buf, x) && x != buf[0].header.sn ensures HasSn(buf[1..], x) {
      var i :| 0 <= i < |buf| && buf[i].header.sn == x;
      assert buf[1..][i - 1].header.sn == x;
    }
  }

  lemma SortedCons(seg: Segment, rest: seq<Segment>)
    requires Sorted(rest)
    requires forall i :: 0 <= i < |rest| ==> seg.header.sn < rest[i].header.sn
    ensures Sorted([seg] + rest)
  {
  }

  lemma {:induction false} EraseEffect(buf: seq<Segment>, sn: u32)
    requires Sorted(buf)
    ensures Sorted(EraseSn(buf, sn)) && Within(EraseSn(buf, sn), buf)
    ensures forall x: u32 :: HasSn(EraseSn(buf, sn), x) <==> HasSn(buf, x) && x != sn
  {
    if buf == [] {
    } else if sn < buf[0].header.sn {
      assert forall x: u32 :: HasSn(buf, x) ==> x != sn;
    } else {
      SortedTail(buf);
      HasSnSplit(buf);
      if sn == buf[0].header.sn {
        assert forall x: u32 :: HasSn(buf[1..], x) ==> x != sn;
      } else {
        EraseEffect(buf[1..], sn);
        FrontStays(buf, EraseSn(buf[1..], sn));
        hide HasSn, Sorted;
      }
    }
  }

  lemma FrontStays(buf: seq<Segment>, rest: seq<Segment>)
    requires buf != [] && Sorted(buf) && Sorted(rest) && Within(rest, buf[1..])
    ensures Sorted([buf[0]] + rest) && Within([buf[0]] + rest, buf)
    ensures forall x: u32 :: HasSn([buf[0]] + rest, x) <==> x == buf[0].header.sn || HasSn(rest, x)
  {
    forall i | 0 <= i < |rest| ensures buf[0].header.sn < rest[i].header.sn {
      assert rest[i] in buf[1..];
    }
    SortedCons(buf[0], rest);
    HasSnSplit([buf[0]] + rest);
    assert ([buf[0]] + rest)[1..] == rest;
  }

  lemma RefreshTracked(o: Outbox, buf: seq<Segment>)
    requires Tracked(o) && Sorted(buf) && Within(buf, o.buf)
    ensures Tracked(Refreshed(o, buf)) && Refreshed(o, buf).una >= o.una
  {
    forall i | 0 <= i < |buf| ensures InFlight(Refreshed(o, buf), buf[i].header.sn) {
      assert buf[i] in o.buf;
      assert i == 0 || buf[0].header.sn < buf[i].header.sn;
    }
    if buf != [] {
      assert buf[0] in o.buf;
    }
  }

  /** Acknowledgements keep the buffer tracked and never move snd_una back. */
  lemma UnaReceivedTracked(o: Outbox, una: u32)
    requires Tracked(o)
    ensures Tracked(UnaReceived(o, una)) && UnaReceived(o, una).una >= o.una
  {
    EraseBeforeEffect(o.buf, una);
    RefreshTracked(o, EraseBefore(o.buf, una));
  }

  lemma AckReceivedTracked(o: Outbox, sn: u32)
    requires Tracked(o)
    ensures Tracked(AckReceived(o, sn)) && AckReceived(o, sn).una >= o.una
  {
    EraseEffect(o.buf, sn);
    RefreshTracked(o, EraseSn(o.buf, sn));
  }

  /** Same numbers, payloads and addressing; only transmission state may differ. */
  predicate Alike(a: Segment, b: Segment) {
    && a.header.sn == b.header.sn && a.header.frg == b.header.frg && a.data == b.data
    && a.header.len == b.header.len && a.header.conv == b.header.conv && a.header.cmd == b.header.cmd
  }

  predicate AllAlike(a: seq<Segment>, b: seq<Segment>) {
    |a| == |b| && forall i :: 0 <= i < |a| ==> Alike(a[i], b[i])
  }

  lemma AlikeNumbers(a: seq<Segment>, b: seq<Segment>)
    requires AllAlike(a, b)
    ensures Sorted(a) ==> Sorted(b)
    ensures forall x: u32 :: HasSn(a, x) <==> HasSn(b, x)
  {
    forall x: u32 | HasSn(a, x) ensures HasSn(b, x) {
      var i :| 0 <= i < |a| && a[i].header.sn == x;
      assert b[i].header.sn == x;
    }
  }

  lemma {:induction false} BumpAlike(buf: seq<Segment>, sn: u32)
    ensures AllAlike(buf, BumpBefore(buf, sn))
  {
    if buf != [] {
      BumpAlike(buf[1..], sn);
    }
  }

  lemma AlikeTracked(o: Outbox, buf: seq<Segment>)
    requires Tracked(o) && AllAlike(o.buf, buf)
    ensures Tracked(o.(buf := buf))
  {
    AlikeNumbers(o.buf, buf);
  }

  // ---------------------------------------------------------------- numbering

  /** What a flush writes into every header it emits. */
  datatype Stamp = Stamp(conv: u32, wnd: u16, ts: u32, una: u32)

  function Numbered(seg: Segment, sn: u32, stamp: Stamp, rto: u32): Segment {
    Segment(
      Header(stamp.conv, PUSH, seg.header.frg, stamp.wnd, stamp.ts, sn, stamp.una, seg.header.len),
      seg.data,
      Metadata(stamp.ts, rto, 0, 0))
  }

  /** move_send_queue_to_buffer. */
  function Admit(o: Outbox, cwnd: u32, stamp: Stamp, rto: u32): Outbox
    decreases |o.queue|
  {
    if o.queue == [] || o.nxt >= Wrap32(o.una + cwnd) then o
    else
      Admit(Outbox(o.una, Wrap32(o.nxt + 1), o.buf + [Numbered(o.queue[0], o.nxt, stamp, rto)],
                   o.queue[1..]), cwnd, stamp, rto)
  }

  /** How many fragments a flush may number; none once snd_una + cwnd no longer fits a u32. */
  function AdmitCount(o: Outbox, cwnd: u32): nat
    requires o.una <= o.nxt
  {
    if o.una + cwnd >= 0x1_0000_0000 then 0
    else Min(|o.queue|, Max(0, o.una + cwnd - o.nxt))
  }

  /** The buffer and counters after numbering the first `k` queued fragments. */
  function AdmitFirst(o: Outbox, k: nat, stamp: Stamp, rto: u32): Outbox
    requires k <= |o.queue| && o.nxt + k < 0x1_0000_0000
  {
    Outbox(o.una, o.nxt + k,
           o.buf + seq(k, i requires 0 <= i < k => Numbered(o.queue[i], o.nxt + i, stamp, rto)),
           o.queue[k..])
  }

  lemma AdmitFirstStep(o: Outbox, k: nat, stamp: Stamp, rto: u32)
    requires o.queue != [] && k < |o.queue| && o.nxt + 1 + k < 0x1_0000_0000
    ensures AdmitFirst(AdmitOne(o, stamp, rto), k, stamp, rto) == AdmitFirst(o, k + 1, stamp, rto)
  {
    hide Numbered;
  }

  /**
   Window admission: a flush numbers exactly min(|snd_queue|, max(0, snd_una + cwnd - snd_nxt))
   fragments, in queue order, with consecutive numbers. snd_nxt never wraps: the plain
   comparison with the wrapped bound stops numbering instead.
   */
  lemma {:induction false} AdmitExact(o: Outbox, cwnd: u32, stamp: Stamp, rto: u32)
    requires o.una <= o.nxt
    ensures var k := AdmitCount(o, cwnd);
      o.nxt + k < 0x1_0000_0000 && Admit(o, cwnd, stamp, rto) == AdmitFirst(o, k, stamp, rto)
    decreases |o.queue|
  {
    AdmitStep(o, cwnd, stamp, rto);
    hide Admit, Numbered, AdmitCount, AdmitFirst, Wrap32;
    if !(o.queue == [] || o.nxt >= Wrap32(o.una + cwnd)) {
      var next := AdmitOne(o, stamp, rto);
      AdmitExact(next, cwnd, stamp, rto);
      AdmitFirstStep(o, AdmitCount(next, cwnd), stamp, rto);
    }
  }

  /** The outbox after numbering one fragment. */
  function AdmitOne(o: Outbox, stamp: Stamp, rto: u32): Outbox
    requires o.queue != [] && o.nxt < 0xFFFF_FFFF
  {
    Outbox(o.una, o.nxt + 1, o.buf + [Numbered(o.queue[0], o.nxt, stamp, rto)], o.queue[1..])
  }

  lemma AdmitStep(o: Outbox, cwnd: u32, stamp: Stamp, rto: u32)
    requires o.una <= o.nxt
    ensures if o.queue == [] || o.nxt >= Wrap32(o.una + cwnd)
            then
              && AdmitCount(o, cwnd) == 0
              && Admit(o, cwnd, stamp, rto) == o == AdmitFirst(o, 0, stamp, rto)
            else
              && o.nxt < 0xFFFF_FFFF
              && AdmitCount(o, cwnd) == AdmitCount(AdmitOne(o, stamp, rto), cwnd) + 1
              && Admit(o, cwnd, stamp, rto) == Admit(AdmitOne(o, stamp, rto), cwnd, stamp, rto)
  {
    AdmitNone(o, stamp, rto);
    AdmitBound(o.una, cwnd);
    hide Numbered, AdmitFirst, Wrap32;
    if !(o.queue == [] || o.nxt >= Wrap32(o.una + cwnd)) {
      WrapSmall(o.nxt + 1);
    }
  }

  lemma AdmitNone(o: Outbox, stamp: Stamp, rto: u32)
    ensures AdmitFirst(o, 0, stamp, rto) == o
  {
  }

  /** Once snd_una + cwnd wraps, the bound lies below snd_una. */
  lemma AdmitBound(una: u32, cwnd: u32)
    ensures Wrap32(una + cwnd) == if una + cwnd < 0x1_0000_0000 then una + cwnd else una + cwnd - 0x1_0000_0000
  {
  }
}
