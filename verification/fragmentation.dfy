/** Splitting a message into numbered fragments, and getting it back from the receive queue. */
module Fragmentation {
  import opened Words
  import opened Segments
  import opened Congestion
  import opened Receiving

  const MAX_FRAGMENTS: u32 := 255

  function SegmentCount(size: nat, mss: Mss): nat {
    Max(1, Ceiling(size, mss))
  }

  /** The largest payload one send() takes. */
  function MaxPayload(rcvWnd: u32, mss: Mss): nat {
    Bytes(Min(rcvWnd, MAX_FRAGMENTS), mss)
  }

  /** The checks of send(), in order. */
  function SendError(size: nat, rcvWnd: u32, mss: Mss): Option<Error> {
    if size == 0 then Some(BufferTooSmall)
    else if SegmentCount(size, mss) > MAX_FRAGMENTS then Some(TooManyFragments)
    else if SegmentCount(size, mss) > rcvWnd then Some(ExceedsWindowSize)
    else None
  }

  /** The fragments of a message, each carrying the number of fragments that follow it. */
  function Fragments(msg: seq<u8>, mss: Mss): (frags: seq<Frag>)
    ensures frags != []
    decreases |msg|
  {
    if |msg| <= mss then [Frag(0, msg)]
    else
      var rest := Fragments(msg[mss..], mss);
      [Frag(|rest| % 0x100, msg[..mss])] + rest
  }

  /** A fragment as send() leaves it in the send queue. */
  function Queued(frag: Frag): Segment {
    Segment(Header(0, 0, frag.frg, 0, 0, 0, 0, Wrap32(|frag.data|)), frag.data, NEW_METADATA)
  }

  function QueuedAll(frags: seq<Frag>): seq<Segment> {
    seq(|frags|, i requires 0 <= i < |frags| => Queued(frags[i]))
  }

  /** All fragments of a sequence of messages. */
  function Stream(msgs: seq<seq<u8>>, mss: Mss): seq<Frag> {
    if msgs == [] then []
    else Stream(msgs[..|msgs| - 1], mss) + Fragments(msgs[|msgs| - 1], mss)
  }

  function JoinedFrags(frags: seq<Frag>): seq<u8> {
    if frags == [] then [] else frags[0].data + JoinedFrags(frags[1..])
  }

  // ---------------------------------------------------------------- send()

  lemma CeilingStep(x: nat, mss: Mss)
    requires x > mss
    ensures Ceiling(x, mss) == Ceiling(x - mss, mss) + 1
  {
    var q := Ceiling(x - mss, mss);
    assert q * mss <= x - 1 < q * mss + mss;
    ProductOrder(q + 1, q + 1, mss);
    assert (q + 1) * mss == q * mss + mss && (q + 2) * mss == q * mss + 2 * mss;
    QuotientAtLeast(x + mss - 1, mss, q + 1);
    QuotientBelow(x + mss - 1, mss, q + 2);
  }

  lemma CeilingWithin(x: nat, mss: Mss, n: nat)
    ensures Ceiling(x, mss) <= n <==> x <= Bytes(n, mss)
  {
    BytesSteps(n, mss);
    if x <= Bytes(n, mss) {
      QuotientBelow(x + mss - 1, mss, n + 1);
    } else {
      QuotientAtLeast(x + mss - 1, mss, n + 1);
    }
  }

  /** send() accepts exactly the payloads estimate_max_payload_size() announces. */
  lemma SendAcceptsExactly(size: nat, rcvWnd: u32, mss: Mss)
    requires rcvWnd >= 1
    ensures SendError(size, rcvWnd, mss) == None <==> 0 < size <= MaxPayload(rcvWnd, mss)
  {
    hide Bytes, Ceiling;
    CeilingWithin(size, mss, Min(rcvWnd, MAX_FRAGMENTS));
  }

  /** Why send() refuses: nothing to send, more than 255 fragments, or more than the receive window. */
  lemma SendErrorsExactly(size: nat, rcvWnd: u32, mss: Mss)
    requires rcvWnd >= 1
    ensures SendError(size, rcvWnd, mss)
         == if size == 0 then Some(BufferTooSmall)
            else if size > Bytes(255, mss) then Some(TooManyFragments)
            else if size > Bytes(rcvWnd, mss) then Some(ExceedsWindowSize)
            else None
  {
    hide Bytes, Ceiling;
    CeilingWithin(size, mss, MAX_FRAGMENTS);
    CeilingWithin(size, mss, rcvWnd);
  }

  lemma {:induction false} FragmentCount(msg: seq<u8>, mss: Mss)
    ensures |Fragments(msg, mss)| == SegmentCount(|msg|, mss)
    decreases |msg|
  {
    if |msg| <= mss {
      CeilingWithin(|msg|, mss, 1);
      BytesSteps(0, mss);
    } else {
      FragmentCount(msg[mss..], mss);
      CeilingStep(|msg|, mss);
      CeilingWithin(|msg| - mss, mss, 0);
      BytesSteps(0, mss);
      hide Ceiling;
    }
  }

  /** Fragments count down to 0, are non-empty, fit a segment, and join to the message. */
  lemma {:induction false} FragmentsExact(msg: seq<u8>, mss: Mss)
    requires msg != [] && |Fragments(msg, mss)| <= 0x100
    ensures JoinedFrags(Fragments(msg, mss)) == msg
    ensures forall i :: 0 <= i < |Fragments(msg, mss)| ==>
              var f := Fragments(msg, mss)[i];
              f.frg == |Fragments(msg, mss)| - 1 - i && 0 < |f.data| <= mss
    decreases |msg|
  {
    var frags := Fragments(msg, mss);
    if |msg| <= mss {
      assert JoinedFrags(frags[1..]) == [];
    } else {
      FragmentsExact(msg[mss..], mss);
      assert frags[1..] == Fragments(msg[mss..], mss);
      assert msg == msg[..mss] + msg[mss..];
    }
  }

  // ---------------------------------------------------------------- reassembly

  /** The queue starts with as many of these fragments as it holds. */
  predicate StartsWith(queue: seq<Segment>, frags: seq<Frag>) {
    forall i :: 0 <= i < |queue| && i < |frags| ==> FragOf(queue[i]) == frags[i]
  }

  lemma {:induction false} SpanIs(queue: seq<Segment>, n: nat)
    requires 1 <= n <= |queue| && queue[n - 1].header.frg == 0
    requires forall i :: 0 <= i < n - 1 ==> queue[i].header.frg != 0
    ensures SpanLength(queue) == n
  {
    if n > 1 {
      assert queue[0].header.frg != 0;
      SpanIs(queue[1..], n - 1);
    }
  }

  lemma {:induction false} JoinedMatches(segs: seq<Segment>, frags: seq<Frag>)
    requires |segs| == |frags| && StartsWith(segs, frags)
    ensures Joined(segs) == JoinedFrags(frags)
  {
    if segs != [] {
      assert FragOf(segs[0]) == frags[0];
      JoinedMatches(segs[1..], frags[1..]);
    }
  }

  lemma MessageSpan(queue: seq<Segment>, msg: seq<u8>, mss: Mss)
    requires msg != [] && |Fragments(msg, mss)| <= 0x100
    requires AllSized(queue) && StartsWith(queue, Fragments(msg, mss))
    requires |queue| >= |Fragments(msg, mss)|
    ensures var n := |Fragments(msg, mss)|;
      && SpanLength(queue) == n
      && Joined(queue[..n]) == msg
      && queue[n - 1].header.len > 0
  {
    var frags := Fragments(msg, mss);
    var n := |frags|;
    FragmentsExact(msg, mss);
    forall i | 0 <= i < n ensures queue[i].header.frg == n - 1 - i {
      assert FragOf(queue[i]) == frags[i];
    }
    hide Fragments;
    SpanIs(queue, n);
    JoinedMatches(queue[..n], frags);
    assert FragOf(queue[n - 1]) == frags[n - 1] && Sized(queue[n - 1]);
  }

  /**
   Reassembly: over a queue that starts at a message boundary, peek_size() succeeds exactly when
   the whole message is queued, and recv() then takes exactly its fragments and returns it.
   */
  lemma Reassembly(r: Inbox, msg: seq<u8>, mss: Mss)
    requires msg != [] && |Fragments(msg, mss)| <= 0x100
    requires r.queue != [] && AllSized(r.queue) && StartsWith(r.queue, Fragments(msg, mss))
    ensures PeekSize(r).Ok? <==> |r.queue| >= |Fragments(msg, mss)|
    ensures PeekSize(r).Ok? ==>
      && PeekSize(r).value == |msg|
      && TakeCount(r.queue, |msg|) == |Fragments(msg, mss)|
      && Joined(r.queue[..|Fragments(msg, mss)|]) == msg
  {
    var n := |Fragments(msg, mss)|;
    FragmentsExact(msg, mss);
    assert FragOf(r.queue[0]) == Fragments(msg, mss)[0];
    hide Fragments;
    if |r.queue| >= n {
      MessageSpan(r.queue, msg, mss);
      JoinedLength(r.queue[..n]);
      WholeSpanTaken(r.queue);
    }
  }

  lemma {:induction false} StreamAppend(msgs: seq<seq<u8>>, msg: seq<u8>, mss: Mss)
    ensures Stream(msgs + [msg], mss) == Stream(msgs, mss) + Fragments(msg, mss)
  {
    assert (msgs + [msg])[..|msgs|] == msgs;
  }

  lemma {:induction false} StreamPrefix(msgs: seq<seq<u8>>, k: nat, mss: Mss)
    requires k <= |msgs|
    ensures Stream(msgs[..k], mss) <= Stream(msgs, mss)
    decreases |msgs| - k
  {
    if k < |msgs| {
      StreamPrefix(msgs, k + 1, mss);
      assert msgs[..k + 1][..k] == msgs[..k];
    } else {
      assert msgs[..k] == msgs;
    }
  }
}
