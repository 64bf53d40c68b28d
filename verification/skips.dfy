/** Fast retransmit: which segments a datagram's acknowledgements skip, and by how much. */
module Skips {
  import opened Words
  import opened Segments
  import opened Codec
  import opened Sending
  import opened Congestion
  import opened Packing
  import opened Endpoints
  import opened Links
  import opened Laws

  /** No acknowledgement of this datagram carries the reserved number. */
  predicate NoSentinel(ps: seq<Packet>) {
    forall i :: 0 <= i < |ps| && ps[i].header.cmd == ACK ==> ps[i].header.sn != NO_ACK
  }

  predicate IsLargestAck(ps: seq<Packet>, sn: u32) {
    && (exists i :: 0 <= i < |ps| && ps[i].header.cmd == ACK && ps[i].header.sn == sn)
    && (forall i :: 0 <= i < |ps| && ps[i].header.cmd == ACK ==> ps[i].header.sn <= sn)
  }

  predicate NoAcks(ps: seq<Packet>) {
    forall i :: 0 <= i < |ps| ==> ps[i].header.cmd != ACK
  }

  lemma {:induction false} FastAcksFrom(f: FastAck, ps: seq<Packet>)
    requires NoSentinel(ps) && f.maxack != NO_ACK
    ensures var g := FastAcks(f, ps);
      && g.maxack != NO_ACK && g.maxack >= f.maxack
      && (g.maxack == f.maxack || exists i :: 0 <= i < |ps| && ps[i].header.cmd == ACK && ps[i].header.sn == g.maxack)
      && (forall i :: 0 <= i < |ps| && ps[i].header.cmd == ACK ==> ps[i].header.sn <= g.maxack)
    decreases |ps|
  {
    if ps != [] {
      var f' := if ps[0].header.cmd == ACK then FastAckUpdate(f, ps[0].header.sn, ps[0].header.ts) else f;
      FastAcksFrom(f', ps[1..]);
      var g := FastAcks(f', ps[1..]);
      if g.maxack != f'.maxack {
        var i :| 0 <= i < |ps[1..]| && ps[1..][i].header.cmd == ACK && ps[1..][i].header.sn == g.maxack;
        assert ps[i + 1] == ps[1..][i];
      }
      forall i | 0 <= i < |ps| && ps[i].header.cmd == ACK ensures ps[i].header.sn <= g.maxack {
        if i > 0 {
          assert ps[1..][i - 1] == ps[i];
        }
      }
    }
  }

  /** In whatever order they come, the fold over a datagram finds its largest acknowledgement. */
  lemma {:induction false} FastAcksLargest(ps: seq<Packet>)
    requires NoSentinel(ps)
    ensures var g := FastAcks(NO_FAST_ACK, ps);
      if NoAcks(ps) then g.maxack == NO_ACK else IsLargestAck(ps, g.maxack) && g.maxack != NO_ACK
    decreases |ps|
  {
    if ps != [] {
      if ps[0].header.cmd == ACK {
        var f := FastAck(ps[0].header.sn, ps[0].header.ts);
        FastAcksFrom(f, ps[1..]);
        var g := FastAcks(f, ps[1..]);
        assert FastAcks(NO_FAST_ACK, ps) == g;
        if g.maxack != f.maxack {
          var i :| 0 <= i < |ps[1..]| && ps[1..][i].header.cmd == ACK && ps[1..][i].header.sn == g.maxack;
          assert ps[i + 1] == ps[1..][i];
        }
        forall i | 0 <= i < |ps| && ps[i].header.cmd == ACK ensures ps[i].header.sn <= g.maxack {
          if i > 0 {
            assert ps[1..][i - 1] == ps[i];
          }
        }
      } else {
        var g := FastAcks(NO_FAST_ACK, ps[1..]);
        FastAcksLargest(ps[1..]);
        assert NoAcks(ps) <==> NoAcks(ps[1..]);
        if !NoAcks(ps) {
          LargestAckCons(ps, g.maxack);
        }
      }
    }
  }

  lemma LargestAckCons(ps: seq<Packet>, sn: u32)
    requires ps != [] && ps[0].header.cmd != ACK && IsLargestAck(ps[1..], sn)
    ensures IsLargestAck(ps, sn)
  {
    var i :| 0 <= i < |ps[1..]| && ps[1..][i].header.cmd == ACK && ps[1..][i].header.sn == sn;
    assert ps[i + 1] == ps[1..][i];
    forall i | 0 <= i < |ps| && ps[i].header.cmd == ACK ensures ps[i].header.sn <= sn {
      assert ps[1..][i - 1] == ps[i];
    }
  }

  // ---------------------------------------------------------------- the reserved number

  /** The packets after the last ACK that carries the reserved number. */
  function SinceReserved(ps: seq<Packet>): seq<Packet> {
    if ps == [] then []
    else
      var last := |ps| - 1;
      if ps[last].header.cmd == ACK && ps[last].header.sn == NO_ACK then []
      else SinceReserved(ps[..last]) + [ps[last]]
  }

  lemma {:induction false} FastAcksAppend(f: FastAck, ps: seq<Packet>, p: Packet)
    ensures FastAcks(f, ps + [p]) == FastAckStep(FastAcks(f, ps), p)
    decreases |ps|
  {
    if ps == [] {
      assert (ps + [p])[1..] == [] && ps + [p] == [p];
    } else {
      assert (ps + [p])[1..] == ps[1..] + [p];
      FastAcksAppend(FastAckStep(f, ps[0]), ps[1..], p);
    }
  }

  lemma {:induction false} SinceReservedClean(ps: seq<Packet>)
    ensures NoSentinel(SinceReserved(ps))
    ensures NoSentinel(ps) ==> SinceReserved(ps) == ps
  {
    if ps != [] {
      SinceReservedClean(ps[..|ps| - 1]);
    }
  }

  /** An ACK with the reserved number makes the fold forget everything before it. */
  lemma {:induction false} FastAcksForget(ps: seq<Packet>)
    ensures FastAcks(NO_FAST_ACK, ps).maxack == FastAcks(NO_FAST_ACK, SinceReserved(ps)).maxack
  {
    if ps != [] {
      var last := |ps| - 1;
      assert ps == ps[..last] + [ps[last]];
      FastAcksAppend(NO_FAST_ACK, ps[..last], ps[last]);
      FastAcksAppend(NO_FAST_ACK, SinceReserved(ps[..last]), ps[last]);
      FastAcksForget(ps[..last]);
      hide FastAcks;
      assert FastAcks(NO_FAST_ACK, []).maxack == NO_ACK by {
        FastAcksNone();
      }
    }
  }

  lemma FastAcksNone()
    ensures FastAcks(NO_FAST_ACK, []) == NO_FAST_ACK
  {
  }

  /**
   What the fold over the ACKs of a datagram finds, for every datagram: the largest ACK after the
   last one that carries the reserved number, whatever their order, or none.
   */
  lemma FastAcksExact(ps: seq<Packet>)
    ensures var g, rest := FastAcks(NO_FAST_ACK, ps), SinceReserved(ps);
      if NoAcks(rest) then g.maxack == NO_ACK else IsLargestAck(rest, g.maxack) && g.maxack != NO_ACK
  {
    FastAcksForget(ps);
    SinceReservedClean(ps);
    FastAcksLargest(SinceReserved(ps));
  }

  // ---------------------------------------------------------------- which segments are skipped

  /**
   Fast retransmit: after a datagram whose largest acknowledgement is `largest`, a remaining
   segment's fastack has risen by one exactly when its number is below it and it is below snd_nxt.
   */
  lemma SkippedExactly(o: Outbox, largest: FastAck, i: nat)
    requires Tracked(o) && largest.maxack != NO_ACK && i < |o.buf|
    ensures |AcknowledgeFast(o, largest).buf| == |o.buf|
    ensures AcknowledgeFast(o, largest).buf[i]
         == if o.buf[i].header.sn < largest.maxack < o.nxt then Bump(o.buf[i]) else o.buf[i]
  {
    BumpIsMap(o.buf, largest.maxack);
    assert InFlight(o, o.buf[i].header.sn);
    assert o.una <= o.buf[i].header.sn;
  }

  /** The rule of one datagram for one segment. */
  predicate Skipped(ps: seq<Packet>, sn: u32, nxt: u32) {
    exists largest: u32 :: IsLargestAck(ps, largest) && sn < largest < nxt
  }

  lemma SkippedByLargest(ps: seq<Packet>, largest: u32, sn: u32, nxt: u32)
    requires IsLargestAck(ps, largest)
    ensures Skipped(ps, sn, nxt) <==> sn < largest < nxt
  {
    if other: u32 :| IsLargestAck(ps, other) && sn < other < nxt {
      assert other == largest;
    }
  }

  /**
   A successful input(), on arbitrary bytes, leaves the segments its packets did not acknowledge,
   and raises fastack by one on exactly those below the largest ACK, after the last reserved one,
   of the datagram, when that is below snd_nxt.
   */
  lemma InputSkipsExactly(e: Endpoint, data: seq<u8>)
    requires Tracked(e.out) && Input(e, data).1.Ok?
    ensures var ps := Parse(e.build, e.conv, data).packets;
      var before, after := HandleAll(e, ps).out, Input(e, data).0.out;
      && |after.buf| == |before.buf| && after.nxt == before.nxt && after.una == before.una
      && forall i :: 0 <= i < |before.buf| ==>
           after.buf[i] == if Skipped(SinceReserved(ps), before.buf[i].header.sn, before.nxt)
                           then Bump(before.buf[i]) else before.buf[i]
  {
    var ps := Parse(e.build, e.conv, data).packets;
    var rest, before, fast := SinceReserved(ps), HandleAll(e, ps).out, FastAcks(NO_FAST_ACK, ps);
    FastAcksExact(ps);
    HandledTracked(e, ps);
    assert Input(e, data).0.out == AcknowledgeFast(before, fast) by {
      hide Parse, HandleAll, FastAcks, AdjustParameters, AcknowledgeFast;
    }
    hide Parse, HandleAll, FastAcks, Input, Tracked, BumpBefore, Bump, IsLargestAck, SinceReserved;
    forall i | 0 <= i < |before.buf|
      ensures AcknowledgeFast(before, fast).buf[i]
           == if Skipped(rest, before.buf[i].header.sn, before.nxt) then Bump(before.buf[i]) else before.buf[i]
    {
      if NoAcks(rest) {
        NoLargest(rest);
      } else {
        SkippedByLargest(rest, fast.maxack, before.buf[i].header.sn, before.nxt);
        SkippedExactly(before, fast, i);
      }
    }
  }

  lemma NoLargest(ps: seq<Packet>)
    requires NoAcks(ps)
    ensures forall sn: u32 :: !IsLargestAck(ps, sn)
  {
  }

  // ---------------------------------------------------------------- when the whole datagram counts

  /** Every ACK after the last reserved one acknowledges number 0, below which there is nothing. */
  predicate OnlyZeros(ps: seq<Packet>) {
    forall i :: 0 <= i < |ps| && ps[i].header.cmd == ACK ==> ps[i].header.sn == 0
  }

  lemma {:induction false} ReservedIsLargest(ps: seq<Packet>)
    requires !NoSentinel(ps)
    ensures IsLargestAck(ps, NO_ACK)
  {
  }

  lemma FoundLargest(ps: seq<Packet>)
    requires NoSentinel(ps) && !NoAcks(ps)
    ensures IsLargestAck(ps, FastAcks(NO_FAST_ACK, ps).maxack) && FastAcks(NO_FAST_ACK, ps).maxack < NO_ACK
  {
    FastAcksLargest(ps);
  }

  /**
   The order of the ACKs matters to nobody, that is, the segments skipped are those below the
   largest ACK of the whole datagram, in every buffer, exactly when no ACK carries the reserved
   number, or every ACK after the last such one is of number 0.
   */
  lemma WholeDatagramExactly(ps: seq<Packet>)
    ensures (forall sn: u32, nxt: u32 :: Skipped(SinceReserved(ps), sn, nxt) <==> Skipped(ps, sn, nxt))
       <==> NoSentinel(ps) || OnlyZeros(SinceReserved(ps))
  {
    var rest := SinceReserved(ps);
    SinceReservedClean(ps);
    hide SinceReserved;
    if NoSentinel(ps) {
    } else {
      ReservedIsLargest(ps);
      forall sn: u32, nxt: u32
        ensures !Skipped(ps, sn, nxt)
      {
        SkippedByLargest(ps, NO_ACK, sn, nxt);
      }
      if OnlyZeros(rest) {
        forall sn: u32, nxt: u32
          ensures !Skipped(rest, sn, nxt)
        {
          ZerosSkipNothing(rest, sn, nxt);
        }
      } else {
        var i :| 0 <= i < |rest| && rest[i].header.cmd == ACK && rest[i].header.sn != 0;
        assert !NoAcks(rest);
        FoundLargest(rest);
        var largest := FastAcks(NO_FAST_ACK, rest).maxack;
        assert rest[i].header.sn <= largest;
        hide FastAcks;
        SkippedByLargest(rest, largest, 0, largest + 1);
        assert Skipped(rest, 0, largest + 1) && !Skipped(ps, 0, largest + 1);
      }
    }
  }

  lemma ZerosSkipNothing(ps: seq<Packet>, sn: u32, nxt: u32)
    requires OnlyZeros(ps)
    ensures !Skipped(ps, sn, nxt)
  {
  }

  /** ACKs of the reserved number and of `sn`, in one datagram. */
  function Misleading(e: Endpoint, sn: u32): seq<Packet> {
    var h := Header(e.conv, ACK, 0, 0, 0, NO_ACK, e.out.una, 0);
    [Packet(h, []), Packet(h.(sn := sn), [])]
  }

  /** Forged ACKs of the reserved number and then of a segment in flight bump what lies below it. */
  lemma ReservedThenAck(e: Endpoint, sn: u32)
    requires Tracked(e.out) && e.out.una < sn < e.out.nxt
    ensures var ps := Misleading(e, sn);
      var before, after := HandleAll(e, ps).out, Input(e, EncodeAll(e.build, ps)).0.out;
      && |before.buf| == |after.buf|
      && HasSn(before.buf, e.out.una)
      && forall i :: 0 <= i < |before.buf| && before.buf[i].header.sn < sn ==>
           after.buf[i] == Bump(before.buf[i])
  {
    hide HandleAll, Input, EncodeAll, Parse, Bump, SinceReserved, HasSn, Skipped;
    var p, q := Misleading(e, sn)[0], Misleading(e, sn)[1];
    assert Misleading(e, sn) == [p, q];
    MisleadingPair(e, p, q);
    SincePair(p, q);
    FrontRemains(e, [p, q], sn);
    hide Tracked, Misleading;
    forall x: u32 | x < sn
      ensures Skipped([q], x, e.out.nxt)
    {
      OneSkips(q, x, e.out.nxt);
    }
  }

  lemma OneSkips(q: Packet, x: u32, nxt: u32)
    requires q.header.cmd == ACK && x < q.header.sn < nxt
    ensures Skipped([q], x, nxt)
  {
    assert [q][0] == q;
    assert IsLargestAck([q], q.header.sn);
  }

  /** In the other order the same ACKs bump nothing. */
  lemma AckThenReserved(e: Endpoint, sn: u32)
    requires Tracked(e.out)
    ensures var ps := [Misleading(e, sn)[1], Misleading(e, sn)[0]];
      Input(e, EncodeAll(e.build, ps)).0.out.buf == HandleAll(e, ps).out.buf
  {
    var p, q := Misleading(e, sn)[0], Misleading(e, sn)[1];
    MisleadingPair(e, q, p);
    SincePair(q, p);
    hide HandleAll, Input, EncodeAll, Parse, Bump, SinceReserved, Tracked;
    forall x: u32, nxt: u32
      ensures !Skipped([], x, nxt)
    {
    }
  }

  /**
   The failing input: the largest ACK of the forged datagram is the reserved number, which is not
   below snd_nxt, so by the rule over the whole datagram nothing is skipped; yet the oldest
   segment is bumped, and with the two ACKs in the other order it is not.
   */
  lemma ReservedMisleads(e: Endpoint, sn: u32)
    requires Tracked(e.out) && e.out.una < sn < e.out.nxt
    ensures var ps := Misleading(e, sn);
      var before, after := HandleAll(e, ps).out.buf, Input(e, EncodeAll(e.build, ps)).0.out.buf;
      && (forall x: u32 :: !Skipped(ps, x, e.out.nxt))
      && |before| == |after|
      && exists i :: 0 <= i < |before| && before[i].header.sn == e.out.una && after[i] == Bump(before[i])
    ensures var swapped := [Misleading(e, sn)[1], Misleading(e, sn)[0]];
      Input(e, EncodeAll(e.build, swapped)).0.out.buf == HandleAll(e, swapped).out.buf
  {
    var ps := Misleading(e, sn);
    ReservedThenAck(e, sn);
    AckThenReserved(e, sn);
    ReservedIsLargest(ps);
    forall x: u32
      ensures !Skipped(ps, x, e.out.nxt)
    {
      SkippedByLargest(ps, NO_ACK, x, e.out.nxt);
    }
    hide HandleAll, Input, EncodeAll, Bump, Misleading, Skipped;
    var before := HandleAll(e, ps).out.buf;
    var i :| 0 <= i < |before| && before[i].header.sn == e.out.una;
  }

  lemma SincePair(p: Packet, q: Packet)
    requires p.header.cmd == ACK && q.header.cmd == ACK
    ensures q.header.sn == NO_ACK ==> SinceReserved([p, q]) == []
    ensures q.header.sn != NO_ACK && p.header.sn == NO_ACK ==> SinceReserved([p, q]) == [q]
  {
    assert [p, q][..1] == [p] && [p][..0] == [];
  }

  lemma MisleadingPair(e: Endpoint, p: Packet, q: Packet)
    requires Tracked(e.out) && WellFormed(e.conv, p) && WellFormed(e.conv, q)
    ensures var data := EncodeAll(e.build, [p, q]);
      && Parse(e.build, e.conv, data).packets == [p, q]
      && Input(e, data).1.Ok?
      && var before, after := HandleAll(e, [p, q]).out, Input(e, data).0.out;
      && |after.buf| == |before.buf| && before.nxt == e.out.nxt
      && forall i :: 0 <= i < |before.buf| ==>
           after.buf[i] == if Skipped(SinceReserved([p, q]), before.buf[i].header.sn, before.nxt)
                           then Bump(before.buf[i]) else before.buf[i]
  {
    var data := EncodeAll(e.build, [p, q]);
    DatagramRoundTrip(e.build, e.conv, [p, q]);
    SizeIsEncodedLength(e.build, [p, q]);
    assert Size([p, q]) >= HEADER_SIZE;
    hide EncodeAll, Parse, Size, HandleAll, Conclude, FastAcks, TallyAll;
    assert Input(e, data).1.Ok?;
    hide Input, Tracked;
    InputSkipsExactly(e, data);
    HandledNumbering(e, [p, q]);
  }

  lemma {:induction false} HandledNumbering(e: Endpoint, ps: seq<Packet>)
    ensures HandleAll(e, ps).out.nxt == e.out.nxt
    decreases |ps|
  {
    if ps != [] {
      HandledOutbox(e, ps[0]);
      hide HandlePacket, EraseSn, EraseBefore;
      HandledNumbering(HandlePacket(e, ps[0]), ps[1..]);
    }
  }

  /** The oldest segment is not among those the pair acknowledges. */
  lemma FrontRemains(e: Endpoint, ps: seq<Packet>, sn: u32)
    requires Tracked(e.out) && e.out.una < sn < e.out.nxt && ps == Misleading(e, sn)
    ensures HasSn(HandleAll(e, ps).out.buf, e.out.una)
  {
    AcknowledgedExactly(e, ps, e.out.una);
    hide HandleAll;
    assert e.out.buf != [] && e.out.buf[0].header.sn == e.out.una;
    assert HasSn(e.out.buf, e.out.una);
    assert !Acknowledges(ps, e.out.una);
  }

  lemma HandledTracked(e: Endpoint, ps: seq<Packet>)
    requires Tracked(e.out)
    ensures Tracked(HandleAll(e, ps).out)
  {
    AcknowledgedExactly(e, ps, 0);
  }
}
