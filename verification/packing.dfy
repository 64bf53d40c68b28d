/** How the flusher groups packets into datagrams no longer than the MTU. */
module Packing {
  import opened Words
  import opened Segments
  import opened Congestion
  import opened Codec

  datatype Flush = Flush(out: seq<seq<Packet>>, pending: seq<Packet>)

  const EMPTY_FLUSH := Flush([], [])

  /** Encoded size. */
  function Size(ps: seq<Packet>): nat {
    if ps == [] then 0 else HEADER_SIZE + |ps[0].data| + Size(ps[1..])
  }

  /** flush_if_does_not_fit. flush_if_full is the same test with nothing to fit. */
  function WithRoom(f: Flush, mss: Mss, extra: nat): Flush {
    if Size(f.pending) + extra > mss then Flush(f.out + [f.pending], []) else f
  }

  /** Make room for a packet, then emplace it. */
  function Put(f: Flush, mss: Mss, p: Packet): Flush {
    var room := WithRoom(f, mss, |p.data|);
    room.(pending := room.pending + [p])
  }

  function PutAll(f: Flush, mss: Mss, ps: seq<Packet>): Flush
    decreases |ps|
  {
    if ps == [] then f else PutAll(Put(f, mss, ps[0]), mss, ps[1..])
  }

  /** flush_if_not_empty. */
  function Finish(f: Flush): seq<seq<Packet>> {
    if f.pending == [] then f.out else f.out + [f.pending]
  }

  function Datagrams(mss: Mss, ps: seq<Packet>): seq<seq<Packet>> {
    Finish(PutAll(EMPTY_FLUSH, mss, ps))
  }

  function Concat(groups: seq<seq<Packet>>): seq<Packet> {
    if groups == [] then [] else Concat(groups[..|groups| - 1]) + groups[|groups| - 1]
  }

  function EncodeGroups(build: Build, groups: seq<seq<Packet>>): seq<seq<u8>> {
    seq(|groups|, i requires 0 <= i < |groups| => EncodeAll(build, groups[i]))
  }

  function TotalSize(groups: seq<seq<Packet>>): nat {
    if groups == [] then 0 else TotalSize(groups[..|groups| - 1]) + Size(groups[|groups| - 1])
  }

  lemma {:induction false} SizeAppend(ps: seq<Packet>, p: Packet)
    ensures Size(ps + [p]) == Size(ps) + HEADER_SIZE + |p.data|
  {
    if ps == [] {
      assert [p][1..] == [];
    } else {
      SizeAppend(ps[1..], p);
      assert (ps + [p])[1..] == ps[1..] + [p];
    }
  }

  lemma {:induction false} SizeConcat(a: seq<Packet>, b: seq<Packet>)
    ensures Size(a + b) == Size(a) + Size(b)
  {
    if a == [] {
      assert a + b == b;
    } else {
      SizeConcat(a[1..], b);
      assert (a + b)[1..] == a[1..] + b;
    }
  }

  lemma {:induction false} PutAllAppend(f: Flush, mss: Mss, ps: seq<Packet>, p: Packet)
    ensures PutAll(f, mss, ps + [p]) == Put(PutAll(f, mss, ps), mss, p)
    decreases |ps|
  {
    hide Put;
    if ps == [] {
      assert [p][1..] == [];
    } else {
      PutAllAppend(Put(f, mss, ps[0]), mss, ps[1..], p);
      assert (ps + [p])[1..] == ps[1..] + [p];
    }
  }

  lemma {:induction false} PutAllConcat(f: Flush, mss: Mss, a: seq<Packet>, b: seq<Packet>)
    ensures PutAll(f, mss, a + b) == PutAll(PutAll(f, mss, a), mss, b)
    decreases |a|
  {
    hide Put;
    if a == [] {
      assert a + b == b;
    } else {
      PutAllConcat(Put(f, mss, a[0]), mss, a[1..], b);
      assert (a + b)[1..] == a[1..] + b;
    }
  }

  /** What was sent before does not influence how the rest is grouped. */
  lemma {:induction false} PutAllAfter(sent: seq<seq<Packet>>, f: Flush, mss: Mss, ps: seq<Packet>)
    ensures var g := PutAll(f, mss, ps);
      PutAll(Flush(sent + f.out, f.pending), mss, ps) == Flush(sent + g.out, g.pending)
    decreases |ps|
  {
    if ps != [] {
      var next := Put(f, mss, ps[0]);
      assert sent + (f.out + [f.pending]) == sent + f.out + [f.pending];
      assert Put(Flush(sent + f.out, f.pending), mss, ps[0]) == Flush(sent + next.out, next.pending);
      PutAllAfter(sent, next, mss, ps[1..]);
    }
  }

  lemma {:induction false} TotalSizeConcat(a: seq<seq<Packet>>, b: seq<seq<Packet>>)
    ensures TotalSize(a + b) == TotalSize(a) + TotalSize(b)
  {
    if b == [] {
      assert a + b == a;
    } else {
      var last := |b| - 1;
      TotalSizeConcat(a, b[..last]);
      assert (a + b)[..|a + b| - 1] == a + b[..last];
    }
  }

  /** Two runs of packets put one after the other, on top of datagrams sent earlier. */
  lemma DatagramsAfter(sent: seq<seq<Packet>>, mss: Mss, a: seq<Packet>, b: seq<Packet>)
    ensures var groups := Finish(PutAll(PutAll(Flush(sent, []), mss, a), mss, b));
      && groups == sent + Datagrams(mss, a + b)
      && TotalSize(groups) == TotalSize(sent) + TotalSize(Datagrams(mss, a + b))
  {
    PutAllConcat(Flush(sent, []), mss, a, b);
    PutAllAfter(sent, EMPTY_FLUSH, mss, a + b);
    assert sent + EMPTY_FLUSH.out == sent;
    hide PutAll;
    var g := PutAll(EMPTY_FLUSH, mss, a + b);
    assert sent + (g.out + [g.pending]) == sent + g.out + [g.pending];
    TotalSizeConcat(sent, Datagrams(mss, a + b));
  }

  lemma {:induction false} SizeIsEncodedLength(build: Build, ps: seq<Packet>)
    ensures |EncodeAll(build, ps)| == Size(ps)
  {
    hide EncodeHeader;
    if ps != [] {
      SizeIsEncodedLength(build, ps[1..]);
    }
  }

  /** A datagram that may be handed to the output callback. */
  predicate Sendable(group: seq<Packet>, mss: Mss) {
    group != [] && Size(group) <= mss + HEADER_SIZE
  }

  predicate AllSendable(groups: seq<seq<Packet>>, mss: Mss) {
    forall i :: 0 <= i < |groups| ==> Sendable(groups[i], mss)
  }

  predicate Payloads(ps: seq<Packet>, mss: Mss) {
    forall i :: 0 <= i < |ps| ==> |ps[i].data| <= mss
  }

  /** The flusher between two emplacements. */
  predicate Filling(f: Flush, mss: Mss) {
    AllSendable(f.out, mss) && Size(f.pending) <= mss + HEADER_SIZE
  }

  lemma GroupAppend(groups: seq<seq<Packet>>, group: seq<Packet>, mss: Mss)
    ensures Concat(groups + [group]) == Concat(groups) + group
    ensures TotalSize(groups + [group]) == TotalSize(groups) + Size(group)
    ensures AllSendable(groups, mss) && Sendable(group, mss) ==> AllSendable(groups + [group], mss)
  {
    assert (groups + [group])[..|groups|] == groups;
  }

  lemma PutFills(f: Flush, mss: Mss, p: Packet)
    requires Filling(f, mss) && |p.data| <= mss
    ensures Filling(Put(f, mss, p), mss)
    ensures Concat(Put(f, mss, p).out) + Put(f, mss, p).pending == Concat(f.out) + f.pending + [p]
    ensures TotalSize(Put(f, mss, p).out) + Size(Put(f, mss, p).pending)
         == TotalSize(f.out) + Size(f.pending) + HEADER_SIZE + |p.data|
  {
    SizeAppend(f.pending, p);
    SizeAppend([], p);
    assert [] + [p] == [p];
    GroupAppend(f.out, f.pending, mss);
    hide Size, Concat, TotalSize, AllSendable;
    assert Concat(f.out) + (f.pending + [p]) == Concat(f.out) + f.pending + [p];
  }

  lemma {:induction false} PutAllFills(f: Flush, mss: Mss, ps: seq<Packet>)
    requires Filling(f, mss) && Payloads(ps, mss)
    ensures var g := PutAll(f, mss, ps);
      && Filling(g, mss)
      && Concat(g.out) + g.pending == Concat(f.out) + f.pending + ps
      && TotalSize(g.out) + Size(g.pending) == TotalSize(f.out) + Size(f.pending) + Size(ps)
    decreases |ps|
  {
    hide Concat, TotalSize, Filling, Put;
    if ps == [] {
      assert Concat(f.out) + f.pending + ps == Concat(f.out) + f.pending;
    } else {
      PutFills(f, mss, ps[0]);
      PutAllFills(Put(f, mss, ps[0]), mss, ps[1..]);
      assert Concat(f.out) + f.pending + ps == Concat(f.out) + f.pending + [ps[0]] + ps[1..];
    }
  }

  /**
   Packing: every datagram is non-empty, at most one MTU long and made of whole packets; in
   order they carry exactly the given packets, and together exactly their bytes.
   */
  lemma PackingExact(mss: Mss, ps: seq<Packet>)
    requires Payloads(ps, mss)
    ensures AllSendable(Datagrams(mss, ps), mss)
    ensures Concat(Datagrams(mss, ps)) == ps
    ensures TotalSize(Datagrams(mss, ps)) == Size(ps)
  {
    var f := PutAll(EMPTY_FLUSH, mss, ps);
    PutAllFills(EMPTY_FLUSH, mss, ps);
    assert Concat(EMPTY_FLUSH.out) + EMPTY_FLUSH.pending + ps == ps;
    GroupAppend(f.out, f.pending, mss);
    assert Size([]) == 0;
    hide PutAll, Concat, TotalSize, AllSendable, Size;
    if f.pending == [] {
      assert Concat(f.out) + f.pending == Concat(f.out);
    }
  }

  // ---------------------------------------------------------------- no datagram closes early

  /** The first packet of each datagram does not fit the one before. */
  predicate Tight(groups: seq<seq<Packet>>, mss: Mss) {
    forall i :: 0 < i < |groups| ==>
      groups[i] != [] && Size(groups[i - 1]) + Size(groups[i][..1]) > mss + HEADER_SIZE
  }

  lemma SizeOne(p: Packet)
    ensures Size([p]) == HEADER_SIZE + |p.data|
  {
    assert [p][1..] == [];
    assert Size([]) == 0;
  }

  lemma PutTight(f: Flush, mss: Mss, p: Packet)
    requires |p.data| <= mss && Tight(f.out + [f.pending], mss) && (f.pending == [] ==> f.out == [])
    ensures var g := Put(f, mss, p); Tight(g.out + [g.pending], mss) && g.pending != []
  {
    SizeOne(p);
    assert Size([]) == 0;
    hide Size;
    if Size(f.pending) + |p.data| > mss {
      assert [] + [p] == [p];
      assert Put(f, mss, p) == Flush(f.out + [f.pending], [p]);
      CloseTight(f.out + [f.pending], mss, p);
    } else {
      assert Put(f, mss, p) == Flush(f.out, f.pending + [p]);
      GrowTight(f.out, f.pending, mss, p);
    }
  }

  lemma CloseTight(groups: seq<seq<Packet>>, mss: Mss, p: Packet)
    requires groups != [] && Tight(groups, mss) && Size(groups[|groups| - 1]) + Size([p]) > mss + HEADER_SIZE
    ensures Tight(groups + [[p]], mss)
  {
    hide Size;
    assert [p][..1] == [p];
  }

  lemma GrowTight(out: seq<seq<Packet>>, pending: seq<Packet>, mss: Mss, p: Packet)
    requires Tight(out + [pending], mss) && (pending == [] ==> out == [])
    ensures Tight(out + [pending + [p]], mss)
  {
    hide Size;
    var before, after := out + [pending], out + [pending + [p]];
    forall i | 0 < i < |after|
      ensures after[i] != [] && Size(after[i - 1]) + Size(after[i][..1]) > mss + HEADER_SIZE
    {
      assert before[i] != [] && |after[i]| >= |before[i]|;
      assert after[i - 1] == before[i - 1] && after[i][..1] == before[i][..1];
    }
  }

  lemma {:induction false} PutAllTight(f: Flush, mss: Mss, ps: seq<Packet>)
    requires Payloads(ps, mss) && Tight(f.out + [f.pending], mss) && (f.pending == [] ==> f.out == [])
    ensures var g := PutAll(f, mss, ps);
      Tight(g.out + [g.pending], mss) && (g.pending == [] ==> g.out == [])
    decreases |ps|
  {
    hide Tight, Put;
    if ps != [] {
      PutTight(f, mss, ps[0]);
      PutAllTight(Put(f, mss, ps[0]), mss, ps[1..]);
    }
  }

  /** A datagram is handed over only when the next packet does not fit it, or at the end. */
  lemma PackingTight(mss: Mss, ps: seq<Packet>)
    requires Payloads(ps, mss)
    ensures Tight(Datagrams(mss, ps), mss)
  {
    PutAllTight(EMPTY_FLUSH, mss, ps);
    hide PutAll, Size;
  }

  /** Every packet of every group is one of the packed packets. */
  lemma {:induction false} ConcatCovers(groups: seq<seq<Packet>>)
    ensures forall g, p :: g in groups && p in g ==> p in Concat(groups)
    ensures forall p :: p in Concat(groups) ==> exists g :: g in groups && p in g
  {
    if groups != [] {
      var last := |groups| - 1;
      ConcatCovers(groups[..last]);
      assert groups == groups[..last] + [groups[last]];
      forall p | p in Concat(groups) ensures exists g :: g in groups && p in g {
        if p in Concat(groups[..last]) {
          var g :| g in groups[..last] && p in g;
          assert g in groups;
        }
      }
    }
  }
}
