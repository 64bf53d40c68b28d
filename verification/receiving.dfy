/**
 What the receiving side computes: reorder buffer, delivery queue, message reassembly.
 Class `Receiver` does it in place.
 */
module Receiving {
  import opened Words
  import opened Segments

  datatype Inbox = Inbox(buf: seq<Segment>, queue: seq<Segment>, limit: u32, nxt: u32)

  const EMPTY_INBOX := Inbox([], [], 0, 0)

  datatype ReceiveResult = ReceiveResult(size: nat, recovered: bool)

  /** Where a reverse scan for a smaller sequence number stops. */
  function InsertPos(buf: seq<Segment>, sn: u32): (p: nat)
    ensures p <= |buf|
    ensures p > 0 ==> buf[p - 1].header.sn < sn
    ensures forall i :: p <= i < |buf| ==> buf[i].header.sn >= sn
  {
    if buf == [] then 0
    else if buf[|buf| - 1].header.sn < sn then |buf|
    else InsertPos(buf[..|buf| - 1], sn)
  }

  /** move_receive_buffer_to_queue: the in-order front of the buffer, while the queue has room. */
  function Settle(r: Inbox): (r': Inbox)
    decreases |r.buf|
  {
    if r.buf == [] || r.buf[0].header.sn != r.nxt || |r.queue| >= r.limit then r
    else Settle(Inbox(r.buf[1..], r.queue + [r.buf[0]], r.limit, Wrap32(r.nxt + 1)))
  }

  function Emplace(r: Inbox, seg: Segment): Inbox {
    var p := InsertPos(r.buf, seg.header.sn);
    if p < |r.buf| && r.buf[p].header.sn == seg.header.sn then r
    else Settle(r.(buf := r.buf[..p] + [seg] + r.buf[p..]))
  }

  predicate ShouldReceive(r: Inbox, sn: u32) {
    sn >= r.nxt
  }

  /** Number of leading segments up to and including the first with fragment number 0. */
  function SpanLength(queue: seq<Segment>): (n: nat)
    ensures n <= |queue|
  {
    if queue == [] then 0
    else if queue[0].header.frg == 0 then 1
    else 1 + SpanLength(queue[1..])
  }

  function TotalLength(segs: seq<Segment>): nat {
    if segs == [] then 0 else segs[0].header.len + TotalLength(segs[1..])
  }

  function PeekSize(r: Inbox): Result<nat> {
    if r.queue == [] then Err(QueueEmpty)
    else if r.queue[0].header.frg != 0 && |r.queue| < r.queue[0].header.frg + 1 then
      Err(WaitingForFragment)
    else Ok(TotalLength(r.queue[..SpanLength(r.queue)]))
  }

  /**
   Number of segments the copy loop of recv() takes off the queue when `left` bytes are still
   wanted: it stops after a last fragment, or as soon as it has all the bytes.
   */
  function TakeCount(queue: seq<Segment>, left: nat): (n: nat)
    ensures n <= |queue|
    ensures queue != [] ==> n > 0
  {
    if queue == [] then 0
    else if queue[0].header.frg == 0 || queue[0].header.len >= left then 1
    else 1 + TakeCount(queue[1..], left - queue[0].header.len)
  }

  datatype Delivery = Delivery(inbox: Inbox, message: seq<u8>, recovered: bool)

  function Recv(r: Inbox, capacity: nat, rcvWnd: u32): Result<Delivery> {
    var peek := PeekSize(r);
    if peek.Err? then Err(peek.error)
    else if peek.value > capacity then Err(BufferTooSmall)
    else
      var n := TakeCount(r.queue, peek.value);
      var r' := Settle(r.(queue := r.queue[n..]));
      Ok(Delivery(r', Joined(r.queue[..n]), rcvWnd > |r'.queue| && |r.queue| >= rcvWnd))
  }

  // ---------------------------------------------------------------- what recv() returns

  lemma {:induction false} JoinedLength(segs: seq<Segment>)
    requires AllSized(segs)
    ensures |Joined(segs)| == TotalLength(segs)
  {
    if segs != [] {
      JoinedLength(segs[1..]);
    }
  }

  lemma {:induction false} TakenBytes(queue: seq<Segment>)
    ensures var peek := TotalLength(queue[..SpanLength(queue)]);
      TotalLength(queue[..TakeCount(queue, peek)]) == peek
      && TakeCount(queue, peek) <= SpanLength(queue)
  {
    if queue != [] {
      var span, rest := SpanLength(queue), queue[1..];
      assert queue[..span][1..] == rest[..span - 1];
      assert queue[..1][1..] == [];
      if queue[0].header.frg != 0 {
        TakenBytes(rest);
        var n := TakeCount(rest, TotalLength(rest[..SpanLength(rest)]));
        assert queue[..n + 1][1..] == rest[..n];
      }
    }
  }

  /** Whatever the queue holds, recv() returns exactly as many bytes as peek_size() announced. */
  lemma RecvReturnsPeekedSize(r: Inbox, capacity: nat, rcvWnd: u32)
    requires AllSized(r.queue)
    ensures Recv(r, capacity, rcvWnd).Ok?
       <==> PeekSize(r).Ok? && PeekSize(r).value <= capacity
    ensures Recv(r, capacity, rcvWnd).Ok? ==>
              |Recv(r, capacity, rcvWnd).value.message| == PeekSize(r).value
  {
    TakenBytes(r.queue);
    if Recv(r, capacity, rcvWnd).Ok? {
      JoinedLength(r.queue[..TakeCount(r.queue, PeekSize(r).value)]);
    }
  }

  /** Why recv() and peek_size() fail: nothing queued, a front message still incomplete, or no room. */
  lemma RecvErrorsExactly(r: Inbox, capacity: nat, rcvWnd: u32)
    ensures var waits := r.queue != [] && r.queue[0].header.frg > 0 && |r.queue| <= r.queue[0].header.frg;
      && (PeekSize(r) == Err(QueueEmpty) <==> r.queue == [])
      && (PeekSize(r) == Err(WaitingForFragment) <==> waits)
      && (PeekSize(r).Ok? <==> r.queue != [] && !waits)
      && (PeekSize(r).Err? ==> Recv(r, capacity, rcvWnd) == Err(PeekSize(r).error))
      && (PeekSize(r).Ok? && PeekSize(r).value > capacity ==> Recv(r, capacity, rcvWnd) == Err(BufferTooSmall))
      && (PeekSize(r).Ok? && PeekSize(r).value <= capacity ==> Recv(r, capacity, rcvWnd).Ok?)
  {
    hide TotalLength, SpanLength, TakeCount, Settle, Joined;
  }

  /** When the last fragment of the front message carries data, the whole message is taken. */
  lemma {:induction false} WholeSpanTaken(queue: seq<Segment>)
    requires queue != []
    ensures var span := SpanLength(queue);
      var peek := TotalLength(queue[..span]);
      TakeCount(queue, peek) == span <==> span == 1 || queue[span - 1].header.len > 0
  {
    var span, rest := SpanLength(queue), queue[1..];
    assert queue[..span][1..] == rest[..span - 1];
    if queue[0].header.frg != 0 && rest != [] {
      WholeSpanTaken(rest);
      LastCounts(rest[..span - 1]);
      TakeZero(rest);
    }
  }

  lemma {:induction false} LastCounts(segs: seq<Segment>)
    requires segs != []
    ensures TotalLength(segs) >= segs[|segs| - 1].header.len
  {
    if |segs| > 1 {
      LastCounts(segs[1..]);
    }
  }

  lemma TakeZero(queue: seq<Segment>)
    requires queue != []
    ensures TakeCount(queue, 0) == 1
  {
  }

  lemma SpanStep(queue: seq<Segment>)
    requires queue != []
    ensures TotalLength(queue[..SpanLength(queue)])
         == queue[0].header.len + if queue[0].header.frg == 0 then 0
                                  else TotalLength(queue[1..][..SpanLength(queue[1..])])
  {
    assert queue[..1][1..] == [];
    assert queue[..SpanLength(queue)][1..] == queue[1..][..SpanLength(queue) - 1];
  }

  lemma {:induction false} JoinedAppend(segs: seq<Segment>, seg: Segment)
    ensures Joined(segs + [seg]) == Joined(segs) + seg.data
  {
    if segs == [] {
      assert [seg][1..] == [];
    } else {
      JoinedAppend(segs[1..], seg);
      assert (segs + [seg])[1..] == segs[1..] + [seg];
    }
  }

  /** Progress of the copy loop of recv(): `k` segments and `offset` bytes of `all` are out. */
  ghost predicate Taking(all: seq<Segment>, k: nat, offset: nat, peek: nat) {
    && k <= |all|
    && offset <= peek
    && TakeCount(all, peek) == k + TakeCount(all[k..], peek - offset)
    && TotalLength(all[k..][..SpanLength(all[k..])]) == peek - offset
  }

  lemma TakingStart(all: seq<Segment>)
    ensures Taking(all, 0, 0, TotalLength(all[..SpanLength(all)]))
  {
    assert all[0..] == all;
  }

  /** When the loop has taken what it takes, the offset is the announced size. */
  lemma TakingDone(all: seq<Segment>, k: nat, offset: nat, peek: nat)
    requires AllSized(all) && peek == TotalLength(all[..SpanLength(all)])
    requires TakeCount(all, peek) == k && offset == |Joined(all[..k])|
    ensures offset == peek
  {
    TakenBytes(all);
    JoinedLength(all[..k]);
  }

  lemma TakingStep(all: seq<Segment>, k: nat, offset: nat, peek: nat)
    requires Taking(all, k, offset, peek) && k < |all|
    ensures offset + all[k].header.len <= peek
    ensures if all[k].header.frg == 0 || offset + all[k].header.len >= peek
            then TakeCount(all, peek) == k + 1
            else Taking(all, k + 1, offset + all[k].header.len, peek)
  {
    hide SpanLength, TotalLength, TakeCount;
    var rest, tail := all[k..], all[k + 1..];
    assert rest[0] == all[k] && rest[1..] == tail;
    SpanStep(rest);
    TakeStep(rest, peek - offset);
  }

  lemma TakeStep(queue: seq<Segment>, left: nat)
    requires queue != []
    ensures TakeCount(queue, left)
         == if queue[0].header.frg == 0 || queue[0].header.len >= left then 1
            else 1 + TakeCount(queue[1..], left - queue[0].header.len)
  {
  }

  lemma JoinedStep(all: seq<Segment>, k: nat)
    requires k < |all|
    ensures Joined(all[..k + 1]) == Joined(all[..k]) + all[k].data
  {
    JoinedAppend(all[..k], all[k]);
    assert all[..k + 1] == all[..k] + [all[k]];
  }

  // ---------------------------------------------------------------- the drain loop

  /** No sequence number the window test lets through can make rcv_nxt wrap. */
  predicate Bounded(buf: seq<Segment>) {
    forall i :: 0 <= i < |buf| ==> buf[i].header.sn < 0xFFFF_FFFF
  }

  /** The front of the buffer waits only because the queue is full. */
  predicate Settled(r: Inbox) {
    r.buf != [] && r.buf[0].header.sn == r.nxt ==> |r.queue| >= r.limit
  }

  /** How many buffered segments a drain moves. */
  function ReadyCount(buf: seq<Segment>, nxt: int, room: int): (k: nat)
    ensures k <= |buf|
  {
    if buf == [] || buf[0].header.sn != nxt || room <= 0 then 0
    else 1 + ReadyCount(buf[1..], nxt + 1, room - 1)
  }

  function ReadyIn(r: Inbox): (k: nat)
    ensures k <= |r.buf|
  {
    ReadyCount(r.buf, r.nxt, r.limit - |r.queue|)
  }

  lemma {:induction false} ReadyNumbers(buf: seq<Segment>, nxt: int, room: int)
    ensures var k := ReadyCount(buf, nxt, room);
      && (forall i :: 0 <= i < k ==> buf[i].header.sn == nxt + i)
      && (k < |buf| && buf[k].header.sn == nxt + k ==> room <= k)
  {
    if !(buf == [] || buf[0].header.sn != nxt || room <= 0) {
      var k := ReadyCount(buf, nxt, room);
      ReadyNumbers(buf[1..], nxt + 1, room - 1);
      forall i | 0 <= i < k ensures buf[i].header.sn == nxt + i {
        if i > 0 {
          assert buf[i] == buf[1..][i - 1];
        }
      }
    }
  }

  /** The inbox after moving `k` segments. */
  function Moved(r: Inbox, k: nat): Inbox
    requires k <= |r.buf| && r.nxt + k < 0x1_0000_0000
  {
    Inbox(r.buf[k..], r.queue + r.buf[..k], r.limit, r.nxt + k)
  }

  lemma MovedStep(r: Inbox, j: nat)
    requires r.buf != [] && j < |r.buf| && r.nxt + 1 + j < 0x1_0000_0000
    ensures Moved(Inbox(r.buf[1..], r.queue + [r.buf[0]], r.limit, r.nxt + 1), j) == Moved(r, j + 1)
  {
    assert r.queue + r.buf[..j + 1] == (r.queue + [r.buf[0]]) + r.buf[1..][..j];
    assert r.buf[1..][j..] == r.buf[j + 1..];
  }

  /** The drain moves exactly the ready prefix, and rcv_nxt does not wrap on the way. */
  lemma {:induction false} SettleMoves(r: Inbox)
    requires Bounded(r.buf)
    ensures r.nxt + ReadyIn(r) < 0x1_0000_0000 && Settle(r) == Moved(r, ReadyIn(r))
    decreases |r.buf|
  {
    if ReadyIn(r) == 0 {
      assert r.buf[..0] == [];
    } else {
      assert r.buf[0].header.sn == r.nxt < 0xFFFF_FFFF;
      var next := Inbox(r.buf[1..], r.queue + [r.buf[0]], r.limit, r.nxt + 1);
      assert ReadyIn(r) == ReadyIn(next) + 1;
      assert Settle(r) == Settle(next);
      hide Settle, ReadyIn, ReadyCount;
      SettleMoves(next);
      MovedStep(r, ReadyIn(next));
    }
  }

  // ---------------------------------------------------------------- insertion

  /** The buffer after an insertion, before the drain. */
  function Inserted(buf: seq<Segment>, seg: Segment): seq<Segment> {
    var p := InsertPos(buf, seg.header.sn);
    if p < |buf| && buf[p].header.sn == seg.header.sn then buf
    else buf[..p] + [seg] + buf[p..]
  }

  lemma InsertPosSplits(buf: seq<Segment>, sn: u32)
    requires Sorted(buf)
    ensures forall i :: 0 <= i < InsertPos(buf, sn) ==> buf[i].header.sn < sn
  {
    var p := InsertPos(buf, sn);
    forall i | 0 <= i < p ensures buf[i].header.sn < sn {
      assert i == p - 1 || buf[i].header.sn < buf[p - 1].header.sn;
    }
  }

  predicate InsertedAt(buf: seq<Segment>, seg: Segment, p: nat, after: seq<Segment>)
    requires p <= |buf|
  {
    && |after| == |buf| + 1
    && (forall i :: 0 <= i < p ==> after[i] == buf[i])
    && after[p] == seg
    && (forall i :: p < i < |after| ==> after[i] == buf[i - 1])
  }

  lemma InsertionSorted(buf: seq<Segment>, seg: Segment, p: nat, after: seq<Segment>)
    requires Sorted(buf) && p <= |buf| && InsertedAt(buf, seg, p, after)
    requires p > 0 ==> buf[p - 1].header.sn < seg.header.sn
    requires p < |buf| ==> buf[p].header.sn > seg.header.sn
    ensures Sorted(after)
  {
    forall i, j | 0 <= i < j < |after| ensures after[i].header.sn < after[j].header.sn {
      if i < p {
        assert i == p - 1 || buf[i].header.sn < buf[p - 1].header.sn;
      }
      if j > p {
        assert j - 1 == p || buf[p].header.sn < buf[j - 1].header.sn;
      }
    }
  }

  lemma InsertedSorted(buf: seq<Segment>, seg: Segment)
    requires Sorted(buf)
    ensures Sorted(Inserted(buf, seg))
  {
    var p := InsertPos(buf, seg.header.sn);
    if Inserted(buf, seg) != buf {
      InsertionSorted(buf, seg, p, Inserted(buf, seg));
    }
  }

  /** On a sorted buffer the duplicate test, which looks at one segment only, is exact. */
  lemma DuplicateTestExact(buf: seq<Segment>, sn: u32)
    requires Sorted(buf)
    ensures var p := InsertPos(buf, sn);
      HasSn(buf, sn) <==> p < |buf| && buf[p].header.sn == sn
  {
    InsertPosSplits(buf, sn);
  }

  /** An insertion keeps every segment and adds the new one; a duplicate changes nothing. */
  lemma InsertedMembers(buf: seq<Segment>, seg: Segment)
    requires Sorted(buf)
    ensures HasSn(buf, seg.header.sn) ==> Inserted(buf, seg) == buf
    ensures !HasSn(buf, seg.header.sn) ==> InsertedAt(buf, seg, InsertPos(buf, seg.header.sn), Inserted(buf, seg))
    ensures forall sn: u32 :: HasSn(Inserted(buf, seg), sn)
                         <==> HasSn(buf, sn) || sn == seg.header.sn
  {
    DuplicateTestExact(buf, seg.header.sn);
    hide HasSn, Sorted, InsertedAt;
    if !HasSn(buf, seg.header.sn) {
      SplicedAt(buf, seg, InsertPos(buf, seg.header.sn));
      InsertedNumbers(buf, seg, InsertPos(buf, seg.header.sn), Inserted(buf, seg));
    }
  }

  lemma SplicedAt(buf: seq<Segment>, seg: Segment, p: nat)
    requires p <= |buf|
    ensures InsertedAt(buf, seg, p, buf[..p] + [seg] + buf[p..])
  {
  }

  lemma InsertedNumbers(buf: seq<Segment>, seg: Segment, p: nat, after: seq<Segment>)
    requires p <= |buf| && InsertedAt(buf, seg, p, after)
    ensures forall sn: u32 :: HasSn(after, sn) <==> HasSn(buf, sn) || sn == seg.header.sn
  {
    forall sn: u32 | HasSn(buf, sn) ensures HasSn(after, sn) {
      var i :| 0 <= i < |buf| && buf[i].header.sn == sn;
      assert after[if i < p then i else i + 1] == buf[i];
    }
  }

  // ---------------------------------------------------------------- refinement of a map

  /** One thing that can happen to the receiving side. */
  datatype Event =
    | Arrival(seg: Segment, wnd: u32)
    | Take(capacity: nat, wnd: u32)

  /** The concrete inbox, every segment recv() has taken, and the abstract store. */
  datatype Trace = Trace(inbox: Inbox, taken: seq<Segment>, store: map<u32, Segment>)

  predicate Admitted(r: Inbox, sn: u32, wnd: u32) {
    sn < Wrap32(r.nxt + wnd)
  }

  /** The abstract store: the first admitted arrival of a number is kept, later ones ignored. */
  function FirstWins(store: map<u32, Segment>, seg: Segment): map<u32, Segment> {
    if seg.header.sn in store then store else store[seg.header.sn := seg]
  }

  function Advance(t: Trace, e: Event): Trace {
    match e
    case Arrival(seg, wnd) =>
      if !Admitted(t.inbox, seg.header.sn, wnd) then t
      else
        Trace(if ShouldReceive(t.inbox, seg.header.sn) then Emplace(t.inbox, seg) else t.inbox,
              t.taken, FirstWins(t.store, seg))
    case Take(capacity, wnd) =>
      var r := Recv(t.inbox, capacity, wnd);
      if r.Err? then t
      else
        var n := TakeCount(t.inbox.queue, PeekSize(t.inbox).value);
        Trace(r.value.inbox, t.taken + t.inbox.queue[..n], t.store)
  }

  function AdvanceAll(t: Trace, events: seq<Event>): Trace
    decreases |events|
  {
    if events == [] then t
    else Advance(AdvanceAll(t, events[..|events| - 1]), events[|events| - 1])
  }

  function Start(limit: u32): Trace {
    Trace(EMPTY_INBOX.(limit := limit), [], map[])
  }

  /** Segments numbered 0, 1, 2, ... with the payloads of the store. */
  ghost predicate InOrder(segs: seq<Segment>, store: map<u32, Segment>) {
    forall i :: 0 <= i < |segs| ==> segs[i].header.sn == i && i in store && store[i] == segs[i]
  }

  ghost predicate Buffered(r: Inbox, store: map<u32, Segment>) {
    && Sorted(r.buf)
    && Bounded(r.buf)
    && (forall i :: 0 <= i < |r.buf| ==>
          var seg := r.buf[i];
          seg.header.sn >= r.nxt && seg.header.sn in store && store[seg.header.sn] == seg)
  }

  ghost predicate Covered(r: Inbox, store: map<u32, Segment>) {
    forall sn :: sn in store ==> sn < r.nxt || HasSn(r.buf, sn)
  }

  ghost predicate Represents(taken: seq<Segment>, r: Inbox, store: map<u32, Segment>) {
    && |taken + r.queue| == r.nxt
    && InOrder(taken + r.queue, store)
    && Buffered(r, store)
    && Covered(r, store)
  }

  ghost predicate Refines(t: Trace) {
    Represents(t.taken, t.inbox, t.store) && Settled(t.inbox)
  }

  /** The first `k` buffered segments continue the in-order numbering. */
  predicate Consecutive(r: Inbox, k: nat) {
    k <= |r.buf| && r.nxt + k < 0x1_0000_0000
    && forall i :: 0 <= i < k ==> r.buf[i].header.sn == r.nxt + i
  }

  /** What a drain does, in one fact. */
  lemma SettleEffect(r: Inbox)
    requires Bounded(r.buf)
    ensures Consecutive(r, ReadyIn(r)) && Settle(r) == Moved(r, ReadyIn(r)) && Settled(Settle(r))
  {
    hide Settle, ReadyCount, Bounded, Moved, Settled;
    SettleMoves(r);
    ReadyNumbers(r.buf, r.nxt, r.limit - |r.queue|);
    MovedSettled(r, ReadyIn(r));
  }

  lemma MovedSettled(r: Inbox, k: nat)
    requires k <= |r.buf| && r.nxt + k < 0x1_0000_0000
    requires k < |r.buf| && r.buf[k].header.sn == r.nxt + k ==> r.limit - |r.queue| <= k
    ensures Settled(Moved(r, k))
  {
  }

  lemma MovedBuffered(r: Inbox, store: map<u32, Segment>, k: nat)
    requires Buffered(r, store) && Consecutive(r, k)
    ensures Buffered(Moved(r, k), store)
  {
    var r' := Moved(r, k);
    forall i | 0 <= i < |r'.buf| ensures r'.buf[i] == r.buf[k + i] && r'.buf[i].header.sn >= r'.nxt {
      if k > 0 {
        assert r.buf[k - 1].header.sn < r.buf[k + i].header.sn;
      }
    }
  }

  lemma MovedCovered(r: Inbox, store: map<u32, Segment>, k: nat)
    requires Covered(r, store) && Consecutive(r, k)
    ensures Covered(Moved(r, k), store)
  {
    var r' := Moved(r, k);
    forall sn | sn in store ensures sn < r'.nxt || HasSn(r'.buf, sn) {
      if HasSn(r.buf, sn) {
        var i :| 0 <= i < |r.buf| && r.buf[i].header.sn == sn;
        assert i >= k ==> r'.buf[i - k].header.sn == sn;
      }
    }
  }

  lemma InOrderExtend(segs: seq<Segment>, more: seq<Segment>, store: map<u32, Segment>)
    requires InOrder(segs, store)
    requires forall i :: 0 <= i < |more| ==>
               more[i].header.sn == |segs| + i && more[i].header.sn in store
               && store[more[i].header.sn] == more[i]
    ensures InOrder(segs + more, store)
  {
  }

  lemma MovedRepresents(taken: seq<Segment>, r: Inbox, store: map<u32, Segment>, k: nat)
    requires Represents(taken, r, store) && Consecutive(r, k)
    ensures Represents(taken, Moved(r, k), store)
  {
    MovedBuffered(r, store, k);
    MovedCovered(r, store, k);
    ReadyStored(r, store, k);
    hide Covered, Buffered, InOrder;
    InOrderExtend(taken + r.queue, r.buf[..k], store);
    assert taken + Moved(r, k).queue == taken + r.queue + r.buf[..k];
  }

  lemma ReadyStored(r: Inbox, store: map<u32, Segment>, k: nat)
    requires Buffered(r, store) && Consecutive(r, k)
    ensures forall i :: 0 <= i < k ==>
              var seg := r.buf[..k][i];
              seg.header.sn == r.nxt + i && seg.header.sn in store && store[seg.header.sn] == seg
  {
  }

  lemma SettleRepresents(taken: seq<Segment>, r: Inbox, store: map<u32, Segment>)
    requires Represents(taken, r, store)
    ensures Represents(taken, Settle(r), store) && Settled(Settle(r))
  {
    SettleEffect(r);
    MovedRepresents(taken, r, store, ReadyIn(r));
  }

  lemma InsertBuffered(r: Inbox, seg: Segment, store: map<u32, Segment>)
    requires Buffered(r, store) && seg.header.sn !in store
    requires r.nxt <= seg.header.sn < 0xFFFF_FFFF && !HasSn(r.buf, seg.header.sn)
    ensures Buffered(r.(buf := Inserted(r.buf, seg)), FirstWins(store, seg))
  {
    InsertedSorted(r.buf, seg);
    InsertedFrom(r.buf, seg);
    hide Sorted, HasSn, Inserted;
    var buf, store' := Inserted(r.buf, seg), FirstWins(store, seg);
    forall i | 0 <= i < |buf|
      ensures buf[i].header.sn < 0xFFFF_FFFF && buf[i].header.sn >= r.nxt
      ensures buf[i].header.sn in store' && store'[buf[i].header.sn] == buf[i]
    {
      if buf[i] != seg {
        assert buf[i] in r.buf;
      }
    }
  }

  lemma InsertedFrom(buf: seq<Segment>, seg: Segment)
    ensures forall i :: 0 <= i < |Inserted(buf, seg)| ==>
              Inserted(buf, seg)[i] == seg || Inserted(buf, seg)[i] in buf
  {
  }

  lemma InsertRepresents(taken: seq<Segment>, r: Inbox, store: map<u32, Segment>, seg: Segment)
    requires Represents(taken, r, store) && !HasSn(r.buf, seg.header.sn)
    requires r.nxt <= seg.header.sn < 0xFFFF_FFFF
    ensures Represents(taken, r.(buf := Inserted(r.buf, seg)), FirstWins(store, seg))
  {
    hide Sorted, HasSn, Inserted, InOrder, Buffered;
    assert seg.header.sn !in store;
    BufferedSorted(r, store);
    InsertBuffered(r, seg, store);
    InsertedMembers(r.buf, seg);
    InOrderMore(taken + r.queue, store, seg);
  }

  lemma BufferedSorted(r: Inbox, store: map<u32, Segment>)
    requires Buffered(r, store)
    ensures Sorted(r.buf)
  {
  }

  lemma InOrderMore(segs: seq<Segment>, store: map<u32, Segment>, seg: Segment)
    requires InOrder(segs, store)
    ensures InOrder(segs, FirstWins(store, seg))
  {
  }

  lemma ArrivalRefines(t: Trace, seg: Segment, wnd: u32)
    requires Refines(t)
    ensures Refines(Advance(t, Arrival(seg, wnd)))
  {
    var r, sn := t.inbox, seg.header.sn;
    DuplicateTestExact(r.buf, sn);
    if Admitted(r, sn, wnd) && ShouldReceive(r, sn) {
      if HasSn(r.buf, sn) {
        assert sn in t.store;
      } else {
        InsertRepresents(t.taken, r, t.store, seg);
        SettleRepresents(t.taken, r.(buf := Inserted(r.buf, seg)), FirstWins(t.store, seg));
        hide Settle, Represents;
      }
    }
  }

  lemma TakeRefines(t: Trace, capacity: nat, wnd: u32)
    requires Refines(t)
    ensures Refines(Advance(t, Take(capacity, wnd)))
  {
    var r := t.inbox;
    if Recv(r, capacity, wnd).Ok? {
      var n := TakeCount(r.queue, PeekSize(r).value);
      assert (t.taken + r.queue[..n]) + r.queue[n..] == t.taken + r.queue;
      SettleRepresents(t.taken + r.queue[..n], r.(queue := r.queue[n..]), t.store);
      hide Settle;
    }
  }

  /**
   For every sequence of arrivals (repeated, missing, reordered, even contradictory) and reads,
   the buffers together hold exactly the map from number to first admitted arrival: the segments
   handed out and queued are numbers 0 .. rcv_nxt-1, once each and in order.
   */
  lemma {:induction false} ReceiverRefinesMap(limit: u32, events: seq<Event>)
    ensures Refines(AdvanceAll(Start(limit), events))
    decreases |events|
  {
    if events != [] {
      var last := |events| - 1;
      ReceiverRefinesMap(limit, events[..last]);
      hide Refines;
      var t := AdvanceAll(Start(limit), events[..last]);
      match events[last]
      case Arrival(seg, wnd) => ArrivalRefines(t, seg, wnd);
      case Take(capacity, wnd) => TakeRefines(t, capacity, wnd);
    }
  }

  /** Numbers of a buffer that was never filled through a window larger than `wnd`. */
  predicate InWindow(r: Inbox, wnd: u32) {
    forall i :: 0 <= i < |r.buf| ==> r.buf[i].header.sn < r.nxt + wnd
  }

  lemma ArrivalInWindow(t: Trace, seg: Segment, wnd: u32, largest: u32)
    requires Refines(t) && InWindow(t.inbox, largest) && wnd <= largest
    ensures InWindow(Advance(t, Arrival(seg, wnd)).inbox, largest)
  {
    var r := t.inbox;
    if Admitted(r, seg.header.sn, wnd) && ShouldReceive(r, seg.header.sn) {
      DuplicateTestExact(r.buf, seg.header.sn);
      hide Sorted, HasSn, Inserted, Covered, InOrder;
      if !HasSn(r.buf, seg.header.sn) {
        InsertedInWindow(r, seg, largest);
        SettleInWindow(r.(buf := Inserted(r.buf, seg)), largest);
      }
    }
  }

  lemma InsertedInWindow(r: Inbox, seg: Segment, largest: u32)
    requires Sorted(r.buf) && Bounded(r.buf) && InWindow(r, largest)
    requires seg.header.sn < 0xFFFF_FFFF && seg.header.sn < r.nxt + largest
    ensures Bounded(Inserted(r.buf, seg)) && InWindow(r.(buf := Inserted(r.buf, seg)), largest)
  {
    InsertedMembers(r.buf, seg);
    hide Sorted, HasSn, Inserted;
  }

  lemma SettleInWindow(r: Inbox, largest: u32)
    requires Bounded(r.buf) && InWindow(r, largest)
    ensures InWindow(Settle(r), largest)
  {
    SettleMoves(r);
    hide Settle, ReadyIn;
  }

  /**
   Whatever arrives, the reorder buffer stays below rcv_nxt plus the largest window; it lies at
   or above rcv_nxt, in order, by ReceiverRefinesMap.
   */
  lemma {:induction false} BufferStaysInWindow(limit: u32, events: seq<Event>, largest: u32)
    requires forall i :: 0 <= i < |events| && events[i].Arrival? ==> events[i].wnd <= largest
    ensures InWindow(AdvanceAll(Start(limit), events).inbox, largest)
  {
    if events != [] {
      var last := |events| - 1;
      BufferStaysInWindow(limit, events[..last], largest);
      ReceiverRefinesMap(limit, events[..last]);
      var t := AdvanceAll(Start(limit), events[..last]);
      hide Refines;
      match events[last]
      case Arrival(seg, wnd) => ArrivalInWindow(t, seg, wnd, largest);
      case Take(capacity, wnd) => TakeInWindow(t, capacity, wnd, largest);
    }
  }

  lemma TakeInWindow(t: Trace, capacity: nat, wnd: u32, largest: u32)
    requires Refines(t) && InWindow(t.inbox, largest)
    ensures InWindow(Advance(t, Take(capacity, wnd)).inbox, largest)
  {
    if Recv(t.inbox, capacity, wnd).Ok? {
      var n := TakeCount(t.inbox.queue, PeekSize(t.inbox).value);
      SettleInWindow(t.inbox.(queue := t.inbox.queue[n..]), largest);
      hide Settle;
    }
  }

  /**
   Past the last usable number the receiver stalls and never wraps: the next expected segment
   is admitted exactly while rcv_nxt plus the window is a u32.
   */
  lemma StallsBeforeWrapping(r: Inbox, wnd: u32)
    requires wnd > 0
    ensures Admitted(r, r.nxt, wnd) <==> r.nxt + wnd < 0x1_0000_0000
    ensures forall sn: u32 :: Admitted(r, sn, wnd) && ShouldReceive(r, sn) ==> sn < 0xFFFF_FFFF
  {
  }
}
