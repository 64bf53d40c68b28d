/** What happens to each numbered segment in a run of calls, and what the lives of segments say of runs. */
module Histories {
  import opened Words
  import opened Segments
  import opened Codec
  import opened Receiving
  import opened Sending
  import opened Congestion
  import opened Timeouts
  import opened Fragmentation
  import opened Transmission
  import opened Endpoints
  import opened Links
  import opened Laws
  import opened Schedules

  // ---------------------------------------------------------------- the history of one number

  /** A segment as it is before its first flush, as far as its schedule goes. */
  const NEWBORN := Segment(Header(0, PUSH, 0, 0, 0, 0, 0, 0), [], NEW_METADATA)

  /** The endpoint a call flushes, if it does. */
  function FlushedBy(e: Endpoint, a: Action): Option<Endpoint> {
    match a
    case Flush => if e.timing.updated then Some(e) else None
    case Update(now) => if FlushDue(e.timing, Wrap32(now)) then Some(Ticked(e, Wrap32(now))) else None
    case _ => None
  }

  function Find(buf: seq<Segment>, sn: u32): Option<Segment> {
    if buf == [] then None
    else if buf[0].header.sn == sn then Some(buf[0])
    else Find(buf[1..], sn)
  }

  /** What one call does to the buffered segment numbered `sn`. */
  function Happened(e: Endpoint, a: Action, sn: u32): seq<Happening> {
    match FlushedBy(e, a)
    case Some(f) => if Find(Endpoints.Admitted(f).buf, sn).Some? then [Happening.Flushed(PassOf(f))] else []
    case None =>
      if !a.Deliver? then []
      else
        match Find(Input(e, a.datagram).0.out.buf, sn)
        case Some(seg) => [Happening.Skipped(seg.meta.fastack)]
        case None => []
  }

  function History(me: Peer, calls: seq<Action>, sn: u32): seq<Happening> {
    if calls == [] then []
    else
      var before := calls[..|calls| - 1];
      History(me, before, sn) + Happened(Called(me, before).e, calls[|calls| - 1], sn)
  }

  function LifeOf(me: Peer, calls: seq<Action>, sn: u32): Life {
    LiveAll(Born(NEWBORN), History(me, calls, sn))
  }

  /** The call flushes the segment numbered `sn` and judges it as `v`. */
  predicate JudgedAs(e: Endpoint, a: Action, sn: u32, v: Verdict) {
    match FlushedBy(e, a)
    case Some(f) =>
      var found := Find(Endpoints.Admitted(f).buf, sn);
      found.Some? && Judge(PassOf(f), found.value) == v
    case None => false
  }

  /** How many flushes of a run judge the segment numbered `sn` as `v`. */
  function Verdicts(me: Peer, calls: seq<Action>, sn: u32, v: Verdict): nat {
    if calls == [] then 0
    else
      var before := calls[..|calls| - 1];
      Verdicts(me, before, sn, v) + (if JudgedAs(Called(me, before).e, calls[|calls| - 1], sn, v) then 1 else 0)
  }

  lemma {:induction false} FindExact(buf: seq<Segment>, sn: u32)
    requires Sorted(buf)
    ensures forall seg :: seg in buf && seg.header.sn == sn <==> Find(buf, sn) == Some(seg)
    ensures Find(buf, sn).Some? ==> Find(buf, sn).value in buf && Find(buf, sn).value.header.sn == sn
  {
    if buf != [] {
      SortedTail(buf);
      FindExact(buf[1..], sn);
      assert forall seg :: seg in buf <==> seg == buf[0] || seg in buf[1..];
    }
  }

  // ---------------------------------------------------------------- one call

  /** The buffered segment numbered `sn`, if any, has the metadata of that life. */
  predicate Projects(o: Outbox, l: Life, sn: u32) {
    forall seg :: seg in o.buf && seg.header.sn == sn ==> seg.meta == l.seg.meta
  }

  lemma MetaDecides(p: Pass, seg: Segment, like: Segment)
    requires Alike(seg, like)
    ensures Judge(p, seg) == Judge(p, like)
    ensures Processed(p, seg).meta == Processed(p, like).meta
  {
    hide TimeDelta, Wrap32, BackedOff;
  }

  /** The numbers a flush adds are new, and their segments unsent. */
  lemma AdmittedAre(f: Endpoint)
    requires Tracked(f.out)
    ensures var o := Endpoints.Admitted(f);
      && Tracked(o) && o.nxt >= f.out.nxt
      && forall seg :: seg in o.buf ==>
           seg in f.out.buf
           || (seg.header.sn >= f.out.nxt && seg.meta.xmit == 0 && seg.meta.fastack == 0)
  {
    var cwnd := CongestionWindow(f.windows);
    AdmitExact(f.out, cwnd, StampOf(f), f.estimate.rto);
    AdmitWindowed(f.out, cwnd, StampOf(f), f.estimate.rto);
    hide Admit, AdmitCount, StampOf, CongestionWindow, Tracked;
  }

  lemma NumbersBelow(o: Outbox, sn: u32)
    requires Tracked(o) && sn >= o.nxt
    ensures Find(o.buf, sn) == None && forall seg :: seg in o.buf ==> seg.header.sn != sn
  {
    FindExact(o.buf, sn);
    assert forall i :: 0 <= i < |o.buf| ==> InFlight(o, o.buf[i].header.sn);
    hide Sorted, Find;
  }

  /** A flush: the segment lives on as one pass makes it, judged as its life is. */
  lemma FlushLives(f: Endpoint, l: Life, sn: u32)
    requires f.timing.updated && Tracked(f.out) && Projects(f.out, l, sn)
    requires sn >= f.out.nxt ==> l == Born(NEWBORN)
    ensures var found := Find(Endpoints.Admitted(f).buf, sn);
      && (found.None? ==> forall seg :: seg in Endpoints.Flush(f).out.buf ==> seg.header.sn != sn)
      && (found.Some? ==>
            && Judge(PassOf(f), found.value) == Judge(PassOf(f), l.seg)
            && Projects(Endpoints.Flush(f).out, Live(l, Happening.Flushed(PassOf(f))), sn))
    ensures Endpoints.Flush(f).out.nxt >= f.out.nxt
    ensures sn >= Endpoints.Flush(f).out.nxt ==> Find(Endpoints.Admitted(f).buf, sn).None?
  {
    hide Endpoints.Admitted, PassOf, Find, Judge, Retimed, Tracked, ProcessedAll, FlushedWindows, FlushedTuning,
         FlushedProbe, Projects;
    var p, o := PassOf(f), Endpoints.Admitted(f);
    AdmittedAre(f);
    assert Endpoints.Flush(f).out == o.(buf := ProcessedAll(p, o.buf));
    hide Endpoints.Flush;
    TrackedSorted(o);
    if sn >= o.nxt {
      NumbersBelow(o, sn);
    }
    forall seg | seg in o.buf && seg.header.sn == sn
      ensures Alike(seg, l.seg)
    {
      AdmittedLike(f, seg, l, sn);
    }
    PassLives(p, o.buf, l, sn);
    if Find(o.buf, sn).Some? {
      LivesOn(ProcessedAll(p, o.buf), o, p, l, sn);
    }
  }

  lemma TrackedSorted(o: Outbox)
    requires Tracked(o)
    ensures Sorted(o.buf)
  {
  }

  /** A pass judges and retimes both segments alike. */
  predicate Alike(seg: Segment, like: Segment) {
    seg.meta == like.meta || (seg.meta.xmit == 0 == like.meta.xmit && seg.meta.fastack == like.meta.fastack)
  }

  lemma PassLives(p: Pass, buf: seq<Segment>, l: Life, sn: u32)
    requires Sorted(buf) && forall seg :: seg in buf && seg.header.sn == sn ==> Alike(seg, l.seg)
    ensures var found := Find(buf, sn);
      && (found.None? ==> forall seg :: seg in ProcessedAll(p, buf) ==> seg.header.sn != sn)
      && (found.Some? ==>
            && Judge(p, found.value) == Judge(p, l.seg)
            && forall seg :: seg in ProcessedAll(p, buf) && seg.header.sn == sn ==>
                 seg.meta == Live(l, Happening.Flushed(p)).seg.meta)
  {
    FindExact(buf, sn);
    hide Find, Judge, Retimed, Sorted, Alike;
    forall seg | seg in ProcessedAll(p, buf) && seg.header.sn == sn
      ensures Find(buf, sn).Some? && seg.meta == Processed(p, l.seg).meta
    {
      var i :| 0 <= i < |buf| && seg == Processed(p, buf[i]);
      assert buf[i] in buf && buf[i].header.sn == sn;
      MetaDecides(p, buf[i], l.seg);
    }
    if Find(buf, sn).Some? {
      MetaDecides(p, Find(buf, sn).value, l.seg);
    }
  }

  lemma LivesOn(buf: seq<Segment>, o: Outbox, p: Pass, l: Life, sn: u32)
    requires forall seg :: seg in buf && seg.header.sn == sn ==> seg.meta == Live(l, Happening.Flushed(p)).seg.meta
    ensures Projects(o.(buf := buf), Live(l, Happening.Flushed(p)), sn)
  {
    hide Processed, Judge;
  }

  lemma AdmittedLike(f: Endpoint, seg: Segment, l: Life, sn: u32)
    requires Projects(f.out, l, sn) && (sn >= f.out.nxt ==> l == Born(NEWBORN)) && seg.header.sn == sn
    requires seg in f.out.buf || (seg.header.sn >= f.out.nxt && seg.meta.xmit == 0 && seg.meta.fastack == 0)
    ensures Alike(seg, l.seg)
  {
  }

  /** Every segment left was there before, and changed in its fastack at most. */
  predicate Descends(after: seq<Segment>, before: seq<Segment>) {
    forall seg :: seg in after ==> Ancestor(seg, before)
  }

  predicate Ancestor(seg: Segment, before: seq<Segment>) {
    exists former :: former in before && former.header == seg.header
                   && seg.meta == former.meta.(fastack := seg.meta.fastack)
  }

  lemma WithinDescends(after: seq<Segment>, before: seq<Segment>)
    requires Within(after, before)
    ensures Descends(after, before)
  {
    forall seg | seg in after
      ensures Ancestor(seg, before)
    {
      assert seg in before && seg.meta == seg.meta.(fastack := seg.meta.fastack);
    }
  }

  lemma SelfDescends(buf: seq<Segment>)
    ensures Descends(buf, buf)
  {
    WithinDescends(buf, buf);
  }

  lemma DescendsOn(a: seq<Segment>, b: seq<Segment>, c: seq<Segment>)
    requires Descends(a, b) && Descends(b, c)
    ensures Descends(a, c)
  {
    forall seg | seg in a
      ensures Ancestor(seg, c)
    {
      assert Ancestor(seg, b);
      var mid :| mid in b && mid.header == seg.header && seg.meta == mid.meta.(fastack := seg.meta.fastack);
      assert Ancestor(mid, c);
    }
  }

  lemma {:induction false} BumpedDescends(buf: seq<Segment>, sn: u32)
    ensures Descends(BumpBefore(buf, sn), buf)
  {
    if buf == [] || buf[0].header.sn >= sn {
      WithinDescends(buf, buf);
    } else {
      BumpedDescends(buf[1..], sn);
      forall seg | seg in BumpBefore(buf, sn)
        ensures Ancestor(seg, buf)
      {
        if seg == Bump(buf[0]) {
          assert buf[0] in buf;
        } else {
          assert Ancestor(seg, buf[1..]);
          var mid :| mid in buf[1..] && mid.header == seg.header && seg.meta == mid.meta.(fastack := seg.meta.fastack);
          assert mid in buf;
        }
      }
    }
  }

  lemma HandledDescends(e: Endpoint, p: Packet)
    ensures Descends(HandlePacket(e, p).out.buf, e.out.buf) && HandlePacket(e, p).out.nxt == e.out.nxt
  {
    HandledOutbox(e, p);
    ErasedWithin(e.out.buf, p.header.una);
    ErasedWithin(EraseBefore(e.out.buf, p.header.una), p.header.sn);
    hide HandlePacket, EraseBefore, EraseSn, Descends;
    WithinDescends(HandlePacket(e, p).out.buf, e.out.buf);
  }

  lemma {:induction false} HandledAllDescends(e: Endpoint, ps: seq<Packet>)
    ensures Descends(HandleAll(e, ps).out.buf, e.out.buf) && HandleAll(e, ps).out.nxt == e.out.nxt
    decreases |ps|
  {
    if ps == [] {
      WithinDescends(e.out.buf, e.out.buf);
    } else {
      var h := HandlePacket(e, ps[0]);
      HandledDescends(e, ps[0]);
      hide Descends, HandlePacket;
      HandledAllDescends(h, ps[1..]);
      DescendsOn(HandleAll(e, ps).out.buf, h.out.buf, e.out.buf);
    }
  }

  lemma InputDescends(e: Endpoint, data: seq<u8>)
    ensures Descends(Input(e, data).0.out.buf, e.out.buf) && Input(e, data).0.out.nxt == e.out.nxt
  {
    hide Parse, HandleAll, FastAcks, AdjustParameters, BumpBefore, Descends, TallyAll;
    var ps := Parse(e.build, e.conv, data).packets;
    var h, fast := HandleAll(e, ps), FastAcks(NO_FAST_ACK, ps);
    HandledAllDescends(e, ps);
    BumpedDescends(h.out.buf, fast.maxack);
    SelfDescends(h.out.buf);
    SelfDescends(e.out.buf);
    if |data| >= HEADER_SIZE {
      DescendsOn(Input(e, data).0.out.buf, h.out.buf, e.out.buf);
    }
  }

  /** A datagram: the segment stays as it is but for what skipped it. */
  lemma InputLives(e: Endpoint, data: seq<u8>, l: Life, sn: u32)
    requires Tracked(e.out) && Tracked(Input(e, data).0.out) && Projects(e.out, l, sn)
    ensures var e', found := Input(e, data).0, Find(Input(e, data).0.out.buf, sn);
      && e'.out.nxt == e.out.nxt
      && (found.None? ==> forall seg :: seg in e'.out.buf ==> seg.header.sn != sn)
      && (found.Some? ==> Projects(e'.out, Live(l, Happening.Skipped(found.value.meta.fastack)), sn))
      && (found.Some? ==> sn < e.out.nxt)
  {
    var e' := Input(e, data).0;
    InputDescends(e, data);
    FindExact(e'.out.buf, sn);
    if sn >= e.out.nxt {
      NumbersBelow(e'.out, sn);
    }
    hide Input, Find, Tracked;
    forall seg | seg in e'.out.buf && seg.header.sn == sn
      ensures Find(e'.out.buf, sn) == Some(seg) && seg.meta == l.seg.meta.(fastack := seg.meta.fastack)
    {
      assert Ancestor(seg, e.out.buf);
    }
  }

  // ---------------------------------------------------------------- every run of calls

  /** The life made of a history. */
  function LifeFrom(hs: seq<Happening>): Life {
    LiveAll(Born(NEWBORN), hs)
  }

  lemma LifeGoesOn(hs: seq<Happening>, h: Happening)
    ensures LifeFrom(hs + [h]) == Live(LifeFrom(hs), h)
  {
    hide Live;
    assert (hs + [h])[..|hs + [h]| - 1] == hs;
  }

  /** One call takes a history of `sn` on: its segment, its verdicts, and nothing before it is numbered. */
  lemma StepLives(me: Peer, a: Action, hs: seq<Happening>, sn: u32)
    requires var incoming := if a.Deliver? then {a.datagram} else {};
      Tracked(me.e.out) && Tracked(PeerStep(me, incoming, a).e.out)
    requires Projects(me.e.out, LifeFrom(hs), sn) && (sn >= me.e.out.nxt ==> hs == [])
    ensures var incoming, hs' := if a.Deliver? then {a.datagram} else {}, hs + Happened(me.e, a, sn);
      var o, l, l' := PeerStep(me, incoming, a).e.out, LifeFrom(hs), LifeFrom(hs');
      && Projects(o, l', sn) && (sn >= o.nxt ==> hs' == []) && |hs'| <= |hs| + 1
      && l'.fastResends == l.fastResends + (if JudgedAs(me.e, a, sn, Fast) then 1 else 0)
      && l'.timeouts == l.timeouts + (if JudgedAs(me.e, a, sn, TimedOut) then 1 else 0)
  {
    hide Tracked, Projects, LifeFrom, Endpoints.Flush, FlushDatagrams, UpdateDatagrams, Input, Find, Fragments,
         Receiving.Recv, NextFlush, FlushDue, Processed, Judge, PassOf, Endpoints.Admitted, Endpoints.Check;
    var l := LifeFrom(hs);
    assert hs + [] == hs;
    assert LifeFrom([]) == Born(NEWBORN) by {
      NoLife();
    }
    if FlushedBy(me.e, a).Some? {
      var f := FlushedBy(me.e, a).value;
      FlushedIs(me.e, a);
      FlushLives(f, l, sn);
      LifeGoesOn(hs, Happening.Flushed(PassOf(f)));
      if Find(Endpoints.Admitted(f).buf, sn).None? {
        NoneProjects(Endpoints.Flush(f).out, l, sn);
      }
    } else if a.Deliver? {
      InputLives(me.e, a.datagram, l, sn);
      match Find(Input(me.e, a.datagram).0.out.buf, sn)
      case Some(seg) => LifeGoesOn(hs, Happening.Skipped(seg.meta.fastack));
      case None => NoneProjects(Input(me.e, a.datagram).0.out, l, sn);
    } else {
      StillOut(me, a);
      ProjectsSame(me.e.out, PeerStep(me, {}, a).e.out, l, sn);
    }
  }

  lemma NoLife()
    ensures LifeFrom([]) == Born(NEWBORN)
  {
  }

  /** A call flushes the endpoint it finds, on a timer that runs. */
  lemma FlushedIs(e: Endpoint, a: Action)
    requires FlushedBy(e, a).Some?
    ensures var f := FlushedBy(e, a).value;
      && f.timing.updated && f.out == e.out && f.estimate == e.estimate && f.tuning == e.tuning
  {
    hide FlushDue;
  }

  lemma NoneProjects(o: Outbox, l: Life, sn: u32)
    requires forall seg :: seg in o.buf ==> seg.header.sn != sn
    ensures Projects(o, l, sn)
  {
  }

  lemma ProjectsSame(o: Outbox, o': Outbox, l: Life, sn: u32)
    requires Projects(o, l, sn) && o'.buf == o.buf
    ensures Projects(o', l, sn)
  {
  }

  /** A call that neither flushes nor takes a datagram leaves the buffer and snd_nxt. */
  lemma StillOut(me: Peer, a: Action)
    requires FlushedBy(me.e, a).None? && !a.Deliver?
    ensures var o := PeerStep(me, {}, a).e.out; o.buf == me.e.out.buf && o.nxt == me.e.out.nxt
  {
    hide Fragments, Receiving.Recv, NextFlush, FlushDue, CheckTimer;
  }

  /**
   A segment's life in a run: in every run of calls, whatever bytes arrive, the metadata of each
   buffered segment is what its history makes of a new one, and the flushes that judged it timed
   out, or fast-resent it, are as many as its life counts.
   */
  lemma {:induction false} LivesAreRuns(build: Build, conv: u32, mss: Mss, calls: seq<Action>, sn: u32)
    ensures var me := Links.Start(build, conv, mss);
      var o, l := Called(me, calls).e.out, LifeOf(me, calls, sn);
      && (forall seg :: seg in o.buf && seg.header.sn == sn ==> seg.meta == l.seg.meta)
      && (sn >= o.nxt ==> History(me, calls, sn) == []) && |History(me, calls, sn)| <= |calls|
      && l.fastResends == Verdicts(me, calls, sn, Fast)
      && l.timeouts == Verdicts(me, calls, sn, TimedOut)
  {
    var me := Links.Start(build, conv, mss);
    EveryCallInRange(build, conv, mss, calls);
    if calls != [] {
      var last := |calls| - 1;
      var before := calls[..last];
      EveryCallInRange(build, conv, mss, before);
      hide PeerStep, InRange, Tracked, LiveAll, Happened, JudgedAs;
      LivesAreRuns(build, conv, mss, before, sn);
      StepLives(Called(me, before), calls[last], History(me, before, sn), sn);
    }
  }

  // ---------------------------------------------------------------- what lives say of runs

  /** Every pass of a history is that of a call which flushed. */
  lemma {:induction false} PassesAreFlushes(me: Peer, calls: seq<Action>, sn: u32, i: nat) returns (k: nat)
    requires i < |History(me, calls, sn)| && History(me, calls, sn)[i].Flushed?
    ensures k < |calls|
    ensures var f := FlushedBy(Called(me, calls[..k]).e, calls[k]);
      f.Some? && History(me, calls, sn)[i].pass == PassOf(f.value)
  {
    var last := |calls| - 1;
    hide Called, PassOf, Input, Endpoints.Admitted, Find;
    if i < |History(me, calls[..last], sn)| {
      k := PassesAreFlushes(me, calls[..last], sn, i);
      assert calls[..last][..k] == calls[..k];
    } else {
      k := last;
    }
  }

  lemma FlushPassInRange(e: Endpoint, a: Action)
    requires InRange(e) && FlushedBy(e, a).Some?
    ensures Ordinary(PassOf(FlushedBy(e, a).value))
    ensures PassOf(FlushedBy(e, a).value).fastlimit == e.tuning.fastlimit
    ensures PassOf(FlushedBy(e, a).value).nodelay == e.tuning.nodelay
  {
    FlushedIs(e, a);
    hide FlushedBy, StampOf;
  }

  /** One call changes these settings only by setting them. */
  lemma StepTuning(me: Peer, incoming: set<seq<u8>>, a: Action)
    ensures var t, t' := me.e.tuning, PeerStep(me, incoming, a).e.tuning;
      && (!(a.Configure? && a.setting.FastLimit?) ==> t'.fastlimit == t.fastlimit)
      && (!(a.Configure? && a.setting.NoDelay?) ==> t'.nodelay == t.nodelay)
  {
    match a
    case Send(msg) => hide Fragments;
    case Recv(_) => hide Receiving.Recv;
    case Update(now) =>
      FlushTuning(Ticked(me.e, Wrap32(now)));
      hide Endpoints.Flush, FlushDue, NextFlush, UpdateDatagrams;
    case Flush =>
      FlushTuning(me.e);
      hide Endpoints.Flush, FlushDatagrams;
    case Check(_) => hide TimeDelta;
    case Deliver(d) =>
      HandledTuning(me.e, Parse(me.e.build, me.e.conv, d).packets);
      hide Parse, HandleAll, FastAcks, AdjustParameters, BumpBefore;
    case Configure(_) =>
  }

  lemma FlushTuning(e: Endpoint)
    ensures Endpoints.Flush(e).tuning.fastlimit == e.tuning.fastlimit
    ensures Endpoints.Flush(e).tuning.nodelay == e.tuning.nodelay
  {
    hide Endpoints.Admitted, CountOf, ReachesDeadLink, FlushedWindows, FlushedProbe, ProcessedAll, PassOf;
  }

  lemma {:induction false} HandledTuning(e: Endpoint, ps: seq<Packet>)
    ensures HandleAll(e, ps).tuning == e.tuning
    decreases |ps|
  {
    if ps != [] {
      HandledTuning(HandlePacket(e, ps[0]), ps[1..]);
      hide UnaReceived, AckReceived, Emplace, HandleAll, Timeouts.Update;
    }
  }

  /** fastlimit is set once, before anything else, or stays at its default. */
  predicate FixesLimit(calls: seq<Action>, limit: u32) {
    && (forall i :: 0 <= i < |calls| && calls[i].Configure? && calls[i].setting.FastLimit? ==>
          i == 0 && calls[i].setting.value == limit)
    && (limit == FASTACK_LIMIT || (calls != [] && calls[0] == Action.Configure(FastLimit(limit))))
  }

  lemma {:induction false} LimitStays(build: Build, conv: u32, mss: Mss, calls: seq<Action>, limit: u32, k: nat)
    requires FixesLimit(calls, limit) && k <= |calls| && (k > 0 || limit == FASTACK_LIMIT)
    ensures Called(Links.Start(build, conv, mss), calls[..k]).e.tuning.fastlimit == limit
  {
    var me := Links.Start(build, conv, mss);
    if k > 0 {
      assert calls[..k][..k - 1] == calls[..k - 1];
      var before, a := Called(me, calls[..k - 1]), calls[k - 1];
      assert Called(me, calls[..k]) == PeerStep(before, if a.Deliver? then {a.datagram} else {}, a);
      if !(a.Configure? && a.setting.FastLimit?) {
        if k > 1 || limit == FASTACK_LIMIT {
          LimitStays(build, conv, mss, calls, limit, k - 1);
        }
        StepTuning(before, if a.Deliver? then {a.datagram} else {}, a);
        hide PeerStep, Called;
      }
    }
  }

  /**
   Fast resends over a run: with one positive fastlimit throughout, in every run of calls, whatever
   bytes arrive, at most fastlimit - 1 flushes fast-resend a given number.
   */
  lemma EveryRunFastResends(build: Build, conv: u32, mss: Mss, calls: seq<Action>, sn: u32, limit: u32)
    requires FixesLimit(calls, limit) && limit > 0 && |calls| < 0xFFFF_FFFF
    ensures Verdicts(Links.Start(build, conv, mss), calls, sn, Fast) <= limit - 1
  {
    var me := Links.Start(build, conv, mss);
    var hs := History(me, calls, sn);
    LivesAreRuns(build, conv, mss, calls, sn);
    forall i | 0 <= i < |hs| && hs[i].Flushed?
      ensures hs[i].pass.fastlimit == limit
    {
      var k := PassesAreFlushes(me, calls, sn, i);
      EveryCallInRange(build, conv, mss, calls[..k]);
      FlushPassInRange(Called(me, calls[..k]).e, calls[k]);
      if k > 0 || limit == FASTACK_LIMIT {
        LimitStays(build, conv, mss, calls, limit, k);
      }
    }
    assert AllPasses(hs, (p: Pass) => p.fastlimit == limit);
    FastResendsLimited(NEWBORN, hs, limit);
    hide Called, History, Verdicts, LiveAll;
  }

  predicate NeverNodelay(calls: seq<Action>) {
    forall i :: 0 <= i < |calls| && calls[i].Configure? && calls[i].setting.NoDelay? ==> calls[i].setting.value == 0
  }

  lemma {:induction false} NodelayStays(build: Build, conv: u32, mss: Mss, calls: seq<Action>)
    requires NeverNodelay(calls)
    ensures Called(Links.Start(build, conv, mss), calls).e.tuning.nodelay == 0
  {
    if calls != [] {
      var last := |calls| - 1;
      var before, a := Called(Links.Start(build, conv, mss), calls[..last]), calls[last];
      NodelayStays(build, conv, mss, calls[..last]);
      if !(a.Configure? && a.setting.NoDelay?) {
        StepTuning(before, if a.Deliver? then {a.datagram} else {}, a);
        hide PeerStep;
      }
    }
  }

  /**
   Backoff over a run: in every run of calls, whatever bytes arrive, a buffered segment that k <= 16
   flushes have judged timed out carries a timeout between that of its first send, itself from 30 ms
   to 60 s, and 60000 * 2^k; and with nodelay never set, of at least 2^k times its first.
   */
  lemma EveryRunBacksOff(build: Build, conv: u32, mss: Mss, calls: seq<Action>, seg: Segment)
    requires var e := Called(Links.Start(build, conv, mss), calls).e;
      seg in e.out.buf && seg.meta.xmit > 0 && |calls| < 0xFFFF_FFFF
    ensures var me := Links.Start(build, conv, mss);
      var k, first := Verdicts(me, calls, seg.header.sn, TimedOut), LifeOf(me, calls, seg.header.sn).first;
      k <= 16 ==>
        && RTO_NDL <= first <= seg.meta.rto <= Doubled(RTO_MAX, k)
        && (NeverNodelay(calls) ==> seg.meta.rto >= Doubled(first, k))
  {
    var me := Links.Start(build, conv, mss);
    var hs := History(me, calls, seg.header.sn);
    LivesAreRuns(build, conv, mss, calls, seg.header.sn);
    forall i | 0 <= i < |hs| && hs[i].Flushed?
      ensures Ordinary(hs[i].pass) && (NeverNodelay(calls) ==> hs[i].pass.nodelay == 0)
    {
      var k := PassesAreFlushes(me, calls, seg.header.sn, i);
      EveryCallInRange(build, conv, mss, calls[..k]);
      FlushPassInRange(Called(me, calls[..k]).e, calls[k]);
      if NeverNodelay(calls) {
        NodelayStays(build, conv, mss, calls[..k]);
      }
    }
    hide Called, History, Verdicts, NeverNodelay, Doubled;
    LifeBacksOff(hs, NeverNodelay(calls));
  }

  lemma LifeBacksOff(hs: seq<Happening>, plain: bool)
    requires |hs| < 0xFFFF_FFFF && AllPasses(hs, Ordinary)
    requires plain ==> AllPasses(hs, (p: Pass) => p.nodelay == 0)
    ensures var l := LifeFrom(hs);
      && l.seg.meta.xmit == l.sends
      && (l.sends > 0 && l.timeouts <= 16 ==>
            && RTO_NDL <= l.first <= l.seg.meta.rto <= Doubled(RTO_MAX, l.timeouts)
            && (plain ==> l.seg.meta.rto >= Doubled(l.first, l.timeouts)))
  {
    assert AllPasses(hs, (p: Pass) => p.rto <= RTO_MAX) && AllPasses(hs, (p: Pass) => p.rto >= RTO_NDL);
    BackoffBounds(NEWBORN, hs);
    FirstWithin(NEWBORN, hs, RTO_NDL);
    hide LiveAll, Doubled;
  }
}
