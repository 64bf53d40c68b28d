/** What each call of the library leaves alone, whatever state it finds and whatever bytes arrive. */
module Frames {
  import opened Words
  import opened Segments
  import opened Codec
  import opened Receiving
  import opened Sending
  import opened Congestion
  import opened Fragmentation
  import opened Transmission
  import opened Endpoints
  import opened Links

  /** Two endpoints that differ only in what input() may write. */
  predicate Heeded(e: Endpoint, e': Endpoint) {
    && e'.build == e.build && e'.conv == e.conv && e'.mss == e.mss
    && e'.out == e.out.(una := e'.out.una, buf := e'.out.buf)
    && e'.inbox.limit == e.inbox.limit
    && e.acks <= e'.acks
    && e'.windows == e.windows.(rmtWnd := e'.windows.rmtWnd, cwnd := e'.windows.cwnd, incr := e'.windows.incr)
    && e'.estimate.interval == e.estimate.interval && e'.estimate.minrto == e.estimate.minrto
    && e'.probe == e.probe.(askTell := e'.probe.askTell) && (e.probe.askTell ==> e'.probe.askTell)
    && e'.timing == e.timing && e'.tuning == e.tuning
  }

  /** Two endpoints that differ only in what a flush may write. */
  predicate Flushed(e: Endpoint, e': Endpoint) {
    && e'.build == e.build && e'.conv == e.conv && e'.mss == e.mss
    && e'.out.una == e.out.una
    && e'.inbox == e.inbox
    && (e'.acks == e.acks || e'.acks == [])
    && e'.windows
       == e.windows.(ssthresh := e'.windows.ssthresh, cwnd := e'.windows.cwnd, incr := e'.windows.incr)
    && e'.estimate == e.estimate
    && e'.timing == e.timing
    && e'.tuning == e.tuning.(xmit := e'.tuning.xmit, dead := e'.tuning.dead)
    && (e.tuning.dead ==> e'.tuning.dead)
  }

  /** Two endpoints that differ only in what a setting may write. */
  predicate Configured(e: Endpoint, e': Endpoint) {
    && e'.build == e.build && e'.conv == e.conv && e'.mss == e.mss
    && e'.out == e.out && e'.acks == e.acks && e'.probe == e.probe
    && e'.inbox == e.inbox.(limit := e'.inbox.limit)
    && e'.windows.ssthresh == e.windows.ssthresh
    && e'.windows.cwnd == e.windows.cwnd && e'.windows.incr == e.windows.incr
    && e'.estimate == e.estimate.(interval := e'.estimate.interval, minrto := e'.estimate.minrto)
    && e'.timing == e.timing.(interval := e'.timing.interval)
    && e'.tuning.xmit == e.tuning.xmit && e'.tuning.dead == e.tuning.dead
  }

  /** What a call may change of the endpoint, and in which direction. */
  predicate LeavesAlone(e: Endpoint, e': Endpoint, a: Action) {
    match a
    case Send(_) => e' == e.(out := e.out.(queue := e'.out.queue)) && e.out.queue <= e'.out.queue
    case Recv(_) =>
      && e' == e.(inbox := e'.inbox, probe := e.probe.(askTell := e'.probe.askTell))
      && e'.inbox.limit == e.inbox.limit && (e.probe.askTell ==> e'.probe.askTell)
    case Update(now) =>
      && e'.timing.updated && e'.timing.current == Wrap32(now) && e'.timing.interval == e.timing.interval
      && Flushed(e.(timing := e'.timing), e')
    case Flush => Flushed(e, e')
    case Check(_) => e' == e.(timing := e.timing.(tsFlush := e'.timing.tsFlush))
    case Deliver(_) => Heeded(e, e')
    case Configure(_) => Configured(e, e')
  }

  lemma {:induction false} SettleKeepsLimit(r: Inbox)
    ensures Settle(r).limit == r.limit
    decreases |r.buf|
  {
    if r.buf != [] {
      SettleKeepsLimit(Inbox(r.buf[1..], r.queue + [r.buf[0]], r.limit, Wrap32(r.nxt + 1)));
    }
  }

  lemma EmplaceKeepsLimit(r: Inbox, seg: Segment)
    ensures Emplace(r, seg).limit == r.limit
  {
    var p := InsertPos(r.buf, seg.header.sn);
    SettleKeepsLimit(r.(buf := r.buf[..p] + [seg] + r.buf[p..]));
    hide Settle;
  }

  lemma HeardPacket(e: Endpoint, p: Packet)
    ensures Heeded(e, HandlePacket(e, p))
  {
    EmplaceKeepsLimit(e.inbox, Segment(p.header, p.data, NEW_METADATA));
    hide Emplace, EraseBefore, EraseSn, TimeDelta, Timeouts.NextVariation, Timeouts.NextSmoothed, Timeouts.TimeoutFor;
  }

  lemma HeededTwice(e: Endpoint, e': Endpoint, e'': Endpoint)
    requires Heeded(e, e') && Heeded(e', e'')
    ensures Heeded(e, e'')
  {
  }

  lemma {:induction false} HeardPackets(e: Endpoint, ps: seq<Packet>)
    ensures Heeded(e, HandleAll(e, ps))
    decreases |ps|
  {
    if ps != [] {
      HeardPacket(e, ps[0]);
      HeardPackets(HandlePacket(e, ps[0]), ps[1..]);
      hide HandlePacket;
      HeededTwice(e, HandlePacket(e, ps[0]), HandleAll(e, ps));
    }
  }

  lemma InputHeeds(e: Endpoint, data: seq<u8>)
    ensures Heeded(e, Input(e, data).0)
  {
    HeardPackets(e, Parse(e.build, e.conv, data).packets);
    hide Parse, HandleAll, FastAcks, Raised, BumpBefore;
    RaisedOnly(HandleAll(e, Parse(e.build, e.conv, data).packets).windows, e.mss);
    hide AdjustParameters;
  }

  lemma RaisedOnly(w: Windows, mss: Mss)
    ensures var w' := AdjustParameters(w, mss); w' == w.(cwnd := w'.cwnd, incr := w'.incr)
  {
    hide Bytes, Wrap32, Grown, Ceiling;
  }

  lemma {:induction false} AdmitKeepsUna(o: Outbox, cwnd: u32, stamp: Stamp, rto: u32)
    ensures Admit(o, cwnd, stamp, rto).una == o.una
    decreases |o.queue|
  {
    if o.queue != [] {
      AdmitKeepsUna(Outbox(o.una, Wrap32(o.nxt + 1), o.buf + [Numbered(o.queue[0], o.nxt, stamp, rto)], o.queue[1..]),
                    cwnd, stamp, rto);
    }
  }

  lemma FlushLeaves(e: Endpoint)
    ensures Flushed(e, Endpoints.Flush(e))
  {
    AdmitKeepsUna(e.out, CongestionWindow(e.windows), StampOf(e), e.estimate.rto);
    hide Admit, FlushedProbe, ProcessedAll, PassOf, StampOf, CountOf, Bytes, ReachesDeadLink;
  }

  lemma UpdateLeaves(e: Endpoint, now: u32)
    ensures var e' := Endpoints.Update(e, now);
      && e'.timing.updated && e'.timing.current == now && e'.timing.interval == e.timing.interval
      && Flushed(e.(timing := e'.timing), e')
  {
    FlushLeaves(Ticked(e, now));
    hide Endpoints.Flush, FlushDue, TimeDelta, Wrap32;
  }

  lemma CheckLeaves(e: Endpoint, now: u32)
    ensures var e' := Endpoints.Check(e, now).0; e' == e.(timing := e.timing.(tsFlush := e'.timing.tsFlush))
  {
    hide TimeDelta, CheckAnswer;
  }

  lemma ConfigureLeaves(e: Endpoint, s: Setting)
    ensures Configured(e, Endpoints.Configure(e, s))
  {
  }

  lemma NothingHeard(e: Endpoint)
    ensures Heeded(e, e)
  {
  }

  lemma SendLeaves(e: Endpoint, msg: seq<u8>)
    ensures var e' := Endpoints.Send(e, msg).0;
      e' == e.(out := e.out.(queue := e'.out.queue)) && e.out.queue <= e'.out.queue
  {
    hide Fragments, QueuedAll, SendError;
  }

  lemma RecvLeaves(e: Endpoint, capacity: nat)
    ensures var e' := Endpoints.Recv(e, capacity).0;
      && e' == e.(inbox := e'.inbox, probe := e.probe.(askTell := e'.probe.askTell))
      && e'.inbox.limit == e.inbox.limit && (e.probe.askTell ==> e'.probe.askTell)
  {
    if Receiving.Recv(e.inbox, capacity, e.windows.rcvWnd).Ok? {
      SettleKeepsLimit(e.inbox.(queue := e.inbox.queue[TakeCount(e.inbox.queue, PeekSize(e.inbox).value)..]));
    }
    hide Settle, TakeCount, TotalLength, SpanLength, Joined;
  }

  /** Every call, in every state and on arbitrary bytes, writes no more than its own part of the endpoint. */
  lemma CallsKeepApart(me: Peer, incoming: set<seq<u8>>, a: Action)
    ensures LeavesAlone(me.e, PeerStep(me, incoming, a).e, a)
  {
    hide Heeded, Flushed, Configured, Endpoints.Flush, Endpoints.Update, Endpoints.Send, Endpoints.Recv, Input,
         Endpoints.Configure, CheckTimer, CheckAnswer, FlushDatagrams, UpdateDatagrams, Wrap32;
    match a
    case Send(msg) => SendLeaves(me.e, msg);
    case Recv(capacity) => RecvLeaves(me.e, capacity);
    case Update(now) => UpdateLeaves(me.e, Wrap32(now));
    case Flush => FlushLeaves(me.e);
    case Check(now) => CheckLeaves(me.e, Wrap32(now));
    case Deliver(d) => InputHeeds(me.e, d); NothingHeard(me.e);
    case Configure(s) => ConfigureLeaves(me.e, s);
  }
}
