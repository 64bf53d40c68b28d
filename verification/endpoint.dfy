/**
 One endpoint as a value, and what each call of the library's main object does to it: send,
 recv, input, update, flush, check and the settings.
 */
module Endpoints {
  import opened Words
  import opened Segments
  import opened Codec
  import opened Receiving
  import opened Sending
  import opened Congestion
  import opened Timeouts
  import opened Probing
  import opened Packing
  import opened Fragmentation
  import opened Transmission

  const INTERVAL: u32 := 100
  const DEADLINK: u32 := 20
  const FASTACK_LIMIT: u32 := 5

  datatype Acknowledgement = Acknowledgement(sn: u32, ts: u32)

  datatype Timing = Timing(interval: u32, updated: bool, current: u32, tsFlush: u32)

  datatype Tuning = Tuning(
    nodelay: u32, fastresend: u32, fastlimit: u32, deadLink: u32, xmit: u32, dead: bool)

  datatype Endpoint = Endpoint(
    build: Build,
    conv: u32,
    mss: Mss,
    out: Outbox,
    inbox: Inbox,
    acks: seq<Acknowledgement>,
    windows: Windows,
    estimate: Estimate,
    probe: Probe,
    timing: Timing,
    tuning: Tuning)

  function New(build: Build, conv: u32, mss: Mss): Endpoint {
    Endpoint(build, conv, mss, EMPTY_OUTBOX, EMPTY_INBOX.(limit := WND_RCV), [], INITIAL_WINDOWS,
             INITIAL_ESTIMATE, NO_PROBE, Timing(INTERVAL, false, 0, INTERVAL),
             Tuning(0, 0, FASTACK_LIMIT, DEADLINK, 0, false))
  }

  // ---------------------------------------------------------------- settings

  datatype Setting =
    | Interval(value: u32)
    | NoDelay(value: u32)
    | FastResend(value: u32)
    | FastLimit(value: u32)
    | SendWindow(value: u32)
    | ReceiveWindow(value: u32)
    | CongestionWindowEnabled(on: bool)
    | DeadLink(value: u32)

  function Configure(e: Endpoint, s: Setting): Endpoint {
    match s
    case Interval(v) =>
      var interval := Clamp(v, 10, 5000);
      e.(timing := e.timing.(interval := interval), estimate := e.estimate.(interval := interval))
    case NoDelay(v) =>
      e.(tuning := e.tuning.(nodelay := v),
         estimate := e.estimate.(minrto := if v > 0 then RTO_NDL else RTO_MIN))
    case FastResend(v) => e.(tuning := e.tuning.(fastresend := v))
    case FastLimit(v) => e.(tuning := e.tuning.(fastlimit := v))
    case SendWindow(v) => e.(windows := e.windows.(sndWnd := v, rmtWnd := v))
    case ReceiveWindow(v) =>
      e.(windows := SetReceiveWindow(e.windows, v), inbox := e.inbox.(limit := v))
    case CongestionWindowEnabled(on) => e.(windows := e.windows.(enabled := on))
    case DeadLink(v) => e.(tuning := e.tuning.(deadLink := v))
  }

  // ---------------------------------------------------------------- send and recv

  function Send(e: Endpoint, msg: seq<u8>): (Endpoint, Result<nat>) {
    match SendError(|msg|, e.windows.rcvWnd, e.mss)
    case Some(error) => (e, Err(error))
    case None =>
      (e.(out := e.out.(queue := e.out.queue + QueuedAll(Fragments(msg, e.mss)))), Ok(|msg|))
  }

  function Recv(e: Endpoint, capacity: nat): (Endpoint, Result<seq<u8>>) {
    match Receiving.Recv(e.inbox, capacity, e.windows.rcvWnd)
    case Err(error) => (e, Err(error))
    case Ok(d) =>
      (e.(inbox := d.inbox, probe := e.probe.(askTell := e.probe.askTell || d.recovered)),
       Ok(d.message))
  }

  // ---------------------------------------------------------------- input

  datatype InputResult = InputResult(
    ackCount: nat, waskCount: nat, winsCount: nat, droppedPushCount: nat, totalBytes: nat)

  const NO_INPUT := InputResult(0, 0, 0, 0, 0)

  /** Every header updates the remote window and acknowledges everything before its una. */
  function Heard(e: Endpoint, h: Header): Endpoint {
    e.(windows := e.windows.(rmtWnd := h.wnd), out := UnaReceived(e.out, h.una))
  }

  function HandlePush(e: Endpoint, p: Packet): Endpoint {
    if !FitsReceiveWindow(e.windows, e.inbox.nxt, p.header.sn) then e
    else
      e.(acks := e.acks + [Acknowledgement(p.header.sn, p.header.ts)],
         inbox := if ShouldReceive(e.inbox, p.header.sn)
                  then Emplace(e.inbox, Segment(p.header, p.data, NEW_METADATA)) else e.inbox)
  }

  function HandleAck(e: Endpoint, h: Header): Endpoint {
    e.(estimate := Timeouts.Update(e.estimate, e.timing.current, h.ts),
       out := AckReceived(e.out, h.sn))
  }

  function HandlePacket(e: Endpoint, p: Packet): Endpoint {
    var e' := Heard(e, p.header);
    if p.header.cmd == PUSH then HandlePush(e', p)
    else if p.header.cmd == ACK then HandleAck(e', p.header)
    else if p.header.cmd == WASK then e'.(probe := e'.probe.(askTell := true))
    else e'
  }

  function HandleAll(e: Endpoint, ps: seq<Packet>): Endpoint
    decreases |ps|
  {
    if ps == [] then e else HandleAll(HandlePacket(e, ps[0]), ps[1..])
  }

  function FastAckStep(f: FastAck, p: Packet): FastAck {
    if p.header.cmd == ACK then FastAckUpdate(f, p.header.sn, p.header.ts) else f
  }

  function FastAcks(f: FastAck, ps: seq<Packet>): FastAck
    decreases |ps|
  {
    if ps == [] then f else FastAcks(FastAckStep(f, ps[0]), ps[1..])
  }

  predicate Dropped(e: Endpoint, p: Packet) {
    var e' := Heard(e, p.header);
    p.header.cmd == PUSH
    && !(FitsReceiveWindow(e'.windows, e'.inbox.nxt, p.header.sn) && ShouldReceive(e'.inbox, p.header.sn))
  }

  function Tally(r: InputResult, e: Endpoint, p: Packet): InputResult {
    if p.header.cmd == ACK then r.(ackCount := r.ackCount + 1)
    else if p.header.cmd == WASK then r.(waskCount := r.waskCount + 1)
    else if p.header.cmd == WINS then r.(winsCount := r.winsCount + 1)
    else if Dropped(e, p) then r.(droppedPushCount := r.droppedPushCount + 1)
    else r
  }

  function TallyAll(r: InputResult, e: Endpoint, ps: seq<Packet>): InputResult
    decreases |ps|
  {
    if ps == [] then r else TallyAll(Tally(r, e, ps[0]), HandlePacket(e, ps[0]), ps[1..])
  }

  /** What follows the packet loop when it ends without an error. */
  function Conclude(e: Endpoint, before: u32, fast: FastAck): Endpoint {
    var e' := e.(out := AcknowledgeFast(e.out, fast));
    if e'.out.una > before then e'.(windows := AdjustParameters(e'.windows, e'.mss)) else e'
  }

  /** Packets before a faulty one have been handled even when input() returns an error. */
  function Input(e: Endpoint, data: seq<u8>): (Endpoint, Result<InputResult>) {
    if |data| < HEADER_SIZE then (e, Err(LessThanHeaderSize))
    else
      var parsed := Parse(e.build, e.conv, data);
      var e' := HandleAll(e, parsed.packets);
      match parsed.outcome
      case Failed(error) => (e', Err(error))
      case Finished(offset) =>
        (Conclude(e', e.out.una, FastAcks(NO_FAST_ACK, parsed.packets)),
         Ok(TallyAll(NO_INPUT, e, parsed.packets).(totalBytes := offset)))
  }

  // ---------------------------------------------------------------- flush

  datatype FlushResult = FlushResult(
    ackCount: nat, waskCount: nat, winsCount: nat, pushCount: nat,
    timeoutCount: nat, fastCount: nat, totalBytes: nat)

  const NO_FLUSH := FlushResult(0, 0, 0, 0, 0, 0, 0)

  /** Room left in the receive queue, computed in i32. */
  function UnusedWindow(e: Endpoint): nat {
    Max(AsI32(e.windows.rcvWnd) - AsI32(Wrap32(|e.inbox.queue|)), 0)
  }

  /** The window that goes on the wire: narrowed to 16 bits. */
  function AdvertisedWindow(e: Endpoint): u16 {
    Wrap16(UnusedWindow(e))
  }

  function StampOf(e: Endpoint): Stamp {
    Stamp(e.conv, AdvertisedWindow(e), e.timing.current, e.inbox.nxt)
  }

  function Service(s: Stamp, cmd: u8, a: Acknowledgement): Packet {
    Packet(Header(s.conv, cmd, 0, s.wnd, a.ts, a.sn, s.una, 0), [])
  }

  function AckPackets(s: Stamp, acks: seq<Acknowledgement>): seq<Packet> {
    seq(|acks|, i requires 0 <= i < |acks| => Service(s, ACK, acks[i]))
  }

  /** The service header is reused, so a probe carries the sn and ts of the last acknowledgement. */
  function LastAck(acks: seq<Acknowledgement>): Acknowledgement {
    if acks == [] then Acknowledgement(0, 0) else acks[|acks| - 1]
  }

  function ProbePackets(s: Stamp, p: Probe, last: Acknowledgement): seq<Packet> {
    (if p.askSend then [Service(s, WASK, last)] else [])
    + (if p.askTell then [Service(s, WINS, last)] else [])
  }

  function FlushedProbe(e: Endpoint): Probe {
    Probing.Update(e.probe, e.timing.current, e.windows.rmtWnd)
  }

  function ResendThreshold(t: Tuning): u32 {
    if t.fastresend > 0 then t.fastresend else 0xFFFF_FFFF
  }

  function PassOf(e: Endpoint): Pass {
    Pass(StampOf(e), e.estimate.rto, if e.tuning.nodelay == 0 then e.estimate.rto / 8 else 0,
         ResendThreshold(e.tuning), e.tuning.fastlimit, e.tuning.nodelay)
  }

  function Admitted(e: Endpoint): Outbox {
    Admit(e.out, CongestionWindow(e.windows), StampOf(e), e.estimate.rto)
  }

  /** Everything one flush emits, in order: acknowledgements, probes, data. */
  function FlushPackets(e: Endpoint): seq<Packet> {
    AckPackets(StampOf(e), e.acks)
    + ProbePackets(StampOf(e), FlushedProbe(e), LastAck(e.acks))
    + Emitted(PassOf(e), Admitted(e).buf)
  }

  /** How the windows react to what one pass over the buffer of `o` resends. */
  function Reacted(w: Windows, mss: Mss, p: Pass, o: Outbox): Windows {
    var w' := if CountOf(p, o.buf, Fast) > 0
              then PacketsResent(w, mss, Wrap32(o.nxt - o.una), p.resent) else w;
    if CountOf(p, o.buf, TimedOut) > 0 then PacketLost(w', mss) else w'
  }

  function FlushedWindows(e: Endpoint): Windows {
    EnsureOnePacket(Reacted(e.windows, e.mss, PassOf(e), Admitted(e)), e.mss)
  }

  function FlushedTuning(e: Endpoint): Tuning {
    var p, buf := PassOf(e), Admitted(e).buf;
    e.tuning.(xmit := Wrap32(e.tuning.xmit + CountOf(p, buf, TimedOut)),
              dead := e.tuning.dead || ReachesDeadLink(p, buf, e.tuning.deadLink))
  }

  function Flush(e: Endpoint): Endpoint {
    if !e.timing.updated then e
    else
      var o := Admitted(e);
      e.(out := o.(buf := ProcessedAll(PassOf(e), o.buf)),
         acks := [],
         windows := FlushedWindows(e),
         probe := FlushedProbe(e).(askSend := false, askTell := false),
         tuning := FlushedTuning(e))
  }

  /** The datagrams given to the output callback, as packets. */
  function FlushDatagrams(e: Endpoint): seq<seq<Packet>> {
    if !e.timing.updated then [] else Datagrams(e.mss, FlushPackets(e))
  }

  function FlushReport(e: Endpoint): FlushResult {
    if !e.timing.updated then NO_FLUSH
    else
      var p, buf := PassOf(e), Admitted(e).buf;
      FlushResult(|e.acks|,
                  if FlushedProbe(e).askSend then 1 else 0,
                  if FlushedProbe(e).askTell then 1 else 0,
                  |Emitted(p, buf)|,
                  CountOf(p, buf, TimedOut), CountOf(p, buf, Fast),
                  TotalSize(FlushDatagrams(e)))
  }

  // ---------------------------------------------------------------- update and check

  /** The flush timer before an update decides. */
  function Rearmed(t: Timing, now: u32): Timing {
    var tsFlush := if t.updated then t.tsFlush else now;
    var slap := TimeDelta(now, tsFlush);
    Timing(t.interval, true, now, if slap >= 10000 || slap < -10000 then now else tsFlush)
  }

  predicate FlushDue(t: Timing, now: u32) {
    TimeDelta(now, Rearmed(t, now).tsFlush) >= 0
  }

  function NextFlush(t: Timing, now: u32): Timing {
    var r := Rearmed(t, now);
    if !FlushDue(t, now) then r
    else
      var next := Wrap32(r.tsFlush + t.interval);
      r.(tsFlush := if TimeDelta(now, next) >= 0 then Wrap32(now + t.interval) else next)
  }

  /** The endpoint when update() reaches its flush, or returns without one. */
  function Ticked(e: Endpoint, now: u32): Endpoint {
    e.(timing := NextFlush(e.timing, now))
  }

  function Update(e: Endpoint, now: u32): Endpoint {
    if FlushDue(e.timing, now) then Flush(Ticked(e, now)) else Ticked(e, now)
  }

  function UpdateDatagrams(e: Endpoint, now: u32): seq<seq<Packet>> {
    if FlushDue(e.timing, now) then FlushDatagrams(Ticked(e, now)) else []
  }

  /** Earliest retransmission, by plain comparison of clock readings. */
  function EarliestFrom(buf: seq<Segment>, now: u32, best: u32): Option<u32> {
    if buf == [] then (if best == 0xFFFF_FFFF then None else Some(best))
    else if buf[0].meta.resendts <= now then Some(0)
    else EarliestFrom(buf[1..], now, Min(best, Wrap32(buf[0].meta.resendts - now)))
  }

  function EarliestTransmit(buf: seq<Segment>, now: u32): Option<u32> {
    if buf == [] then None else EarliestFrom(buf, now, 0xFFFF_FFFF)
  }

  /** check() may restart the flush timer, and says when update() is to be called next. */
  function CheckTimer(t: Timing, now: u32): Timing {
    var d := TimeDelta(now, t.tsFlush);
    if t.updated && (d >= 10000 || d <= -10000) then t.(tsFlush := now) else t
  }

  function CheckAnswer(t: Timing, buf: seq<Segment>, now: u32): u32 {
    var t' := CheckTimer(t, now);
    if !t.updated || TimeDelta(now, t'.tsFlush) >= 0 then now
    else
      var nextFlush := Max(0, TimeDelta(t'.tsFlush, now));
      var minimal := match EarliestTransmit(buf, now)
                     case Some(d) => Min(d, nextFlush)
                     case None => nextFlush;
      Wrap32(now + Min(t.interval, minimal))
  }

  function Check(e: Endpoint, now: u32): (Endpoint, u32) {
    (e.(timing := CheckTimer(e.timing, now)), CheckAnswer(e.timing, e.out.buf, now))
  }
}
