/** The packets of a flush, as they pass through the flusher one after the other. */
module Groupings {
  import opened Segments
  import opened Sending
  import opened Congestion
  import opened Probing
  import opened Packing
  import opened Transmission
  import E = Endpoints

  lemma AcksStart(f: Packing.Flush, mss: Mss, s: Stamp, acks: seq<E.Acknowledgement>)
    ensures PutAll(f, mss, E.AckPackets(s, acks[..0])) == f
  {
  }

  lemma AcksStep(f: Packing.Flush, mss: Mss, s: Stamp, acks: seq<E.Acknowledgement>, i: nat)
    requires i < |acks|
    ensures E.LastAck(acks[..i + 1]) == acks[i]
    ensures PutAll(f, mss, E.AckPackets(s, acks[..i + 1]))
         == Put(PutAll(f, mss, E.AckPackets(s, acks[..i])), mss, E.Service(s, ACK, acks[i]))
  {
    hide E.Service, PutAll, Put;
    PutAllAppend(f, mss, E.AckPackets(s, acks[..i]), E.Service(s, ACK, acks[i]));
    assert E.AckPackets(s, acks[..i + 1]) == E.AckPackets(s, acks[..i]) + [E.Service(s, ACK, acks[i])];
  }

  lemma ProbesPut(f: Packing.Flush, mss: Mss, s: Stamp, p: Probe, last: E.Acknowledgement)
    ensures var f' := if p.askSend then Put(f, mss, E.Service(s, WASK, last)) else f;
      PutAll(f, mss, E.ProbePackets(s, p, last))
      == if p.askTell then Put(f', mss, E.Service(s, WINS, last)) else f'
  {
    hide E.Service, Put;
    var sends := if p.askSend then [E.Service(s, WASK, last)] else [];
    var tells := if p.askTell then [E.Service(s, WINS, last)] else [];
    PutAllConcat(f, mss, sends, tells);
  }

  /** The packets of a flush before its data. */
  function ControlPackets(e: E.Endpoint): seq<Packet> {
    E.AckPackets(E.StampOf(e), e.acks)
    + E.ProbePackets(E.StampOf(e), E.FlushedProbe(e), E.LastAck(e.acks))
  }

  /** The endpoint after them. */
  function Controlled(e: E.Endpoint): E.Endpoint {
    e.(acks := [], probe := E.FlushedProbe(e).(askSend := false, askTell := false))
  }

  function EnsuredEndpoint(e: E.Endpoint): E.Endpoint {
    e.(windows := EnsureOnePacket(e.windows, e.mss))
  }

  lemma FlushedGroups(sent: seq<seq<Packet>>, e: E.Endpoint)
    requires e.timing.updated
    ensures var f := PutAll(PutAll(Packing.Flush.Flush(sent, []), e.mss, ControlPackets(e)), e.mss,
                            Emitted(E.PassOf(e), E.Admitted(e).buf));
      && Finish(f) == sent + E.FlushDatagrams(e)
      && TotalSize(Finish(f)) == TotalSize(sent) + E.FlushReport(e).totalBytes
  {
    DatagramsAfter(sent, e.mss, ControlPackets(e), Emitted(E.PassOf(e), E.Admitted(e).buf));
    hide PutAll, Finish, TotalSize, E.PassOf, E.Admitted, Emitted, E.AckPackets, E.ProbePackets;
  }

  lemma SameStamp(e: E.Endpoint)
    ensures E.StampOf(e.(acks := [])) == E.StampOf(e)
    ensures E.FlushedProbe(e.(acks := [])) == E.FlushedProbe(e)
  {
  }

  lemma SamePass(e: E.Endpoint)
    ensures E.PassOf(Controlled(e)) == E.PassOf(e) && E.Admitted(Controlled(e)) == E.Admitted(e)
    ensures E.UnusedWindow(Controlled(e)) == E.UnusedWindow(e)
    ensures E.FlushedTuning(Controlled(e)) == E.FlushedTuning(e)
  {
  }
}
