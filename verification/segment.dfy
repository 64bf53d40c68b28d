/** Segments, their headers, and the constants that name commands. */
module Segments {
  import opened Words

  const PUSH: u8 := 81
  const ACK: u8 := 82
  const WASK: u8 := 83
  const WINS: u8 := 84

  const HEADER_SIZE: nat := 24

  predicate IsCommand(cmd: u8) {
    cmd == PUSH || cmd == ACK || cmd == WASK || cmd == WINS
  }

  datatype Header = Header(
    conv: u32, cmd: u8, frg: u8, wnd: u16, ts: u32, sn: u32, una: u32, len: u32)

  /** Retransmission state of a segment on the sending side. */
  datatype Metadata = Metadata(resendts: u32, rto: u32, fastack: u32, xmit: u32)

  const NEW_METADATA := Metadata(0, 0, 0, 0)

  datatype Segment = Segment(header: Header, data: seq<u8>, meta: Metadata)

  /** What one segment looks like between the endpoints: a header and its payload. */
  datatype Packet = Packet(header: Header, data: seq<u8>)

  /** The part of a segment the receiving application depends on. */
  datatype Frag = Frag(frg: u8, data: seq<u8>)

  function FragOf(seg: Segment): Frag {
    Frag(seg.header.frg, seg.data)
  }

  predicate Sized(seg: Segment) {
    seg.header.len == |seg.data|
  }

  predicate AllSized(segs: seq<Segment>) {
    forall i :: 0 <= i < |segs| ==> Sized(segs[i])
  }

  /** Strictly increasing sequence numbers. */
  predicate Sorted(segs: seq<Segment>) {
    forall i, j :: 0 <= i < j < |segs| ==> segs[i].header.sn < segs[j].header.sn
  }

  predicate HasSn(segs: seq<Segment>, sn: u32) {
    exists i :: 0 <= i < |segs| && segs[i].header.sn == sn
  }

  /** The payloads of consecutive segments, joined. */
  function Joined(segs: seq<Segment>): seq<u8> {
    if segs == [] then [] else segs[0].data + Joined(segs[1..])
  }
}
