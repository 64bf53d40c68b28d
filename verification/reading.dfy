/** The packet loop of input(), one pass at a time. */
module Readings {
  import opened Words
  import opened Segments
  import opened Codec
  import opened Sending
  import E = Endpoints

  /** Reading a datagram has come to `offset`: what is left to do there completes what was due. */
  ghost predicate Continues(start: E.Endpoint, all: Parsed, e: E.Endpoint, f: FastAck,
                            counts: E.InputResult, offset: nat, rest: Parsed)
  {
    && all.outcome == Advance(rest.outcome, offset)
    && E.HandleAll(start, all.packets) == E.HandleAll(e, rest.packets)
    && E.FastAcks(NO_FAST_ACK, all.packets) == E.FastAcks(f, rest.packets)
    && E.TallyAll(E.NO_INPUT, start, all.packets) == E.TallyAll(counts, e, rest.packets)
  }

  lemma ContinuesStep(start: E.Endpoint, all: Parsed, e: E.Endpoint, f: FastAck,
                      counts: E.InputResult, offset: nat, p: Packet, rest: Parsed)
    requires Continues(start, all, e, f, counts, offset, Prepend(p, rest))
    ensures Continues(start, all, E.HandlePacket(e, p), E.FastAckStep(f, p), E.Tally(counts, e, p),
                      offset + PacketSize(p.header), rest)
  {
    var ps := [p] + rest.packets;
    assert ps[0] == p && ps[1..] == rest.packets;
    hide E.HandlePacket, E.Tally, PacketSize;
  }

  lemma ContinuesEnd(start: E.Endpoint, all: Parsed, e: E.Endpoint, f: FastAck,
                     counts: E.InputResult, offset: nat, outcome: Outcome)
    requires Continues(start, all, e, f, counts, offset, Parsed([], outcome))
    ensures all.outcome == Advance(outcome, offset)
    ensures E.HandleAll(start, all.packets) == e
    ensures E.FastAcks(NO_FAST_ACK, all.packets) == f
    ensures E.TallyAll(E.NO_INPUT, start, all.packets) == counts
  {
  }

  lemma ParseEnd(build: Build, conv: u32, data: seq<u8>, offset: nat)
    requires offset <= |data| < offset + HEADER_SIZE
    ensures Parse(build, conv, data[offset..]) == Parsed([], Finished(0))
  {
  }

  lemma ParseFault(build: Build, conv: u32, data: seq<u8>, offset: nat)
    requires offset + HEADER_SIZE <= |data|
    ensures var fault := Fault(conv, DecodeHeader(build, data[offset..]), |data| - offset - HEADER_SIZE);
      fault.Some? ==> Parse(build, conv, data[offset..]) == Parsed([], Failed(fault.value))
  {
    hide DecodeHeader;
  }

  lemma ParsePacket(build: Build, conv: u32, data: seq<u8>, offset: nat)
    requires offset + HEADER_SIZE <= |data|
    requires Fault(conv, DecodeHeader(build, data[offset..]), |data| - offset - HEADER_SIZE) == None
    ensures var h := DecodeHeader(build, data[offset..]);
      var end := offset + PacketSize(h);
      && offset + HEADER_SIZE <= end <= |data|
      && Parse(build, conv, data[offset..])
         == Prepend(Packet(h, data[offset + HEADER_SIZE..end]), Parse(build, conv, data[end..]))
  {
    hide DecodeHeader, Prepend;
    var rest := data[offset..];
    var size := PacketSize(DecodeHeader(build, rest));
    assert rest[size..] == data[offset + size..];
    assert rest[HEADER_SIZE..size] == data[offset + HEADER_SIZE..offset + size];
  }

  lemma ReadFault(start: E.Endpoint, all: Parsed, e: E.Endpoint, f: FastAck, counts: E.InputResult,
                  build: Build, conv: u32, data: seq<u8>, offset: nat)
    requires offset + HEADER_SIZE <= |data|
    requires Continues(start, all, e, f, counts, offset, Parse(build, conv, data[offset..]))
    requires Fault(conv, DecodeHeader(build, data[offset..]), |data| - offset - HEADER_SIZE).Some?
    ensures all.outcome
         == Failed(Fault(conv, DecodeHeader(build, data[offset..]), |data| - offset - HEADER_SIZE).value)
    ensures E.HandleAll(start, all.packets) == e
  {
    hide Parse, DecodeHeader, Continues, E.HandleAll, Fault;
    var fault := Fault(conv, DecodeHeader(build, data[offset..]), |data| - offset - HEADER_SIZE);
    ParseFault(build, conv, data, offset);
    ContinuesEnd(start, all, e, f, counts, offset, Failed(fault.value));
  }

  lemma ReadOn(start: E.Endpoint, all: Parsed, e: E.Endpoint, f: FastAck, counts: E.InputResult,
               build: Build, conv: u32, data: seq<u8>, offset: nat)
    requires offset + HEADER_SIZE <= |data|
    requires Continues(start, all, e, f, counts, offset, Parse(build, conv, data[offset..]))
    requires Fault(conv, DecodeHeader(build, data[offset..]), |data| - offset - HEADER_SIZE) == None
    ensures var h := DecodeHeader(build, data[offset..]);
      var end := offset + PacketSize(h);
      && end <= |data|
      && var p := Packet(h, data[offset + HEADER_SIZE..end]);
      Continues(start, all, E.HandlePacket(e, p), E.FastAckStep(f, p), E.Tally(counts, e, p), end,
                Parse(build, conv, data[end..]))
  {
    hide Parse, DecodeHeader, Continues, Prepend, Fault, PacketSize, E.HandlePacket, E.FastAckStep, E.Tally;
    ParsePacket(build, conv, data, offset);
    var h := DecodeHeader(build, data[offset..]);
    var end := offset + PacketSize(h);
    ContinuesStep(start, all, e, f, counts, offset, Packet(h, data[offset + HEADER_SIZE..end]),
                  Parse(build, conv, data[end..]));
  }
}
