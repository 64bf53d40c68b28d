/**
 Bytes on the wire: byte order, header serialization, and the parse of a whole datagram.

 A build of the library fixes two things: how its processor lays a word out in memory, and
 whether htonl/htons swap (they do only on a little-endian build that need not align words).
 */
module Codec {
  import opened Words
  import opened Segments

  datatype Build = Build(bigEndianMemory: bool, swaps: bool)

  /** The word with the given bytes, most significant first. */
  function Word16(b1: u8, b0: u8): u16 {
    var hi: int := b1;
    hi * 0x100 + b0
  }

  function Word32(b3: u8, b2: u8, b1: u8, b0: u8): u32 {
    var hi: int, mid: int, lo: int := b3, b2, b1;
    hi * 0x100_0000 + mid * 0x1_0000 + lo * 0x100 + b0
  }

  /** The byte of `x` selected by a shift of 0, 8, 16 or 24 bits and a mask. */
  function Byte(x: u32, index: nat): u8
    requires index < 4
  {
    match index
    case 0 => x % 0x100
    case 1 => x / 0x100 % 0x100
    case 2 => x / 0x1_0000 % 0x100
    case _ => x / 0x100_0000
  }

  lemma WordOfBytes(x: u32)
    ensures Word32(Byte(x, 3), Byte(x, 2), Byte(x, 1), Byte(x, 0)) == x
  {
    var a := x / 0x100;
    var b := a / 0x100;
    assert x == 0x100 * a + Byte(x, 0) && a == 0x100 * b + Byte(x, 1);
    assert x / 0x1_0000 == b && b == 0x100 * Byte(x, 3) + Byte(x, 2);
  }

  lemma BytesOfWord(b3: u8, b2: u8, b1: u8, b0: u8)
    ensures var x := Word32(b3, b2, b1, b0);
            Byte(x, 3) == b3 && Byte(x, 2) == b2 && Byte(x, 1) == b1 && Byte(x, 0) == b0
  {
    var x := Word32(b3, b2, b1, b0);
    assert x / 0x100 == b3 * 0x1_0000 + b2 * 0x100 + b1;
    assert x / 0x1_0000 == b3 * 0x100 + b2;
  }

  /** Byte swaps: the four masked shifts of the source select disjoint bytes. */
  function Swap16(x: u16): u16 {
    Word16(x % 0x100, x / 0x100)
  }

  function Swap32(x: u32): u32 {
    Word32(Byte(x, 0), Byte(x, 1), Byte(x, 2), Byte(x, 3))
  }

  function Htons(build: Build, x: u16): u16 {
    if build.swaps then Swap16(x) else x
  }

  function Htonl(build: Build, x: u32): u32 {
    if build.swaps then Swap32(x) else x
  }

  /** memcpy of a word out of memory. */
  function Store16(build: Build, x: u16): (s: seq<u8>)
    ensures |s| == 2
  {
    if build.bigEndianMemory then [x / 0x100, x % 0x100] else [x % 0x100, x / 0x100]
  }

  function Store32(build: Build, x: u32): (s: seq<u8>)
    ensures |s| == 4
  {
    if build.bigEndianMemory
    then [Byte(x, 3), Byte(x, 2), Byte(x, 1), Byte(x, 0)]
    else [Byte(x, 0), Byte(x, 1), Byte(x, 2), Byte(x, 3)]
  }

  /** memcpy of a word into memory. */
  function Load16(build: Build, s: seq<u8>): u16
    requires |s| == 2
  {
    if build.bigEndianMemory then Word16(s[0], s[1]) else Word16(s[1], s[0])
  }

  function Load32(build: Build, s: seq<u8>): u32
    requires |s| == 4
  {
    if build.bigEndianMemory then Word32(s[0], s[1], s[2], s[3])
    else Word32(s[3], s[2], s[1], s[0])
  }

  function Put16(build: Build, x: u16): (s: seq<u8>)
    ensures |s| == 2
  {
    Store16(build, Htons(build, x))
  }

  function Put32(build: Build, x: u32): (s: seq<u8>)
    ensures |s| == 4
  {
    Store32(build, Htonl(build, x))
  }

  function Get16(build: Build, s: seq<u8>): u16
    requires |s| == 2
  {
    Htons(build, Load16(build, s))
  }

  function Get32(build: Build, s: seq<u8>): u32
    requires |s| == 4
  {
    Htonl(build, Load32(build, s))
  }

  /** Swapping twice, and storing then loading, give the word back. */
  lemma Swap32Involution(x: u32)
    ensures Swap32(Swap32(x)) == x
  {
    BytesOfWord(Byte(x, 0), Byte(x, 1), Byte(x, 2), Byte(x, 3));
    WordOfBytes(x);
  }

  lemma LoadStore32(build: Build, x: u32)
    ensures Load32(build, Store32(build, x)) == x
  {
    WordOfBytes(x);
  }

  lemma Word32RoundTrip(build: Build, x: u32)
    ensures Get32(build, Put32(build, x)) == x
  {
    LoadStore32(build, Htonl(build, x));
    Swap32Involution(x);
  }

  lemma Word16RoundTrip(build: Build, x: u16)
    ensures Get16(build, Put16(build, x)) == x
  {
    WordOfTwo(x);
    BytesOfTwo(x % 0x100, x / 0x100);
    BytesOfTwo(x / 0x100, x % 0x100);
    hide Word16;
  }

  lemma WordOfTwo(x: u16)
    ensures Word16(x / 0x100, x % 0x100) == x
  {
  }

  lemma BytesOfTwo(b1: u8, b0: u8)
    ensures Word16(b1, b0) / 0x100 == b1 && Word16(b1, b0) % 0x100 == b0
  {
  }

  /** Whether a build sends the most significant byte first. */
  predicate BigEndianWire(build: Build) {
    build.bigEndianMemory != build.swaps
  }

  lemma WireBytes(build: Build, x: u32)
    ensures Put32(build, x)
         == if BigEndianWire(build) then [Byte(x, 3), Byte(x, 2), Byte(x, 1), Byte(x, 0)]
            else [Byte(x, 0), Byte(x, 1), Byte(x, 2), Byte(x, 3)]
  {
    BytesOfWord(Byte(x, 0), Byte(x, 1), Byte(x, 2), Byte(x, 3));
  }

  function EncodeHeader(build: Build, h: Header): (s: seq<u8>)
    ensures |s| == HEADER_SIZE
  {
    Put32(build, h.conv) + [h.cmd, h.frg] + Put16(build, h.wnd) + Put32(build, h.ts)
    + Put32(build, h.sn) + Put32(build, h.una) + Put32(build, h.len)
  }

  function DecodeHeader(build: Build, s: seq<u8>): Header
    requires |s| >= HEADER_SIZE
  {
    Header(Get32(build, s[0..4]), s[4], s[5], Get16(build, s[6..8]), Get32(build, s[8..12]),
           Get32(build, s[12..16]), Get32(build, s[16..20]), Get32(build, s[20..24]))
  }

  lemma HeaderRoundTrip(build: Build, h: Header, rest: seq<u8>)
    ensures DecodeHeader(build, EncodeHeader(build, h) + rest) == h
  {
    var s := EncodeHeader(build, h) + rest;
    assert s[0..4] == Put32(build, h.conv);
    assert s[6..8] == Put16(build, h.wnd);
    assert s[8..12] == Put32(build, h.ts);
    assert s[12..16] == Put32(build, h.sn);
    assert s[16..20] == Put32(build, h.una);
    assert s[20..24] == Put32(build, h.len);
    Word32RoundTrip(build, h.conv);
    Word16RoundTrip(build, h.wnd);
    Word32RoundTrip(build, h.ts);
    Word32RoundTrip(build, h.sn);
    Word32RoundTrip(build, h.una);
    Word32RoundTrip(build, h.len);
  }

  lemma WireBytes16(build: Build, x: u16)
    ensures Put16(build, x)
         == if BigEndianWire(build) then [x / 0x100, x % 0x100] else [x % 0x100, x / 0x100]
  {
    BytesOfTwo(x % 0x100, x / 0x100);
    hide Word16;
  }

  /** The number a word on the wire stands for. */
  function NumberOf(bytes: seq<u8>, bigEndian: bool): nat {
    if bytes == [] then 0
    else if bigEndian then 0x100 * NumberOf(bytes[..|bytes| - 1], true) + bytes[|bytes| - 1]
    else bytes[0] + 0x100 * NumberOf(bytes[1..], false)
  }

  lemma NumberOfFour(b3: u8, b2: u8, b1: u8, b0: u8)
    ensures NumberOf([b3, b2, b1, b0], true) == Word32(b3, b2, b1, b0)
    ensures NumberOf([b0, b1, b2, b3], false) == Word32(b3, b2, b1, b0)
  {
    NumberOfTwo(b3, b2);
    assert [b3, b2, b1, b0][..3] == [b3, b2, b1] && [b3, b2, b1][..2] == [b3, b2];
    assert [b0, b1, b2, b3][1..] == [b1, b2, b3] && [b1, b2, b3][1..] == [b2, b3];
    assert NumberOf([b3, b2, b1], true) == 0x100 * NumberOf([b3, b2], true) + b1;
    assert NumberOf([b1, b2, b3], false) == b1 + 0x100 * NumberOf([b2, b3], false);
    assert NumberOf([b3, b2, b1, b0], true) == 0x100 * NumberOf([b3, b2, b1], true) + b0;
    assert NumberOf([b0, b1, b2, b3], false) == b0 + 0x100 * NumberOf([b1, b2, b3], false);
    hide NumberOf;
  }

  lemma NumberOfTwo(b1: u8, b0: u8)
    ensures NumberOf([b1, b0], true) == Word16(b1, b0) == NumberOf([b0, b1], false)
  {
    assert [b1, b0][..1] == [b1] && [b1][..0] == [] && [b0, b1][1..] == [b1] && [b1][1..] == [];
    assert NumberOf([b1], true) == b1 == NumberOf([b1], false);
  }

  lemma WordOnWire(build: Build, x: u32)
    ensures NumberOf(Put32(build, x), BigEndianWire(build)) == x
  {
    WireBytes(build, x);
    NumberOfFour(Byte(x, 3), Byte(x, 2), Byte(x, 1), Byte(x, 0));
    WordOfBytes(x);
    hide Put32, Byte, Word32, NumberOf;
  }

  lemma HalfOnWire(build: Build, x: u16)
    ensures NumberOf(Put16(build, x), BigEndianWire(build)) == x
  {
    WireBytes16(build, x);
    NumberOfTwo(x / 0x100, x % 0x100);
    WordOfTwo(x);
    hide Put16, Word16, NumberOf;
  }

  /** The header on the wire, byte for byte: each field at its offset, in the byte order of the build. */
  lemma HeaderLayout(build: Build, h: Header)
    ensures var s, big := EncodeHeader(build, h), BigEndianWire(build);
      && |s| == 24
      && NumberOf(s[0..4], big) == h.conv && s[4] == h.cmd && s[5] == h.frg && NumberOf(s[6..8], big) == h.wnd
      && NumberOf(s[8..12], big) == h.ts && NumberOf(s[12..16], big) == h.sn
      && NumberOf(s[16..20], big) == h.una && NumberOf(s[20..24], big) == h.len
  {
    hide Put32, Put16, NumberOf, BigEndianWire;
    var s := EncodeHeader(build, h);
    assert s[0..4] == Put32(build, h.conv);
    assert s[6..8] == Put16(build, h.wnd);
    assert s[8..12] == Put32(build, h.ts);
    assert s[12..16] == Put32(build, h.sn);
    assert s[16..20] == Put32(build, h.una);
    assert s[20..24] == Put32(build, h.len);
    hide EncodeHeader;
    WordOnWire(build, h.conv);
    HalfOnWire(build, h.wnd);
    WordOnWire(build, h.ts);
    WordOnWire(build, h.sn);
    WordOnWire(build, h.una);
    WordOnWire(build, h.len);
  }

  lemma SameWireHeaders(writer: Build, reader: Build, h: Header)
    requires BigEndianWire(writer) == BigEndianWire(reader)
    ensures EncodeHeader(writer, h) == EncodeHeader(reader, h)
  {
    forall x: u32
      ensures Put32(writer, x) == Put32(reader, x)
    {
      WireBytes(writer, x);
      WireBytes(reader, x);
    }
    WireBytes16(writer, h.wnd);
    WireBytes16(reader, h.wnd);
    hide Put32, Put16;
  }

  /**
   Two builds read each other's headers exactly when they put bytes on the wire in the same order.
   A little-endian build that does not swap cannot talk to one that does.
   */
  lemma Interoperable(writer: Build, reader: Build)
    ensures (forall h: Header :: DecodeHeader(reader, EncodeHeader(writer, h)) == h)
       <==> BigEndianWire(writer) == BigEndianWire(reader)
  {
    if BigEndianWire(writer) == BigEndianWire(reader) {
      forall h: Header
        ensures DecodeHeader(reader, EncodeHeader(writer, h)) == h
      {
        SameWireHeaders(writer, reader, h);
        HeaderRoundTrip(reader, h, []);
        hide EncodeHeader, DecodeHeader;
        assert EncodeHeader(reader, h) + [] == EncodeHeader(reader, h);
      }
    } else {
      var h := Header(1, PUSH, 0, 0, 0, 0, 0, 0);
      var s := EncodeHeader(writer, h);
      WireBytes(writer, 1);
      WireBytes(reader, 0x100_0000);
      Word32RoundTrip(reader, 0x100_0000);
      assert Put32(writer, 1) == Put32(reader, 0x100_0000) by {
        hide Put32;
      }
      assert s[0..4] == Put32(writer, 1) by {
        hide Put32, Put16;
      }
      assert DecodeHeader(reader, s).conv == 0x100_0000 by {
        hide Put32, Get32, Get16, Put16;
      }
    }
  }

  function Encode(build: Build, p: Packet): (s: seq<u8>)
    ensures |s| == HEADER_SIZE + |p.data|
  {
    EncodeHeader(build, p.header) + p.data
  }

  function EncodeAll(build: Build, ps: seq<Packet>): seq<u8> {
    if ps == [] then [] else Encode(build, ps[0]) + EncodeAll(build, ps[1..])
  }

  /** How a parse ends: at the last offset reached, or with an error. */
  datatype Outcome = Finished(offset: nat) | Failed(error: Error)

  datatype Parsed = Parsed(packets: seq<Packet>, outcome: Outcome)

  /** The packet boundary loop of input(): every packet before a faulty one is still dispatched. */
  function Parse(build: Build, conv: u32, data: seq<u8>): Parsed
    decreases |data|
  {
    if |data| < HEADER_SIZE then Parsed([], Finished(0))
    else
      var h := DecodeHeader(build, data);
      if h.conv != conv then Parsed([], Failed(ConvMismatch))
      else if h.len > |data| - HEADER_SIZE then
        Parsed([], Failed(HeaderAndPayloadLengthMismatch))
      else if !IsCommand(h.cmd) then Parsed([], Failed(UnknownCommand))
      else
        var size := PacketSize(h);
        Prepend(Packet(h, data[HEADER_SIZE..size]), Parse(build, conv, data[size..]))
  }

  function Prepend(p: Packet, parsed: Parsed): Parsed {
    Parsed([p] + parsed.packets, Advance(parsed.outcome, PacketSize(p.header)))
  }

  /** Only a PUSH is followed by its payload; the len field of other commands is not skipped. */
  function PacketSize(h: Header): nat {
    if h.cmd == PUSH then HEADER_SIZE + h.len else HEADER_SIZE
  }

  function Advance(o: Outcome, n: nat): Outcome {
    match o
    case Finished(offset) => Finished(offset + n)
    case Failed(_) => o
  }

  /** A packet an endpoint may put on the wire. */
  predicate WellFormed(conv: u32, p: Packet) {
    && p.header.conv == conv
    && IsCommand(p.header.cmd)
    && p.header.len == |p.data|
    && (p.header.cmd != PUSH ==> p.data == [])
  }

  predicate AllWellFormed(conv: u32, ps: seq<Packet>) {
    forall i :: 0 <= i < |ps| ==> WellFormed(conv, ps[i])
  }

  lemma ParseStep(build: Build, conv: u32, p: Packet, data: seq<u8>, rest: seq<u8>)
    requires WellFormed(conv, p)
    requires |data| >= HEADER_SIZE && DecodeHeader(build, data) == p.header
    requires data[HEADER_SIZE..] == p.data + rest
    ensures Parse(build, conv, data) == Prepend(p, Parse(build, conv, rest))
  {
    var size := HEADER_SIZE + |p.data|;
    assert data[size..] == data[HEADER_SIZE..][|p.data|..] == rest;
    assert data[HEADER_SIZE..size] == data[HEADER_SIZE..][..|p.data|] == p.data;
    assert PacketSize(p.header) == size;
  }

  /** Parsing undoes encoding: same packets, same order, every byte consumed. */
  lemma {:induction false} DatagramRoundTrip(build: Build, conv: u32, ps: seq<Packet>)
    requires AllWellFormed(conv, ps)
    ensures Parse(build, conv, EncodeAll(build, ps))
         == Parsed(ps, Finished(|EncodeAll(build, ps)|))
  {
    hide EncodeHeader, DecodeHeader, Prepend, Parse;
    if ps == [] {
      ParseNothing(build, conv);
    } else {
      var p, rest := ps[0], EncodeAll(build, ps[1..]);
      var data := Encode(build, p) + rest;
      assert data == EncodeHeader(build, p.header) + (p.data + rest);
      HeaderRoundTrip(build, p.header, p.data + rest);
      ParseStep(build, conv, p, data, rest);
      DatagramRoundTrip(build, conv, ps[1..]);
      PrependFinished(p, ps[1..], |rest|);
      assert ps == [p] + ps[1..];
    }
  }

  /** What is wrong with a header followed by `left` bytes, in the order of the checks. */
  function Fault(conv: u32, h: Header, left: nat): Option<Error> {
    if h.conv != conv then Some(ConvMismatch)
    else if h.len > left then Some(HeaderAndPayloadLengthMismatch)
    else if !IsCommand(h.cmd) then Some(UnknownCommand)
    else None
  }

  /**
   A faulty header ends a parse with the error for its first fault, after every good packet before
   it has been dispatched: another conversation, a length past the end, or an unknown command.
   */
  lemma {:induction false} FaultEndsParse(build: Build, conv: u32, ps: seq<Packet>, h: Header, rest: seq<u8>)
    requires AllWellFormed(conv, ps) && Fault(conv, h, |rest|).Some?
    ensures Parse(build, conv, EncodeAll(build, ps) + EncodeHeader(build, h) + rest)
         == Parsed(ps, Failed(Fault(conv, h, |rest|).value))
  {
    hide EncodeHeader, DecodeHeader, Prepend, IsCommand;
    if ps == [] {
      assert EncodeAll(build, ps) + EncodeHeader(build, h) + rest == EncodeHeader(build, h) + rest;
      HeaderRoundTrip(build, h, rest);
    } else {
      hide Parse;
      var p := ps[0];
      var tail := EncodeAll(build, ps[1..]) + EncodeHeader(build, h) + rest;
      var data := EncodeAll(build, ps) + EncodeHeader(build, h) + rest;
      assert data == EncodeHeader(build, p.header) + (p.data + tail);
      HeaderRoundTrip(build, p.header, p.data + tail);
      ParseStep(build, conv, p, data, tail);
      FaultEndsParse(build, conv, ps[1..], h, rest);
      PrependFailed(p, ps[1..], Fault(conv, h, |rest|).value);
      assert ps == [p] + ps[1..];
    }
  }

  /** The bytes that packets take up: a header each, and the payload of the data packets only. */
  function Span(ps: seq<Packet>): nat {
    if ps == [] then 0
    else
      var h := ps[|ps| - 1].header;
      Span(ps[..|ps| - 1]) + 24 + (if h.cmd == PUSH then h.len else 0)
  }

  lemma {:induction false} SpanFront(p: Packet, ps: seq<Packet>)
    ensures Span([p] + ps) == PacketSize(p.header) + Span(ps)
  {
    if ps == [] {
      assert [p] + ps == [p] && [p][..0] == [];
    } else {
      assert ([p] + ps)[..|[p] + ps| - 1] == [p] + ps[..|ps| - 1];
      SpanFront(p, ps[..|ps| - 1]);
    }
  }

  /** The packet `p` stands in `data` at offset `at`, and nothing is wrong with it. */
  predicate StandsAt(build: Build, conv: u32, data: seq<u8>, at: nat, p: Packet) {
    && at + 24 <= |data|
    && DecodeHeader(build, data[at..]) == p.header && Fault(conv, p.header, |data| - at - 24) == None
    && p.data == if p.header.cmd == PUSH then data[at + 24..at + 24 + p.header.len] else []
  }

  /** Where a parse ends: with less than a header left, or at the first fault. */
  predicate EndsAt(build: Build, conv: u32, data: seq<u8>, at: nat, outcome: Outcome) {
    && at <= |data|
    && match outcome
       case Finished(offset) => offset == at && |data| < at + 24
       case Failed(error) =>
         at + 24 <= |data| && Fault(conv, DecodeHeader(build, data[at..]), |data| - at - 24) == Some(error)
  }

  lemma StandsLater(build: Build, conv: u32, data: seq<u8>, size: nat, at: nat, p: Packet)
    requires size <= |data| && StandsAt(build, conv, data[size..], at, p)
    ensures StandsAt(build, conv, data, size + at, p)
  {
    assert data[size..][at..] == data[size + at..];
    hide DecodeHeader, Fault;
  }

  lemma EndsLater(build: Build, conv: u32, data: seq<u8>, size: nat, at: nat, outcome: Outcome)
    requires size <= |data| && EndsAt(build, conv, data[size..], at, outcome)
    ensures EndsAt(build, conv, data, size + at, Advance(outcome, size))
  {
    assert data[size..][at..] == data[size + at..];
    hide DecodeHeader, Fault;
  }

  lemma FirstStands(build: Build, conv: u32, data: seq<u8>)
    requires |data| >= HEADER_SIZE
    ensures var h := DecodeHeader(build, data);
      var size := PacketSize(h);
      if Fault(conv, h, |data| - 24).Some?
      then Parse(build, conv, data) == Parsed([], Failed(Fault(conv, h, |data| - 24).value))
      else
        && size <= |data| && StandsAt(build, conv, data, 0, Packet(h, data[HEADER_SIZE..size]))
        && Parse(build, conv, data) == Prepend(Packet(h, data[HEADER_SIZE..size]), Parse(build, conv, data[size..]))
  {
    assert data[0..] == data;
    hide DecodeHeader, Prepend;
  }

  /**
   How a datagram is read, whatever its bytes: the packets dispatched stand one after the other from
   its first byte on, each a header, and after the header of a data packet, and of no other whatever
   its length field says, the payload; and reading ends where less than a header is left or something
   is wrong, with the error that names it.
   */
  lemma {:induction false} ParseReadsInPlace(build: Build, conv: u32, data: seq<u8>)
    ensures var parsed := Parse(build, conv, data);
      && (forall i :: 0 <= i < |parsed.packets| ==>
            StandsAt(build, conv, data, Span(parsed.packets[..i]), parsed.packets[i]))
      && EndsAt(build, conv, data, Span(parsed.packets), parsed.outcome)
    decreases |data|
  {
    if |data| >= HEADER_SIZE {
      var h := DecodeHeader(build, data);
      var size := PacketSize(h);
      FirstStands(build, conv, data);
      hide Parse, DecodeHeader, Fault, StandsAt, EndsAt;
      if Fault(conv, h, |data| - 24).None? {
        var p, rest := Packet(h, data[HEADER_SIZE..size]), Parse(build, conv, data[size..]);
        ParseReadsInPlace(build, conv, data[size..]);
        ReadsOn(build, conv, data, p, rest);
      } else {
        EndsAtOnce(build, conv, data);
      }
    }
  }

  lemma EndsAtOnce(build: Build, conv: u32, data: seq<u8>)
    requires |data| >= HEADER_SIZE && Fault(conv, DecodeHeader(build, data), |data| - 24).Some?
    ensures EndsAt(build, conv, data, 0, Failed(Fault(conv, DecodeHeader(build, data), |data| - 24).value))
  {
    assert data[0..] == data;
    hide DecodeHeader, Fault;
  }

  lemma ReadsOn(build: Build, conv: u32, data: seq<u8>, p: Packet, rest: Parsed)
    requires PacketSize(p.header) <= |data| && StandsAt(build, conv, data, 0, p)
    requires var tail := data[PacketSize(p.header)..];
      && (forall i :: 0 <= i < |rest.packets| ==> StandsAt(build, conv, tail, Span(rest.packets[..i]), rest.packets[i]))
      && EndsAt(build, conv, tail, Span(rest.packets), rest.outcome)
    ensures var ps := Prepend(p, rest).packets;
      && (forall i :: 0 <= i < |ps| ==> StandsAt(build, conv, data, Span(ps[..i]), ps[i]))
      && EndsAt(build, conv, data, Span(ps), Prepend(p, rest).outcome)
  {
    hide StandsAt, EndsAt, PacketSize, Advance, Span;
    var size, ps := PacketSize(p.header), [p] + rest.packets;
    assert Span([]) == 0 by {
      SpanNothing();
    }
    SpanFront(p, rest.packets);
    EndsLater(build, conv, data, size, Span(rest.packets), rest.outcome);
    forall i | 0 <= i < |ps|
      ensures StandsAt(build, conv, data, Span(ps[..i]), ps[i])
    {
      if i > 0 {
        var before := rest.packets[..i - 1];
        assert ps[..i] == [p] + before && ps[i] == rest.packets[i - 1];
        SpanFront(p, before);
        StandsLater(build, conv, data, size, Span(before), ps[i]);
      } else {
        assert ps[..i] == [];
      }
    }
  }

  lemma SpanNothing()
    ensures Span([]) == 0
  {
  }

  lemma PrependFailed(p: Packet, ps: seq<Packet>, error: Error)
    ensures Prepend(p, Parsed(ps, Failed(error))) == Parsed([p] + ps, Failed(error))
  {
  }

  lemma ParseNothing(build: Build, conv: u32)
    ensures Parse(build, conv, []) == Parsed([], Finished(0))
  {
  }

  lemma PrependFinished(p: Packet, ps: seq<Packet>, n: nat)
    requires p.header.len == |p.data| && (p.header.cmd != PUSH ==> p.data == [])
    ensures Prepend(p, Parsed(ps, Finished(n))) == Parsed([p] + ps, Finished(n + HEADER_SIZE + |p.data|))
  {
  }

  lemma {:induction false} EncodeAllAppend(build: Build, ps: seq<Packet>, p: Packet)
    ensures EncodeAll(build, ps + [p]) == EncodeAll(build, ps) + Encode(build, p)
  {
    if ps == [] {
      assert ps + [p] == [p];
      assert EncodeAll(build, [p][1..]) == [];
    } else {
      EncodeAllAppend(build, ps[1..], p);
      assert (ps + [p])[1..] == ps[1..] + [p];
    }
  }

  /** A parse that succeeds stops short of the end by less than one header. */
  lemma {:induction false} ParseConsumes(build: Build, conv: u32, data: seq<u8>)
    requires Parse(build, conv, data).outcome.Finished?
    ensures var end := Parse(build, conv, data).outcome.offset;
            end <= |data| < end + HEADER_SIZE
    decreases |data|
  {
    if |data| >= HEADER_SIZE {
      var size := PacketSize(DecodeHeader(build, data));
      ParseConsumes(build, conv, data[size..]);
    }
  }

  lemma {:induction false} ParsedAreWellFormed(build: Build, conv: u32, data: seq<u8>)
    ensures forall i :: 0 <= i < |Parse(build, conv, data).packets| ==>
              var p := Parse(build, conv, data).packets[i];
              p.header.conv == conv && IsCommand(p.header.cmd)
              && (p.header.cmd == PUSH ==> p.header.len == |p.data|)
    decreases |data|
  {
    if |data| >= HEADER_SIZE {
      var h := DecodeHeader(build, data);
      if h.conv == conv && h.len <= |data| - HEADER_SIZE && IsCommand(h.cmd) {
        ParsedAreWellFormed(build, conv, data[PacketSize(h)..]);
      }
    }
  }
}
