/** The flusher: packets gathered in one MTU-sized buffer and handed to the output callback. */
module Flushers {
  import opened Words
  import opened Segments
  import opened Codec
  import opened Congestion
  import opened Serializers
  import opened Spec = Packing

  /** An output callback that keeps the datagrams it is given. */
  class Output {
    const build: Build
    var datagrams: seq<seq<u8>>
    ghost var groups: seq<seq<Packet>>

    ghost predicate Valid()
      reads this
    {
      datagrams == EncodeGroups(build, groups)
    }

    constructor (build: Build)
      ensures Valid() && this.build == build && groups == []
    {
      this.build := build;
      datagrams, groups := [], [];
    }

    method Call(data: seq<u8>, ghost group: seq<Packet>)
      requires Valid() && data == EncodeAll(build, group)
      modifies this
      ensures Valid() && groups == old(groups) + [group]
      ensures datagrams == old(datagrams) + [data]
    {
      datagrams := datagrams + [data];
      groups := groups + [group];
    }
  }

  class Flusher {
    const build: Build
    const mss: Mss
    const buffer: array<u8>
    var offset: nat
    ghost var pending: seq<Packet>

    /** The bytes before `offset` are the encoding of the packets not yet flushed. */
    ghost predicate Valid()
      reads this, buffer
    {
      && buffer.Length == mss + HEADER_SIZE
      && offset == Size(pending) <= buffer.Length
      && buffer[..offset] == EncodeAll(build, pending)
    }

    ghost function Value(output: Output): Spec.Flush
      reads this, output
    {
      Spec.Flush.Flush(output.groups, pending)
    }

    constructor (build: Build, mss: Mss)
      ensures Valid() && fresh(buffer)
      ensures this.build == build && this.mss == mss && pending == []
    {
      this.build, this.mss := build, mss;
      buffer := new u8[mss + HEADER_SIZE];
      offset, pending := 0, [];
    }

    method Flush(output: Output) returns (size: nat)
      requires Valid() && output.Valid() && output.build == build
      modifies this, output
      ensures Valid() && output.Valid()
      ensures Value(output) == Spec.Flush.Flush(old(output.groups) + [old(pending)], [])
      ensures size == Size(old(pending))
    {
      size := offset;
      output.Call(buffer[..size], pending);
      offset, pending := 0, [];
    }

    method FlushIfDoesNotFit(output: Output, size: nat) returns (sent: nat)
      requires Valid() && output.Valid() && output.build == build
      modifies this, output
      ensures Valid() && output.Valid()
      ensures Value(output) == WithRoom(old(Value(output)), mss, size)
      ensures TotalSize(output.groups) == TotalSize(old(output.groups)) + sent
    {
      hide EncodeAll, EncodeGroups;
      if offset + size > mss {
        sent := Flush(output);
        GroupAppend(old(output.groups), old(pending), mss);
      } else {
        sent := 0;
      }
    }

    method FlushIfFull(output: Output) returns (sent: nat)
      requires Valid() && output.Valid() && output.build == build
      modifies this, output
      ensures Valid() && output.Valid()
      ensures Value(output) == WithRoom(old(Value(output)), mss, 0)
      ensures TotalSize(output.groups) == TotalSize(old(output.groups)) + sent
    {
      hide EncodeAll, EncodeGroups;
      if offset > mss {
        sent := Flush(output);
        GroupAppend(old(output.groups), old(pending), mss);
      } else {
        sent := 0;
      }
    }

    method FlushIfNotEmpty(output: Output) returns (sent: nat)
      requires Valid() && output.Valid() && output.build == build
      modifies this, output
      ensures Valid() && output.Valid() && pending == []
      ensures output.groups == Finish(old(Value(output)))
      ensures TotalSize(output.groups) == TotalSize(old(output.groups)) + sent
    {
      hide EncodeAll, EncodeGroups;
      if offset != 0 {
        sent := Flush(output);
        GroupAppend(old(output.groups), old(pending), mss);
      } else {
        sent := 0;
      }
    }

    method EmplaceHeader(header: Header)
      requires Valid() && offset <= mss && header.len == 0
      modifies this, buffer
      ensures Valid() && pending == old(pending) + [Packet(header, [])]
    {
      Emplace(header, []);
    }

    method Emplace(header: Header, data: seq<u8>)
      requires Valid() && offset + |data| <= mss && header.len == |data|
      modifies this, buffer
      ensures Valid() && pending == old(pending) + [Packet(header, data)]
    {
      hide EncodeHeader;
      ghost var packet := Packet(header, data);
      EncodeAllAppend(build, pending, packet);
      SizeAppend(pending, packet);
      offset := SerializeHeader(build, header, buffer, offset);
      offset := SerializeBytes(data[..header.len], buffer, offset);
      pending := pending + [packet];
      hide EncodeAll, Size;
      EncodeJoined(old(EncodeAll(build, pending)), build, packet);
    }
  }

  lemma EncodeJoined(before: seq<u8>, build: Build, p: Packet)
    ensures before + EncodeHeader(build, p.header) + p.data == before + Encode(build, p)
  {
    hide EncodeHeader;
  }
}
