/** Reading and writing words and headers at a moving offset. */
module Serializers {
  import opened Words
  import opened Segments
  import opened Codec
  import opened Memory

  method Serialize8(value: u8, buf: array<u8>, offset: nat) returns (end: nat)
    requires offset + 1 <= buf.Length
    modifies buf
    ensures end == offset + 1
    ensures buf[..end] == old(buf[..offset]) + [value]
    ensures forall i :: end <= i < buf.Length ==> buf[i] == old(buf[i])
  {
    end := SerializeBytes([value], buf, offset);
  }

  method Serialize16(build: Build, value: u16, buf: array<u8>, offset: nat) returns (end: nat)
    requires offset + 2 <= buf.Length
    modifies buf
    ensures end == offset + 2
    ensures buf[..end] == old(buf[..offset]) + Put16(build, value)
    ensures forall i :: end <= i < buf.Length ==> buf[i] == old(buf[i])
  {
    var networkValue := Htons(build, value);
    end := SerializeBytes(Store16(build, networkValue), buf, offset);
  }

  method Serialize32(build: Build, value: u32, buf: array<u8>, offset: nat) returns (end: nat)
    requires offset + 4 <= buf.Length
    modifies buf
    ensures end == offset + 4
    ensures buf[..end] == old(buf[..offset]) + Put32(build, value)
    ensures forall i :: end <= i < buf.Length ==> buf[i] == old(buf[i])
  {
    var networkValue := Htonl(build, value);
    end := SerializeBytes(Store32(build, networkValue), buf, offset);
  }

  /** encode_to: the bytes, and the offset moved past them. */
  method SerializeBytes(bytes: seq<u8>, buf: array<u8>, offset: nat) returns (end: nat)
    requires offset + |bytes| <= buf.Length
    modifies buf
    ensures end == offset + |bytes|
    ensures buf[..end] == old(buf[..offset]) + bytes
    ensures forall i :: end <= i < buf.Length ==> buf[i] == old(buf[i])
  {
    CopyInto(buf, offset, bytes);
    end := offset + |bytes|;
    forall i | end <= i < buf.Length
      ensures buf[i] == old(buf[i])
    {
      assert buf[i] == buf[end..][i - end];
    }
  }

  method SerializeHeader(build: Build, h: Header, buf: array<u8>, offset: nat) returns (end: nat)
    requires offset + HEADER_SIZE <= buf.Length
    modifies buf
    ensures end == offset + HEADER_SIZE
    ensures buf[..end] == old(buf[..offset]) + EncodeHeader(build, h)
    ensures forall i :: end <= i < buf.Length ==> buf[i] == old(buf[i])
  {
    hide Put16, Put32;
    ghost var before := buf[..offset];
    end := Serialize32(build, h.conv, buf, offset);
    end := Serialize8(h.cmd, buf, end);
    end := Serialize8(h.frg, buf, end);
    end := Serialize16(build, h.wnd, buf, end);
    end := Serialize32(build, h.ts, buf, end);
    end := Serialize32(build, h.sn, buf, end);
    end := Serialize32(build, h.una, buf, end);
    end := Serialize32(build, h.len, buf, end);
    HeaderJoined(build, h, before);
  }

  lemma HeaderJoined(build: Build, h: Header, before: seq<u8>)
    ensures before + Put32(build, h.conv) + [h.cmd] + [h.frg] + Put16(build, h.wnd)
            + Put32(build, h.ts) + Put32(build, h.sn) + Put32(build, h.una) + Put32(build, h.len)
         == before + EncodeHeader(build, h)
  {
    hide Put16, Put32;
    var front := Put32(build, h.conv) + [h.cmd, h.frg] + Put16(build, h.wnd);
    assert before + Put32(build, h.conv) + [h.cmd] + [h.frg] + Put16(build, h.wnd) == before + front;
  }

  method Deserialize8(buf: seq<u8>, offset: nat) returns (value: u8, end: nat)
    requires offset + 1 <= |buf|
    ensures end == offset + 1 && value == buf[offset]
  {
    value := buf[offset];
    end := offset + 1;
  }

  method Deserialize16(build: Build, buf: seq<u8>, offset: nat) returns (value: u16, end: nat)
    requires offset + 2 <= |buf|
    ensures end == offset + 2 && value == Get16(build, buf[offset..end])
  {
    value := Load16(build, buf[offset..offset + 2]);
    value := Htons(build, value);
    end := offset + 2;
  }

  method Deserialize32(build: Build, buf: seq<u8>, offset: nat) returns (value: u32, end: nat)
    requires offset + 4 <= |buf|
    ensures end == offset + 4 && value == Get32(build, buf[offset..end])
  {
    value := Load32(build, buf[offset..offset + 4]);
    value := Htonl(build, value);
    end := offset + 4;
  }

  method DeserializeHeader(build: Build, buf: seq<u8>, offset: nat) returns (h: Header, end: nat)
    requires offset + HEADER_SIZE <= |buf|
    ensures end == offset + HEADER_SIZE && h == DecodeHeader(build, buf[offset..])
  {
    hide Get16, Get32;
    var conv, cmd, frg, wnd, ts, sn, una, len;
    conv, end := Deserialize32(build, buf, offset);
    cmd, end := Deserialize8(buf, end);
    frg, end := Deserialize8(buf, end);
    wnd, end := Deserialize16(build, buf, end);
    ts, end := Deserialize32(build, buf, end);
    sn, end := Deserialize32(build, buf, end);
    una, end := Deserialize32(build, buf, end);
    len, end := Deserialize32(build, buf, end);
    h := Header(conv, cmd, frg, wnd, ts, sn, una, len);
    ghost var s := buf[offset..];
    assert s[0..4] == buf[offset..offset + 4] && s[6..8] == buf[offset + 6..offset + 8];
    assert s[8..12] == buf[offset + 8..offset + 12] && s[12..16] == buf[offset + 12..offset + 16];
    assert s[16..20] == buf[offset + 16..offset + 20] && s[20..24] == buf[offset + 20..offset + 24];
  }
}
