/** Writing into byte buffers. */
module Memory {
  import opened Words

  /** memcpy of `data` into `buffer` at `offset`. */
  method CopyInto(buffer: array<u8>, offset: nat, data: seq<u8>)
    requires offset + |data| <= buffer.Length
    modifies buffer
    ensures buffer[..offset + |data|] == old(buffer[..offset]) + data
    ensures buffer[offset + |data|..] == old(buffer[offset + |data|..])
  {
    for i := 0 to |data|
      invariant buffer[..offset] == old(buffer[..offset])
      invariant buffer[offset..offset + i] == data[..i]
      invariant buffer[offset + |data|..] == old(buffer[offset + |data|..])
    {
      buffer[offset + i] := data[i];
    }
  }
}
