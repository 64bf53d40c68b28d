/** The receiving object, updated in place. */
module Receivers {
  import opened Words
  import opened Segments
  import opened Memory
  import opened Spec = Receiving

  class Receiver {
    var rcvBuf: seq<Segment>
    var rcvQueue: seq<Segment>
    var queueLimit: u32
    var rcvNxt: u32

    ghost predicate Valid()
      reads this
    {
      AllSized(rcvBuf) && AllSized(rcvQueue)
    }

    ghost function Inbox(): Spec.Inbox
      reads this
    {
      Spec.Inbox.Inbox(rcvBuf, rcvQueue, queueLimit, rcvNxt)
    }

    constructor ()
      ensures Valid() && Inbox() == EMPTY_INBOX
    {
      rcvBuf, rcvQueue, queueLimit, rcvNxt := [], [], 0, 0;
    }

    method PeekSize() returns (size: Result<nat>)
      requires Valid()
      ensures size == Spec.PeekSize(Inbox())
    {
      if rcvQueue == [] {
        return Err(QueueEmpty);
      }
      var front := rcvQueue[0];
      if front.header.frg == 0 {
        SpanStep(rcvQueue);
        return Ok(front.header.len);
      }
      if |rcvQueue| < front.header.frg + 1 {
        return Err(WaitingForFragment);
      }
      var length := 0;
      var i := 0;
      while i < |rcvQueue|
        invariant 0 <= i <= |rcvQueue|
        invariant TotalLength(rcvQueue[..SpanLength(rcvQueue)])
               == length + TotalLength(rcvQueue[i..][..SpanLength(rcvQueue[i..])])
      {
        SpanStep(rcvQueue[i..]);
        assert rcvQueue[i..][1..] == rcvQueue[i + 1..];
        length := length + rcvQueue[i].header.len;
        if rcvQueue[i].header.frg == 0 {
          break;
        }
        i := i + 1;
      }
      size := Ok(length);
    }

    /** Copies the front message into `buffer` and removes its segments from the queue. */
    method Recv(buffer: array<u8>, rcvWnd: u32) returns (result: Result<ReceiveResult>)
      requires Valid()
      modifies this, buffer
      ensures Valid()
      ensures var spec := Spec.Recv(old(Inbox()), buffer.Length, rcvWnd);
        && result.Ok? == spec.Ok?
        && (result.Err? ==> result.error == spec.error && unchanged(this) && unchanged(buffer))
        && (result.Ok? ==>
              && Inbox() == spec.value.inbox
              && result.value == ReceiveResult(|spec.value.message|, spec.value.recovered)
              && result.value.size <= buffer.Length
              && buffer[..result.value.size] == spec.value.message
              && buffer[result.value.size..] == old(buffer[result.value.size..]))
    {
      var peek := PeekSize();
      if peek.Err? {
        return Err(peek.error);
      }
      if peek.value > buffer.Length {
        return Err(BufferTooSmall);
      }
      var isFull := |rcvQueue| >= rcvWnd;
      var size := TakeMessage(buffer, peek.value);
      MoveBufferToQueue();
      result := Ok(ReceiveResult(size, rcvWnd > |rcvQueue| && isFull));
    }

    /** The copy loop of recv(). */
    method TakeMessage(buffer: array<u8>, peek: nat) returns (offset: nat)
      requires Valid() && Spec.PeekSize(Inbox()) == Ok(peek) && peek <= buffer.Length
      modifies this`rcvQueue, buffer
      ensures Valid()
      ensures var n := TakeCount(old(rcvQueue), peek);
        rcvQueue == old(rcvQueue)[n..]
        && offset == |Joined(old(rcvQueue)[..n])| == peek
        && buffer[..offset] == Joined(old(rcvQueue)[..n])
        && buffer[offset..] == old(buffer[offset..])
    {
      offset := 0;
      ghost var all, k := rcvQueue, 0;
      TakingStart(all);
      assert peek == TotalLength(all[..SpanLength(all)]);
      assert Joined(all[..0]) == [];
      hide TakeCount, SpanLength, TotalLength, Joined, Spec.PeekSize;
      while rcvQueue != []
        invariant k <= |all| && rcvQueue == all[k..]
        invariant Taking(all, k, offset, peek) && offset <= peek
        invariant buffer[..offset] == Joined(all[..k])
        invariant buffer[offset..] == old(buffer[offset..])
      {
        var segment := rcvQueue[0];
        TakingStep(all, k, offset, peek);
        JoinedStep(all, k);
        offset := TakeFront(buffer, offset);
        k := k + 1;
        if segment.header.frg == 0 {
          break;
        }
        if offset >= peek {
          break;
        }
      }
      TakingDone(all, k, offset, peek);
    }

    /** Copies the front segment to `offset` and erases it. */
    method TakeFront(buffer: array<u8>, offset: nat) returns (end: nat)
      requires Valid() && rcvQueue != [] && offset + rcvQueue[0].header.len <= buffer.Length
      modifies this`rcvQueue, buffer
      ensures Valid() && rcvQueue == old(rcvQueue)[1..]
      ensures end == offset + old(rcvQueue)[0].header.len
      ensures buffer[..end] == old(buffer[..offset]) + old(rcvQueue)[0].data
      ensures buffer[end..] == old(buffer[end..])
    {
      var segment := rcvQueue[0];
      var copyLen := Min(segment.header.len, buffer.Length - offset);
      CopyInto(buffer, offset, segment.data[..copyLen]);
      end := offset + copyLen;
      rcvQueue := rcvQueue[1..];
    }

    method Emplace(header: Header, data: seq<u8>)
      requires Valid() && header.len == |data|
      modifies this
      ensures Valid()
      ensures Inbox() == Spec.Emplace(old(Inbox()), Segment(header, data, NEW_METADATA))
    {
      var it := FindInsertPos(header.sn);
      if it < |rcvBuf| && rcvBuf[it].header.sn == header.sn {
        return;
      }
      rcvBuf := rcvBuf[..it] + [Segment(header, data, NEW_METADATA)] + rcvBuf[it..];
      MoveBufferToQueue();
    }

    /** The reverse scan of emplace_segment. */
    method FindInsertPos(sn: u32) returns (it: nat)
      ensures it == InsertPos(rcvBuf, sn)
    {
      it := |rcvBuf|;
      while it > 0 && rcvBuf[it - 1].header.sn >= sn
        invariant 0 <= it <= |rcvBuf|
        invariant InsertPos(rcvBuf, sn) == InsertPos(rcvBuf[..it], sn)
      {
        assert rcvBuf[..it][..it - 1] == rcvBuf[..it - 1];
        it := it - 1;
      }
      assert it > 0 ==> rcvBuf[..it][it - 1] == rcvBuf[it - 1];
    }

    method MoveBufferToQueue()
      requires Valid()
      modifies this
      ensures Valid() && Inbox() == Settle(old(Inbox()))
    {
      while rcvBuf != []
        invariant Valid() && Settle(Inbox()) == Settle(old(Inbox()))
      {
        var seg := rcvBuf[0];
        if seg.header.sn != rcvNxt || |rcvQueue| >= queueLimit {
          break;
        }
        rcvQueue := rcvQueue + [seg];
        rcvBuf := rcvBuf[1..];
        rcvNxt := Wrap32(rcvNxt + 1);
      }
    }

    method SetQueueLimit(value: u32)
      modifies this`queueLimit
      ensures Inbox() == old(Inbox()).(limit := value)
    {
      queueLimit := value;
    }
  }
}
