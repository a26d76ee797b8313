/** Buffer.hpp and Buffer.cpp: a growing array with two indexes, as a byte queue. */
module ByteBuffers {
  import opened Lines
  import opened Strings

  const CHEAP_PREPEND: nat := 8
  const INIT_SIZE: nat := 1024
  const EXTRA_SIZE: nat := 65536

  /** What readv returns: an error number, or some bytes (none at end of file). */
  datatype Received = Failed(errno: int) | Bytes(data: string)

  class Buffer {
    var buffer: array<char>
    var readerIdx: nat
    var writeIdx: nat

    ghost predicate Valid()
      reads this
    {
      readerIdx <= writeIdx <= buffer.Length && CHEAP_PREPEND <= buffer.Length
    }

    /** The queue the buffer stands for. */
    ghost function Contents(): string
      reads this, buffer
      requires Valid()
    {
      buffer[readerIdx..writeIdx]
    }

    function ReadableBytes(): nat
      reads this
      requires Valid()
    {
      writeIdx - readerIdx
    }

    function WritableBytes(): nat
      reads this
      requires Valid()
    {
      buffer.Length - writeIdx
    }

    constructor ()
      ensures Valid() && fresh(buffer) && Contents() == "" && readerIdx == CHEAP_PREPEND
      ensures WritableBytes() == INIT_SIZE
    {
      buffer := new char[INIT_SIZE + CHEAP_PREPEND];
      readerIdx := CHEAP_PREPEND;
      writeIdx := CHEAP_PREPEND;
    }

    method Retrieve(len: nat)
      requires Valid() && len <= ReadableBytes()
      modifies this`readerIdx
      ensures Valid() && Contents() == old(Contents())[len..]
    {
      readerIdx := readerIdx + len;
    }

    method RetrieveAll()
      requires Valid()
      modifies this`readerIdx, this`writeIdx
      ensures Valid() && Contents() == "" && readerIdx == CHEAP_PREPEND
    {
      readerIdx := CHEAP_PREPEND;
      writeIdx := CHEAP_PREPEND;
    }

    method RetrieveAsString() returns (str: string)
      requires Valid()
      modifies this`readerIdx, this`writeIdx
      ensures Valid() && str == old(Contents()) && Contents() == ""
    {
      str := buffer[readerIdx..writeIdx];
      RetrieveAll();
    }

    /** peek_line */
    function PeekLine(): string
      reads this, buffer
      requires Valid()
    {
      FirstLine(buffer[readerIdx..writeIdx])
    }

    /** Takes the first complete line, and what peek_line would have shown; without
        a line feed nothing is consumed. */
    method RetrieveLineAsString() returns (result: string)
      requires Valid()
      modifies this`readerIdx
      ensures Valid() && result == old(PeekLine())
      ensures !HasLine(old(Contents())) ==> Contents() == old(Contents())
      ensures HasLine(old(Contents())) ==>
                && Complete(old(Contents())) == [result] + Complete(Contents())
                && old(Contents()) == result + "\n" + Contents()
      ensures Remainder(Contents()) == Remainder(old(Contents()))
    {
      result := "";
      var str := buffer[readerIdx..writeIdx];
      var lfIdx := LineFeed(str);
      if lfIdx < |str| {
        result := str[..lfIdx];
        Retrieve(lfIdx + 1);
        assert str == str[..lfIdx] + "\n" + str[lfIdx + 1..];
      }
    }

    /** The vector grows: a larger array with the old bytes in front. */
    method Resize(size: nat)
      requires Valid() && buffer.Length <= size
      modifies this`buffer
      ensures fresh(buffer) && buffer.Length == size && Valid() && Contents() == old(Contents())
    {
      var grown := new char[size];
      forall k | 0 <= k < buffer.Length {
        grown[k] := buffer[k];
      }
      assert grown[readerIdx..writeIdx] == buffer[readerIdx..writeIdx];
      buffer := grown;
    }

    /** std::copy of the readable bytes to the front; source and destination may
        overlap, which is safe because the destination comes first. */
    method MoveDown()
      requires Valid() && CHEAP_PREPEND < readerIdx
      modifies this`readerIdx, this`writeIdx, buffer
      ensures Valid() && Contents() == old(Contents()) && readerIdx == CHEAP_PREPEND
    {
      var readable := ReadableBytes();
      for i := 0 to readable
        invariant readerIdx == old(readerIdx) && writeIdx == old(writeIdx)
        invariant buffer[CHEAP_PREPEND..CHEAP_PREPEND + i] == old(Contents())[..i]
        invariant buffer[readerIdx + i..writeIdx] == old(Contents())[i..]
      {
        assert buffer[readerIdx + i] == old(Contents())[i];
        buffer[CHEAP_PREPEND + i] := buffer[readerIdx + i];
        assert buffer[CHEAP_PREPEND..CHEAP_PREPEND + i + 1] == old(Contents())[..i] + [old(Contents())[i]];
        assert buffer[readerIdx + i + 1..writeIdx] == old(Contents())[i..][1..];
      }
      readerIdx := CHEAP_PREPEND;
      writeIdx := readerIdx + readable;
      assert readable == ReadableBytes();
    }

    /** make_space, with both its assertions: room for `len` more bytes results, and
        the array is replaced only if they do not fit behind the readable ones. */
    method MakeSpace(len: nat)
      requires Valid() && WritableBytes() < len
      modifies this, buffer
      ensures Valid() && (buffer == old(buffer) || fresh(buffer))
      ensures buffer == old(buffer) <==> CHEAP_PREPEND + |old(Contents())| + len <= old(buffer.Length)
      ensures len <= WritableBytes() && Contents() == old(Contents()) && old(buffer.Length) <= buffer.Length
    {
      if WritableBytes() + readerIdx < len + CHEAP_PREPEND {
        Resize(writeIdx + len);
      } else {
        assert CHEAP_PREPEND < readerIdx;
        MoveDown();
      }
    }

    method EnsureWritableBytes(len: nat)
      requires Valid()
      modifies this, buffer
      ensures Valid() && (buffer == old(buffer) || fresh(buffer))
      ensures len <= WritableBytes() && Contents() == old(Contents()) && old(buffer.Length) <= buffer.Length
    {
      if WritableBytes() < len {
        MakeSpace(len);
      }
    }

    /** Bytes copied behind the readable ones, without moving writeIdx. */
    method CopyIn(data: string)
      requires Valid() && |data| <= WritableBytes()
      modifies buffer
      ensures Contents() == old(Contents())
      ensures buffer[readerIdx..writeIdx + |data|] == Contents() + data
    {
      forall k | 0 <= k < |data| {
        buffer[writeIdx + k] := data[k];
      }
    }

    method Append(data: string)
      requires Valid()
      modifies this, buffer
      ensures Valid() && (buffer == old(buffer) || fresh(buffer)) && old(buffer.Length) <= buffer.Length
      ensures Contents() == old(Contents()) + data
    {
      EnsureWritableBytes(|data|);
      CopyIn(data);
      writeIdx := writeIdx + |data|;
    }

    method Prepend(data: string)
      requires Valid() && |data| <= readerIdx
      modifies this`readerIdx, buffer
      ensures Valid() && Contents() == data + old(Contents())
    {
      readerIdx := readerIdx - |data|;
      ghost var front := readerIdx + |data|;
      forall k | 0 <= k < |data| {
        buffer[readerIdx + k] := data[k];
      }
      assert buffer[readerIdx..front] == data && buffer[front..writeIdx] == old(Contents());
      assert buffer[readerIdx..writeIdx] == buffer[readerIdx..front] + buffer[front..writeIdx];
    }

    /** The bytes readv puts into the writable space and, behind it, the stack buffer. */
    method Scatter(data: string)
      requires Valid() && |data| <= WritableBytes() + EXTRA_SIZE
      modifies this, buffer
      ensures Valid() && (buffer == old(buffer) || fresh(buffer)) && Contents() == old(Contents()) + data
    {
      var writable := WritableBytes();
      if |data| <= writable {
        CopyIn(data);
        writeIdx := writeIdx + |data|;
      } else {
        CopyIn(data[..writable]);
        writeIdx := buffer.Length;
        Append(data[writable..]);
        Associative(old(Contents()), data[..writable], data[writable..]);
        assert data[..writable] + data[writable..] == data;
      }
    }

    /** read_fd: readv scatters the bytes over the writable space and a stack
        buffer of 65536 bytes; wherever the split falls, the effect is that of
        appending them. */
    method ReadFd(received: Received) returns (n: int, savedErrno: int)
      requires Valid()
      requires received.Bytes? ==> |received.data| <= WritableBytes() + EXTRA_SIZE
      modifies this, buffer
      ensures Valid() && (buffer == old(buffer) || fresh(buffer))
      ensures received.Bytes? ==> n == |received.data| && Contents() == old(Contents()) + received.data
      ensures received.Failed? ==> n < 0 && savedErrno == received.errno && Contents() == old(Contents())
    {
      n, savedErrno := -1, 0;
      match received {
        case Failed(errno) =>
          savedErrno := errno;
        case Bytes(data) =>
          n := |data|;
          Scatter(data);
      }
    }
  }
}
