/** The byte buffer of a connection: a vector with a reader and a writer index. */
module NetBuffer {

  type Byte = x: int | 0 <= x < 256

  const CHEAP_PREPEND: nat := 8
  const INITIAL_SIZE: nat := 1024
  const EXTRA_BUF: nat := 65536

  class Buffer {
    var buf: array<Byte>
    var readerIdx: nat
    var writerIdx: nat

    ghost predicate Valid()
      reads this
    {
      CHEAP_PREPEND <= readerIdx <= writerIdx <= buf.Length
    }

    /** The queue of bytes that the buffer stands for. */
    ghost function Contents(): (s: seq<Byte>)
      requires Valid()
      reads this, buf
      ensures |s| == writerIdx - readerIdx
    {
      buf[readerIdx..writerIdx]
    }

    /** The size asked for is ignored, as in the original. */
    constructor (initialSize: nat)
      ensures Valid() && Contents() == [] && fresh(buf) && WritableBytes() == INITIAL_SIZE
    {
      buf := new Byte[CHEAP_PREPEND + INITIAL_SIZE](_ => 0);
      readerIdx, writerIdx := CHEAP_PREPEND, CHEAP_PREPEND;
    }

    function ReadableBytes(): (n: nat)
      requires Valid()
      reads this, buf
      ensures n == |Contents()|
    {
      writerIdx - readerIdx
    }

    function WritableBytes(): nat
      requires Valid()
      reads this
    {
      buf.Length - writerIdx
    }

    function PrependableBytes(): (n: nat)
      requires Valid()
      reads this
      ensures n >= CHEAP_PREPEND
    {
      readerIdx
    }

    /** Drops up to `len` bytes from the front. */
    method Retrieve(len: nat)
      requires Valid()
      modifies this
      ensures Valid() && buf == old(buf)
      ensures Contents() == if len < |old(Contents())| then old(Contents())[len..] else []
    {
      if len < ReadableBytes() {
        readerIdx := readerIdx + len;
      } else {
        RetrieveAll();
      }
    }

    method RetrieveAll()
      requires Valid() && CHEAP_PREPEND <= buf.Length
      modifies this
      ensures Valid() && buf == old(buf) && Contents() == []
    {
      readerIdx, writerIdx := CHEAP_PREPEND, CHEAP_PREPEND;
    }

    /** Asked for more than the contents, it returns what comes after them in the vector as well. */
    method RetrieveAsString(len: nat) returns (res: seq<Byte>)
      requires Valid() && readerIdx + len <= buf.Length
      modifies this
      ensures Valid() && buf == old(buf) && |res| == len
      ensures if len <= |old(Contents())| then res + Contents() == old(Contents())
              else old(Contents()) <= res && Contents() == []
    {
      res := buf[readerIdx..readerIdx + len];
      Retrieve(len);
    }

    method RetrieveAllAsString() returns (res: seq<Byte>)
      requires Valid()
      modifies this
      ensures Valid() && buf == old(buf) && res == old(Contents()) && Contents() == []
    {
      res := RetrieveAsString(ReadableBytes());
    }

    /** Makes room for `len` bytes by growing the vector, or by moving the contents to its front. */
    method MakeSpace(len: nat)
      requires Valid() && WritableBytes() < len
      modifies this, buf
      ensures Valid() && Contents() == old(Contents()) && WritableBytes() >= len
      ensures buf == old(buf) || fresh(buf)
    {
      if WritableBytes() + PrependableBytes() < len + CHEAP_PREPEND {
        Resize(writerIdx + len);
        assert Contents() == buf[..old(buf.Length)][readerIdx..writerIdx];
      } else {
        var readable := ReadableBytes();
        ghost var was := buf[..];
        for i := 0 to readable
          invariant buf.Length == |was| && buf == old(buf) && readerIdx == old(readerIdx) && Valid()
          invariant buf[CHEAP_PREPEND..CHEAP_PREPEND + i] == was[readerIdx..readerIdx + i]
          invariant buf[readerIdx + i..] == was[readerIdx + i..]
        {
          assert buf[readerIdx + i..][0] == was[readerIdx + i..][0];
          buf[CHEAP_PREPEND + i] := buf[readerIdx + i];
          assert buf[readerIdx + i + 1..] == was[readerIdx + i..][1..];
        }
        readerIdx := CHEAP_PREPEND;
        writerIdx := readerIdx + readable;
      }
    }

    /** `vector::resize` to a larger size. */
    method Resize(size: nat)
      requires Valid() && buf.Length <= size
      modifies this`buf
      ensures Valid() && fresh(buf) && buf.Length == size && buf[..old(buf.Length)] == old(buf[..])
    {
      var bigger := new Byte[size](_ => 0);
      for i := 0 to buf.Length
        invariant buf == old(buf) && buf[..] == old(buf[..]) && bigger[..i] == buf[..i]
      {
        bigger[i] := buf[i];
      }
      buf := bigger;
    }

    method EnsureWritableBytes(len: nat)
      requires Valid()
      modifies this, buf
      ensures Valid() && Contents() == old(Contents()) && WritableBytes() >= len
      ensures buf == old(buf) || fresh(buf)
    {
      if WritableBytes() < len {
        MakeSpace(len);
      }
    }

    /** Appends at the back, whatever room there was. */
    method Append(data: seq<Byte>)
      requires Valid()
      modifies this, buf
      ensures Valid() && Contents() == old(Contents()) + data
      ensures buf == old(buf) || fresh(buf)
    {
      EnsureWritableBytes(|data|);
      CopyIn(data);
      Extended(data);
      writerIdx := writerIdx + |data|;
    }

    /** Bytes copied in behind the contents join them once the writer index passes them. */
    lemma Extended(data: seq<Byte>)
      requires Valid() && writerIdx + |data| <= buf.Length
      requires buf[writerIdx..writerIdx + |data|] == data
      ensures buf[readerIdx..writerIdx + |data|] == Contents() + data
    {
    }

    /** Copies to the writable part, leaving the indices alone. */
    method CopyIn(data: seq<Byte>)
      requires Valid() && |data| <= WritableBytes()
      modifies buf
      ensures Contents() == old(Contents())
      ensures buf[writerIdx..writerIdx + |data|] == data
    {
      for i := 0 to |data|
        invariant Contents() == old(Contents())
        invariant buf[writerIdx..writerIdx + i] == data[..i]
      {
        buf[writerIdx + i] := data[i];
      }
    }

    /** How much one `readv` may deliver: the writable part, and the extra buffer if that is smaller. */
    function ReadCapacity(): nat
      requires Valid()
      reads this
    {
      var writable := WritableBytes();
      if writable < EXTRA_BUF then writable + EXTRA_BUF else writable
    }

    /** Reads what the socket delivers: first into the writable part, then into the extra buffer. */
    method ReadFd(delivered: seq<Byte>) returns (n: nat)
      requires Valid() && |delivered| <= ReadCapacity()
      modifies this, buf
      ensures Valid() && n == |delivered| && Contents() == old(Contents()) + delivered
      ensures buf == old(buf) || fresh(buf)
    {
      var writable := WritableBytes();
      n := |delivered|;
      if n < writable {
        CopyIn(delivered);
        Extended(delivered);
        writerIdx := writerIdx + n;
      } else {
        CopyIn(delivered[..writable]);
        Extended(delivered[..writable]);
        var extraBuf := delivered[writable..];
        writerIdx := buf.Length;
        Append(extraBuf);
        assert delivered == delivered[..writable] + extraBuf;
      }
    }

    /** Offers the contents to the socket, which takes the first `n` bytes; they stay in the buffer. */
    method WriteFd(accepts: nat) returns (n: nat, ghost taken: seq<Byte>)
      requires Valid() && accepts <= |Contents()|
      ensures n == accepts && taken == Contents()[..n]
    {
      n := accepts;
      taken := Contents()[..n];
    }
  }
}
