/** The network buffer of src/net/Buffer.{h,cpp}: a gap buffer over one resizable array.
    Its unread bytes are the abstract value; every operation is stated on them. */
module NetBuffer {
  import opened Common
  import opened Strings

  const CHEAP_PREPEND: nat := 8
  const INITIAL_SIZE: nat := 1024
  /** Size of the secondary, on-stack area of readFd. */
  const EXTRA_BUFFER: nat := 65536

  /** What ::readv delivers: an error, or the bytes it scattered (none at end of file). */
  datatype ReadResult = ReadError | Received(bytes: string)

  /** What ::write reports for a byte range. */
  datatype WriteResult = Wrote(n: nat) | WouldBlock | PeerGone | OtherError

  class Buffer {
    var buffer: array<char>
    var readerIndex: nat
    var writerIndex: nat

    /** The size asked for at construction and the largest number of bytes ever
        readable (or reserved on top of the readable ones). */
    ghost var initialSize: nat
    ghost var peak: nat

    ghost predicate Valid()
      reads this
    {
      && CHEAP_PREPEND <= readerIndex <= writerIndex <= buffer.Length
      && writerIndex - readerIndex <= peak
      && buffer.Length <= Max(CHEAP_PREPEND + initialSize, 2 * peak + CHEAP_PREPEND)
    }

    ghost function Contents(): string
      requires Valid()
      reads this, buffer
    {
      buffer[readerIndex..writerIndex]
    }

    constructor (size: nat := INITIAL_SIZE)
      ensures Valid() && fresh(buffer)
      ensures Contents() == "" && initialSize == size && peak == 0
      ensures WritableBytes() == size && PrependableBytes() == CHEAP_PREPEND
    {
      buffer := new char[CHEAP_PREPEND + size](_ => '\0');
      readerIndex := CHEAP_PREPEND;
      writerIndex := CHEAP_PREPEND;
      initialSize := size;
      peak := 0;
    }

    function ReadableBytes(): (n: nat)
      requires Valid()
      reads this, buffer
      ensures n == |Contents()|
    {
      writerIndex - readerIndex
    }

    function WritableBytes(): nat
      requires Valid()
      reads this
    {
      buffer.Length - writerIndex
    }

    function PrependableBytes(): nat
      requires Valid()
      reads this
    {
      readerIndex
    }

    method RetrieveAll()
      requires Valid()
      modifies this
      ensures Valid() && Contents() == ""
      ensures buffer == old(buffer) && initialSize == old(initialSize) && peak == old(peak)
    {
      readerIndex := CHEAP_PREPEND;
      writerIndex := CHEAP_PREPEND;
    }

    method Retrieve(len: nat)
      requires Valid() && len <= |Contents()|
      modifies this
      ensures Valid() && Contents() == old(Contents())[len..]
      ensures buffer == old(buffer) && initialSize == old(initialSize) && peak == old(peak)
    {
      if len < ReadableBytes() {
        readerIndex := readerIndex + len;
      } else {
        RetrieveAll();
      }
    }

    method RetrieveAsString(len: nat) returns (result: string)
      requires Valid() && len <= |Contents()|
      modifies this
      ensures Valid() && result == old(Contents())[..len] && Contents() == old(Contents())[len..]
      ensures buffer == old(buffer) && initialSize == old(initialSize) && peak == old(peak)
    {
      result := buffer[readerIndex..readerIndex + len];
      assert result == Contents()[..len];
      Retrieve(len);
    }

    method RetrieveAllAsString() returns (result: string)
      requires Valid()
      modifies this
      ensures Valid() && result == old(Contents()) && Contents() == ""
      ensures buffer == old(buffer) && initialSize == old(initialSize) && peak == old(peak)
    {
      result := RetrieveAsString(ReadableBytes());
    }

    /** `end` is an offset from the first unread byte. */
    method RetrieveUntil(end: nat)
      requires Valid() && end <= |Contents()|
      modifies this
      ensures Valid() && Contents() == old(Contents())[end..]
      ensures buffer == old(buffer) && initialSize == old(initialSize) && peak == old(peak)
    {
      Retrieve(end);
    }

    function FindCRLF(): (r: Option<nat>)
      requires Valid()
      reads this, buffer
      ensures r.Some? ==> r.value + 2 <= ReadableBytes() && CRLFAt(Contents(), r.value)
      ensures r.Some? ==> forall k :: k < r.value ==> !CRLFAt(Contents(), k)
      ensures r.None? ==> NoCRLF(Contents())
    {
      FirstCRLF(buffer[readerIndex..writerIndex])
    }

    /** Either grow the array or slide the unread bytes back to the front. Both keep the
        unread bytes; the array never outgrows the bound in Valid. */
    method MakeSpace(len: nat)
      requires Valid() && WritableBytes() < len
      requires |Contents()| + len <= peak
      modifies this, buffer
      ensures Valid() && WritableBytes() >= len
      ensures Contents() == old(Contents())
      ensures buffer == old(buffer) || fresh(buffer)
      ensures initialSize == old(initialSize) && peak == old(peak)
    {
      if WritableBytes() + PrependableBytes() < len + CHEAP_PREPEND {
        Resize(writerIndex + len);
      } else {
        assert CHEAP_PREPEND < readerIndex;
        Slide();
      }
    }

    /** std::vector::resize to a larger size. */
    method Resize(size: nat)
      requires Valid() && buffer.Length <= size
      requires size <= Max(CHEAP_PREPEND + initialSize, 2 * peak + CHEAP_PREPEND)
      modifies this`buffer
      ensures Valid() && fresh(buffer) && buffer.Length == size
      ensures Contents() == old(Contents())
    {
      var b := buffer;
      var bigger := new char[size](i => '\0');
      forall i | 0 <= i < writerIndex {
        bigger[i] := b[i];
      }
      ghost var before := Contents();
      buffer := bigger;
      assert |Contents()| == |before| && forall i :: 0 <= i < |before| ==> Contents()[i] == before[i];
    }

    /** Moves the unread bytes to the front, one after the other: the two ranges may overlap,
        and it matters that the target lies in front. */
    method Slide()
      requires Valid()
      modifies this`readerIndex, this`writerIndex, buffer
      ensures Valid() && readerIndex == CHEAP_PREPEND
      ensures Contents() == old(Contents())
    {
      var readable := ReadableBytes();
      CopyDown(buffer, readerIndex, CHEAP_PREPEND, readable);
      readerIndex := CHEAP_PREPEND;
      writerIndex := readerIndex + readable;
      assert readable == ReadableBytes();
    }

    /** std::copy of n bytes within one array, to a place that is not behind them. */
    static method CopyDown(a: array<char>, from: nat, to: nat, n: nat)
      requires to <= from && from + n <= a.Length
      modifies a
      ensures a[to..to + n] == old(a[from..from + n])
    {
      var i := 0;
      while i < n
        invariant 0 <= i <= n
        invariant forall k :: to <= k < to + i ==> a[k] == old(a[k - to + from])
        invariant forall k :: from + i <= k < from + n ==> a[k] == old(a[k])
      {
        a[to + i] := a[from + i];
        i := i + 1;
      }
    }

    method EnsureWritableBytes(len: nat)
      requires Valid()
      modifies this, buffer
      ensures Valid() && WritableBytes() >= len
      ensures Contents() == old(Contents())
      ensures buffer == old(buffer) || fresh(buffer)
      ensures initialSize == old(initialSize) && peak == Max(old(peak), |Contents()| + len)
    {
      peak := Max(peak, |Contents()| + len);
      if WritableBytes() < len {
        MakeSpace(len);
      }
      assert WritableBytes() >= len;
    }

    method Append(data: string)
      requires Valid()
      modifies this, buffer
      ensures Valid() && Contents() == old(Contents()) + data
      ensures buffer == old(buffer) || fresh(buffer)
      ensures initialSize == old(initialSize) && peak == Max(old(peak), |Contents()|)
    {
      EnsureWritableBytes(|data|);
      Fill(data);
    }

    /** Bytes that fit behind the unread ones are copied there. */
    method Fill(data: string)
      requires Valid() && |data| <= WritableBytes()
      modifies this`writerIndex, this`peak, buffer
      ensures Valid() && Contents() == old(Contents()) + data
      ensures peak == Max(old(peak), |Contents()|)
    {
      ghost var before := Contents();
      forall i | 0 <= i < |data| {
        buffer[writerIndex + i] := data[i];
      }
      writerIndex := writerIndex + |data|;
      peak := Max(peak, writerIndex - readerIndex);
      assert Contents() == before + data;
    }

    /** How many bytes the two-part ::readv can deliver: the secondary area only takes
        part when less than its own size is free in the array. */
    function ReadvCapacity(): nat
      requires Valid()
      reads this
    {
      if WritableBytes() < EXTRA_BUFFER then WritableBytes() + EXTRA_BUFFER else WritableBytes()
    }

    /** Returns the value of ::readv: -1 on error, 0 at end of file, else the byte count. */
    method ReadFd(res: ReadResult) returns (n: int)
      requires Valid()
      requires res.Received? ==> |res.bytes| <= ReadvCapacity()
      modifies this, buffer
      ensures Valid()
      ensures res.ReadError? ==> n == -1 && Contents() == old(Contents())
      ensures res.Received? ==> n == |res.bytes| && Contents() == old(Contents()) + res.bytes
      ensures buffer == old(buffer) || fresh(buffer)
      ensures initialSize == old(initialSize) && peak == Max(old(peak), |Contents()|)
    {
      match res
      case ReadError =>
        n := -1;
      case Received(bytes) =>
        var writable := WritableBytes();
        n := |bytes|;
        if |bytes| <= writable {
          Fill(bytes);
        } else {
          Fill(bytes[..writable]);
          assert writerIndex == buffer.Length;
          Append(bytes[writable..]);
          assert bytes == bytes[..writable] + bytes[writable..];
        }
    }

    /** The first n unread bytes, from beginRead() on. */
    method Peek(n: nat) returns (out: string)
      requires Valid() && n <= |Contents()|
      ensures out + Contents()[n..] == Contents()
      ensures out == Contents()[..n]
    {
      out := buffer[readerIndex..readerIndex + n];
      assert |out| == n && forall i :: 0 <= i < n ==> out[i] == Contents()[i];
    }

    /** n bytes of memory from beginWrite() on, when `beyond` lies behind the array. */
    method PeekBehind(n: nat, beyond: string) returns (out: string)
      requires Valid() && writerIndex + n <= buffer.Length + |beyond|
      ensures out == (buffer[..] + beyond)[writerIndex..writerIndex + n]
    {
      var memory := buffer[..] + beyond;
      out := memory[writerIndex..writerIndex + n];
    }

    /** Offers all unread bytes to ::write and drops the ones it took, from the front.
        `out` are the bytes the kernel took. */
    method WriteFd(res: WriteResult) returns (n: int, out: string)
      requires Valid()
      requires res.Wrote? ==> res.n <= |Contents()|
      modifies this
      ensures Valid()
      ensures n == if res.Wrote? then res.n else -1
      ensures out + Contents() == old(Contents()) && |out| == Max(n, 0)
      ensures buffer == old(buffer) && initialSize == old(initialSize) && peak == old(peak)
    {
      match res
      case Wrote(k) =>
        n := k;
        out := Peek(k);
        Retrieve(k);
      case _ =>
        n := -1;
        out := "";
    }
  }
}
