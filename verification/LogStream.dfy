/** The fixed buffer of the log front end and in-place integer formatting
    (src/base/FixedBuffer.h, src/log/LogStream.cpp). */
module LogStreams {
  import opened Decimal

  const SMALL_BUFFER: nat := 4000
  const LARGE_BUFFER: nat := 4000 * 1000
  const MAX_NUMERIC_SIZE: nat := 48

  /** A buffer of this size silently drops what does not leave at least one byte free. */
  function Appended(size: nat, contents: string, buf: string): string {
    if |contents| + |buf| < size then contents + buf else contents
  }

  class FixedBuffer {
    const data: array<char>
    var cur: nat

    ghost predicate Valid()
      reads this
    {
      cur <= data.Length
    }

    ghost function Contents(): string
      requires Valid()
      reads this, data
    {
      data[..cur]
    }

    constructor (size: nat)
      ensures Valid() && fresh(data) && data.Length == size && Contents() == ""
    {
      data := new char[size](_ => '\0');
      cur := 0;
    }

    function Avail(): nat
      requires Valid()
      reads this
    {
      data.Length - cur
    }

    function Length(): nat
      reads this
    {
      cur
    }

    method Append(buf: string)
      requires Valid()
      modifies this, data
      ensures Valid()
      ensures Contents() == Appended(data.Length, old(Contents()), buf)
    {
      if Avail() > |buf| {
        ghost var before := Contents();
        forall i | 0 <= i < |buf| {
          data[cur + i] := buf[i];
        }
        cur := cur + |buf|;
        assert Contents() == before + buf;
      }
    }

    /** The caller has already written the bytes at `cur`. */
    method Add(len: nat)
      requires Valid() && cur + len <= data.Length
      modifies this
      ensures Valid() && cur == old(cur) + len
    {
      cur := cur + len;
    }

    method Reset()
      modifies this
      ensures Valid() && Contents() == ""
    {
      cur := 0;
    }
  }

  /** The digit loop of formatInteger: least significant digit first, from `start` on. */
  method WriteDigits(data: array<char>, start: nat, n: nat) returns (cur: nat)
    requires start + |RevDigits(n)| <= data.Length
    modifies data
    ensures start <= cur <= data.Length && data[start..cur] == RevDigits(n)
    ensures forall i :: 0 <= i < data.Length && !(start <= i < cur) ==> data[i] == old(data[i])
  {
    cur := start;
    var rest := n;
    while rest > 0
      invariant start <= cur && cur + |RevDigits(rest)| == start + |RevDigits(n)|
      invariant data[start..cur] + RevDigits(rest) == RevDigits(n)
      invariant forall i :: 0 <= i < data.Length && !(start <= i < cur) ==> data[i] == old(data[i])
    {
      var digit := rest % 10;
      ghost var done := data[start..cur];
      ghost var left := RevDigits(rest);
      rest := rest / 10;
      data[cur] := DigitChar(digit);
      cur := cur + 1;
      assert data[start..cur] == done + [DigitChar(digit)];
      assert left == [DigitChar(digit)] + RevDigits(rest);
    }
  }

  /** std::reverse on a byte range: swaps from both ends towards the middle. */
  method ReverseRange(data: array<char>, start: nat, end: nat)
    requires start <= end <= data.Length
    modifies data
    ensures data[start..end] == Reverse(old(data[start..end]))
    ensures forall i :: 0 <= i < data.Length && !(start <= i < end) ==> data[i] == old(data[i])
  {
    ghost var was := data[..];
    var first: nat, last: nat := start, end;
    while first + 1 < last
      invariant Turned(data[..], was, start, first, last, end)
    {
      ghost var now := data[..];
      TurnedStep(now, was, start, first, last, end);
      last := last - 1;
      data[first], data[last] := data[last], data[first];
      assert data[..] == now[first := now[last]][last := now[first]];
      first := first + 1;
    }
    TurnedDone(data[..], was, start, first, last, end);
    assert data[..][start..end] == data[start..end] && was[start..end] == old(data[start..end]);
    assert forall i :: 0 <= i < data.Length ==> data[..][i] == data[i] && was[i] == old(data[i]);
  }

  /** The range start..end of `was` with its ends swapped up to first and down to last. */
  ghost predicate Turned(now: string, was: string, start: nat, first: nat, last: nat, end: nat) {
    && |now| == |was| && start <= first <= last <= end <= |was| && first - start == end - last
    && (forall i :: start <= i < first || last <= i < end ==> now[i] == was[start + end - 1 - i])
    && (forall i :: 0 <= i < |was| && !(start <= i < first || last <= i < end) ==> now[i] == was[i])
  }

  lemma TurnedStep(now: string, was: string, start: nat, first: nat, last: nat, end: nat)
    requires Turned(now, was, start, first, last, end) && first + 1 < last
    ensures Turned(now[first := now[last - 1]][last - 1 := now[first]], was, start, first + 1, last - 1, end)
  {
  }

  lemma TurnedDone(now: string, was: string, start: nat, first: nat, last: nat, end: nat)
    requires Turned(now, was, start, first, last, end) && last <= first + 1
    ensures now[start..end] == Reverse(was[start..end])
    ensures forall i :: 0 <= i < |was| && !(start <= i < end) ==> now[i] == was[i]
  {
    var r := Reverse(was[start..end]);
    forall k | 0 <= k < end - start ensures now[start..end][k] == r[k] {
      assert r[k] == was[start..end][end - start - 1 - k] == was[start + end - 1 - (start + k)];
      assert now[start..end][k] == now[start + k];
    }
  }

  /** The text of v written from `start` on, followed by a terminator. Returns its end. */
  method WriteInteger(data: array<char>, start: nat, v: int) returns (cur: nat)
    requires start + MAX_NUMERIC_SIZE <= data.Length
    requires -0x1_0000_0000_0000_0000 < v < 0x1_0000_0000_0000_0000
    modifies data
    ensures start <= cur <= start + 21 && data[start..cur] == FormatInt(v)
    ensures data[cur] == '\0'
    ensures forall i :: 0 <= i < data.Length && !(start <= i <= cur) ==> data[i] == old(data[i])
  {
    var negative := v < 0;
    var n: nat := if negative then -v else v;
    SixtyFourBits(n);
    cur := WriteDigits(data, start, n);
    ghost var digits := data[start..cur];
    if negative {
      data[cur] := '-';
      cur := cur + 1;
      assert data[start..cur] == digits + "-";
    }
    data[cur] := '\0';
    assert data[start..cur] == if negative then digits + "-" else digits;
    ReverseRange(data, start, cur);
  }

  class LogStream {
    const buffer: FixedBuffer

    constructor ()
      ensures fresh(buffer) && fresh(buffer.data) && buffer.Valid()
      ensures buffer.data.Length == SMALL_BUFFER && buffer.Contents() == ""
    {
      buffer := new FixedBuffer(SMALL_BUFFER);
    }

    /** Digits least significant first, then the sign, then a terminator, then reversed in
        place. `max` is the largest value of the integer type; the negation of a negative v
        must be representable. With fewer than 48 bytes free nothing is written; otherwise
        nothing beyond those 48 bytes is. */
    method FormatInteger(v: int, max: nat)
      requires buffer.Valid()
      requires max < 0x1_0000_0000_0000_0000 && v <= max && -v <= max
      modifies buffer, buffer.data
      ensures buffer.Valid()
      ensures buffer.Contents() == old(buffer.Contents())
                                   + if old(buffer.Avail()) >= MAX_NUMERIC_SIZE then FormatInt(v) else ""
      ensures |buffer.Contents()| <= |old(buffer.Contents())| + 21
      ensures forall i :: old(buffer.cur) + MAX_NUMERIC_SIZE <= i < buffer.data.Length ==>
                buffer.data[i] == old(buffer.data[i])
    {
      if buffer.Avail() >= MAX_NUMERIC_SIZE {
        var data := buffer.data;
        var start := buffer.cur;
        var cur := WriteInteger(data, start, v);
        assert data[..start] == old(data[..start]);
        buffer.Add(cur - start);
        assert data[..cur] == data[..start] + data[start..cur];
      }
    }
  }
}
