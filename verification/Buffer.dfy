/** muduo's Buffer: prependable, readable and writable bytes in one vector (muduo/net/Buffer.h and
    Buffer.cc).  Every operation is stated on `Readable()`, the plain queue of bytes it refines. */
module Buffers {
  const kCheapPrepend := 8
  const kInitialSize := 1024
  const kExtraBytes := 65536

  datatype Found = NotFound | At(index: nat)

  // What readv(2) gives back: an error, or the bytes it put into the two areas it was offered.
  datatype ReadResult = ReadError(errno: int) | ReadBytes(bytes: string)

  // memchr: the first `c`, if any.
  function FindChar(s: string, c: char): (f: Found)
    ensures f.At? ==> f.index < |s| && s[f.index] == c && c !in s[..f.index]
    ensures f.NotFound? ==> c !in s
  {
    if s == "" then NotFound
    else if s[0] == c then At(0)
    else
      var rest := FindChar(s[1..], c);
      assert s == [s[0]] + s[1..];
      if rest.At? then assert s[..rest.index + 1] == [s[0]] + s[1..][..rest.index]; At(rest.index + 1) else NotFound
  }

  // ---------------------------------------------------------------------------------------------
  // Network byte order
  // ---------------------------------------------------------------------------------------------

  function Power256(width: nat): (p: int)
    ensures p >= 1
  {
    if width == 0 then 1 else 256 * Power256(width - 1)
  }

  // The value range of a signed integer of `width` bytes.
  predicate Fits(x: int, width: nat) {
    -Power256(width) <= 2 * x < Power256(width)
  }

  function Unsigned(bytes: string): int {
    if bytes == "" then 0
    else
      var n := |bytes| - 1;
      256 * Unsigned(bytes[..n]) + bytes[n] as int
  }

  // hostToNetwork: the most significant byte first.
  function BigEndian(x: int, width: nat): (bytes: string)
    ensures |bytes| == width && forall c | c in bytes :: c as int < 256
    decreases width
  {
    if width == 0 then "" else BigEndian(x / 256, width - 1) + [(x % 256) as char]
  }

  // networkToHost, read as two's complement.
  function FromBigEndian(bytes: string): int {
    var u := Unsigned(bytes);
    if 2 * u < Power256(|bytes|) then u else u - Power256(|bytes|)
  }

  lemma {:induction false} UnsignedOfBigEndian(x: int, width: nat)
    requires -Power256(width) <= x < Power256(width)
    ensures Unsigned(BigEndian(x, width)) == if x >= 0 then x else x + Power256(width)
    decreases width
  {
    if width > 0 {
      var high := BigEndian(x / 256, width - 1);
      UnsignedOfBigEndian(x / 256, width - 1);
      assert BigEndian(x, width) == high + [(x % 256) as char];
      assert BigEndian(x, width)[..width - 1] == high;
    }
  }

  /** Network byte order: the first bytes weigh most. */
  lemma {:induction false} MostSignificantFirst(a: string, b: string)
    ensures Unsigned(a + b) == Unsigned(a) * Power256(|b|) + Unsigned(b)
    ensures |a| == 1 ==> Unsigned(a) == a[0] as int
    decreases |b|
  {
    if b == "" {
      assert a + b == a;
    } else {
      var n := |b| - 1;
      MostSignificantFirst(a, b[..n]);
      assert (a + b)[..|a + b| - 1] == a + b[..n];
      Distribute(Unsigned(a), Power256(n), Unsigned(b[..n]), b[n] as int);
    }
  }

  lemma Distribute(u: int, p: int, v: int, d: int)
    ensures 256 * (u * p + v) + d == u * (256 * p) + (256 * v + d)
  {
  }

  /** A fixed-width integer that fits reads back from the bytes it was written as. */
  lemma IntegerRoundTrip(x: int, width: nat)
    requires width > 0 && Fits(x, width)
    ensures FromBigEndian(BigEndian(x, width)) == x
  {
    UnsignedOfBigEndian(x, width);
  }

  // ---------------------------------------------------------------------------------------------
  // The buffer
  // ---------------------------------------------------------------------------------------------

  function Zeros(n: nat): (s: string)
    ensures |s| == n
  {
    seq(n, _ => '\0')
  }

  // std::copy of `data` to position p.
  function Overwrite(s: string, p: nat, data: string): (r: string)
    requires p + |data| <= |s|
    ensures |r| == |s| && r[..p] == s[..p] && r[p..p + |data|] == data && r[p + |data|..] == s[p + |data|..]
  {
    s[..p] + data + s[p + |data|..]
  }

  lemma OverwriteAppends(buffer: string, r: nat, w: nat, data: string)
    requires r <= w && w + |data| <= |buffer|
    ensures Overwrite(buffer, w, data)[r..w + |data|] == buffer[r..w] + data
  {
    var b := Overwrite(buffer, w, data);
    assert b[r..w] == b[..w][r..] == buffer[r..w];
  }

  lemma Rejoined(before: string, bytes: string, n: nat)
    requires n <= |bytes|
    ensures before + bytes[..n] + bytes[n..] == before + bytes
  {
    assert bytes == bytes[..n] + bytes[n..];
  }

  lemma NothingToFind(buffer: string, i: nat, end: nat)
    requires i == end <= |buffer|
    ensures FindChar(buffer[i..end], '\n') == NotFound
  {
  }

  // A newline at i, or the first one behind it.
  lemma FirstOrRest(buffer: string, i: nat, j: nat, end: nat)
    requires j == i + 1 <= end <= |buffer|
    ensures FindChar(buffer[i..end], '\n') ==
            if buffer[i] == '\n' then At(0)
            else
              var rest := FindChar(buffer[j..end], '\n');
              if rest.At? then At(rest.index + 1) else NotFound
  {
    assert buffer[i..end][1..] == buffer[j..end];
  }

  class Buffer {
    var buffer: string
    var readerIndex: nat
    var writerIndex: nat

    ghost predicate Valid() reads this {
      readerIndex <= writerIndex <= |buffer| && kCheapPrepend <= |buffer|
    }

    function Readable(): string
      requires Valid()
      reads this
    {
      buffer[readerIndex..writerIndex]
    }

    function WritableBytes(): nat
      requires Valid()
      reads this
    {
      |buffer| - writerIndex
    }

    constructor (initialSize: nat)
      ensures Valid() && Readable() == "" && WritableBytes() == initialSize && readerIndex == kCheapPrepend
    {
      buffer := Zeros(kCheapPrepend + initialSize);
      readerIndex, writerIndex := kCheapPrepend, kCheapPrepend;
    }

    method FindEOL() returns (eol: Found)
      requires Valid()
      ensures eol == FindChar(Readable(), '\n')
    {
      hide FindChar;
      var i := readerIndex;
      while i < writerIndex
        invariant readerIndex <= i <= writerIndex
        invariant var rest := FindChar(buffer[i..writerIndex], '\n');
                  FindChar(Readable(), '\n') == if rest.At? then At(i - readerIndex + rest.index) else NotFound
      {
        FirstOrRest(buffer, i, i + 1, writerIndex);
        if buffer[i] == '\n' { return At(i - readerIndex); }
        i := i + 1;
      }
      NothingToFind(buffer, i, writerIndex);
      return NotFound;
    }

    method RetrieveAll()
      requires Valid()
      modifies this
      ensures Valid() && Readable() == "" && buffer == old(buffer) && readerIndex == kCheapPrepend
    {
      readerIndex, writerIndex := kCheapPrepend, kCheapPrepend;
    }

    method Retrieve(len: nat)
      requires Valid() && len <= |Readable()|
      modifies this
      ensures Valid() && Readable() == old(Readable())[len..] && |buffer| == old(|buffer|)
    {
      if len < writerIndex - readerIndex {
        readerIndex := readerIndex + len;
      } else {
        RetrieveAll();
      }
    }

    method RetrieveAsString(len: nat) returns (result: string)
      requires Valid() && len <= |Readable()|
      modifies this
      ensures Valid() && result == old(Readable())[..len] && Readable() == old(Readable())[len..]
    {
      result := buffer[readerIndex..readerIndex + len];
      Retrieve(len);
    }

    method Append(data: string)
      requires Valid()
      modifies this
      ensures Valid() && Readable() == old(Readable()) + data
      ensures old(WritableBytes()) >= |data| ==> WritableBytes() == old(WritableBytes()) - |data|
    {
      EnsureWritableBytes(|data|);
      buffer := Overwrite(buffer, writerIndex, data);
      assert buffer[readerIndex..writerIndex] == buffer[..writerIndex][readerIndex..];
      assert buffer[readerIndex..writerIndex + |data|] == buffer[readerIndex..writerIndex] + buffer[writerIndex..writerIndex + |data|];
      HasWritten(|data|);
    }

    method EnsureWritableBytes(len: nat)
      requires Valid()
      modifies this
      ensures Valid() && Readable() == old(Readable()) && WritableBytes() >= len
      ensures old(WritableBytes()) >= len ==> WritableBytes() == old(WritableBytes())
    {
      if WritableBytes() < len {
        MakeSpace(len);
      }
    }

    method HasWritten(len: nat)
      requires Valid() && len <= WritableBytes()
      modifies this`writerIndex
      ensures Valid() && writerIndex == old(writerIndex) + len
    {
      writerIndex := writerIndex + len;
    }

    method Unwrite(len: nat)
      requires Valid() && len <= |Readable()|
      modifies this`writerIndex
      ensures Valid() && Readable() == old(Readable())[..|old(Readable())| - len]
    {
      writerIndex := writerIndex - len;
    }

    /** Only called when the space at the end is too small; that is why the readable bytes can always
        move down (the assertion kCheapPrepend < readerIndex_ of the source). */
    method MakeSpace(len: nat)
      requires Valid() && WritableBytes() < len
      modifies this
      ensures Valid() && Readable() == old(Readable()) && WritableBytes() >= len
      ensures old(WritableBytes() + readerIndex) >= len + kCheapPrepend ==> |buffer| == old(|buffer|)
    {
      if WritableBytes() + readerIndex < len + kCheapPrepend {
        buffer := buffer + Zeros(writerIndex + len - |buffer|);
      } else {
        assert kCheapPrepend < readerIndex;
        var readable := Readable();
        buffer := Overwrite(buffer, kCheapPrepend, readable);
        readerIndex := kCheapPrepend;
        writerIndex := readerIndex + |readable|;
      }
    }

    method Prepend(data: string)
      requires Valid() && |data| <= readerIndex
      modifies this
      ensures Valid() && Readable() == data + old(Readable())
    {
      ghost var before, start := buffer, readerIndex;
      readerIndex := readerIndex - |data|;
      buffer := Overwrite(buffer, readerIndex, data);
      assert buffer[start..] == before[start..];
      assert buffer[start..writerIndex] == buffer[start..][..writerIndex - start];
      assert before[start..writerIndex] == before[start..][..writerIndex - start];
      assert buffer[readerIndex..writerIndex] == buffer[readerIndex..start] + buffer[start..writerIndex];
    }

    method Swap(rhs: Buffer)
      requires Valid() && rhs.Valid()
      modifies this, rhs
      ensures Valid() && rhs.Valid() && Readable() == old(rhs.Readable()) && rhs.Readable() == old(Readable())
      ensures WritableBytes() == old(rhs.WritableBytes())
    {
      buffer, rhs.buffer := rhs.buffer, buffer;
      readerIndex, rhs.readerIndex := rhs.readerIndex, readerIndex;
      writerIndex, rhs.writerIndex := rhs.writerIndex, writerIndex;
    }

    method Shrink(reserve: nat)
      requires Valid()
      modifies this
      ensures Valid() && Readable() == old(Readable()) && WritableBytes() >= reserve
    {
      var other := new Buffer(kInitialSize);
      other.EnsureWritableBytes(|Readable()| + reserve);
      other.Append(Readable());
      Swap(other);
    }

    // What readFd offers the kernel: the writable bytes, and 64 KB more unless there is plenty.
    function Offered(): nat
      requires Valid()
      reads this
    {
      WritableBytes() + if WritableBytes() < kExtraBytes then kExtraBytes else 0
    }

    /** However much arrives, and wherever the kernel had to put it, it lands behind the readable bytes. */
    method ReadFd(kernel: ReadResult) returns (n: int)
      requires Valid() && (kernel.ReadBytes? ==> |kernel.bytes| <= Offered())
      modifies this
      ensures Valid()
      ensures kernel.ReadError? ==> n < 0 && Readable() == old(Readable())
      ensures kernel.ReadBytes? ==> n == |kernel.bytes| && Readable() == old(Readable()) + kernel.bytes
    {
      var writable := WritableBytes();
      match kernel {
        case ReadError(_) => n := -1;
        case ReadBytes(bytes) =>
          n := |bytes|;
          ghost var before := Readable();
          var direct := if |bytes| <= writable then bytes else bytes[..writable];
          OverwriteAppends(buffer, readerIndex, writerIndex, direct);
          buffer := Overwrite(buffer, writerIndex, direct);
          if n <= writable {
            writerIndex := writerIndex + n;
          } else {
            writerIndex := |buffer|;
            assert Readable() == before + direct;
            var extrabuf := bytes[writable..];
            Append(extrabuf);
            Rejoined(before, bytes, writable);
          }
      }
    }

    method AppendInt(x: int, width: nat)
      requires Valid()
      modifies this
      ensures Valid() && Readable() == old(Readable()) + BigEndian(x, width)
    {
      Append(BigEndian(x, width));
    }

    method PrependInt(x: int, width: nat)
      requires Valid() && width <= readerIndex
      modifies this
      ensures Valid() && Readable() == BigEndian(x, width) + old(Readable())
    {
      Prepend(BigEndian(x, width));
    }

    method PeekInt(width: nat) returns (x: int)
      requires Valid() && width <= |Readable()|
      ensures x == FromBigEndian(Readable()[..width])
    {
      x := FromBigEndian(buffer[readerIndex..readerIndex + width]);
      assert buffer[readerIndex..readerIndex + width] == Readable()[..width];
    }

    method ReadInt(width: nat) returns (result: int)
      requires Valid() && width <= |Readable()|
      modifies this
      ensures Valid() && result == FromBigEndian(old(Readable())[..width])
      ensures Readable() == old(Readable())[width..]
    {
      result := PeekInt(width);
      Retrieve(width);
    }
  }

  /** Integers come back in the order they were appended, whatever is queued around them. */
  lemma {:induction false} IntegersAreQueued(x: int, width: nat, rest: string)
    requires width > 0 && Fits(x, width)
    ensures var bytes := BigEndian(x, width) + rest;
            FromBigEndian(bytes[..width]) == x && bytes[width..] == rest
  {
    IntegerRoundTrip(x, width);
    assert (BigEndian(x, width) + rest)[..width] == BigEndian(x, width);
  }
}
