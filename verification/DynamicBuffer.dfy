/** The growable byte array behind every response: size and capacity over an array, refining a plain sequence. */
module DynamicBuffer {
  import opened Common
  import opened Decimal
  import opened Streams

  const DEFAULT_INITIAL_CAPACITY: nat := 4096
  const DEFAULT_FD_BUFFER: nat := 256

  class Buffer {
    var capacity: nat
    var size: nat
    var buffer: array<char>
    /** Whether realloc can fail from now on. */
    const mayFail: bool

    ghost predicate Valid()
      reads this
    {
      size <= capacity == buffer.Length
    }

    ghost function Contents(): seq<char>
      reads this, buffer
      requires Valid()
    {
      buffer[..size]
    }

    constructor (initialCapacity: int, mayFail: bool)
      ensures Valid() && fresh(buffer) && Contents() == [] && this.mayFail == mayFail
      ensures capacity == if initialCapacity < 1 then DEFAULT_INITIAL_CAPACITY else initialCapacity
    {
      var c: nat := if initialCapacity < 1 then DEFAULT_INITIAL_CAPACITY else initialCapacity;
      capacity := c;
      size := 0;
      buffer := new char[c];
      this.mayFail := mayFail;
    }

    /** Room for count more bytes, unless realloc fails; the contents stay. */
    method GrowBuffer(count: nat)
      requires Valid()
      modifies this`capacity, this`buffer
      ensures Valid() && Contents() == old(Contents())
      ensures capacity == (if CanFit(count) then Max(old(capacity), size + count) else old(capacity))
      ensures !mayFail ==> CanFit(count)
      ensures buffer == old(buffer) || fresh(buffer)
    {
      if size + count > capacity {
        var failed: bool := *;
        if mayFail && failed {
          return;
        }
        var grown := new char[size + count];
        forall i | 0 <= i < size {
          grown[i] := buffer[i];
        }
        buffer := grown;
        capacity := size + count;
      }
    }

    predicate CanFit(count: nat)
      reads this
      requires size <= capacity
    {
      count <= capacity - size
    }

    /** memcpy to the end of the contents. */
    method Store(src: seq<char>)
      requires Valid() && size + |src| <= capacity
      modifies this`size, buffer
      ensures Valid() && Contents() == old(Contents()) + src
    {
      forall i | 0 <= i < |src| {
        buffer[size + i] := src[i];
      }
      size := size + |src|;
    }

    /** All or nothing: nothing only when the data did not fit and realloc failed. */
    method Append(src: seq<char>) returns (appended: nat)
      requires Valid()
      modifies this, buffer
      ensures Valid() && (buffer == old(buffer) || fresh(buffer))
      ensures (appended == |src| && Contents() == old(Contents()) + src)
        || (appended == 0 && Contents() == old(Contents()) && mayFail && old(size) + |src| > old(capacity))
      ensures capacity == if Contents() == old(Contents()) + src then Max(old(capacity), size) else old(capacity)
    {
      GrowBuffer(|src|);
      if !CanFit(|src|) {
        return 0;
      }
      Store(src);
      return |src|;
    }

    /** dynamic_buffer_append_string: src is the string up to its NUL. */
    method AppendString(src: seq<char>) returns (appended: nat)
      requires Valid()
      modifies this, buffer
      ensures Valid() && (buffer == old(buffer) || fresh(buffer))
      ensures (appended == |src| && Contents() == old(Contents()) + src)
        || (appended == 0 && Contents() == old(Contents()) && mayFail && old(size) + |src| > old(capacity))
    {
      appended := Append(src);
    }

    /**
     The write is in bounds when 20 bytes fit. The numeral comes out whole below 10^19;
     from there on its last digit is replaced by the NUL of snprintf.
     */
    method AppendNumber(n: nat) returns (appended: nat)
      requires Valid() && n < 0x1_0000_0000_0000_0000
      requires mayFail ==> size + 20 <= capacity
      modifies this, buffer
      ensures Valid() && (buffer == old(buffer) || fresh(buffer))
      ensures n < Pow10(19) ==> Contents() == old(Contents()) + Digits(n) && appended == |Digits(n)| <= 19
      ensures n >= Pow10(19) ==>
        appended == |Digits(n)| == 20 && Contents() == old(Contents()) + Digits(n)[..19] + ['\0']
    {
      NumeralLength(n);
      GrowBuffer(20);
      appended := PrintNumber(Digits(n));
    }

    /** snprintf into 20 bytes at the end of the contents; the size then grows by what it would have liked to write. */
    method PrintNumber(digits: seq<char>) returns (printed: nat)
      requires Valid() && |digits| <= 20 && CanFit(20)
      modifies this`size, buffer
      ensures Valid() && printed == |digits|
      ensures |digits| <= 19 ==> Contents() == old(Contents()) + digits
      ensures |digits| == 20 ==> Contents() == old(Contents()) + digits[..19] + ['\0']
    {
      ghost var before := Contents();
      var text := Snprintf(20, digits);
      Store(text);
      size := size - |text| + |digits|;
      assert Contents() == (before + text)[..size];
      return |digits|;
    }

    /** Up to count bytes of the file, or nothing if they would not fit. */
    method AppendFile(f: File, count: nat) returns (appended: nat)
      requires Valid()
      modifies this, buffer, f
      ensures Valid() && (buffer == old(buffer) || fresh(buffer))
      ensures appended <= |old(f.rest)| && f.rest == old(f.rest)[appended..]
      ensures Contents() == old(Contents()) + old(f.rest)[..appended]
      ensures appended == Min(count, |old(f.rest)|) || (appended == 0 && mayFail && old(size) + count > old(capacity))
    {
      GrowBuffer(count);
      if !CanFit(count) {
        return 0;
      }
      var data := f.Read(count);
      assert data == old(f.rest)[..|data|] && f.rest == old(f.rest)[|data|..];
      Store(data);
      return |data|;
    }

    /** As much of the file as the free space takes; the capacity stays. */
    method AppendFileChunked(f: File) returns (appended: nat)
      requires Valid()
      modifies this`size, buffer, f
      ensures Valid()
      ensures appended == Min(capacity - old(size), |old(f.rest)|)
      ensures Contents() == old(Contents()) + old(f.rest)[..appended] && f.rest == old(f.rest)[appended..]
    {
      var data := f.Read(capacity - size);
      assert data == old(f.rest)[..|data|] && f.rest == old(f.rest)[|data|..];
      Store(data);
      return |data|;
    }

    /** One turn of the loop of dynamic_buffer_append_fd: a read into the free space, then room for the next one. */
    method ReadOnce(fd: Pipe) returns (bytesRead: nat)
      requires Valid() && fd.Valid()
      modifies this, buffer, fd
      ensures Valid() && fd.Valid() && (buffer == old(buffer) || fresh(buffer))
      ensures bytesRead <= |old(fd.Rest())|
      ensures Contents() == old(Contents()) + old(fd.Rest())[..bytesRead] && fd.Rest() == old(fd.Rest())[bytesRead..]
      ensures bytesRead == 0 <==> old(size) == old(capacity) || old(fd.Rest()) == []
      ensures !mayFail ==> size < capacity
    {
      var data := fd.Read(capacity - size);
      assert data == old(fd.Rest())[..|data|] && fd.Rest() == old(fd.Rest())[|data|..];
      Store(data);
      if size == capacity {
        GrowBuffer(DEFAULT_FD_BUFFER);
      }
      return |data|;
    }

    /**
     Drains a descriptor into the buffer. Whatever the cuts, what arrives is a prefix of the stream; if no realloc
     fails it is the whole stream exactly when the buffer was not full on entry (or the stream is empty).
     */
    method AppendFd(fd: Pipe) returns (total: nat)
      requires Valid() && fd.Valid()
      modifies this, buffer, fd
      ensures Valid() && fd.Valid() && (buffer == old(buffer) || fresh(buffer))
      ensures total <= |old(fd.Rest())| && Contents() == old(Contents()) + old(fd.Rest())[..total]
        && fd.Rest() == old(fd.Rest())[total..]
      ensures old(size) == old(capacity) ==> total == 0
      ensures !mayFail ==> (total == |old(fd.Rest())| <==> old(size) < old(capacity) || old(fd.Rest()) == [])
    {
      ghost var stream, base, full := fd.Rest(), Contents(), size == capacity;
      var bytesRead := ReadOnce(fd);
      total := bytesRead;
      while bytesRead > 0
        invariant Valid() && fd.Valid() && (buffer == old(buffer) || fresh(buffer))
        invariant total <= |stream| && Contents() == base + stream[..total] && fd.Rest() == stream[total..]
        invariant full ==> bytesRead == total == 0
        invariant !mayFail ==> size < capacity
        invariant !mayFail && !full && bytesRead == 0 ==> total == |stream|
        decreases |stream| - total, bytesRead
      {
        bytesRead := ReadOnce(fd);
        assert stream[..total] + stream[total..][..bytesRead] == stream[..total + bytesRead];
        total := total + bytesRead;
      }
    }

    method IsEmpty() returns (b: bool)
      requires Valid()
      ensures b <==> Contents() == []
    {
      b := size == 0;
    }

    method IsFull() returns (b: bool)
      requires Valid()
      ensures b <==> |Contents()| == capacity
    {
      b := size == capacity;
    }

    method Clear()
      requires Valid()
      modifies this`size
      ensures Valid() && Contents() == []
    {
      size := 0;
    }

    /** get_buffer and get_size together. */
    method Get() returns (data: seq<char>)
      requires Valid()
      ensures data == Contents()
    {
      data := buffer[..size];
    }
  }

  /** dynamic_buffer_ini; alloc tells whether there is memory for it. */
  method DynamicBufferIni(initialCapacity: int, alloc: bool, mayFail: bool) returns (db: Buffer?)
    ensures db == null <==> !alloc
    ensures db != null ==>
      && fresh(db) && fresh(db.buffer) && db.Valid() && db.Contents() == [] && db.mayFail == mayFail
      && db.capacity == (if initialCapacity < 1 then 4096 else initialCapacity)
  {
    if !alloc {
      return null;
    }
    db := new Buffer(initialCapacity, mayFail);
  }

  function Max(a: nat, b: nat): nat {
    if a < b then b else a
  }

  /** A 64-bit number has at most 20 digits, and 20 of them only from 10^19 on. */
  lemma {:induction false} NumeralLength(n: nat)
    requires n < 0x1_0000_0000_0000_0000
    ensures |Digits(n)| <= 20
    ensures |Digits(n)| <= 19 <==> n < Pow10(19)
  {
    DigitsLength(n, 19);
    DigitsLength(n, 20);
    PowersOfTen();
  }

  lemma PowersOfTen()
    ensures Pow10(19) == 10_000_000_000_000_000_000 && Pow10(20) == 100_000_000_000_000_000_000
  {
    assert Pow10(5) == 100000;
    assert Pow10(10) == 100000 * Pow10(5) by { PowPlus(5, 5); }
    assert Pow10(15) == 100000 * Pow10(10) by { PowPlus(5, 10); }
    assert Pow10(4) == 10000;
    PowPlus(4, 15);
    PowPlus(5, 15);
  }

  lemma {:induction false} PowPlus(a: nat, b: nat)
    ensures Pow10(a + b) == Pow10(a) * Pow10(b)
  {
    if a == 0 {
    } else {
      PowPlus(a - 1, b);
    }
  }
}
