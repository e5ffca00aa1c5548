/** The byte ring used by the device drivers: a bounded queue in an array with one slot to spare. */
module CircularBuffer {

  import opened Numbers

  class Ring {
    const buffer: array<bv8>
    var head: nat
    var tail: nat

    ghost predicate Valid()
      reads this
    {
      0 < buffer.Length && head < buffer.Length && tail < buffer.Length
    }

    ghost function Capacity(): int {
      buffer.Length - 1
    }

    /** The bytes in the ring, oldest first. */
    ghost function Contents(): seq<bv8>
      requires Valid()
      reads this, buffer
    {
      if tail <= head then buffer[tail..head] else buffer[tail..] + buffer[..head]
    }

    constructor (capacity: nat)
      ensures Valid() && fresh(buffer) && Capacity() == capacity && Contents() == []
    {
      buffer := new bv8[capacity + 1](_ => 0);
      head, tail := 0, 0;
    }

    lemma Count()
      requires Valid()
      ensures |Contents()| == if tail <= head then head - tail else buffer.Length - tail + head
    {
    }

    method IsEmpty() returns (r: bool)
      requires Valid()
      ensures r <==> Contents() == []
    {
      r := head == tail;
    }

    method IsFull() returns (r: bool)
      requires Valid()
      ensures r <==> |Contents()| == Capacity()
    {
      hide Ring.Contents;
      Count();
      r := Wrapped(head + 1, buffer.Length) == tail;
    }

    /** Copy bytes out of the ring without removing them. */
    method CopyOut(data: array<bv8>, at: nat, from: nat, bytes: nat)
      requires from + bytes <= buffer.Length && at + bytes <= data.Length && data != buffer
      modifies data
      ensures data[..] == old(data[..at]) + buffer[from..from + bytes] + old(data[at + bytes..])
    {
      ghost var before := data[..];
      for i := 0 to bytes
        invariant forall k :: 0 <= k < data.Length ==>
                  data[k] == if at <= k < at + i then buffer[from + (k - at)] else before[k]
      {
        data[at + i] := buffer[from + i];
      }
    }

    /** How many bytes can be read without wrapping around. */
    function ReadRun(): nat
      requires Valid()
      reads this
    {
      if tail <= head then head - tail else buffer.Length - tail
    }

    /** Remove the oldest bytes, up to the end of the array, and append them to what has been delivered. */
    method TakeRun(data: array<bv8>, at: nat, bytes: nat)
      requires Valid() && bytes <= ReadRun() && at + bytes <= data.Length && data != buffer
      modifies this`tail, data
      ensures Valid() && tail == Wrapped(old(tail) + bytes, buffer.Length)
      ensures bytes <= |old(Contents())| && Contents() == old(Contents())[bytes..]
      ensures data[..at + bytes] == old(data[..at]) + old(Contents())[..bytes]
      ensures data[at + bytes..] == old(data[at + bytes..])
    {
      ghost var all := Contents();
      assert buffer[tail..tail + bytes] == all[..bytes];
      CopyOut(data, at, tail, bytes);
      tail := Wrapped(tail + bytes, buffer.Length);
      assert Contents() == all[bytes..];
    }

    /** Remove and deliver the oldest bytes, as many as asked for or as there are. */
    method Read(data: array<bv8>, count: nat) returns (read: nat)
      requires Valid() && count <= data.Length && data != buffer
      modifies this`tail, data
      ensures Valid() && read == Min(count, |old(Contents())|)
      ensures data[..read] == old(Contents())[..read] && data[read..] == old(data[read..])
      ensures Contents() == old(Contents())[read..]
    {
      hide Ring.Contents, Wrapped;
      read := 0;
      ghost var all := Contents();
      Count();
      if tail > head {
        var bytes := Min(buffer.Length - tail, count);
        TakeRun(data, 0, bytes);
        read := bytes;
      }
      ghost var now := Contents();
      assert now == all[read..] && data[..read] == all[..read];
      if tail < head {
        var bytes := Min(head - tail, count - read);
        TakeRun(data, read, bytes);
        Joined(all, read, bytes);
        read := read + bytes;
      }
    }

    /** How many bytes can be written without wrapping around. */
    function WriteRun(): int
      requires Valid()
      reads this
    {
      if tail <= head then buffer.Length - head - (if tail == 0 then 1 else 0) else tail - head - 1
    }

    method CopyIn(data: array<bv8>, from: nat, at: nat, bytes: nat)
      requires from + bytes <= data.Length && at + bytes <= buffer.Length && data != buffer
      modifies buffer
      ensures buffer[..] == old(buffer[..at]) + data[from..from + bytes] + old(buffer[at + bytes..])
    {
      ghost var before := buffer[..];
      for i := 0 to bytes
        invariant forall k :: 0 <= k < buffer.Length ==>
                  buffer[k] == if at <= k < at + i then data[from + (k - at)] else before[k]
      {
        buffer[at + i] := data[from + i];
      }
    }

    /** Append bytes, up to the end of the array. */
    method PutRun(data: array<bv8>, from: nat, bytes: nat)
      requires Valid() && bytes <= WriteRun() && from + bytes <= data.Length && data != buffer
      modifies this`head, buffer
      ensures Valid() && head == Wrapped(old(head) + bytes, buffer.Length)
      ensures Contents() == old(Contents()) + data[from..from + bytes]
    {
      ghost var before, h, added := buffer[..], head, data[from..from + bytes];
      CopyIn(data, from, head, bytes);
      head := Wrapped(head + bytes, buffer.Length);
      if tail <= h {
        AppendAfter(before, buffer[..], added, tail, h);
      } else {
        AppendBefore(before, buffer[..], added, tail, h);
      }
    }

    /** Append bytes, as many as given or as there is room for. */
    method Write(data: array<bv8>, count: nat) returns (written: nat)
      requires Valid() && count <= data.Length && data != buffer
      modifies this`head, buffer
      ensures Valid() && written == Min(count, Capacity() - |old(Contents())|)
      ensures Contents() == old(Contents()) + data[..written]
    {
      hide Ring.Contents, Wrapped;
      written := 0;
      ghost var all := Contents();
      Count();
      if head >= tail {
        var bytes := Min(buffer.Length - head - (if tail == 0 then 1 else 0), count);
        PutRun(data, 0, bytes);
        written := bytes;
      }
      ghost var now := Contents();
      assert now == all + data[..written];
      if head < tail {
        var bytes := Min(tail - head - 1, count - written);
        Joined(data[..], written, bytes);
        PutRun(data, written, bytes);
        written := written + bytes;
      }
    }
  }

  /** Two runs, one after the other, make one. */
  lemma Joined(b: seq<bv8>, m: nat, n: nat)
    requires m + n <= |b|
    ensures b[..m] + b[m..m + n] == b[..m + n] && b[m..][..n] == b[m..m + n] && b[m..][n..] == b[m + n..]
  {
  }

  lemma AppendAfter(b: seq<bv8>, b': seq<bv8>, added: seq<bv8>, tail: nat, h: nat)
    requires tail <= h && h + |added| <= |b| && b' == b[..h] + added + b[h + |added|..]
    ensures |b'| == |b| && b'[tail..h + |added|] == b[tail..h] + added
  {
  }

  lemma AppendBefore(b: seq<bv8>, b': seq<bv8>, added: seq<bv8>, tail: nat, h: nat)
    requires h + |added| <= tail <= |b| && b' == b[..h] + added + b[h + |added|..]
    ensures |b'| == |b| && b'[tail..] + b'[..h + |added|] == b[tail..] + b[..h] + added
  {
    assert b'[tail..] == b[tail..];
    assert b'[..h + |added|] == b[..h] + added;
  }

  /** x % n for an x that has gone at most one step past the end. */
  function Wrapped(x: nat, n: nat): (r: nat)
    requires 0 < n && x <= n
    ensures r == if x == n then 0 else x
  {
    x % n
  }
}
