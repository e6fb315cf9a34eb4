/** A fixed-size circular byte buffer. */
module RingBuffers {
  import opened Bytes
  import opened Results

  datatype Status = Empty | Full | Normal(size: nat)

  /** The `n` bytes of `b` from index `tail` on, going round at the end. */
  function Window(b: seq<Byte>, tail: nat, n: nat): (w: seq<Byte>)
    requires tail < |b| && n <= |b|
    ensures |w| == n
  {
    if tail + n <= |b| then b[tail..tail + n] else b[tail..] + b[..tail + n - |b|]
  }

  function Next(i: nat, capacity: nat): (j: nat)
    requires i < capacity
    ensures j < capacity
  {
    if i + 1 == capacity then 0 else i + 1
  }

  /** The index `n` places after `tail`. */
  function Round(tail: nat, n: nat, capacity: nat): (j: nat)
    requires tail < capacity && n <= capacity
    ensures j < capacity
  {
    if tail + n < capacity then tail + n else tail + n - capacity
  }

  /** Dropping the first byte of a window moves its tail. */
  lemma WindowTail(b: seq<Byte>, tail: nat, n: nat)
    requires tail < |b| && 0 < n <= |b|
    ensures Window(b, tail, n) == [b[tail]] + Window(b, Next(tail, |b|), n - 1)
    ensures Round(Next(tail, |b|), n - 1, |b|) == Round(tail, n, |b|)
  {
  }

  /** A byte stored just after a window extends it. */
  lemma WindowHead(b: seq<Byte>, tail: nat, n: nat, x: Byte)
    requires tail < |b| && n < |b|
    ensures Window(b[Round(tail, n, |b|) := x], tail, n + 1) == Window(b, tail, n) + [x]
    ensures Round(tail, n + 1, |b|) == Next(Round(tail, n, |b|), |b|)
  {
    var head := Round(tail, n, |b|);
    var c := b[head := x];
    forall i | 0 <= i < n + 1 ensures Window(c, tail, n + 1)[i] == (Window(b, tail, n) + [x])[i] {
    }
  }

  class RingBuffer {
    /** Where the next byte is written. */
    var head: nat
    /** Where the next byte is read. */
    var tail: nat
    var status: Status
    const buffer: array<Byte>

    function Len(): (n: nat)
      reads this
    {
      match status
      case Empty => 0
      case Full => buffer.Length
      case Normal(size) => size
    }

    ghost predicate Valid()
      reads this
    {
      && buffer.Length > 2 && tail < buffer.Length && Len() <= buffer.Length
      && head == Round(tail, Len(), buffer.Length)
      && (status.Normal? ==> 0 < status.size < buffer.Length)
    }

    /** The bytes written and not yet read, oldest first. */
    ghost function Contents(): (s: seq<Byte>)
      requires Valid()
      reads this, buffer
      ensures |s| == Len()
    {
      Window(buffer[..], tail, Len())
    }

    constructor (capacity: nat)
      requires capacity > 2
      ensures Valid() && Contents() == [] && buffer.Length == capacity && fresh(buffer)
    {
      head := 0;
      tail := 0;
      status := Empty;
      buffer := new Byte[capacity](_ => 0);
    }

    method ReadByte() returns (r: Option<Byte>)
      requires Valid()
      modifies this
      ensures Valid()
      ensures r.None? <==> old(Contents()) == []
      ensures old(Contents()) == if r.Some? then [r.value] + Contents() else Contents()
    {
      var size := Len();
      if size == 0 {
        return None;
      }
      WindowTail(buffer[..], tail, size);
      var byte := buffer[tail];
      tail := Next(tail, buffer.Length);
      if tail == head {
        status := Empty;
      } else {
        status := Normal(size - 1);
      }
      r := Some(byte);
    }

    method WriteByte(byte: Byte) returns (r: Result<()>)
      requires Valid()
      modifies this, buffer
      ensures Valid()
      ensures r == if |old(Contents())| == buffer.Length then Err(EOB) else Ok(())
      ensures Contents() == if r.Ok? then old(Contents()) + [byte] else old(Contents())
    {
      var size := Len();
      if size == buffer.Length {
        return Err(EOB);
      }
      WindowHead(buffer[..], tail, size, byte);
      buffer[head] := byte;
      assert buffer[..] == old(buffer[..])[old(head) := byte];
      head := Next(head, buffer.Length);
      if tail == head {
        status := Full;
      } else {
        status := Normal(size + 1);
      }
      r := Ok(());
    }
  }
}
