/** Pipes: a ring buffer between any number of read and write calls in progress. */
module Pipes {
  import opened Bytes
  import opened Physical
  import opened ByteBuffers
  import opened RingBuffers

  /** Storing bytes one after the other at given places. */
  function StoreAll(mem: Memory, places: seq<Addr>, bytes: seq<Byte>): Memory
    requires |places| == |bytes| && forall i :: 0 <= i < |places| ==> places[i].1 < PAGE_SIZE
  {
    if places == [] then mem
    else
      var n := |places| - 1;
      WithByte(StoreAll(mem, places[..n], bytes[..n]), places[n], bytes[n])
  }

  /** How the memory is read at given places. */
  function LoadAll(mem: Memory, places: seq<Addr>): (bytes: seq<Byte>)
    requires forall i :: 0 <= i < |places| ==> places[i].1 < PAGE_SIZE
    ensures |bytes| == |places|
  {
    seq(|places|, i requires 0 <= i < |places| => ByteAt(mem, places[i]))
  }

  /** A byte stored nowhere in `places` stays what it was. */
  lemma {:induction false} StoredElsewhere(mem: Memory, places: seq<Addr>, bytes: seq<Byte>, x: Addr)
    requires |places| == |bytes| && (forall i :: 0 <= i < |places| ==> places[i].1 < PAGE_SIZE) && x.1 < PAGE_SIZE
    requires x !in places
    ensures ByteAt(StoreAll(mem, places, bytes), x) == ByteAt(mem, x)
    decreases |places|
  {
    hide ByteAt;
    if places != [] {
      StoredElsewhere(mem, places[..|places| - 1], bytes[..|places| - 1], x);
    }
  }

  /** Bytes stored at places all different are read back. */
  lemma {:induction false} StoredIsLoaded(mem: Memory, places: seq<Addr>, bytes: seq<Byte>)
    requires |places| == |bytes| && (forall i :: 0 <= i < |places| ==> places[i].1 < PAGE_SIZE)
    requires forall i, j :: 0 <= i < j < |places| ==> places[i] != places[j]
    ensures LoadAll(StoreAll(mem, places, bytes), places) == bytes
    decreases |places|
  {
    hide ByteAt;
    if places != [] {
      var n := |places| - 1;
      var mid := StoreAll(mem, places[..n], bytes[..n]);
      StoredIsLoaded(mem, places[..n], bytes[..n]);
      forall i | 0 <= i < |places| ensures LoadAll(StoreAll(mem, places, bytes), places)[i] == bytes[i] {
        if i < n {
          assert LoadAll(mid, places[..n])[i] == bytes[..n][i];
        }
      }
    }
  }

  lemma StoreMore(mem: Memory, places: seq<Addr>, k: nat, m: nat, bytes: seq<Byte>, b: Byte)
    requires k + m < |places| && |bytes| == m && forall i :: 0 <= i < |places| ==> places[i].1 < PAGE_SIZE
    ensures StoreAll(mem, places[k..k + m + 1], bytes + [b]) ==
      WithByte(StoreAll(mem, places[k..k + m], bytes), places[k + m], b)
  {
    assert places[k..k + m + 1][..m] == places[k..k + m] && (bytes + [b])[..m] == bytes;
  }

  lemma LoadMore(mem: Memory, places: seq<Addr>, k: nat, m: nat)
    requires k + m < |places| && forall i :: 0 <= i < |places| ==> places[i].1 < PAGE_SIZE
    ensures LoadAll(mem, places[k..k + m + 1]) == LoadAll(mem, places[k..k + m]) + [ByteAt(mem, places[k + m])]
  {
  }

  function Min(a: nat, b: nat): nat {
    if a < b then a else b
  }

  /** One `read` or `write` in progress: its buffers, and how many bytes have been moved. */
  class Transfer {
    const cursor: ByteIterator
    const size: nat
    var already: nat

    /** The slices of the buffers add up to the stated length. */
    ghost predicate Valid()
      reads this, cursor
    {
      && cursor.Valid() && already <= size == |Places(cursor.buffer)|
      && cursor.Pos() == already
    }

    constructor (cursor: ByteIterator, size: nat)
      requires cursor.Valid() && cursor.Pos() == 0 && size == |Places(cursor.buffer)|
      ensures Valid() && already == 0 && this.cursor == cursor && this.size == size
    {
      this.cursor := cursor;
      this.size := size;
      already := 0;
    }
  }

  /** What one pass through the loop of a call leads to. */
  datatype Turn = Return(count: nat) | Suspend

  /** How many bytes one pass moves, where `room` could be moved. */
  function Share(room: nat, size: nat, already: nat): nat {
    if already >= size then 0 else Min(room, size - already)
  }

  /** A read goes on until it has all its bytes, or finds the pipe empty with no write end left. */
  function ReadAnswer(len: nat, size: nat, already: nat, writersClosed: bool): Turn {
    if already >= size || (len == 0 && writersClosed) then Return(already) else Suspend
  }

  /** A write goes on until it has put all its bytes, or finds no read end left. */
  function WriteAnswer(size: nat, already: nat, readersOpen: bool): Turn {
    if !readersOpen || already >= size then Return(already) else Suspend
  }

  lemma {:induction false} PlacesInPages(slices: seq<Slice>)
    requires AllValid(slices)
    ensures forall i :: 0 <= i < |Places(slices)| ==> Places(slices)[i].1 < PAGE_SIZE
    decreases |slices|
  {
    if slices != [] {
      PlacesInPages(slices[..|slices| - 1]);
    }
  }

  class Pipe {
    const ring: RingBuffer
    /** All bytes ever written, and all ever read. */
    ghost var written: seq<Byte>
    ghost var taken: seq<Byte>

    ghost predicate Valid()
      reads this, ring, ring.buffer
    {
      ring.Valid() && written == taken + ring.Contents()
    }

    constructor (capacity: nat)
      requires capacity > 2
      ensures Valid() && written == [] && fresh(ring) && fresh(ring.buffer) && ring.buffer.Length == capacity
    {
      ring := new RingBuffer(capacity);
      written := [];
      taken := [];
    }

    /** Moves one byte from the ring to the caller's buffers. */
    method TakeOne(call: Transfer)
      requires ring.Valid() && call.Valid() && ring.Contents() != [] && call.already < call.size
      requires Places(call.cursor.buffer)[call.already].1 < PAGE_SIZE
      modifies this`taken, ring, call`already, call.cursor, call.cursor.phys`frames
      ensures ring.Valid() && call.Valid() && call.already == old(call.already) + 1
      ensures ring.Contents() == old(ring.Contents())[1..] && taken == old(taken) + [old(ring.Contents())[0]]
      ensures call.cursor.phys.frames ==
        WithByte(old(call.cursor.phys.frames), Places(call.cursor.buffer)[old(call.already)], old(ring.Contents())[0])
    {
      hide Places, Window, WithByte;
      var byte := ring.ReadByte();
      if byte.None? {
        assert false;
      }
      var w := call.cursor.NextMut(byte.value);
      if w.Err? {
        assert false;
      }
      call.already := call.already + 1;
      taken := taken + [byte.value];
    }

    /** Moves `n` bytes from the ring to the caller's buffers. */
    method Take(call: Transfer, n: nat)
      requires Valid() && call.Valid() && n <= |ring.Contents()| && n <= call.size - call.already
      modifies this`taken, ring, call`already, call.cursor, call.cursor.phys`frames
      ensures Valid() && call.Valid() && call.already == old(call.already) + n
      ensures taken == old(taken) + old(ring.Contents())[..n] && ring.Contents() == old(ring.Contents())[n..]
      ensures var places := Places(call.cursor.buffer);
        && (forall i :: 0 <= i < |places| ==> places[i].1 < PAGE_SIZE)
        && call.cursor.phys.frames ==
             StoreAll(old(call.cursor.phys.frames), places[old(call.already)..old(call.already) + n],
                      old(ring.Contents())[..n])
    {
      hide Places, WithByte, StoreAll, RingBuffer.Contents, RingBuffer.Valid, ByteIterator.Pos;
      ghost var places, had, a := Places(call.cursor.buffer), ring.Contents(), call.already;
      PlacesInPages(call.cursor.buffer);
      StoreNone(call.cursor.phys.frames, places[a..a + 0], had[..0]);
      assert had[0..] == had;
      var k := 0;
      while k < n
        invariant 0 <= k <= n && ring.Valid() && call.Valid() && call.already == a + k
        invariant ring.Contents() == had[k..] && taken == old(taken) + had[..k]
        invariant call.cursor.phys.frames == StoreAll(old(call.cursor.phys.frames), places[a..a + k], had[..k])
      {
        OneMore(had, k);
        StoreMore(old(call.cursor.phys.frames), places, a, k, had[..k], had[k]);
        TakeOne(call);
        k := k + 1;
      }
      assert had[..n] + had[n..] == had;
    }

    /** Moves one byte from the caller's buffers to the ring. */
    method PutOne(call: Transfer) returns (ghost byte: Byte)
      requires ring.Valid() && call.Valid() && |ring.Contents()| < ring.buffer.Length && call.already < call.size
      requires Places(call.cursor.buffer)[call.already].1 < PAGE_SIZE
      modifies this`written, ring, ring.buffer, call`already, call.cursor
      ensures ring.Valid() && call.Valid() && call.already == old(call.already) + 1
      ensures byte == ByteAt(call.cursor.phys.frames, Places(call.cursor.buffer)[old(call.already)])
      ensures ring.Contents() == old(ring.Contents()) + [byte] && written == old(written) + [byte]
    {
      hide Places, Window, ByteAt;
      var next := call.cursor.Next();
      if next.None? {
        assert false;
      }
      byte := next.value;
      var w := ring.WriteByte(next.value);
      if w.Err? {
        assert false;
      }
      call.already := call.already + 1;
      written := written + [next.value];
    }

    /** Moves `n` bytes from the caller's buffers to the ring. */
    method Put(call: Transfer, n: nat)
      requires Valid() && call.Valid() && n <= ring.buffer.Length - |ring.Contents()| && n <= call.size - call.already
      modifies this`written, ring, ring.buffer, call`already, call.cursor
      ensures Valid() && call.Valid() && call.already == old(call.already) + n
      ensures var places := Places(call.cursor.buffer);
        && (forall i :: 0 <= i < |places| ==> places[i].1 < PAGE_SIZE)
        && var bytes := LoadAll(call.cursor.phys.frames, places[old(call.already)..old(call.already) + n]);
           written == old(written) + bytes && ring.Contents() == old(ring.Contents()) + bytes
    {
      hide Places, LoadAll, ByteAt, RingBuffer.Contents, RingBuffer.Valid, ByteIterator.Pos;
      ghost var places, had, a := Places(call.cursor.buffer), ring.Contents(), call.already;
      PlacesInPages(call.cursor.buffer);
      ghost var bytes := [];
      LoadNone(call.cursor.phys.frames, places[a..a + 0]);
      var k := 0;
      while k < n
        invariant 0 <= k <= n && ring.Valid() && call.Valid() && call.already == a + k
        invariant bytes == LoadAll(call.cursor.phys.frames, places[a..a + k]) && |bytes| == k
        invariant ring.Contents() == had + bytes && written == old(written) + bytes
      {
        LoadMore(call.cursor.phys.frames, places, a, k);
        ghost var byte := PutOne(call);
        bytes := bytes + [byte];
        k := k + 1;
      }
    }

    /** One pass through the loop of `Pipe::read`. */
    method ReadTurn(call: Transfer, writersClosed: bool) returns (t: Turn, ghost bytes: seq<Byte>)
      requires Valid() && call.Valid()
      modifies this`taken, ring, call`already, call.cursor, call.cursor.phys`frames
      ensures Valid() && call.Valid()
      ensures old(ring.Contents()) == bytes + ring.Contents() && taken == old(taken) + bytes
      ensures call.already == old(call.already) + |bytes|
      ensures var places := Places(call.cursor.buffer);
        && (forall i :: 0 <= i < |places| ==> places[i].1 < PAGE_SIZE)
        && call.cursor.phys.frames ==
          StoreAll(old(call.cursor.phys.frames), places[old(call.already)..call.already], bytes)
      ensures |bytes| == Share(|old(ring.Contents())|, call.size, old(call.already))
      ensures t == ReadAnswer(|old(ring.Contents())|, call.size, old(call.already), writersClosed)
      ensures t.Return? <==> old(call.already) == call.size || (old(ring.Contents()) == [] && writersClosed)
      ensures t.Return? ==> t.count == call.already
      ensures t.Suspend? ==> ring.Contents() == [] || call.already == call.size
    {
      hide Places, Window, WithByte, StoreAll;
      bytes := [];
      PlacesInPages(call.cursor.buffer);
      StoreNone(call.cursor.phys.frames, Places(call.cursor.buffer)[call.already..call.already], []);
      if call.already >= call.size {
        return Return(call.already), bytes;
      }
      var n := Min(ring.Len(), call.size - call.already);
      if n == 0 {
        return if writersClosed then Return(call.already) else Suspend, bytes;
      }
      bytes := ring.Contents()[..n];
      Take(call, n);
      t := Suspend;
    }

    /** One pass through the loop of `Pipe::write`; while it runs, the writer itself keeps the ring alive. */
    method WriteTurn(call: Transfer, readersOpen: bool) returns (t: Turn, ghost bytes: seq<Byte>)
      requires Valid() && call.Valid()
      modifies this`written, ring, ring.buffer, call`already, call.cursor
      ensures Valid() && call.Valid()
      ensures ring.Contents() == old(ring.Contents()) + bytes && written == old(written) + bytes
      ensures call.already == old(call.already) + |bytes|
      ensures var places := Places(call.cursor.buffer);
        && (forall i :: 0 <= i < |places| ==> places[i].1 < PAGE_SIZE)
        && bytes == LoadAll(call.cursor.phys.frames, places[old(call.already)..call.already])
      ensures |bytes| == if readersOpen then Share(ring.buffer.Length - |old(ring.Contents())|, call.size,
        old(call.already)) else 0
      ensures t == WriteAnswer(call.size, old(call.already), readersOpen)
      ensures t.Return? <==> old(call.already) == call.size || !readersOpen
      ensures t.Return? ==> t.count == call.already
      ensures t.Suspend? ==> |ring.Contents()| == ring.buffer.Length || call.already == call.size
    {
      hide Places, Window, LoadAll;
      bytes := [];
      PlacesInPages(call.cursor.buffer);
      LoadNone(call.cursor.phys.frames, Places(call.cursor.buffer)[call.already..call.already]);
      if !readersOpen || call.already >= call.size {
        return Return(call.already), bytes;
      }
      var n := Min(ring.buffer.Length - ring.Len(), call.size - call.already);
      if n == 0 {
        return Suspend, bytes;
      }
      ghost var a := call.already;
      Put(call, n);
      bytes := LoadAll(call.cursor.phys.frames, Places(call.cursor.buffer)[a..a + n]);
      LoadSize(call.cursor.phys.frames, Places(call.cursor.buffer)[a..a + n]);
      t := Suspend;
    }
  }

  lemma LoadSize(mem: Memory, places: seq<Addr>)
    requires forall i :: 0 <= i < |places| ==> places[i].1 < PAGE_SIZE
    ensures |LoadAll(mem, places)| == |places|
  {
  }

  lemma OneMore<T>(s: seq<T>, k: nat)
    requires k < |s|
    ensures s[k..][0] == s[k] && s[k..][1..] == s[k + 1..] && s[..k + 1] == s[..k] + [s[k]] && s[k..] != []
  {
  }

  lemma StoreNone(mem: Memory, places: seq<Addr>, bytes: seq<Byte>)
    requires places == [] && bytes == []
    ensures StoreAll(mem, places, bytes) == mem
  {
  }

  lemma LoadNone(mem: Memory, places: seq<Addr>)
    requires places == []
    ensures LoadAll(mem, places) == []
  {
  }
}
