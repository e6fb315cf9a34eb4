/** User buffers seen from the kernel: slices of frames, iterated byte by byte. */
module ByteBuffers {
  import opened Bytes
  import opened Results
  import opened Physical
  import opened Sv39
  import opened PageTables

  /** The place of one byte: a frame and an offset in it. */
  type Addr = (nat, nat)

  /** Bytes `lo` up to `hi` of frame `ppn`. */
  datatype Slice = Slice(ppn: nat, lo: nat, hi: nat) {
    predicate Valid() {
      lo <= hi <= PAGE_SIZE
    }

    function Width(): nat
      requires Valid()
    {
      hi - lo
    }

    function Addrs(): (a: seq<Addr>)
      requires Valid()
      ensures |a| == Width() && forall i :: 0 <= i < |a| ==> a[i] == (ppn, lo + i)
    {
      seq(hi - lo, i requires 0 <= i < hi - lo => (ppn, lo + i))
    }
  }

  predicate AllValid(slices: seq<Slice>) {
    forall i :: 0 <= i < |slices| ==> slices[i].Valid()
  }

  /** The places of all bytes, slice after slice. */
  function Places(slices: seq<Slice>): seq<Addr>
    requires AllValid(slices)
  {
    if slices == [] then [] else Places(slices[..|slices| - 1]) + slices[|slices| - 1].Addrs()
  }

  lemma PlacesMore(slices: seq<Slice>, s: Slice)
    requires AllValid(slices) && s.Valid()
    ensures AllValid(slices + [s]) && Places(slices + [s]) == Places(slices) + s.Addrs()
  {
    assert (slices + [s])[..|slices|] == slices;
  }

  lemma PlacesLast(slices: seq<Slice>)
    requires AllValid(slices) && slices != []
    ensures var n := |slices| - 1; Places(slices) == Places(slices[..n]) + slices[n].Addrs()
  {
  }

  /** The places of slice `i` follow those of the slices before it. */
  lemma {:induction false} PlacesFrom(slices: seq<Slice>, i: nat)
    requires AllValid(slices) && i < |slices|
    ensures Places(slices[..i + 1]) == Places(slices[..i]) + slices[i].Addrs() <= Places(slices)
    decreases |slices|
  {
    hide Places;
    var n := |slices| - 1;
    PlacesLast(slices[..i + 1]);
    assert slices[..i + 1][..i] == slices[..i];
    if i < n {
      PlacesFrom(slices[..n], i);
      assert slices[..n][..i + 1] == slices[..i + 1] && slices[..n][..i] == slices[..i];
      PlacesLast(slices);
    } else {
      assert slices[..i + 1] == slices;
    }
  }

  lemma PrefixAt<T>(a: seq<T>, b: seq<T>, c: seq<T>, k: nat)
    requires a + b <= c
    ensures |a| + |b| <= |c| && (k < |b| ==> c[|a| + k] == b[k])
  {
    assert k < |b| ==> (a + b)[|a| + k] == b[k];
  }

  function ByteAt(mem: Memory, a: Addr): Byte
    requires a.1 < PAGE_SIZE
  {
    FrameAt(mem, a.0)[a.1]
  }

  function WithByte(mem: Memory, a: Addr, b: Byte): (m: Memory)
    requires a.1 < PAGE_SIZE
    ensures forall x: Addr :: x.1 < PAGE_SIZE ==> ByteAt(m, x) == if x == a then b else ByteAt(mem, x)
  {
    mem[a.0 := FrameAt(mem, a.0)[a.1 := b]]
  }

  /** `ByteBuffersU8Iterator`. */
  class ByteIterator {
    const phys: PhysicalMemory
    const buffer: seq<Slice>
    var index: nat
    var offset: nat

    ghost predicate Valid()
      reads this
    {
      && AllValid(buffer) && index <= |buffer|
      && (if index < |buffer| then offset <= buffer[index].Width() else offset == 0)
    }

    /** How many bytes have been visited. */
    ghost function Pos(): (p: nat)
      requires Valid()
      reads this
    {
      |Places(buffer[..index])| + offset
    }

    constructor (phys: PhysicalMemory, buffer: seq<Slice>)
      requires AllValid(buffer)
      ensures Valid() && Pos() == 0 && this.phys == phys && this.buffer == buffer
    {
      this.phys := phys;
      this.buffer := buffer;
      index := 0;
      offset := 0;
    }

    /** Where the next byte is, or that there is none. */
    lemma Here()
      requires Valid()
      ensures Pos() <= |Places(buffer)|
      ensures index == |buffer| ==> Pos() == |Places(buffer)|
      ensures index < |buffer| && offset < buffer[index].Width() ==>
        Pos() < |Places(buffer)| && Places(buffer)[Pos()] == (buffer[index].ppn, buffer[index].lo + offset)
      ensures index < |buffer| && offset == buffer[index].Width() ==> Pos() == |Places(buffer[..index + 1])|
    {
      hide Places;
      assert buffer[..|buffer|] == buffer;
      if index < |buffer| {
        PlacesFrom(buffer, index);
        PrefixAt(Places(buffer[..index]), buffer[index].Addrs(), Places(buffer), offset);
      }
    }

    /** `next`. */
    method Next() returns (r: Option<Byte>)
      requires Valid()
      modifies this
      ensures Valid() && Pos() == old(Pos()) + (if r.Some? then 1 else 0)
      ensures r.Some? <==> old(Pos()) < |Places(buffer)|
      ensures r.Some? ==>
        Places(buffer)[old(Pos())].1 < PAGE_SIZE && r.value == ByteAt(phys.frames, Places(buffer)[old(Pos())])
      decreases |buffer| - index
    {
      Here();
      hide Places, WithByte, ByteAt;
      if index < |buffer| {
        if offset < buffer[index].Width() {
          r := Some(ByteAt(phys.frames, (buffer[index].ppn, buffer[index].lo + offset)));
          offset := offset + 1;
        } else {
          index := index + 1;
          offset := 0;
          r := Next();
        }
      } else {
        r := None;
      }
    }

    /** `next_mut`. */
    method NextMut(byte: Byte) returns (r: Result<()>)
      requires Valid()
      modifies this, phys`frames
      ensures Valid() && Pos() == old(Pos()) + (if r.Ok? then 1 else 0)
      ensures r == if old(Pos()) < |Places(buffer)| then Ok(()) else Err(EOB)
      ensures r.Err? ==> phys.frames == old(phys.frames)
      ensures r.Ok? ==> Places(buffer)[old(Pos())].1 < PAGE_SIZE
      ensures r.Ok? ==> phys.frames == WithByte(old(phys.frames), Places(buffer)[old(Pos())], byte)
      decreases |buffer| - index
    {
      Here();
      hide Places, WithByte, ByteAt;
      if index < |buffer| {
        if offset < buffer[index].Width() {
          var ppn, at := buffer[index].ppn, buffer[index].lo + offset;
          phys.frames := WithByte(phys.frames, (ppn, at), byte);
          offset := offset + 1;
          r := Ok(());
        } else {
          index := index + 1;
          offset := 0;
          r := NextMut(byte);
        }
      } else {
        r := Err(EOB);
      }
    }
  }

  // ---------- translation of a user buffer ----------

  /** The place of the byte at virtual address `va`. */
  function PlaceOf(trackers: map<nat, nat>, va: nat): Addr
    requires GetVpn(va) in trackers
  {
    (trackers[GetVpn(va)], Offset(va))
  }

  predicate TranslatesAt(trackers: map<nat, nat>, places: seq<Addr>, from: nat, va: nat) {
    from <= va < from + |places| && GetVpn(va) in trackers && places[va - from] == PlaceOf(trackers, va)
  }

  /** The slices cover the bytes from `from` up to `to`, one after the other, each where it is translated to. */
  ghost predicate Translates(trackers: map<nat, nat>, slices: seq<Slice>, from: nat, to: nat) {
    && from <= to && AllValid(slices) && |Places(slices)| == to - from
    && forall va :: from <= va < to ==> TranslatesAt(trackers, Places(slices), from, va)
  }

  /** One more slice, from `at` to the end of its page or of the buffer. */
  lemma TranslatesMore(trackers: map<nat, nat>, slices: seq<Slice>, from: nat, at: nat, to: nat, s: Slice)
    requires Translates(trackers, slices, from, at) && at < to && Offset(at) + (to - at) <= PAGE_SIZE
    requires GetVpn(at) in trackers
    requires s == Slice(trackers[GetVpn(at)], Offset(at), Offset(at) + (to - at))
    ensures Translates(trackers, slices + [s], from, to)
  {
    PlacesMore(slices, s);
    hide Places;
    forall va | from <= va < to ensures TranslatesAt(trackers, Places(slices + [s]), from, va) {
      if at <= va {
        SamePageFrom(at, va);
        assert (Places(slices) + s.Addrs())[va - from] == s.Addrs()[va - at];
      } else {
        assert TranslatesAt(trackers, Places(slices), from, va);
      }
    }
  }

  lemma SamePageFrom(at: nat, va: nat)
    requires at <= va && Offset(at) + (va - at) < PAGE_SIZE
    ensures GetVpn(va) == GetVpn(at) && Offset(va) == Offset(at) + (va - at)
  {
    assert va == (at / PAGE_SIZE) * PAGE_SIZE + (Offset(at) + (va - at));
  }

  predicate Tracks(trackers: map<nat, nat>, va: nat) {
    GetVpn(va) in trackers
  }

  ghost predicate FirstUntracked(trackers: map<nat, nat>, from: nat, to: nat, va: nat) {
    from <= va < to && !Tracks(trackers, va) && forall u :: from <= u < va ==> Tracks(trackers, u)
  }

  /** Address arithmetic of 64 bits. */
  function Wrapped(n: nat): nat {
    n % ADDRESS_LIMIT
  }

  /** The buffer ends in the last page of the address space, without going round. */
  predicate EndsLast(ptr: nat, len: nat) {
    len > 0 && ADDRESS_LIMIT - PAGE_SIZE < ptr + len < ADDRESS_LIMIT
  }

  /**
   The first byte that is not tracked on the way from `ptr` to the end of the address space, and from zero on after
   that.
   */
  ghost predicate FirstOnTheWay(trackers: map<nat, nat>, ptr: nat, va: nat) {
    || FirstUntracked(trackers, ptr, ADDRESS_LIMIT, va)
    || (FirstUntracked(trackers, 0, ADDRESS_LIMIT, va) && forall u :: ptr <= u < ADDRESS_LIMIT ==> Tracks(trackers, u))
  }

  /**
   `translated_byte_buffers`: one slice for each page the buffer touches. The end of the last page is address zero
   again: a buffer that ends there is never translated, but searched from zero on for a page that is not tracked; with
   none the search would not end. A buffer that goes round the end of the address space is taken to be empty.
   */
  method TranslatedByteBuffers(pt: PageTable, ptr: nat, len: nat) returns (r: Result<seq<Slice>>)
    requires ptr < ADDRESS_LIMIT && len < ADDRESS_LIMIT
    requires EndsLast(ptr, len) ==> exists v: nat :: v < VPN_LIMIT && v !in pt.trackers
    ensures ptr + len >= ADDRESS_LIMIT ==> r == Ok([])
    ensures ptr + len < ADDRESS_LIMIT && !EndsLast(ptr, len) && r.Ok? ==>
      Translates(pt.trackers, r.value, ptr, ptr + len)
    ensures ptr + len < ADDRESS_LIMIT && !EndsLast(ptr, len) && r.Err? ==>
      exists va :: FirstUntracked(pt.trackers, ptr, ptr + len, va) && r.error == VPNNotMapped(GetVpn(va))
    ensures EndsLast(ptr, len) ==>
      r.Err? && exists va :: FirstOnTheWay(pt.trackers, ptr, va) && r.error == VPNNotMapped(GetVpn(va))
  {
    hide Places;
    var startVa, endVa := ptr, Wrapped(ptr + len);
    var buffers := [];
    ghost var again := false;
    NoPlaces();
    while startVa < endVa
      invariant 0 <= startVa < ADDRESS_LIMIT && (again ==> EndsLast(ptr, len))
      invariant ptr + len < ADDRESS_LIMIT && !EndsLast(ptr, len) ==>
        ptr <= startVa <= endVa && Translates(pt.trackers, buffers, ptr, startVa)
      invariant ptr + len >= ADDRESS_LIMIT ==> startVa == ptr && buffers == []
      invariant !again ==> ptr <= startVa && forall u :: ptr <= u < startVa ==> Tracks(pt.trackers, u)
      invariant again ==>
        && (forall u :: ptr <= u < ADDRESS_LIMIT ==> Tracks(pt.trackers, u))
        && (forall u :: 0 <= u < startVa ==> Tracks(pt.trackers, u))
      invariant EndsLast(ptr, len) && !again ==> startVa < endVa
      invariant again ==> startVa <= ADDRESS_LIMIT / 2
      decreases if again then 0 else 1, ADDRESS_LIMIT - startVa
    {
      var startOffset := Offset(startVa);
      var pageEnd := Wrapped(startVa + (PAGE_SIZE - startOffset));
      var sliceEnd := if endVa <= pageEnd then endVa else pageEnd;
      var endOffset := if Offset(sliceEnd) == 0 then PAGE_SIZE else Offset(sliceEnd);
      var tracker := pt.GetTracker(GetVpn(startVa));
      if tracker.Err? {
        assert FirstUntracked(pt.trackers, if again then 0 else ptr, ADDRESS_LIMIT, startVa);
        assert !EndsLast(ptr, len) ==> FirstUntracked(pt.trackers, ptr, endVa, startVa);
        return Err(tracker.error);
      }
      PageTracked(pt.trackers, startVa);
      if again {
        UntrackedAhead(pt.trackers, startVa);
      }
      if startVa + (PAGE_SIZE - startOffset) == ADDRESS_LIMIT {
        again := true;
      } else if !EndsLast(ptr, len) {
        EndOffset(startVa, sliceEnd);
        TranslatesMore(pt.trackers, buffers, ptr, startVa, sliceEnd, Slice(tracker.value, startOffset, endOffset));
      }
      buffers := buffers + [Slice(tracker.value, startOffset, endOffset)];
      startVa := sliceEnd;
    }
    r := Ok(buffers);
  }

  /** A tracked byte's whole page is tracked. */
  lemma PageTracked(trackers: map<nat, nat>, va: nat)
    requires Tracks(trackers, va)
    ensures forall u :: va <= u < va + (PAGE_SIZE - Offset(va)) ==> Tracks(trackers, u)
  {
    forall u | va <= u < va + (PAGE_SIZE - Offset(va)) ensures Tracks(trackers, u) {
      SamePageFrom(va, u);
    }
  }

  /**
   With all bytes before `va` tracked, and the page of `va`, a page that is not tracked lies ahead of it, below 2^39.
   */
  lemma UntrackedAhead(trackers: map<nat, nat>, va: nat)
    requires (forall u :: 0 <= u < va ==> Tracks(trackers, u)) && Tracks(trackers, va)
    requires exists v: nat :: v < VPN_LIMIT && v !in trackers
    ensures va + (PAGE_SIZE - Offset(va)) <= VPN_LIMIT * PAGE_SIZE
  {
    var v: nat :| v < VPN_LIMIT && v !in trackers;
    var u := v * PAGE_SIZE;
    assert GetVpn(u) == v;
    assert !Tracks(trackers, u);
    PageTracked(trackers, va);
  }

  lemma NoPlaces()
    ensures AllValid([]) && Places([]) == []
  {
  }

  lemma EndOffset(start: nat, end: nat)
    requires start < end <= start + (PAGE_SIZE - Offset(start))
    ensures (if Offset(end) == 0 then PAGE_SIZE else Offset(end)) == Offset(start) + (end - start)
  {
    assert end == (start / PAGE_SIZE) * PAGE_SIZE + (Offset(start) + (end - start));
  }
}
