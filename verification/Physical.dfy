/** Physical memory: the bytes of every frame, and the global frame allocator. */
module Physical {
  import opened Bytes
  import opened Results
  import opened Pools

  type Memory = map<nat, Frame>

  const PPN_LIMIT: nat := 0x1000_0000_0000

  /** The bytes of frame `p`; a frame never written holds zeroes. */
  function FrameAt(mem: Memory, p: nat): Frame {
    if p in mem then mem[p] else ZeroFrame()
  }

  /** `FRAME_ALLOCATOR` together with the memory its frames denote. */
  class PhysicalMemory {
    var pool: Pool
    var frames: Memory
    ghost const start: nat

    ghost predicate Valid()
      reads this
    {
      pool.Valid(start) && pool.limit <= PPN_LIMIT
    }

    ghost function Free(): set<nat>
      reads this
    {
      pool.Free()
    }

    ghost function Live(): set<nat>
      reads this
    {
      pool.Live(start)
    }

    constructor (start: nat, end: nat)
      requires start < end <= PPN_LIMIT
      ensures Valid() && this.start == start && pool.limit == end && frames == map[]
      ensures Live() == {} && Free() == Interval(start, end)
    {
      pool := Pool(start, end, {});
      frames := map[];
      this.start := start;
    }

    lemma LiveStarts(p: nat)
      requires Valid() && p in Live()
      ensures start <= p
    {
    }

    /** Hands out a frame and clears it, as a `FrameTracker` does when it is created. */
    method AllocFrame() returns (r: Result<nat>)
      requires Valid()
      modifies this
      ensures Valid() && pool.limit == old(pool.limit)
      ensures r.Err? <==> old(Free()) == {}
      ensures r.Err? ==> r.error == FrameExhausted && frames == old(frames) && pool == old(pool)
      ensures r.Ok? ==>
        && r.value in old(Free()) && r.value !in old(Live()) && r.value < PPN_LIMIT
        && Free() == old(Free()) - {r.value} && Live() == old(Live()) + {r.value}
        && frames == old(frames)[r.value := ZeroFrame()]
      ensures r.Ok? ==> old(pool).Gives(r.value, pool)
    {
      ExhaustedIffNoneFree(pool);
      if pool.Exhausted() {
        return Err(FrameExhausted);
      }
      var ppn := pool.current;
      ghost var before := pool;
      if pool.recycled != {} {
        LeastExists(pool.recycled);
        ppn :| IsLeast(ppn, pool.recycled);
        pool := pool.(recycled := pool.recycled - {ppn});
      } else {
        pool := pool.(current := pool.current + 1);
      }
      GivesMoves(before, start, ppn, pool);
      frames := frames[ppn := ZeroFrame()];
      r := Ok(ppn);
    }

    /**
     Gives a frame back, as dropping its `FrameTracker` does. Frames below the first managed one, which were never
     handed out, are accepted too, and only these spoil the books.
     */
    method DeallocFrame(ppn: nat) returns (r: Result<()>)
      requires Valid()
      modifies this`pool
      ensures pool.limit == old(pool.limit) && (Valid() <==> start <= ppn)
      ensures r.Ok? <==> ppn in old(Live()) || ppn < start
      ensures r.Err? ==> r.error == FrameNotDeallocable(ppn) && pool == old(pool)
      ensures r.Ok? ==> Free() == old(Free()) + {ppn} && Live() == old(Live()) - {ppn} && ppn !in old(Free())
    {
      TakesMoves(pool, start, ppn);
      if !pool.Takes(ppn) {
        return Err(FrameNotDeallocable(ppn));
      }
      pool := pool.(recycled := pool.recycled + {ppn});
      r := Ok(());
    }
  }
}
