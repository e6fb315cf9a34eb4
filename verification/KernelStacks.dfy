/** Ids and the kernel stacks that belong to them. */
module KernelStacks {
  import opened Results
  import opened Pools
  import opened TableState
  import opened PageTables
  import opened Snapshots
  import opened RangeRuns
  import opened RangeAllocator
  import opened Areas
  import opened Layouts
  import opened AreaLife
  import opened PageBytes
  import opened Spaces
  import opened StackLayout

  /** `BTreeIdAllocator`. */
  class IdAllocator {
    var pool: Pool

    ghost predicate Valid()
      reads this
    {
      pool.Valid(0)
    }

    ghost function Live(): set<nat>
      reads this
    {
      pool.Live(0)
    }

    constructor (limit: nat)
      ensures Valid() && Live() == {} && pool.limit == limit
    {
      pool := Pool(0, limit, {});
    }

    method Alloc() returns (r: Result<nat>)
      requires Valid()
      modifies this
      ensures Valid() && pool.limit == old(pool.limit)
      ensures r.Ok? <==> old(Live()) != Interval(0, pool.limit)
      ensures r.Err? ==> r.error == IdExhausted && pool == old(pool) && pool.Exhausted()
      ensures r.Ok? ==> r.value < pool.limit && r.value !in old(Live()) && Live() == old(Live()) + {r.value}
      ensures r.Ok? ==> old(pool).Gives(r.value, pool)
    {
      ExhaustedIffNoneFree(pool);
      Partition(pool, 0);
      if pool.Exhausted() {
        return Err(IdExhausted);
      }
      var id := pool.current;
      ghost var before := pool;
      if pool.recycled != {} {
        LeastExists(pool.recycled);
        id :| IsLeast(id, pool.recycled);
        pool := pool.(recycled := pool.recycled - {id});
      } else {
        pool := pool.(current := pool.current + 1);
      }
      GivesMoves(before, 0, id, pool);
      assert id in Interval(0, pool.limit);
      r := Ok(id);
    }

    method Dealloc(id: nat) returns (ok: bool)
      requires Valid()
      modifies this
      ensures Valid() && pool.limit == old(pool.limit)
      ensures ok <==> id in old(Live())
      ensures Live() == old(Live()) - {id}
    {
      TakesMoves(pool, 0, id);
      ok := pool.Takes(id);
      if ok {
        pool := pool.(recycled := pool.recycled + {id});
      }
    }
  }

  function StackArea(kid: nat): (a: Area) {
    var (start, end) := KernelStackRange(kid);
    Area(start, end, RW_FLAGS, true)
  }

  /** What becomes of a new stack: its range is taken, it is mapped, or frames run out and the kernel stops. */
  ghost function StackOutcome(s: Shot, used: set<nat>, kid: nat): Outcome<nat> {
    var a := StackArea(kid);
    if !Fits(a, used) then Done(Err(AreaAllocFailed(a.start, a.end)))
    else if CanMapAll(s, a) then Done(Ok(kid)) else Panic
  }

  /** The kernel space, and the ids of the kernel stacks in it. Apart from stacks, all it holds lies below `floor`. */
  class StackRegistry {
    const ids: IdAllocator
    const space: Space
    ghost const floor: nat

    ghost predicate Valid()
      reads ids, space, space.pageTable, space.pageTable.phys, space.ranges, space.ranges.nodes
    {
      && ids.Valid() && space.Valid() && ids.pool.limit <= MAX_PID_COUNT * MAX_TID_COUNT
      && (forall kid :: kid in ids.Live() ==> Mapped(space.areaSet, kid))
      && (forall key :: key in space.areaSet ==> key.1 <= floor || IsStack(ids.Live(), key))
    }

    constructor (ids: IdAllocator, space: Space, ghost floor: nat)
      requires ids.Valid() && ids.Live() == {} && ids.pool.limit <= MAX_PID_COUNT * MAX_TID_COUNT && space.Valid()
      requires forall key :: key in space.areaSet ==> key.1 <= floor
      ensures Valid() && this.ids == ids && this.space == space && this.floor == floor
    {
      this.ids := ids;
      this.space := space;
      this.floor := floor;
    }

    /** `KernelStack::new`: an id, and its stack mapped; on an error the id goes back. */
    method New() returns (r: Outcome<nat>)
      requires Valid()
      modifies ids, space`areaSet, space.pageTable, space.pageTable.phys, space.ranges`nodes, space.ranges`marks,
        space.ranges.nodes
      ensures r.Done? ==> Valid() && ids.pool.limit == old(ids.pool.limit)
      ensures forall n :: n in space.ranges.nodes ==> n in old(space.ranges.nodes) || fresh(n)
      ensures old(ids.Live()) == Interval(0, old(ids.pool.limit)) <==> r == Done(Err(IdExhausted))
      ensures forall kid, q :: old(ids.pool).Gives(kid, q) ==>
        r == StackOutcome(old(ShotOf(space.pageTable)), old(space.ranges.Used()), kid)
      ensures r.Done? && r.result.Err? ==> ids.Live() == old(ids.Live()) && space.areaSet == old(space.areaSet)
      ensures r.Done? && r.result.Ok? ==>
        var kid := r.result.value;
        && kid !in old(ids.Live()) && KidFits(kid) && ids.Live() == old(ids.Live()) + {kid}
        && space.areaSet == old(space.areaSet)[KernelStackRange(kid) := StackArea(kid)]
        && Filled(old(ShotOf(space.pageTable)), ShotOf(space.pageTable), StackArea(kid), [])
    {
      hide Sound, Translation, CanMapAll, StopsAtTrampoline, Laid, Filled, Fits, Pool.Valid, Pool.Live, Chain, Shows,
        Ordered, Alternating, IsStack, Mapped, KernelStackRange, KidFits, Refused;
      hide UsedPages, PageTable.View;
      ghost var pool, s, used, areas, live :=
        ids.pool, ShotOf(space.pageTable), space.ranges.Used(), space.areaSet, ids.Live();
      NoneGiven(pool);
      var id := ids.Alloc();
      if id.Err? {
        return Done(Err(id.error));
      }
      var kid := id.value;
      GivenOnce(pool, kid, ids.pool);
      StackFits(kid, used);
      FramedStops(s, StackArea(kid));
      var a := space.AllocArea(StackArea(kid), None);
      if a.Panic? {
        return Panic;
      }
      if a.result.Err? {
        var ok := ids.Dealloc(kid);
        assert old(ids.Live()) + {kid} - {kid} == old(ids.Live());
        return Done(Err(a.result.error));
      }
      StackAdded(areas, live, kid, floor);
      assert ids.Live() == live + {kid};
      assert space.areaSet == areas[KernelStackRange(kid) := StackArea(kid)];
      r := Done(Ok(kid));
    }

    /** `KernelStack::drop`: the stack is unmapped, which cannot fail, and the id goes back. */
    method Drop(kid: nat)
      requires Valid() && kid in ids.Live()
      modifies ids, space`areaSet, space.pageTable, space.pageTable.phys, space.ranges`nodes, space.ranges`marks,
        space.ranges.nodes
      ensures Valid() && ids.pool.limit == old(ids.pool.limit) && ids.Live() == old(ids.Live()) - {kid}
      ensures forall n :: n in space.ranges.nodes ==> n in old(space.ranges.nodes) || fresh(n)
      ensures KidFits(kid) && space.areaSet == old(space.areaSet) - {KernelStackRange(kid)}
      ensures UnmappedUpTo(old(ShotOf(space.pageTable)), ShotOf(space.pageTable), StackArea(kid), StackArea(kid).end)
    {
      hide Sound, Translation, Laid, UnmappedUpTo, Pool.Valid, Pool.Live, Chain, Shows, Ordered, Alternating, UsedPages;
      hide IsStack;
      assert Mapped(space.areaSet, kid);
      var (start, end) := KernelStackRange(kid);
      ghost var areas, live := space.areaSet, ids.Live();
      var p := space.Pop(start, end);
      if p.Err? {
        assert false;
      }
      var ok := ids.Dealloc(kid);
      if !ok {
        assert false;
      }
      StackRemoved(areas, live, kid, floor);
    }

    /**
     The stacks of live ids are mapped, apart from each other; and the page under each stack above `floor` is not mapped
     at all.
     */
    lemma Guarded(k: nat, l: nat)
      requires Valid() && k in ids.Live() && l in ids.Live()
      ensures KidFits(k) && KidFits(l) && AllOk(ShotOf(space.pageTable), StackArea(k))
      ensures k < l ==> KernelStackRange(l).1 + GUARD_PAGES <= KernelStackRange(k).0
      ensures floor < KernelStackRange(k).0 ==> KernelStackRange(k).0 - 1 !in space.pageTable.View()
    {
      hide Sound, Translation, Laid, Pool.Valid, Pool.Live, Chain, Shows, Ordered, Alternating, UsedPages, IsStack;
      StacksGuarded(ShotOf(space.pageTable), space.areaSet, space.ranges.Used(), ids.Live(), k, l, floor);
    }
  }

  ghost predicate Mapped(areas: AreaSet, kid: nat) {
    KidFits(kid) && KernelStackRange(kid) in areas && areas[KernelStackRange(kid)] == StackArea(kid)
  }

  lemma OtherRange(k: nat, l: nat)
    requires KidFits(k) && KidFits(l) && k != l
    ensures KernelStackRange(k) != KernelStackRange(l)
  {
    KernelStackPlace(k);
    KernelStackPlace(l);
  }

  /** `key` is the range of a live kernel stack. */
  ghost predicate IsStack(live: set<nat>, key: Key) {
    exists kid :: kid in live && KidFits(kid) && key == KernelStackRange(kid)
  }

  lemma NoneGiven(p: Pool)
    ensures p.Exhausted() ==> forall n, q :: !p.Gives(n, q)
    ensures p.Free() == {} <==> p.Exhausted()
  {
    ExhaustedIffNoneFree(p);
  }

  /** Allocation has no choice of number. */
  lemma GivenOnce(p: Pool, n: nat, q: Pool)
    requires p.Gives(n, q)
    ensures forall m, r :: p.Gives(m, r) ==> m == n
  {
  }

  /** A stack whose range is free has room below the trampoline page. */
  lemma StackFits(kid: nat, used: set<nat>)
    requires kid < MAX_PID_COUNT * MAX_TID_COUNT
    ensures Fits(StackArea(kid), used) ==> KidFits(kid)
  {
    if !KidFits(kid) {
      KernelStackAstray(kid);
    }
  }

  /** Areas with frames of their own do not stop at the trampoline page, but where they find it taken. */
  lemma FramedStops(s: Shot, a: Area)
    requires a.framed
    ensures !StopsAtTrampoline(s, a)
  {
  }

  lemma StackAdded(areas: AreaSet, live: set<nat>, kid: nat, floor: nat)
    requires (forall k :: k in live ==> Mapped(areas, k)) && KidFits(kid) && kid !in live
    requires forall key :: key in areas ==> key.1 <= floor || IsStack(live, key)
    ensures var areas' := areas[KernelStackRange(kid) := StackArea(kid)];
      && (forall k :: k in live + {kid} ==> Mapped(areas', k))
      && (forall key :: key in areas' ==> key.1 <= floor || IsStack(live + {kid}, key))
  {
    var areas' := areas[KernelStackRange(kid) := StackArea(kid)];
    forall k | k in live + {kid} ensures Mapped(areas', k) {
      if k != kid {
        assert Mapped(areas, k);
        OtherRange(k, kid);
      }
    }
    forall key | key in areas' ensures key.1 <= floor || IsStack(live + {kid}, key) {
      if key == KernelStackRange(kid) {
        assert kid in live + {kid};
      } else if key.1 > floor {
        var k :| k in live && KidFits(k) && key == KernelStackRange(k);
        assert k in live + {kid};
      }
    }
  }

  lemma StackRemoved(areas: AreaSet, live: set<nat>, kid: nat, floor: nat)
    requires (forall k :: k in live ==> Mapped(areas, k)) && kid in live
    requires forall key :: key in areas ==> key.1 <= floor || IsStack(live, key)
    ensures var areas' := areas - {KernelStackRange(kid)};
      && (forall k :: k in live - {kid} ==> Mapped(areas', k))
      && (forall key :: key in areas' ==> key.1 <= floor || IsStack(live - {kid}, key))
  {
    var areas' := areas - {KernelStackRange(kid)};
    assert Mapped(areas, kid);
    forall k | k in live - {kid} ensures Mapped(areas', k) {
      assert Mapped(areas, k);
      OtherRange(k, kid);
    }
    forall key | key in areas' ensures key.1 <= floor || IsStack(live - {kid}, key) {
      if key.1 > floor {
        var k :| k in live && KidFits(k) && key == KernelStackRange(k);
        assert k in live - {kid};
      }
    }
  }

  /** Where the rest of the kernel lies below `floor`, the page under each stack above `floor` is not mapped. */
  lemma StacksGuarded(s: Shot, areas: AreaSet, used: set<nat>, live: set<nat>, k: nat, l: nat, floor: nat)
    requires Laid(s, areas, used) && (forall kid :: kid in live ==> Mapped(areas, kid)) && k in live && l in live
    requires forall key :: key in areas ==> key.1 <= floor || IsStack(live, key)
    ensures KidFits(k) && KidFits(l) && AllOk(s, StackArea(k))
    ensures k < l ==> KernelStackRange(l).1 + GUARD_PAGES <= KernelStackRange(k).0
    ensures floor < KernelStackRange(k).0 ==> KernelStackRange(k).0 - 1 !in s.view
  {
    assert Mapped(areas, k) && Mapped(areas, l);
    KernelStacksApart(k, l);
    LaidAreaOk(s, areas, used, StackArea(k));
    if floor < KernelStackRange(k).0 {
      var guard := KernelStackRange(k).0 - 1;
      forall key | key in areas ensures !InRange(key, guard) {
        if key.1 > floor {
          var kid :| kid in live && KidFits(kid) && key == KernelStackRange(kid);
          KernelStacksApart(k, kid);
        }
      }
      hide PageOk;
    }
  }
}
