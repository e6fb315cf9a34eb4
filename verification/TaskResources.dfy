/** The user stacks and trap contexts of the tasks of one process. */
module TaskResources {
  import opened Bytes
  import opened Results
  import opened Pools
  import opened Sv39
  import opened TableState
  import opened PageTables
  import opened Snapshots
  import opened RangeRuns
  import opened RangeAllocator
  import opened Areas
  import opened Layouts
  import opened AreaLife
  import opened PageBytes
  import opened Spaces
  import opened StackLayout
  import opened KernelStacks
  import opened ForkSteps
  import opened ForkProcess

  /** The task has its stack and its trap context. */
  ghost predicate HasBoth(areas: AreaSet, base: nat, tid: nat)
    requires tid < TRAMPOLINE_VPN
  {
    var stack, trap := UserStackArea(base, tid), TrapCtxArea(tid);
    KeyOf(stack) in areas && areas[KeyOf(stack)] == stack && KeyOf(trap) in areas && areas[KeyOf(trap)] == trap
  }

  /** No area has the range of the task's stack or of its trap context. */
  ghost predicate HasNone(areas: AreaSet, base: nat, tid: nat)
    requires tid < TRAMPOLINE_VPN
  {
    KeyOf(UserStackArea(base, tid)) !in areas && KeyOf(TrapCtxArea(tid)) !in areas
  }

  /** The ranges of the two tasks are four different ones. */
  ghost predicate Unlike(base: nat, k: nat, l: nat)
    requires k < TRAMPOLINE_VPN && l < TRAMPOLINE_VPN
  {
    && KeyOf(UserStackArea(base, k)) != KeyOf(UserStackArea(base, l)) && KeyOf(TrapCtxArea(k)) != KeyOf(TrapCtxArea(l))
    && KeyOf(UserStackArea(base, k)) != KeyOf(TrapCtxArea(l)) && KeyOf(TrapCtxArea(k)) != KeyOf(UserStackArea(base, l))
  }

  /** The areas with those of the task besides. */
  function WithBoth(areas: AreaSet, base: nat, tid: nat): AreaSet
    requires tid < TRAMPOLINE_VPN
  {
    areas[KeyOf(UserStackArea(base, tid)) := UserStackArea(base, tid)][KeyOf(TrapCtxArea(tid)) := TrapCtxArea(tid)]
  }

  /** The task's areas find their ranges free and unmapped, and frames for both, one after the other. */
  ghost predicate TaskMaps(s: Shot, used: set<nat>, base: nat, tid: nat)
    requires tid < TRAMPOLINE_VPN
  {
    var stack, trap := UserStackArea(base, tid), TrapCtxArea(tid);
    && Fits(stack, used) && CanMapAll(s, stack) && Fits(trap, used + PagesOf(stack))
    && (forall v :: trap.start <= v < trap.end ==> v !in s.view)
    && |s.claim.free| >=
      Cost(stack, s.nodes, stack.end) + Cost(trap, s.nodes + RangeNodes(stack.start, stack.end), trap.end)
  }

  /** With the stack mapped, the trap context can be mapped exactly if there was room for both. */
  lemma TrapMapsIff(s: Shot, t: Shot, used: set<nat>, base: nat, tid: nat)
    requires tid < TRAMPOLINE_VPN && Filled(s, t, UserStackArea(base, tid), [])
    requires Fits(UserStackArea(base, tid), used) && CanMapAll(s, UserStackArea(base, tid))
    ensures TaskMaps(s, used, base, tid) <==>
      Fits(TrapCtxArea(tid), used + PagesOf(UserStackArea(base, tid))) && CanMapAll(t, TrapCtxArea(tid))
  {
    hide Cost, RangeNodes, AllOk, SameOutside, Settled, UserStackRange, TrapCtxRange;
    var stack, trap := UserStackArea(base, tid), TrapCtxArea(tid);
    if Fits(trap, used + PagesOf(stack)) {
      forall v | trap.start <= v < trap.end ensures v in s.view <==> v in t.view {
        assert v in PagesOf(trap) && v !in PagesOf(stack) && SamePage(s, t, v);
      }
    }
  }

  /** Ranges free, off the trampoline page, and three frames for each page are enough. */
  lemma RoomForTask(s: Shot, areas: AreaSet, used: set<nat>, base: nat, tid: nat)
    requires tid < TRAMPOLINE_VPN && Laid(s, areas, used)
    requires RoomForBoth(s, used, UserStackArea(base, tid), TrapCtxArea(tid))
    ensures TaskMaps(s, used, base, tid)
  {
    var stack, trap := UserStackArea(base, tid), TrapCtxArea(tid);
    RoomMaps(s, areas, used, stack);
    CostBound(stack, s.nodes);
    CostBound(trap, s.nodes + RangeNodes(stack.start, stack.end));
    hide Cost, RangeNodes, UserStackRange, TrapCtxRange, PageOk;
    forall v | trap.start <= v < trap.end ensures v !in s.view {
      assert v in PagesOf(trap);
    }
  }

  /** Exactly the live tasks have their areas. */
  ghost predicate Assigned(areas: AreaSet, base: nat, limit: nat, live: set<nat>)
    requires limit <= MAX_TID_COUNT
  {
    && (forall tid :: tid in live ==> tid < limit && HasBoth(areas, base, tid))
    && (forall tid :: 0 <= tid < limit && tid !in live ==> HasNone(areas, base, tid))
  }

  /** The tasks of a process whose program ends at `base`. */
  class TaskUserResources {
    const ids: IdAllocator
    const space: Space
    const base: nat

    ghost predicate Valid()
      reads ids, space, space.pageTable, space.pageTable.phys, space.ranges, space.ranges.nodes
    {
      && ids.Valid() && space.Valid() && ids.pool.limit <= MAX_TID_COUNT
      && Assigned(space.areaSet, base, ids.pool.limit, ids.Live())
    }

    constructor (ids: IdAllocator, space: Space, base: nat)
      requires ids.Valid() && ids.Live() == {} && ids.pool.limit <= MAX_TID_COUNT && space.Valid()
      requires forall tid :: 0 <= tid < ids.pool.limit ==> HasNone(space.areaSet, base, tid)
      ensures Valid() && this.ids == ids && this.space == space && this.base == base
    {
      this.ids := ids;
      this.space := space;
      this.base := base;
    }

    /**
     A task id, and `TaskUserResource::new` for it: its stack and its trap context. A failure of either is never
     returned: the half-made resource is dropped on the way out, which asks for both areas back and finds one missing.
     */
    method New() returns (r: Outcome<nat>)
      requires Valid()
      modifies ids, space`areaSet, space.pageTable, space.pageTable.phys, space.ranges`nodes, space.ranges`marks,
        space.ranges.nodes
      ensures r.Done? ==> Valid() && ids.pool.limit == old(ids.pool.limit)
      ensures forall n :: n in space.ranges.nodes ==> n in old(space.ranges.nodes) || fresh(n)
      ensures old(ids.Live()) == Interval(0, old(ids.pool.limit)) <==> r == Done(Err(IdExhausted))
      ensures r.Done? && r.result.Err? ==> r.result.error == IdExhausted && space.areaSet == old(space.areaSet)
      ensures r.Done? && r.result.Ok? ==>
        var tid := r.result.value;
        && tid !in old(ids.Live()) && ids.Live() == old(ids.Live()) + {tid} && tid < ids.pool.limit
        && space.areaSet == WithBoth(old(space.areaSet), base, tid)
      ensures forall tid: nat, q :: old(ids.pool).Gives(tid, q) && tid < TRAMPOLINE_VPN ==>
        r ==
          if TaskMaps(old(ShotOf(space.pageTable)), old(space.ranges.Used()), base, tid) then Done(Ok(tid)) else Panic
    {
      hide Sound, Translation, CanMapAll, StopsAtTrampoline, Laid, Filled, Pool.Valid, Pool.Live, Chain, Shows, Ordered;
      hide Alternating, UsedPages, PageTable.View, UserStackRange, TrapCtxRange, Assigned, TaskMaps, Refused, Fits;
      hide HasNone, HasBoth, WithBoth, UserStackArea, TrapCtxArea;
      ghost var pool, s, used, areas, live :=
        ids.pool, ShotOf(space.pageTable), space.ranges.Used(), space.areaSet, ids.Live();
      NoneGiven(pool);
      var id := ids.Alloc();
      if id.Err? {
        return Done(Err(id.error));
      }
      var tid := id.value;
      GivenOnce(pool, tid, ids.pool);
      NoneYet(areas, base, ids.pool.limit, live, tid);
      var ok := AllocBoth(tid);
      if !ok {
        return Panic;
      }
      BothAdded(areas, base, ids.pool.limit, live, tid);
      assert ids.Live() == live + {tid};
      r := Done(Ok(tid));
    }

    /** The stack, then the trap context; when either fails, giving both back fails too. */
    method AllocBoth(tid: nat) returns (ok: bool)
      requires space.Valid() && tid < TRAMPOLINE_VPN && HasNone(space.areaSet, base, tid)
      requires KeyOf(UserStackArea(base, tid)) != KeyOf(TrapCtxArea(tid))
      modifies space`areaSet, space.pageTable, space.pageTable.phys, space.ranges`nodes, space.ranges`marks
      modifies space.ranges.nodes
      ensures forall n :: n in space.ranges.nodes ==> n in old(space.ranges.nodes) || fresh(n)
      ensures ok ==> space.Valid() && space.areaSet == WithBoth(old(space.areaSet), base, tid)
      ensures ok <==> TaskMaps(old(ShotOf(space.pageTable)), old(space.ranges.Used()), base, tid)
    {
      hide Sound, Translation, CanMapAll, StopsAtTrampoline, Laid, Filled, Pool.Valid, Pool.Live, Chain, Shows, Ordered;
      hide Alternating, UsedPages, PageTable.View, UserStackRange, TrapCtxRange, Refused, Fits, Steps, Cost, RangeNodes;
      var stack, trap := UserStackArea(base, tid), TrapCtxArea(tid);
      ghost var s, used := ShotOf(space.pageTable), space.ranges.Used();
      assert TaskMaps(s, used, base, tid) ==> Fits(stack, used) && CanMapAll(s, stack);
      hide UserStackArea, TrapCtxArea, TaskMaps;
      var a := space.AllocArea(stack, None);
      if a.Panic? {
        return false;
      }
      assert forall i :: 0 <= i < |space.ranges.nodes| ==> space.ranges.nodes[i] in space.ranges.nodes;
      if a.result.Err? {
        var d := DropBoth(tid);
        if d.Ok? {
          assert false;
        }
        return false;
      }
      TrapMapsIff(s, ShotOf(space.pageTable), used, base, tid);
      var b := space.AllocArea(trap, None);
      if b.Panic? {
        return false;
      }
      assert forall i :: 0 <= i < |space.ranges.nodes| ==> space.ranges.nodes[i] in space.ranges.nodes;
      if b.result.Err? {
        var d := DropBoth(tid);
        if d.Ok? {
          assert false;
        }
        return false;
      }
      ok := true;
    }

    /** `TaskUserResource::dealloc`: the trap context, then the stack. */
    method DropBoth(tid: nat) returns (r: Result<()>)
      requires space.Valid() && tid < TRAMPOLINE_VPN
      modifies space`areaSet, space.pageTable, space.pageTable.phys, space.ranges`nodes, space.ranges`marks
      modifies space.ranges.nodes
      ensures space.Valid() && forall n :: n in space.ranges.nodes ==> n in old(space.ranges.nodes) || fresh(n)
      ensures
        var stack, trap := KeyOf(UserStackArea(base, tid)), KeyOf(TrapCtxArea(tid));
        && r == (if trap !in old(space.areaSet) then Err(AreaDeallocFailed(trap.0, trap.1))
                 else if stack !in old(space.areaSet) - {trap} then Err(AreaDeallocFailed(stack.0, stack.1))
                 else Ok(()))
        && (r.Ok? ==> space.areaSet == old(space.areaSet) - {trap} - {stack})
        && (trap !in old(space.areaSet) ==> space.areaSet == old(space.areaSet))
    {
      hide Sound, Translation, Laid, UnmappedUpTo, Pool.Valid, Pool.Live, Chain, Shows, Ordered, Alternating, UsedPages;
      hide UserStackRange, TrapCtxRange, PageTable.View;
      var stack, trap := KeyOf(UserStackArea(base, tid)), KeyOf(TrapCtxArea(tid));
      r := space.Pop(trap.0, trap.1);
      if r.Err? {
        return;
      }
      assert forall i :: 0 <= i < |space.ranges.nodes| ==> space.ranges.nodes[i] in space.ranges.nodes;
      r := space.Pop(stack.0, stack.1);
    }

    /** `TaskUserResource::drop`: both areas are there, so neither `unwrap` fails; and the id goes back. */
    method Drop(tid: nat)
      requires Valid() && tid in ids.Live()
      modifies ids, space`areaSet, space.pageTable, space.pageTable.phys, space.ranges`nodes, space.ranges`marks,
        space.ranges.nodes
      ensures Valid() && ids.pool.limit == old(ids.pool.limit) && ids.Live() == old(ids.Live()) - {tid}
      ensures tid < ids.pool.limit
      ensures forall n :: n in space.ranges.nodes ==> n in old(space.ranges.nodes) || fresh(n)
      ensures space.areaSet == old(space.areaSet) - {KeyOf(TrapCtxArea(tid)), KeyOf(UserStackArea(base, tid))}
    {
      hide Sound, Translation, Laid, Pool.Valid, Pool.Live, Chain, Shows, Ordered, Alternating, UsedPages;
      hide PageTable.View;
      hide UserStackRange, TrapCtxRange, Assigned;
      ghost var areas, live := space.areaSet, ids.Live();
      BothThere(areas, base, ids.pool.limit, live, tid);
      var d := DropBoth(tid);
      if d.Err? {
        assert false;
      }
      var ok := ids.Dealloc(tid);
      BothRemoved(areas, base, ids.pool.limit, live, tid);
      assert space.areaSet == areas - {KeyOf(TrapCtxArea(tid)), KeyOf(UserStackArea(base, tid))};
    }
  }

  /** Where a stack lies, with page numbers that wrap around at 2^27. */
  lemma StackStart(base: nat, k: nat)
    ensures
      var q := (base + PAGE_SIZE - 1) / PAGE_SIZE;
      UserStackRange(base, k) == ((q + 9 * k + 1) % VPN_LIMIT, (q + 9 * k + 9) % VPN_LIMIT)
  {
    var c := base + PAGE_SIZE - 1;
    var startVa := base + (k + 1) * GUARD_PAGES * PAGE_SIZE + k * (USER_STACK_PAGES * PAGE_SIZE);
    assert startVa + PAGE_SIZE - 1 == c + (9 * k + 1) * PAGE_SIZE;
    assert (c + (9 * k + 1) * PAGE_SIZE) / PAGE_SIZE == c / PAGE_SIZE + 9 * k + 1;
    assert (c + (9 * k + 9) * PAGE_SIZE) / PAGE_SIZE == c / PAGE_SIZE + 9 * k + 9;
  }

  /** A stack is not one page, so no trap context has its range. */
  lemma StackIsNotTrap(base: nat, k: nat, l: nat)
    requires k < TRAMPOLINE_VPN && l < TRAMPOLINE_VPN
    ensures KeyOf(UserStackArea(base, k)) != KeyOf(TrapCtxArea(l))
  {
    TrapCtxPlace(l);
    StackStart(base, k);
  }

  /** Tasks of different ids have ranges all different. */
  lemma RangesDiffer(base: nat, k: nat, l: nat)
    requires k < MAX_TID_COUNT && l < MAX_TID_COUNT && k != l
    ensures Unlike(base, k, l)
  {
    StackIsNotTrap(base, k, l);
    StackIsNotTrap(base, l, k);
    TrapCtxPlace(k);
    TrapCtxPlace(l);
    StackStart(base, k);
    StackStart(base, l);
    hide UserStackRange, TrapCtxRange;
    StartsDiffer((base + PAGE_SIZE - 1) / PAGE_SIZE, k, l);
  }

  lemma StartsDiffer(q: nat, k: nat, l: nat)
    requires k < MAX_TID_COUNT && l < MAX_TID_COUNT && k != l
    ensures (q + 9 * k + 1) % VPN_LIMIT != (q + 9 * l + 1) % VPN_LIMIT
  {
  }

  lemma NoneYet(areas: AreaSet, base: nat, limit: nat, live: set<nat>, tid: nat)
    requires limit <= MAX_TID_COUNT && Assigned(areas, base, limit, live) && tid < limit && tid !in live
    ensures HasNone(areas, base, tid) && KeyOf(UserStackArea(base, tid)) != KeyOf(TrapCtxArea(tid))
  {
    StackIsNotTrap(base, tid, tid);
  }

  lemma BothThere(areas: AreaSet, base: nat, limit: nat, live: set<nat>, tid: nat)
    requires limit <= MAX_TID_COUNT && Assigned(areas, base, limit, live) && tid in live
    ensures tid < limit && HasBoth(areas, base, tid) && KeyOf(UserStackArea(base, tid)) != KeyOf(TrapCtxArea(tid))
  {
    StackIsNotTrap(base, tid, tid);
  }

  lemma BothAdded(areas: AreaSet, base: nat, limit: nat, live: set<nat>, tid: nat)
    requires limit <= MAX_TID_COUNT && Assigned(areas, base, limit, live) && tid < limit && tid !in live
    ensures Assigned(WithBoth(areas, base, tid), base, limit, live + {tid})
  {
    hide UserStackRange, TrapCtxRange;
    var stack, trap := UserStackArea(base, tid), TrapCtxArea(tid);
    var areas' := areas[KeyOf(stack) := stack][KeyOf(trap) := trap];
    NoneYet(areas, base, limit, live, tid);
    forall k | 0 <= k < limit && k != tid
      ensures if k in live then HasBoth(areas', base, k) else HasNone(areas', base, k)
    {
      RangesDiffer(base, k, tid);
      assert if k in live then HasBoth(areas, base, k) else HasNone(areas, base, k);
    }
  }

  lemma BothRemoved(areas: AreaSet, base: nat, limit: nat, live: set<nat>, tid: nat)
    requires limit <= MAX_TID_COUNT && Assigned(areas, base, limit, live) && tid in live
    ensures Assigned(areas - {KeyOf(TrapCtxArea(tid)), KeyOf(UserStackArea(base, tid))}, base, limit, live - {tid})
  {
    hide UserStackRange, TrapCtxRange;
    var areas' := areas - {KeyOf(TrapCtxArea(tid)), KeyOf(UserStackArea(base, tid))};
    forall k | 0 <= k < limit && k != tid
      ensures if k in live then HasBoth(areas', base, k) else HasNone(areas', base, k)
    {
      RangesDiffer(base, k, tid);
      assert if k in live then HasBoth(areas, base, k) else HasNone(areas, base, k);
    }
  }
}
