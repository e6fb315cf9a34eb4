/** Address spaces: a set of areas over one page table and one range allocator. */
module Spaces {
  import opened Bytes
  import opened Results
  import opened Pools
  import opened Physical
  import opened Sv39
  import opened TableState
  import opened PageTables
  import opened Snapshots
  import opened RangeRuns
  import opened RangeAllocator
  import opened Areas
  import opened Layouts
  import opened AreaLife
  import opened PageBytes
  import opened TableLife
  import opened StackLayout

  class Space {
    const pageTable: PageTable
    const ranges: LinkedListPageRangeAllocator
    var areaSet: AreaSet

    /** The parts are sound on their own. */
    ghost predicate Standing()
      reads pageTable, pageTable.phys, ranges, ranges.nodes
    {
      pageTable.Valid() && ranges.Valid() && ranges.Managed() == Interval(0, VPN_LIMIT)
    }

    /**
     The areas are pairwise disjoint, their union is what the range allocator counts as used, the page table maps
     exactly that union, apart from the trampoline page, and tracks exactly the pages of framed areas, on the frames it
     maps them to.
     */
    ghost predicate Valid()
      reads this, pageTable, pageTable.phys, ranges, ranges.nodes
    {
      Standing() && Laid(ShotOf(pageTable), areaSet, ranges.Used())
    }

    constructor (pageTable: PageTable, ranges: LinkedListPageRangeAllocator)
      ensures this.pageTable == pageTable && this.ranges == ranges && areaSet == map[]
    {
      this.pageTable := pageTable;
      this.ranges := ranges;
      areaSet := map[];
    }

    /** `push`, for an area just created and not yet in the set. */
    method Push(a: Area, offset: nat, data: Option<seq<Byte>>) returns (r: Outcome<()>)
      requires Standing() && KeyOf(a) !in areaSet && Laid(ShotOf(pageTable), areaSet[KeyOf(a) := a], ranges.Used())
      modifies this`areaSet, pageTable.phys`frames
      ensures data.None? || a.start <= a.end
      ensures r == if data.Some? && Refused(a, offset, |data.value|) then Panic else Done(Ok(()))
      ensures r.Done? ==>
        && Valid() && areaSet == old(areaSet)[KeyOf(a) := a] && ranges.Used() == old(ranges.Used())
        && Rewrites(old(ShotOf(pageTable)), ShotOf(pageTable), PagesOf(a))
      ensures r.Done? ==> if data.None? then ShotOf(pageTable) == old(ShotOf(pageTable))
                          else a.framed ==> Spliced(old(ShotOf(pageTable)), ShotOf(pageTable), a, offset, data.value)
    {
      hide Sound, Translation, Laid, Rewrites, Spliced, Pool.Valid, Chain, Shows, Ordered, Alternating, UsedPages;
      ghost var s, areas := ShotOf(pageTable), areaSet[KeyOf(a) := a];
      LaidAreaOk(s, areas, ranges.Used(), a);
      RewritesNothing(s, PagesOf(a));
      if data.Some? {
        var w := WriteMultiPages(pageTable, a, offset, data.value);
        if w.Panic? {
          return Panic;
        }
      }
      LaidRewritten(s, ShotOf(pageTable), areas, ranges.Used(), PagesOf(a));
      areaSet := areaSet[KeyOf(a) := a];
      r := Done(Ok(()));
    }

    /** `Area::new` followed by `push` of the new area, with or without data, as every area of a space comes about. */
    method AllocArea(a: Area, data: Option<seq<Byte>>) returns (r: Outcome<()>)
      requires Valid()
      modifies this`areaSet, pageTable, pageTable.phys, ranges`nodes, ranges`marks, ranges.nodes
      ensures forall n :: n in ranges.nodes ==> n in old(ranges.nodes) || fresh(n)
      ensures r.Done? ==> Valid() && pageTable.phys.pool.limit == old(pageTable.phys.pool.limit)
      ensures !Fits(a, old(ranges.Used())) <==> r == Done(Err(AreaAllocFailed(a.start, a.end)))
      ensures r.Panic? <==>
        && Fits(a, old(ranges.Used()))
        && (if CanMapAll(old(ShotOf(pageTable)), a) then data.Some? && Refused(a, 0, |data.value|)
            else !StopsAtTrampoline(old(ShotOf(pageTable)), a))
      ensures r.Done? && r.result.Ok? <==>
        && Fits(a, old(ranges.Used())) && CanMapAll(old(ShotOf(pageTable)), a)
        && (data.Some? ==> !Refused(a, 0, |data.value|))
      ensures r.Done? && r.result.Ok? ==>
        && areaSet == old(areaSet)[KeyOf(a) := a] && ranges.Used() == old(ranges.Used()) + PagesOf(a)
        && Filled(old(ShotOf(pageTable)), ShotOf(pageTable), a, if data.Some? then data.value else [])
      ensures r.Done? ==> Steps(old(ShotOf(pageTable)), ShotOf(pageTable), PagesOf(a))
      ensures r.Done? && r.result.Err? ==>
        areaSet == old(areaSet) && ranges.Used() == old(ranges.Used())
      ensures !Fits(a, old(ranges.Used())) ==> ShotOf(pageTable) == old(ShotOf(pageTable))
      ensures r.Done? && r.result.Err? && Fits(a, old(ranges.Used())) ==>
        && StopsAtTrampoline(old(ShotOf(pageTable)), a) && r.result.error == VPNAlreadyMapped(TRAMPOLINE_VPN)
        && TRAMPOLINE_VPN !in pageTable.View()
    {
      hide Sound, Translation, CanMapAll, StopsAtTrampoline, Laid, MappedUpTo, Rewrites, Spliced, Filled, Steps;
      hide Pool.Valid, Chain, Shows, Ordered, Alternating, UsedPages, PageTable.View;
      ghost var s := ShotOf(pageTable);
      var n := New(pageTable, ranges, a, areaSet);
      if n.Panic? {
        return Panic;
      }
      if n.result.Err? {
        return Done(Err(n.result.error));
      }
      ghost var t := ShotOf(pageTable);
      TableOwns(pageTable);
      r := Push(a, 0, data);
      if r.Done? {
        AreaFilled(s, t, ShotOf(pageTable), a, data);
      }
    }

    /** `pop`: the area leaves the set and is dropped. */
    method Pop(start: nat, end: nat) returns (r: Result<()>)
      requires Valid()
      modifies this`areaSet, pageTable, pageTable.phys, ranges`nodes, ranges`marks, ranges.nodes
      ensures Valid() && pageTable.phys.pool.limit == old(pageTable.phys.pool.limit)
      ensures forall n :: n in ranges.nodes ==> n in old(ranges.nodes) || fresh(n)
      ensures r == if (start, end) in old(areaSet) then Ok(()) else Err(AreaDeallocFailed(start, end))
      ensures areaSet == old(areaSet) - {(start, end)}
      ensures r.Ok? ==>
        && UnmappedUpTo(old(ShotOf(pageTable)), ShotOf(pageTable), old(areaSet)[(start, end)], end)
        && ranges.Used() == old(ranges.Used()) - Interval(start, end)
      ensures r.Err? ==> ShotOf(pageTable) == old(ShotOf(pageTable)) && ranges.Used() == old(ranges.Used())
    {
      hide Sound, Translation, Laid, UnmappedUpTo, Pool.Valid, Chain, Shows, Ordered, Alternating, UsedPages;
      var key := (start, end);
      if key !in areaSet {
        return Err(AreaDeallocFailed(start, end));
      }
      LaidKeyed(ShotOf(pageTable), areaSet, ranges.Used(), key);
      ghost var areas := areaSet;
      var a := areaSet[key];
      areaSet := areaSet - {key};
      Drop(pageTable, ranges, a, areas);
      r := Ok(());
    }

    /** `recycle_data_pages`: the set is cleared, each area dropped in turn. */
    method RecycleDataPages()
      requires Valid()
      modifies this`areaSet, pageTable, pageTable.phys, ranges`nodes, ranges`marks, ranges.nodes
      ensures Valid() && pageTable.phys.pool.limit == old(pageTable.phys.pool.limit)
      ensures forall n :: n in ranges.nodes ==> n in old(ranges.nodes) || fresh(n)
      ensures areaSet == map[] && ranges.Used() == {} && pageTable.trackers == map[]
      ensures pageTable.View().Keys <= {TRAMPOLINE_VPN}
      ensures Steps(old(ShotOf(pageTable)), ShotOf(pageTable), old(ranges.Used()))
    {
      hide Sound, Translation, Laid, Pool.Valid, Chain, Shows, Ordered, Alternating, UsedPages, UnmappedUpTo, Steps;
      ghost var s, used := ShotOf(pageTable), ranges.Used();
      StepsNot(s);
      StepsMore(s, s, {}, used);
      while areaSet != map[]
        invariant Valid() && pageTable.phys.pool.limit == old(pageTable.phys.pool.limit)
        invariant forall n :: n in ranges.nodes ==> n in old(ranges.nodes) || fresh(n)
        invariant ranges.Used() <= used && Steps(s, ShotOf(pageTable), used)
        decreases |areaSet|
      {
        var key :| key in areaSet;
        assert forall i :: 0 <= i < |ranges.nodes| ==> ranges.nodes[i] in ranges.nodes;
        ghost var areas, t, now := areaSet, ShotOf(pageTable), ranges.Used();
        assert |areas.Keys| == |areas|;
        var p := Pop(key.0, key.1);
        PoppedSteps(t, ShotOf(pageTable), areas, now, used, key);
        StepsChain(s, t, ShotOf(pageTable), used, used);
        assert used + used == used;
        assert areaSet.Keys == areas.Keys - {key};
        assert |areaSet.Keys| == |areaSet|;
      }
      LaidEmpty(ShotOf(pageTable), ranges.Used());
    }

    /** The space is dropped: first its areas, then its page table. Every frame it had is free again. */
    method Discard()
      requires Valid()
      modifies this`areaSet, pageTable, pageTable.phys, ranges`nodes, ranges`marks, ranges.nodes
      ensures pageTable.phys.Valid() && pageTable.phys.pool.limit == old(pageTable.phys.pool.limit)
      ensures pageTable.phys.Free() == old(pageTable.phys.Free()) + old(Owned(pageTable.Now()))
      ensures pageTable.phys.Live() == old(pageTable.phys.Live()) - old(Owned(pageTable.Now()))
      ensures SameOutside(old(pageTable.phys.frames), pageTable.phys.frames,
                          old(Owned(pageTable.Now())) + old(pageTable.phys.Free()))
    {
      hide Sound, Translation, Laid, Pool.Valid, Pool.Free, Pool.Live, Chain, Shows, Ordered, Alternating, UsedPages;
      hide Owned;
      hide SamePage, SameOutside, PageTable.View;
      RecycleDataPages();
      DropTable(pageTable);
    }

    /** `map_trampoline`: the one page mapped without reserving it. */
    method MapTrampoline(ppn: nat) returns (r: Result<()>)
      requires Valid() && ppn < PPN_LIMIT
      modifies pageTable, pageTable.phys
      ensures Valid() && pageTable.phys.pool.limit == old(pageTable.phys.pool.limit)
      ensures r == if TRAMPOLINE_VPN in old(pageTable.View()) then Err(VPNAlreadyMapped(TRAMPOLINE_VPN))
                   else if |old(pageTable.phys.Free())| < |old(pageTable.Missing(TRAMPOLINE_VPN))| then
                     Err(FrameExhausted) else Ok(())
      ensures Steps(old(ShotOf(pageTable)), ShotOf(pageTable), if r.Ok? then {TRAMPOLINE_VPN} else {})
      ensures r.Ok? ==> pageTable.View() == old(pageTable.View())[TRAMPOLINE_VPN := Plain(ppn, WithValid(RX_FLAGS))]
      ensures r.Ok? ==>
        |pageTable.phys.Free()| == |old(pageTable.phys.Free())| - |old(pageTable.Missing(TRAMPOLINE_VPN))|
    {
      hide Sound, Translation, SameOutside, Settled, Owned, Placed, Steps, Laid, WithValid;
      hide Pool.Free, Pool.Live, Pool.Valid, Chain, Shows, Ordered, Alternating, UsedPages;
      ghost var s, reached := ShotOf(pageTable), {};
      ghost var now, live, free := pageTable.Now(), pageTable.phys.Live(), pageTable.phys.Free();
      pageTable.FreeNotLive();
      r, reached := pageTable.MapFixed(TRAMPOLINE_VPN, ppn, RX_FLAGS);
      ghost var pages := if r.Ok? then {TRAMPOLINE_VPN} else {};
      UpdateElsewhere(s.view, TRAMPOLINE_VPN, Plain(ppn, WithValid(RX_FLAGS)));
      StepsIntro(now, live, free, s.mem, s, ShotOf(pageTable), pages);
      TrampolineLaid(s, ShotOf(pageTable), areaSet, ranges.Used(), pages);
    }
  }

  lemma TrampolineLaid(s: Shot, t: Shot, areas: AreaSet, used: set<nat>, pages: set<nat>)
    requires Laid(s, areas, used) && Steps(s, t, pages) && t.trackers == s.trackers
    requires pages <= {TRAMPOLINE_VPN} && (pages != {} ==> TRAMPOLINE_VPN !in s.view)
    ensures Laid(t, areas, used)
  {
    hide Laid, Steps;
    LaidTracked(s, areas, used);
    LaidElsewhere(s, t, areas, used, pages);
  }

  lemma LaidKeyed(s: Shot, areas: AreaSet, used: set<nat>, key: Key)
    requires Laid(s, areas, used) && key in areas
    ensures KeyOf(areas[key]) == key
  {
  }

  lemma PoppedSteps(s: Shot, t: Shot, areas: AreaSet, used: set<nat>, all: set<nat>, key: Key)
    requires Laid(s, areas, used) && key in areas && used <= all && UnmappedUpTo(s, t, areas[key], key.1)
    ensures Steps(s, t, all)
  {
    hide Steps, PageOk;
    forall v | v in Interval(areas[key].start, key.1) ensures v in used {
      assert InRange(key, v);
    }
    StepsMore(s, t, Interval(areas[key].start, key.1), all);
  }

  lemma LaidEmpty(s: Shot, used: set<nat>)
    requires Laid(s, map[], used)
    ensures used == {} && s.trackers == map[] && s.view.Keys <= {TRAMPOLINE_VPN}
  {
    assert used == {};
  }

  /** From `s` to `t` the pages of `a` were mapped; if framed, they hold `data` and zeroes after it. */
  ghost predicate Filled(s: Shot, t: Shot, a: Area, data: seq<Byte>) {
    && Steps(s, t, PagesOf(a)) && AllOk(t, a)
    && (a.framed ==> Tracked(t, a) && |data| <= Size(a) && AreaBytes(t, a) == data + Zeros(Size(a) - |data|))
    && t.nodes == s.nodes + RangeNodes(a.start, a.end)
    && |t.claim.free| + Cost(a, s.nodes, a.end) == |s.claim.free|
  }

  lemma AreaFilled(s: Shot, t: Shot, u: Shot, a: Area, data: Option<seq<Byte>>)
    requires MappedUpTo(s, t, a, a.end) && a.start <= a.end && Rewrites(t, u, PagesOf(a)) && Owns(t)
    requires if data.None? then u == t else a.framed ==> Spliced(t, u, a, 0, data.value)
    ensures Filled(s, u, a, if data.Some? then data.value else []) && Steps(s, u, PagesOf(a))
  {
    hide SameOutside, Cost, RangeNodes, Splice;
    RewritesSteps(t, u, PagesOf(a));
    StepsChain(s, t, u, PagesOf(a), PagesOf(a));
    assert PagesOf(a) + PagesOf(a) == PagesOf(a);
    forall v | a.start <= v < a.end ensures PageOk(u, a, v) {
      assert PageOk(t, a, v);
    }
    assert AllOk(t, a);
    if a.framed {
      OkTracked(t, a);
      OkTracked(u, a);
      ZeroArea(t, a);
      if data.Some? {
        SpliceZeros(Size(a), data.value);
      }
    }
  }

  lemma ZeroArea(t: Shot, a: Area)
    requires Tracked(t, a) && forall v :: a.start <= v < a.end ==> BytesOf(t, v) == ZeroFrame()
    ensures AreaBytes(t, a) == Zeros(Size(a))
  {
  }

  lemma SpliceZeros(n: nat, data: seq<Byte>)
    requires |data| <= n
    ensures Splice(Zeros(n), 0, data) == data + Zeros(n - |data|)
  {
  }

  lemma LaidAreaOk(s: Shot, areas: AreaSet, used: set<nat>, a: Area)
    requires Laid(s, areas, used) && KeyOf(a) in areas && areas[KeyOf(a)] == a
    ensures AllOk(s, a)
  {
    forall v | a.start <= v < a.end ensures PageOk(s, a, v) {
      assert InRange(KeyOf(a), v);
    }
  }

  lemma RewritesNothing(s: Shot, pages: set<nat>)
    ensures Rewrites(s, s, pages)
  {
  }

  /** Areas do not notice their bytes being written. */
  lemma LaidRewritten(s: Shot, t: Shot, areas: AreaSet, used: set<nat>, pages: set<nat>)
    requires Laid(s, areas, used) && Rewrites(s, t, pages)
    ensures Laid(t, areas, used)
  {
    hide SameOutside;
    forall k, v | k in areas && InRange(k, v) ensures PageOk(t, areas[k], v) {
      assert PageOk(s, areas[k], v);
    }
  }
}
