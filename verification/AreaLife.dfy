/** Areas as owners: their creation reserves and maps a page range, their end unmaps and gives it back. */
module AreaLife {
  import opened Bytes
  import opened Results
  import opened Pools
  import opened Sv39
  import opened TableState
  import opened PageTables
  import opened Snapshots
  import opened RangeRuns
  import opened RangeAllocator
  import opened Areas
  import opened Layouts

  /** The range of `a` is one the range allocator can give. */
  ghost predicate Fits(a: Area, used: set<nat>) {
    a.start < a.end <= VPN_LIMIT && PagesOf(a) !! used
  }

  /**
   All that stops `a` from being mapped is that its last page is the trampoline, mapped already; and `a` owns no frames.
   */
  ghost predicate StopsAtTrampoline(s: Shot, a: Area) {
    !a.framed && a.start <= TRAMPOLINE_VPN < a.end && TRAMPOLINE_VPN in s.view && CanMapUpTo(s, a, TRAMPOLINE_VPN)
  }

  /** Where mapping `a` stopped, at page `upto`, decides whether the pages of `a` can be unmapped again. */
  lemma StopDecides(s: Shot, t: Shot, areas: AreaSet, used: set<nat>, a: Area, upto: nat)
    requires Laid(s, areas, used) && Fits(a, used) && a.start <= upto < a.end
    requires CanMapUpTo(s, a, upto) && !CanMapUpTo(s, a, upto + 1)
    requires Steps(s, t, Interval(a.start, upto)) && forall u :: a.start <= u < upto ==> PageOk(t, a, u)
    ensures CanUnmapAll(t, a) <==> StopsAtTrampoline(s, a)
    ensures StopsAtTrampoline(s, a) ==> !a.framed && upto == TRAMPOLINE_VPN == a.end - 1 && upto in s.view
  {
    hide SameOutside, Settled, Cost;
    assert upto !in Interval(a.start, upto) && SamePage(s, t, upto);
    assert upto in PagesOf(a);
    if StopsAtTrampoline(s, a) {
      if upto < TRAMPOLINE_VPN {
        CostGrows(a, s.nodes, upto + 1, TRAMPOLINE_VPN);
      }
    }
    forall u | a.start <= u < upto ensures CanUnmap(t, a, u) {
      assert PageOk(t, a, u);
    }
    assert CanUnmapAll(t, a) ==> CanUnmap(t, a, upto);
  }

  /** Unmapping again what was mapped up to the trampoline page leaves the other areas as they were. */
  lemma DroppedAgain(s: Shot, t: Shot, t': Shot, areas: AreaSet, used: set<nat>, a: Area, upto: nat)
    requires Laid(s, areas, used) && Fits(a, used) && a.start <= upto < a.end && !a.framed
    requires Steps(s, t, Interval(a.start, upto)) && forall u :: a.start <= u < upto ==> PageOk(t, a, u)
    requires upto + 1 == a.end && UnmappedUpTo(t, t', a, a.end)
    ensures Laid(t', areas, used) && Steps(s, t', PagesOf(a)) && forall u :: u in PagesOf(a) ==> u !in t'.view
  {
    hide SameOutside, Settled, Laid;
    StepsChain(s, t, t', Interval(a.start, upto), PagesOf(a));
    assert Interval(a.start, upto) + PagesOf(a) == PagesOf(a);
    assert s.trackers.Keys !! PagesOf(a) by {
      LaidTidy(s, areas, used);
    }
    forall u | u in PagesOf(a) ensures u !in t'.trackers && u !in t'.view {
      assert if u < upto then PageOk(t, a, u) else u !in Interval(a.start, upto) && SamePage(s, t, u);
    }
    LaidElsewhere(s, t', areas, used, PagesOf(a));
  }

  lemma LaidTidy(s: Shot, areas: AreaSet, used: set<nat>)
    requires Laid(s, areas, used)
    ensures s.trackers.Keys <= used
  {
  }

  /** `Area::drop`, and then that of its `PageRangeTracker`: both unwrap. */
  method Destroy(pt: PageTable, ranges: LinkedListPageRangeAllocator, a: Area) returns (r: Outcome<()>)
    requires pt.Valid() && ranges.Valid() && a.start <= a.end <= VPN_LIMIT
    modifies pt, pt.phys, ranges`nodes, ranges`marks, ranges.nodes
    ensures pt.Valid() && ranges.Valid() && ranges.Managed() == old(ranges.Managed())
      && pt.phys.pool.limit == old(pt.phys.pool.limit)
    ensures forall n :: n in ranges.nodes ==> n in old(ranges.nodes) || fresh(n)
    ensures r.Panic? <==> !(CanUnmapAll(old(ShotOf(pt)), a) && a.start < a.end && PagesOf(a) <= old(ranges.Used()))
    ensures r.Done? ==>
      UnmappedUpTo(old(ShotOf(pt)), ShotOf(pt), a, a.end) && ranges.Used() == old(ranges.Used()) - PagesOf(a)
  {
    hide Sound, Translation, CanUnmapAll, UnmappedUpTo, Pool.Valid, Chain, Shows, Ordered, Alternating, UsedPages;
    var u := UnmapAll(pt, a);
    if u.Err? {
      return Panic;
    }
    var d := ranges.Dealloc(a.start, a.end);
    if d.None? {
      return Panic;
    }
    r := Done(Ok(()));
  }

  /** Destroying an area of the space never panics, and takes that area and nothing else out of the space. */
  method Drop(pt: PageTable, ranges: LinkedListPageRangeAllocator, a: Area, ghost areas: AreaSet)
    requires pt.Valid() && ranges.Valid() && Laid(ShotOf(pt), areas, ranges.Used())
    requires KeyOf(a) in areas && areas[KeyOf(a)] == a
    modifies pt, pt.phys, ranges`nodes, ranges`marks, ranges.nodes
    ensures pt.Valid() && ranges.Valid() && ranges.Managed() == old(ranges.Managed())
      && pt.phys.pool.limit == old(pt.phys.pool.limit)
    ensures forall n :: n in ranges.nodes ==> n in old(ranges.nodes) || fresh(n)
    ensures UnmappedUpTo(old(ShotOf(pt)), ShotOf(pt), a, a.end) && ranges.Used() == old(ranges.Used()) - PagesOf(a)
    ensures Laid(ShotOf(pt), areas - {KeyOf(a)}, ranges.Used())
  {
    hide Sound, Translation, CanUnmapAll, UnmappedUpTo, Laid, Pool.Valid, Chain, Shows, Ordered, Alternating, UsedPages;
    ghost var s, used := ShotOf(pt), ranges.Used();
    LaidUnmaps(s, areas, used, a);
    var d := Destroy(pt, ranges, a);
    if d.Panic? {
      assert false;
    }
    LaidRemoved(s, ShotOf(pt), areas, used, a);
  }

  /** `Area::new`: when mapping fails, the half-made area is dropped on the way out. */
  method New(pt: PageTable, ranges: LinkedListPageRangeAllocator, a: Area,
             ghost areas: AreaSet) returns (r: Outcome<Area>)
    requires pt.Valid() && ranges.Valid() && Laid(ShotOf(pt), areas, ranges.Used())
    requires ranges.Managed() == Interval(0, VPN_LIMIT)
    modifies pt, pt.phys, ranges`nodes, ranges`marks, ranges.nodes
    ensures r.Panic? <==>
      Fits(a, old(ranges.Used())) && !CanMapAll(old(ShotOf(pt)), a) && !StopsAtTrampoline(old(ShotOf(pt)), a)
    ensures r.Done? ==>
      && pt.Valid() && ranges.Valid() && ranges.Managed() == Interval(0, VPN_LIMIT)
      && pt.phys.pool.limit == old(pt.phys.pool.limit)
    ensures forall n :: n in ranges.nodes ==> n in old(ranges.nodes) || fresh(n)
    ensures !Fits(a, old(ranges.Used())) <==> r == Done(Err(AreaAllocFailed(a.start, a.end)))
    ensures !Fits(a, old(ranges.Used())) ==> ShotOf(pt) == old(ShotOf(pt)) && ranges.Used() == old(ranges.Used())
    ensures r.Done? ==> Steps(old(ShotOf(pt)), ShotOf(pt), PagesOf(a))
    ensures r.Done? && r.result.Ok? <==> Fits(a, old(ranges.Used())) && CanMapAll(old(ShotOf(pt)), a)
    ensures r.Done? && r.result.Ok? ==>
      && r.result.value == a && ranges.Used() == old(ranges.Used()) + PagesOf(a)
      && MappedUpTo(old(ShotOf(pt)), ShotOf(pt), a, a.end)
      && KeyOf(a) !in areas && Laid(ShotOf(pt), areas[KeyOf(a) := a], ranges.Used())
    ensures r.Done? && r.result.Err? && Fits(a, old(ranges.Used())) ==>
      && r.result.error == VPNAlreadyMapped(TRAMPOLINE_VPN) && TRAMPOLINE_VPN !in pt.View()
      && ranges.Used() == old(ranges.Used())
      && Laid(ShotOf(pt), areas, ranges.Used())
  {
    hide Sound, Translation, CanMapAll, CanMapUpTo, CanUnmapAll, MappedUpTo, UnmappedUpTo, Laid, Pool.Valid, PageOk;
    hide Steps;
    hide Chain, Shows, Ordered, Alternating, UsedPages, StopsAtTrampoline;
    ghost var s, used := ShotOf(pt), ranges.Used();
    IntervalFits(a, used);
    var c := ranges.Alloc(a.start, a.end);
    if c.None? {
      StepsNot(s);
      StepsMore(s, s, {}, PagesOf(a));
      return Done(Err(AreaAllocFailed(a.start, a.end)));
    }
    LaidTracked(s, areas, used);
    var m, upto := MapAll(pt, a);
    if m.Ok? {
      AreaAdded(s, ShotOf(pt), areas, used, a);
      return Done(Ok(a));
    }
    StopDecides(s, ShotOf(pt), areas, used, a, upto);
    ghost var t := ShotOf(pt);
    assert forall i :: 0 <= i < |ranges.nodes| ==> ranges.nodes[i] in ranges.nodes;
    var d := Destroy(pt, ranges, a);
    if d.Panic? {
      return Panic;
    }
    DroppedAgain(s, t, ShotOf(pt), areas, used, a, upto);
    assert used + PagesOf(a) - PagesOf(a) == used;
    r := Done(Err(m.error));
  }

  lemma IntervalFits(a: Area, used: set<nat>)
    ensures Fits(a, used) <==> a.start < a.end && PagesOf(a) <= Interval(0, VPN_LIMIT) && PagesOf(a) !! used
  {
    if a.start < a.end {
      assert a.end - 1 in PagesOf(a);
    }
  }

  lemma AreaAdded(s: Shot, t: Shot, areas: AreaSet, used: set<nat>, a: Area)
    requires Laid(s, areas, used) && Fits(a, used) && MappedUpTo(s, t, a, a.end) && CanMapAll(s, a)
    ensures KeyOf(a) !in areas && Laid(t, areas[KeyOf(a) := a], used + PagesOf(a)) && Steps(s, t, PagesOf(a))
  {
    hide Laid, Cost, RangeNodes, ZeroFrame;
    LaidAdded(s, t, areas, used, a);
  }
}
