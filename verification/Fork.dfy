/** Copies of address spaces: same ranges, permissions and bytes, on frames of their own. */
module Forks {
  import opened Bytes
  import opened Results
  import opened Pools
  import opened Sv39
  import opened TableState
  import opened PageTables
  import opened Snapshots
  import opened RangeRuns
  import opened RangeAllocator
  import opened Areas
  import opened Layouts
  import opened AreaLife
  import opened PageBytes
  import opened Neighbours
  import opened AreaCopy
  import opened Spaces

  /** Area `a` is mapped in `t` as it says, with the bytes it has in `ss`. */
  ghost predicate SameArea(t: Shot, ss: Shot, a: Area) {
    && AllOk(t, a) && AllOk(ss, a) && a.framed
    && forall v :: a.start <= v < a.end ==> v in t.trackers && v in ss.trackers && BytesOf(t, v) == BytesOf(ss, v)
  }

  lemma CopiedIsSame(s: Shot, t: Shot, u: Shot, ss: Shot, a: Area)
    requires MappedUpTo(s, t, a, a.end) && a.start <= a.end && a.framed && AllOk(ss, a) && Owns(t)
    requires CopiedUpTo(t, u, ss, a, a, a.end - a.start)
    ensures SameArea(u, ss, a) && Steps(s, u, PagesOf(a)) && |u.claim.free| + Cost(a, s.nodes, a.end) == |s.claim.free|
  {
    hide SameOutside, Cost, RangeNodes;
    CopiedSteps(t, u, ss, a, a, a.end - a.start);
    StepsChain(s, t, u, PagesOf(a), PagesOf(a));
    assert PagesOf(a) + PagesOf(a) == PagesOf(a);
    forall v | a.start <= v < a.end
      ensures PageOk(u, a, v) && v in u.trackers && v in ss.trackers && BytesOf(u, v) == BytesOf(ss, v)
    {
      assert PageOk(t, a, v) && PageOk(ss, a, v) && PageCopied(u, ss, a, a, v - a.start);
    }
  }

  /** An area that cannot be copied, because it owns no frames, is unmapped again. */
  lemma UncopiedIsDropped(s: Shot, t: Shot, u: Shot, areas: AreaSet, used: set<nat>, a: Area)
    requires Laid(s, areas, used) && Fits(a, used) && MappedUpTo(s, t, a, a.end) && !a.framed
    requires UnmappedUpTo(t, u, a, a.end)
    ensures Laid(u, areas, used) && Steps(s, u, PagesOf(a))
  {
    hide SameOutside, Cost, RangeNodes, Laid;
    StepsChain(s, t, u, PagesOf(a), PagesOf(a));
    assert PagesOf(a) + PagesOf(a) == PagesOf(a);
    forall v | v in PagesOf(a) ensures v !in u.trackers && v !in u.view {
      assert PageOk(t, a, v);
    }
    LaidElsewhere(s, u, areas, used, PagesOf(a));
  }

  lemma MappedUnmaps(s: Shot, t: Shot, a: Area)
    requires MappedUpTo(s, t, a, a.end) && a.start <= a.end
    ensures CanUnmapAll(t, a) && AllOk(t, a)
  {
    hide Cost, RangeNodes, ZeroFrame;
    forall v | a.start <= v < a.end ensures CanUnmap(t, a, v) {
      assert PageOk(t, a, v);
    }
  }

  /** `Area::from_another`: a new area like `a` of another space, with its bytes. */
  method FromAnother(dst: PageTable, ranges: LinkedListPageRangeAllocator, src: PageTable, a: Area,
                     ghost areas: AreaSet)
    returns (r: Outcome<Area>)
    requires dst.Valid() && ranges.Valid() && ranges.Managed() == Interval(0, VPN_LIMIT)
    requires Laid(ShotOf(dst), areas, ranges.Used()) && src.Valid() && AllOk(ShotOf(src), a)
    requires Beside(dst, src) || (dst == src && KeyOf(a) in areas)
    modifies dst, dst.phys, ranges`nodes, ranges`marks, ranges.nodes
    ensures forall n :: n in ranges.nodes ==> n in old(ranges.nodes) || fresh(n)
    ensures r.Panic? <==>
      && Fits(a, old(ranges.Used())) && !CanMapAll(old(ShotOf(dst)), a)
      && !StopsAtTrampoline(old(ShotOf(dst)), a)
    ensures r.Done? ==>
      && dst.Valid() && ranges.Valid() && ranges.Managed() == Interval(0, VPN_LIMIT)
        && dst.phys.pool.limit == old(dst.phys.pool.limit)
      && src.Valid() && (dst != src ==> Beside(dst, src)) && Untouched(old(ShotOf(src)), ShotOf(src))
      && Steps(old(ShotOf(dst)), ShotOf(dst), PagesOf(a))
    ensures dst == src ==> !Fits(a, old(ranges.Used()))
    ensures r.Done? && r.result.Ok? <==> Fits(a, old(ranges.Used())) && CanMapAll(old(ShotOf(dst)), a) && a.framed
    ensures r.Done? && r.result.Ok? ==>
      && r.result.value == a && ranges.Used() == old(ranges.Used()) + PagesOf(a)
      && KeyOf(a) !in areas && Laid(ShotOf(dst), areas[KeyOf(a) := a], ranges.Used())
      && SameArea(ShotOf(dst), old(ShotOf(src)), a)
      && |dst.phys.Free()| + Cost(a, old(dst.at.Keys), a.end) == |old(dst.phys.Free())|
    ensures r.Done? && r.result.Err? ==> Laid(ShotOf(dst), areas, ranges.Used()) && ranges.Used() == old(ranges.Used())
    ensures !Fits(a, old(ranges.Used())) <==> r == Done(Err(AreaAllocFailed(a.start, a.end)))
  {
    hide Sound, Translation, Owned, CanMapAll, StopsAtTrampoline, CanUnmapAll, UnmappedUpTo, MappedUpTo, Laid, Steps,
      AllOk, SameArea;
    hide Pool.Valid, Pool.Free, Pool.Live, Chain, Shows, Ordered, Alternating, UsedPages, Untouched, CopiedUpTo, Cost;
    ghost var s, ss, used := ShotOf(dst), ShotOf(src), ranges.Used();
    dst.FreeNotLive();
    TableOwns(src);
    if KeyOf(a) in areas {
      OwnRangeIsTaken(s, areas, used, a);
    }
    UntouchedSelf(ss);
    r := New(dst, ranges, a, areas);
    if r.Panic? || dst == src {
      return;
    }
    OtherKeeps(s, ShotOf(dst), PagesOf(a), src.Now());
    if r.result.Err? {
      return;
    }
    OkStays(ss, ShotOf(src), a);
    ghost var st := ShotOf(src);
    assert forall i :: 0 <= i < |ranges.nodes| ==> ranges.nodes[i] in ranges.nodes;
    var c := CopyOrDrop(dst, ranges, src, a, s, areas, used);
    UntouchedChain(ss, st, ShotOf(src));
    if c.Ok? {
      SameAreaStill(ShotOf(dst), ss, st, a);
    } else {
      r := Done(Err(c.error));
    }
  }

  lemma OwnRangeIsTaken(s: Shot, areas: AreaSet, used: set<nat>, a: Area)
    requires Laid(s, areas, used) && KeyOf(a) in areas
    ensures !Fits(a, used)
  {
    assert InRange(KeyOf(a), a.start);
    assert a.start in PagesOf(a);
  }

  lemma SameAreaStill(t: Shot, ss: Shot, st: Shot, a: Area)
    requires SameArea(t, st, a) && Untouched(ss, st) && AllOk(ss, a) && Owns(ss)
    ensures SameArea(t, ss, a)
  {
    forall v | a.start <= v < a.end ensures v in ss.trackers && BytesOf(t, v) == BytesOf(ss, v) {
      UntouchedPage(ss, st, v);
    }
  }

  /**
   The second half of `from_another`: the bytes are copied, or the area, just mapped, is dropped on the error path.
   */
  method CopyOrDrop(dst: PageTable, ranges: LinkedListPageRangeAllocator, src: PageTable, a: Area,
                    ghost s: Shot, ghost areas: AreaSet, ghost used: set<nat>)
    returns (r: Result<()>)
    requires dst.Valid() && ranges.Valid() && src.Valid() && Beside(dst, src) && AllOk(ShotOf(src), a)
    requires Laid(s, areas, used) && Fits(a, used) && MappedUpTo(s, ShotOf(dst), a, a.end)
    requires Laid(ShotOf(dst), areas[KeyOf(a) := a], ranges.Used()) && ranges.Used() == used + PagesOf(a)
    modifies dst, dst.phys, ranges`nodes, ranges`marks, ranges.nodes
    ensures dst.Valid() && ranges.Valid() && ranges.Managed() == old(ranges.Managed())
      && dst.phys.pool.limit == old(dst.phys.pool.limit)
    ensures forall n :: n in ranges.nodes ==> n in old(ranges.nodes) || fresh(n)
    ensures src.Valid() && Beside(dst, src) && Untouched(old(ShotOf(src)), ShotOf(src))
    ensures Steps(s, ShotOf(dst), PagesOf(a))
    ensures r == if a.framed then Ok(()) else Err(VPNNotMapped(a.start))
    ensures r.Ok? ==>
      && ranges.Used() == used + PagesOf(a) && Laid(ShotOf(dst), areas[KeyOf(a) := a], ranges.Used())
      && SameArea(ShotOf(dst), old(ShotOf(src)), a)
      && |dst.phys.Free()| + Cost(a, s.nodes, a.end) == |s.claim.free|
    ensures r.Err? ==> ranges.Used() == used && Laid(ShotOf(dst), areas, used)
  {
    hide Sound, Translation, Owned, CanUnmapAll, UnmappedUpTo, MappedUpTo, Laid, Steps, AllOk, SameArea, Rewrites;
    hide Pool.Valid, Pool.Free, Pool.Live, Chain, Shows, Ordered, Alternating, UsedPages, Untouched, CopiedUpTo, Cost;
    ghost var t, ss := ShotOf(dst), ShotOf(src);
    MappedUnmaps(s, t, a);
    TableOwns(dst);
    var c := CopyAnother(dst, a, src, a);
    if c.Ok? {
      CopiedIsSame(s, t, ShotOf(dst), ss, a);
      CopiedRewrites(t, ShotOf(dst), ss, a, a, a.end - a.start);
      LaidRewritten(t, ShotOf(dst), areas[KeyOf(a) := a], ranges.Used(), PagesOf(a));
      return Ok(());
    }
    assert ShotOf(dst) == t && ShotOf(src) == ss;
    dst.FreeNotLive();
    var d := Destroy(dst, ranges, a);
    if d.Panic? {
      assert false;
    }
    UnmappedSteps(t, ShotOf(dst), a);
    OtherKeeps(t, ShotOf(dst), PagesOf(a), src.Now());
    UncopiedIsDropped(s, t, ShotOf(dst), areas, used, a);
    assert used + PagesOf(a) - PagesOf(a) == used;
    r := Err(c.error);
  }

  lemma UnmappedSteps(s: Shot, t: Shot, a: Area)
    requires UnmappedUpTo(s, t, a, a.end)
    ensures Steps(s, t, PagesOf(a))
  {
  }

  lemma CopiedRewrites(t: Shot, u: Shot, ss: Shot, d: Area, a: Area, k: nat)
    requires CopiedUpTo(t, u, ss, d, a, k)
    ensures Rewrites(t, u, Interval(d.start, d.start + k))
  {
  }

  lemma OkStays(s: Shot, t: Shot, a: Area)
    requires Untouched(s, t) && AllOk(s, a)
    ensures AllOk(t, a)
  {
    forall v | a.start <= v < a.end ensures PageOk(t, a, v) {
      assert PageOk(s, a, v);
    }
  }
}
