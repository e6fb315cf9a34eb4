/** Areas: contiguous page ranges mapped, unmapped, copied and written page by page. */
module Areas {
  import opened Bytes
  import opened Results
  import opened Pools
  import opened Physical
  import opened Sv39
  import opened Tree
  import opened TableState
  import opened PageTables
  import opened Snapshots

  /** `framed` areas own a frame for each page; the others map each page to the frame of the same number. */
  datatype Area = Area(start: nat, end: nat, flags: Byte, framed: bool)

  ghost function PagesOf(a: Area): set<nat> {
    Interval(a.start, a.end)
  }

  /** Page `v` is mapped the way area `a` maps its pages. */
  ghost predicate PageOk(s: Shot, a: Area, v: nat) {
    && v in s.view
    && (a.framed ==> v in s.trackers && s.view[v] == Plain(s.trackers[v], WithValid(a.flags)))
    && (!a.framed ==> v !in s.trackers && s.view[v] == Plain(v, WithValid(a.flags)))
  }

  /** The frames one page of `a` needs for itself. */
  ghost function PerPage(a: Area): nat {
    if a.framed then 1 else 0
  }

  /** Mapping page `v` for `a` would succeed. */
  ghost predicate CanMap(s: Shot, a: Area, v: nat) {
    v !in s.view && (a.framed ==> a.flags != 0) && |s.claim.free| >= |NodesOf(v) - s.nodes| + PerPage(a)
  }

  /** What mapping page `v` for `a` changed, from `s` to `t`. */
  ghost predicate MappedOne(s: Shot, t: Shot, a: Area, v: nat) {
    && PageOk(t, a, v) && (a.framed ==> BytesOf(t, v) == ZeroFrame())
    && t.nodes == s.nodes + NodesOf(v)
    && |t.claim.free| == |s.claim.free| - |NodesOf(v) - s.nodes| - PerPage(a)
  }

  lemma MapsDataOne(s: Shot, t: Shot, a: Area, v: nat, p: nat)
    requires a.framed && t.view == s.view[v := Plain(p, WithValid(a.flags))] && t.trackers == s.trackers[v := p]
    requires FrameAt(t.mem, p) == ZeroFrame() && t.nodes == s.nodes + NodesOf(v)
    requires |t.claim.free| == |s.claim.free| - |NodesOf(v) - s.nodes| - 1
    ensures MappedOne(s, t, a, v)
  {
  }

  lemma MapsIffCanMap(pt: PageTable, a: Area, vpn: nat)
    requires a.framed && vpn < VPN_LIMIT
    ensures pt.Maps(vpn, a.flags) <==> CanMap(ShotOf(pt), a, vpn)
  {
  }

  method MapFramed(pt: PageTable, a: Area, vpn: nat) returns (r: Result<nat>)
    requires pt.Valid() && a.framed && vpn < VPN_LIMIT && (vpn in pt.trackers ==> vpn in pt.View())
    modifies pt, pt.phys
    ensures pt.Valid() && pt.phys.pool.limit == old(pt.phys.pool.limit)
    ensures Steps(old(ShotOf(pt)), ShotOf(pt), if r.Ok? then {vpn} else {})
    ensures r.Ok? <==> CanMap(old(ShotOf(pt)), a, vpn)
    ensures r.Ok? ==> MappedOne(old(ShotOf(pt)), ShotOf(pt), a, vpn)
  {
    MapsIffCanMap(pt, a, vpn);
    assert CanMap(ShotOf(pt), a, vpn) ==> vpn !in pt.View();
    hide Sound, Translation, SameOutside, Settled, Owned, Placed, Steps, CanMap, PageTable.Maps, MappedOne;
    hide Pool.Free, Pool.Live, Pool.Valid, ZeroFrame, WithValid;
    ghost var s, reached := ShotOf(pt), {};
    ghost var now, live, free := pt.Now(), pt.phys.Live(), pt.phys.Free();
    pt.FreeNotLive();
    r, reached := pt.Map(vpn, a.flags);
    if r.Ok? {
      UpdateElsewhere(s.view, vpn, Plain(r.value, WithValid(a.flags)));
      UpdateElsewhere(s.trackers, vpn, r.value);
      MapsDataOne(s, ShotOf(pt), a, vpn, r.value);
    }
    StepsIntro(now, live, free, s.mem, s, ShotOf(pt), if r.Ok? then {vpn} else {});
  }

  method MapIdentical(pt: PageTable, a: Area, vpn: nat) returns (r: Result<nat>)
    requires pt.Valid() && !a.framed && vpn < VPN_LIMIT && (vpn in pt.trackers ==> vpn in pt.View())
    modifies pt, pt.phys
    ensures pt.Valid() && pt.phys.pool.limit == old(pt.phys.pool.limit)
    ensures Steps(old(ShotOf(pt)), ShotOf(pt), if r.Ok? then {vpn} else {})
    ensures r.Ok? <==> CanMap(old(ShotOf(pt)), a, vpn)
    ensures r.Ok? ==> MappedOne(old(ShotOf(pt)), ShotOf(pt), a, vpn)
    ensures r.Err? && vpn in old(pt.View()) ==> r.error == VPNAlreadyMapped(vpn)
  {
    hide Sound, Translation, SameOutside, Settled, Owned, Placed, Steps, Pool.Free, Pool.Live, Pool.Valid, WithValid;
    ghost var s, reached := ShotOf(pt), {};
    ghost var now, live, free := pt.Now(), pt.phys.Live(), pt.phys.Free();
    pt.FreeNotLive();
    var m;
    m, reached := pt.MapFixed(vpn, vpn, a.flags);
    if m.Ok? {
      UpdateElsewhere(s.view, vpn, pt.View()[vpn]);
    }
    StepsIntro(now, live, free, s.mem, s, ShotOf(pt), if m.Ok? then {vpn} else {});
    r := if m.Ok? then Ok(vpn) else Err(m.error);
  }

  /** `map_one`. */
  method MapOne(pt: PageTable, a: Area, vpn: nat) returns (r: Result<nat>)
    requires pt.Valid() && vpn < VPN_LIMIT && (vpn in pt.trackers ==> vpn in pt.View())
    modifies pt, pt.phys
    ensures pt.Valid() && pt.phys.pool.limit == old(pt.phys.pool.limit)
    ensures Steps(old(ShotOf(pt)), ShotOf(pt), if r.Ok? then {vpn} else {})
    ensures r.Ok? <==> a.start <= vpn < a.end && CanMap(old(ShotOf(pt)), a, vpn)
    ensures r.Ok? ==> MappedOne(old(ShotOf(pt)), ShotOf(pt), a, vpn)
    ensures r.Err? && a.start <= vpn < a.end && vpn in old(pt.View()) && !a.framed ==> r.error == VPNAlreadyMapped(vpn)
  {
    hide Sound, Translation, CanMap, MappedOne, Pool.Valid;
    if !(a.start <= vpn < a.end) {
      StepsNot(ShotOf(pt));
      return Err(VPNOutOfArea(vpn, a.start, a.end));
    }
    if a.framed {
      r := MapFramed(pt, a, vpn);
    } else {
      r := MapIdentical(pt, a, vpn);
    }
  }

  // ---------- mapping a whole area ----------

  /** The mapper nodes that the pages from `lo` up to `hi` need. */
  ghost function RangeNodes(lo: nat, hi: nat): set<Node> {
    if lo >= hi then {} else RangeNodes(lo, hi - 1) + NodesOf(hi - 1)
  }

  lemma {:induction false} RangeNodesGrow(lo: nat, mid: nat, hi: nat)
    requires lo <= mid <= hi
    ensures RangeNodes(lo, mid) <= RangeNodes(lo, hi)
    decreases hi - mid
  {
    hide NodesOf;
    if mid < hi {
      RangeNodesGrow(lo, mid, hi - 1);
    }
  }

  /** The frames that the first pages of `a`, up to `v`, take from where the table has `nodes`. */
  ghost function Cost(a: Area, nodes: set<Node>, v: nat): nat {
    |RangeNodes(a.start, v) - nodes| + if a.framed && a.start <= v then v - a.start else 0
  }

  lemma CostGrows(a: Area, nodes: set<Node>, v: nat, w: nat)
    requires a.start <= v <= w
    ensures Cost(a, nodes, v) <= Cost(a, nodes, w)
  {
    hide RangeNodes;
    RangeNodesGrow(a.start, v, w);
    SubsetSize(RangeNodes(a.start, v) - nodes, RangeNodes(a.start, w) - nodes);
  }

  /** From `s` to `t` the pages of `a` up to `v` were mapped, on cleared frames if framed. */
  ghost predicate MappedUpTo(s: Shot, t: Shot, a: Area, v: nat) {
    && Steps(s, t, Interval(a.start, v))
    && (forall u :: a.start <= u < v ==> PageOk(t, a, u) && (a.framed ==> BytesOf(t, u) == ZeroFrame()))
    && t.nodes == s.nodes + RangeNodes(a.start, v)
    && |t.claim.free| + Cost(a, s.nodes, v) == |s.claim.free|
  }

  lemma MappedNone(s: Shot, a: Area)
    ensures MappedUpTo(s, s, a, a.start) && CanMapUpTo(s, a, a.start)
  {
    hide Steps;
    StepsNot(s);
    assert Interval(a.start, a.start) == {};
  }

  lemma MappedNext(s: Shot, t: Shot, t': Shot, a: Area, v: nat)
    requires MappedUpTo(s, t, a, v) && a.start <= v && Steps(t, t', {v}) && MappedOne(t, t', a, v)
    ensures MappedUpTo(s, t', a, v + 1)
  {
    hide RangeNodes, NodesOf, SameOutside, Settled, ZeroFrame;
    StepsChain(s, t, t', Interval(a.start, v), {v});
    assert Interval(a.start, v) + {v} == Interval(a.start, v + 1);
    forall u | a.start <= u < v ensures PageOk(t', a, u) && (a.framed ==> BytesOf(t', u) == ZeroFrame()) {
      assert PageOk(t, a, u) && u !in {v} && SamePage(t, t', u);
    }
    RangeNodesNext(a.start, v);
    CostNext(a, s.nodes, v);
  }

  lemma RangeNodesNext(lo: nat, v: nat)
    requires lo <= v
    ensures RangeNodes(lo, v + 1) == RangeNodes(lo, v) + NodesOf(v)
  {
  }

  lemma CostNext(a: Area, nodes: set<Node>, v: nat)
    requires a.start <= v
    ensures Cost(a, nodes, v + 1) == Cost(a, nodes, v) + |NodesOf(v) - (nodes + RangeNodes(a.start, v))| + PerPage(a)
  {
    RangeNodesNext(a.start, v);
    hide RangeNodes, NodesOf;
    Beyond(RangeNodes(a.start, v), NodesOf(v), nodes);
  }

  /** All pages of `a` can be mapped: none is mapped yet, the flags will do, and the frames suffice. */
  ghost predicate CanMapAll(s: Shot, a: Area) {
    && (forall v :: a.start <= v < a.end ==> v !in s.view)
    && (a.start < a.end && a.framed ==> a.flags != 0)
    && |s.claim.free| >= Cost(a, s.nodes, a.end)
  }

  /** Whether the next page can be mapped, in terms of where the mapping began. */
  lemma NextCanMap(s: Shot, t: Shot, a: Area, v: nat)
    requires MappedUpTo(s, t, a, v) && a.start <= v < a.end
    ensures CanMap(t, a, v) <==>
      v !in s.view && (a.framed ==> a.flags != 0) && |s.claim.free| >= Cost(a, s.nodes, v + 1)
    ensures CanMapAll(s, a) ==> CanMap(t, a, v)
  {
    hide RangeNodes, NodesOf, SameOutside, Settled, ZeroFrame;
    assert SamePage(s, t, v);
    CostNext(a, s.nodes, v);
    CostGrows(a, s.nodes, v + 1, a.end);
  }

  ghost predicate TrackedAreMapped(s: Shot) {
    forall v :: v in s.trackers ==> v in s.view
  }

  /** `Area::map`: all pages in order, up to the first that fails. */
  method MapAll(pt: PageTable, a: Area) returns (r: Result<()>, ghost upto: nat)
    requires pt.Valid() && a.start <= a.end <= VPN_LIMIT && TrackedAreMapped(ShotOf(pt))
    modifies pt, pt.phys
    ensures pt.Valid() && pt.phys.pool.limit == old(pt.phys.pool.limit)
    ensures r.Ok? <==> CanMapAll(old(ShotOf(pt)), a)
    ensures a.start <= upto <= a.end && (r.Ok? ==> upto == a.end)
    ensures r.Ok? ==> MappedUpTo(old(ShotOf(pt)), ShotOf(pt), a, a.end)
    ensures r.Err? ==>
      && upto < a.end && Steps(old(ShotOf(pt)), ShotOf(pt), Interval(a.start, upto))
      && (forall u :: a.start <= u < upto ==> PageOk(ShotOf(pt), a, u))
      && CanMapUpTo(old(ShotOf(pt)), a, upto) && !CanMapUpTo(old(ShotOf(pt)), a, upto + 1)
      && (upto in old(pt.View()) && !a.framed ==> r.error == VPNAlreadyMapped(upto))
  {
    hide Sound, Translation, MappedUpTo, CanMap, CanMapUpTo, MappedOne, Cost, RangeNodes, Steps, PageOk, Pool.Valid;
    ghost var s := ShotOf(pt);
    MappedNone(s, a);
    var v := a.start;
    while v < a.end
      invariant a.start <= v <= a.end
      invariant pt.Valid() && pt.phys.pool.limit == old(pt.phys.pool.limit)
      invariant MappedUpTo(s, ShotOf(pt), a, v)
      invariant CanMapUpTo(s, a, v)
    {
      ghost var t := ShotOf(pt);
      MappedTracked(s, t, a, v);
      NextCanMap(s, t, a, v);
      var m := MapOne(pt, a, v);
      if m.Err? {
        FailedSteps(s, t, ShotOf(pt), a, v);
        return Err(m.error), v;
      }
      MappedNext(s, t, ShotOf(pt), a, v);
      CanMapFurther(s, a, v);
      v := v + 1;
    }
    CanMapEnd(s, a);
    return Ok(()), v;
  }

  /** The pages up to `v` did not stand in the way of mapping. */
  ghost predicate CanMapUpTo(s: Shot, a: Area, v: nat) {
    && (forall u :: a.start <= u < v ==> u !in s.view)
    && (a.start < v && a.framed ==> a.flags != 0)
    && |s.claim.free| >= Cost(a, s.nodes, v)
  }

  lemma CanMapFurther(s: Shot, a: Area, v: nat)
    requires CanMapUpTo(s, a, v) && v !in s.view && (a.framed ==> a.flags != 0)
    requires |s.claim.free| >= Cost(a, s.nodes, v + 1)
    ensures CanMapUpTo(s, a, v + 1)
  {
    hide Cost;
  }

  lemma CanMapEnd(s: Shot, a: Area)
    requires CanMapUpTo(s, a, a.end)
    ensures CanMapAll(s, a)
  {
    hide Cost;
  }

  /** Mapping pages keeps every tracked page mapped. */
  lemma MappedTracked(s: Shot, t: Shot, a: Area, v: nat)
    requires TrackedAreMapped(s) && MappedUpTo(s, t, a, v)
    ensures TrackedAreMapped(t)
  {
    hide Cost, RangeNodes, ZeroFrame, SameOutside, Settled;
    forall u | u in t.trackers ensures u in t.view {
      assert if a.start <= u < v then PageOk(t, a, u) else u !in Interval(a.start, v) && SamePage(s, t, u);
    }
  }

  /** A page that could not be mapped leaves everything as after the pages before it. */
  lemma FailedSteps(s: Shot, t: Shot, t': Shot, a: Area, v: nat)
    requires MappedUpTo(s, t, a, v) && Steps(t, t', {}) && a.start <= v < a.end && !CanMap(t, a, v)
    ensures Steps(s, t', Interval(a.start, v)) && (forall u :: a.start <= u < v ==> PageOk(t', a, u))
    ensures !CanMapAll(s, a) && !CanMapUpTo(s, a, v + 1) && (v in s.view <==> v in t.view)
  {
    hide Cost, RangeNodes, ZeroFrame, SameOutside, Settled;
    NextCanMap(s, t, a, v);
    StepsChain(s, t, t', Interval(a.start, v), {});
    assert Interval(a.start, v) + {} == Interval(a.start, v);
    forall u | a.start <= u < v ensures PageOk(t', a, u) {
      assert PageOk(t, a, u) && SamePage(t, t', u);
    }
    assert SamePage(s, t, v);
  }

  // ---------- unmapping a whole area ----------

  /** Unmapping page `v` for `a` would succeed. */
  ghost predicate CanUnmap(s: Shot, a: Area, v: nat) {
    v in s.view && (a.framed ==> v in s.trackers)
  }

  /** `unmap_one`. */
  method UnmapOne(pt: PageTable, a: Area, vpn: nat) returns (r: Result<nat>)
    requires pt.Valid() && vpn < VPN_LIMIT
    modifies pt, pt.phys
    ensures pt.Valid() && pt.phys.pool.limit == old(pt.phys.pool.limit)
    ensures Steps(old(ShotOf(pt)), ShotOf(pt), {vpn})
    ensures r.Ok? <==> a.start <= vpn < a.end && CanUnmap(old(ShotOf(pt)), a, vpn)
    ensures r.Ok? ==> vpn !in pt.View() && (vpn in pt.trackers <==> !a.framed && vpn in old(pt.trackers))
  {
    hide Sound, Translation, SameOutside, Settled, Owned, Steps, Pool.Free, Pool.Live, Pool.Valid;
    ghost var s := ShotOf(pt);
    if !(a.start <= vpn < a.end) {
      StepsNot(s);
      StepsMore(s, s, {}, {vpn});
      return Err(VPNOutOfArea(vpn, a.start, a.end));
    }
    ghost var now, live, free, dropped := pt.Now(), pt.phys.Live(), pt.phys.Free(), {};
    pt.FreeNotLive();
    if a.framed {
      r, dropped := pt.Unmap(vpn);
    } else {
      r, dropped := pt.UnmapFixed(vpn);
      r := if r.Ok? then Ok(vpn) else r;
    }
    WithoutAgain(s.view, vpn);
    WithoutAgain(s.trackers, vpn);
    StepsIntro(now, live, free, s.mem, s, ShotOf(pt), {vpn});
  }

  /** From `s` to `t` the pages of `a` up to `v` were unmapped. */
  ghost predicate UnmappedUpTo(s: Shot, t: Shot, a: Area, v: nat) {
    && Steps(s, t, Interval(a.start, v))
    && (forall u :: a.start <= u < v ==> u !in t.view && (u in t.trackers <==> !a.framed && u in s.trackers))
  }

  lemma UnmappedNext(s: Shot, t: Shot, t': Shot, a: Area, v: nat)
    requires UnmappedUpTo(s, t, a, v) && a.start <= v && Steps(t, t', {v})
    requires v !in t'.view && (v in t'.trackers <==> !a.framed && v in t.trackers)
    ensures UnmappedUpTo(s, t', a, v + 1)
  {
    hide SameOutside, Settled;
    StepsChain(s, t, t', Interval(a.start, v), {v});
    assert Interval(a.start, v) + {v} == Interval(a.start, v + 1);
    assert v !in Interval(a.start, v) && SamePage(s, t, v);
    forall u | a.start <= u < v ensures u !in t'.view && (u in t'.trackers <==> !a.framed && u in s.trackers) {
      assert u !in {v} && SamePage(t, t', u);
    }
  }

  /** A page not reached yet can be unmapped now if and only if it could at the start. */
  lemma CanStillUnmap(s: Shot, t: Shot, a: Area, v: nat)
    requires UnmappedUpTo(s, t, a, v)
    ensures CanUnmap(t, a, v) <==> CanUnmap(s, a, v)
  {
    hide SameOutside, Settled;
    assert v !in Interval(a.start, v) && SamePage(s, t, v);
  }

  ghost predicate CanUnmapAll(s: Shot, a: Area) {
    forall v :: a.start <= v < a.end ==> CanUnmap(s, a, v)
  }

  /** `Area::unmap`: all pages in order, up to the first that fails. */
  method UnmapAll(pt: PageTable, a: Area) returns (r: Result<()>)
    requires pt.Valid() && a.start <= a.end <= VPN_LIMIT
    modifies pt, pt.phys
    ensures pt.Valid() && pt.phys.pool.limit == old(pt.phys.pool.limit)
    ensures r.Ok? <==> CanUnmapAll(old(ShotOf(pt)), a)
    ensures r.Ok? ==> UnmappedUpTo(old(ShotOf(pt)), ShotOf(pt), a, a.end)
  {
    hide Sound, Translation, CanUnmap, UnmappedUpTo, Steps, Pool.Valid;
    ghost var s := ShotOf(pt);
    UnmappedNone(s, a);
    var v := a.start;
    while v < a.end
      invariant a.start <= v <= a.end
      invariant pt.Valid() && pt.phys.pool.limit == old(pt.phys.pool.limit)
      invariant UnmappedUpTo(s, ShotOf(pt), a, v)
      invariant forall u :: a.start <= u < v ==> CanUnmap(s, a, u)
    {
      ghost var t := ShotOf(pt);
      CanStillUnmap(s, t, a, v);
      var m := UnmapOne(pt, a, v);
      if m.Err? {
        return Err(m.error);
      }
      UnmappedNext(s, t, ShotOf(pt), a, v);
      v := v + 1;
    }
    r := Ok(());
  }

  lemma UnmappedNone(s: Shot, a: Area)
    ensures UnmappedUpTo(s, s, a, a.start)
  {
    hide Steps;
    StepsNot(s);
    assert Interval(a.start, a.start) == {};
  }
}
