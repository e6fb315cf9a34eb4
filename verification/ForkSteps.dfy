/** How far the copy of an address space has come, area by area. */
module ForkSteps {
  import opened Results
  import opened Pools
  import opened Sv39
  import opened Tree
  import opened TableState
  import opened PageTables
  import opened Snapshots
  import opened Areas
  import opened Layouts
  import opened AreaLife
  import opened Forks

  /** With no exclusions given, every area is skipped. */
  predicate Keeps(exclude: Option<set<Key>>, k: Key) {
    exclude.Some? && k !in exclude.value
  }

  /** The areas kept, apart from those still to be looked at. */
  ghost function KeptOf(areas: AreaSet, exclude: Option<set<Key>>, todo: set<Key>): AreaSet {
    map k | k in areas && Keeps(exclude, k) && k !in todo :: areas[k]
  }

  /**
   `mine` are the areas that a copy without the ranges of `exclude` has: with exclusions given, exactly the others, each
   with its permissions and bytes; with none given, no area at all.
   */
  ghost predicate Inherits(t: Shot, ss: Shot, mine: AreaSet, areas: AreaSet, exclude: Option<set<Key>>) {
    match exclude
    case None => mine == map[]
    case Some(ranges) =>
      && (forall k :: k in mine ==> k in areas && k !in ranges)
      && (forall k :: k in areas && k !in ranges ==> k in mine && mine[k] == areas[k] && SameArea(t, ss, areas[k]))
  }

  lemma KeptInherits(t: Shot, ss: Shot, mine: AreaSet, areas: AreaSet, exclude: Option<set<Key>>)
    requires mine == KeptOf(areas, exclude, {}) && forall k :: k in mine ==> SameArea(t, ss, mine[k])
    ensures Inherits(t, ss, mine, areas, exclude)
  {
    hide SameArea;
  }

  ghost predicate Halfway(t: Shot, ss: Shot, areas: AreaSet, exclude: Option<set<Key>>, todo: set<Key>, mine: AreaSet,
    used: set<nat>) {
    && mine == KeptOf(areas, exclude, todo)
    && (forall k :: k in mine ==> SameArea(t, ss, mine[k]))
    && (TRAMPOLINE_VPN in t.view ==> TRAMPOLINE_VPN in used)
  }

  /** The next area finds its range free, and the trampoline page is not in its way. */
  lemma NextFits(t: Shot, ss: Shot, areas: AreaSet, exclude: Option<set<Key>>, todo: set<Key>, mine: AreaSet,
    used: set<nat>, k: Key)
    requires Keyed(areas) && Apart(areas) && k in areas && k in todo
    requires Halfway(t, ss, areas, exclude, todo, mine, used) && Laid(t, mine, used)
    ensures Fits(areas[k], used) && !StopsAtTrampoline(t, areas[k])
  {
    hide PageOk, SameArea, CanMapUpTo;
    forall v | v in PagesOf(areas[k]) ensures v !in used {
      assert InRange(k, v);
      forall l | l in mine ensures !InRange(l, v) {
        assert l in areas && l != k;
      }
    }
    assert areas[k].start <= TRAMPOLINE_VPN < areas[k].end ==> TRAMPOLINE_VPN in PagesOf(areas[k]);
  }

  lemma SameAreaElsewhere(t: Shot, u: Shot, ss: Shot, pages: set<nat>, a: Area)
    requires SameArea(t, ss, a) && Steps(t, u, pages) && pages !! PagesOf(a)
    ensures SameArea(u, ss, a)
  {
    hide SameOutside, Settled;
    forall v | a.start <= v < a.end ensures PageOk(u, a, v) && v in u.trackers && BytesOf(u, v) == BytesOf(ss, v) {
      assert v in PagesOf(a) && v !in pages && SamePage(t, u, v) && PageOk(t, a, v);
    }
  }

  lemma NextHalfway(t: Shot, u: Shot, ss: Shot, areas: AreaSet, exclude: Option<set<Key>>, todo: set<Key>,
                    mine: AreaSet,
    used: set<nat>, k: Key)
    requires Keyed(areas) && Apart(areas) && k in areas && k in todo && Keeps(exclude, k)
    requires Halfway(t, ss, areas, exclude, todo, mine, used)
    requires Steps(t, u, PagesOf(areas[k])) && SameArea(u, ss, areas[k])
    ensures Halfway(u, ss, areas, exclude, todo - {k}, mine[k := areas[k]], used + PagesOf(areas[k]))
  {
    hide SameArea, SameOutside, Settled, PageOk;
    var a := areas[k];
    forall l | l in mine ensures SameArea(u, ss, mine[l]) {
      forall v | v in PagesOf(a) ensures v !in PagesOf(mine[l]) {
        assert InRange(k, v) && (v in PagesOf(mine[l]) <==> InRange(l, v));
      }
      SameAreaElsewhere(t, u, ss, PagesOf(a), mine[l]);
    }
    assert TRAMPOLINE_VPN !in PagesOf(a) ==> SamePage(t, u, TRAMPOLINE_VPN);
    assert mine[k := a] == KeptOf(areas, exclude, todo - {k});
  }

  lemma SkipHalfway(t: Shot, ss: Shot, areas: AreaSet, exclude: Option<set<Key>>, todo: set<Key>, mine: AreaSet,
    used: set<nat>, k: Key)
    requires Halfway(t, ss, areas, exclude, todo, mine, used) && !Keeps(exclude, k)
    ensures Halfway(t, ss, areas, exclude, todo - {k}, mine, used)
  {
    hide SameArea;
    assert KeptOf(areas, exclude, todo - {k}) == KeptOf(areas, exclude, todo);
  }

  // ---------- frames enough ----------

  lemma {:induction false} FewNodes(lo: nat, hi: nat)
    requires lo <= hi
    ensures |RangeNodes(lo, hi)| <= 2 * (hi - lo)
    decreases hi - lo
  {
    if lo < hi {
      FewNodes(lo, hi - 1);
      assert NodesOf(hi - 1) == {NodeOn(hi - 1, 1), NodeOn(hi - 1, 2)};
      UnionSize(RangeNodes(lo, hi - 1), NodesOf(hi - 1));
    }
  }

  lemma UnionSize<T>(a: set<T>, b: set<T>)
    ensures |a + b| <= |a| + |b|
  {
    assert a + b == a + (b - a);
    SubsetSize(b - a, b);
  }

  /** Each page costs three frames at most: its own and two mappers. */
  lemma CostBound(a: Area, nodes: set<Node>)
    requires a.start <= a.end
    ensures Cost(a, nodes, a.end) <= 3 * (a.end - a.start)
  {
    hide RangeNodes;
    FewNodes(a.start, a.end);
    SubsetSize(RangeNodes(a.start, a.end) - nodes, RangeNodes(a.start, a.end));
  }

  ghost predicate PageLeft(areas: AreaSet, exclude: Option<set<Key>>, todo: set<Key>, v: nat) {
    exists k :: k in areas && k in todo && Keeps(exclude, k) && InRange(k, v)
  }

  /** The pages of the areas still to be copied. */
  ghost function PagesLeft(areas: AreaSet, exclude: Option<set<Key>>, todo: set<Key>): set<nat> {
    set v | v in Interval(0, VPN_LIMIT) && PageLeft(areas, exclude, todo, v)
  }

  /** Three frames for each page left, and two for the mappers of the trampoline page. */
  ghost predicate Roomy(areas: AreaSet, exclude: Option<set<Key>>, todo: set<Key>, free: set<nat>) {
    |free| >= 3 * |PagesLeft(areas, exclude, todo)| + 2
  }

  /** From `all` areas to copy down to `todo`, each page took three frames at most. */
  ghost predicate Spent(areas: AreaSet, exclude: Option<set<Key>>, all: set<Key>, todo: set<Key>, before: set<nat>,
                        free: set<nat>) {
    |free| + 3 * |PagesLeft(areas, exclude, all)| >= |before| + 3 * |PagesLeft(areas, exclude, todo)|
  }

  lemma SpentMore(areas: AreaSet, exclude: Option<set<Key>>, all: set<Key>, todo: set<Key>, k: Key, before: set<nat>,
                  mid: set<nat>, free: set<nat>, nodes: set<Node>)
    requires Spent(areas, exclude, all, todo, before, mid) && Keyed(areas) && Apart(areas) && k in areas && k in todo
      && Keeps(exclude, k)
    requires |free| + Cost(areas[k], nodes, areas[k].end) == |mid|
    ensures Spent(areas, exclude, all, todo - {k}, before, free)
  {
    OneAreaLess(areas, exclude, todo, k);
    CostBound(areas[k], nodes);
    hide PagesLeft, Cost, Apart;
  }

  lemma OneAreaLess(areas: AreaSet, exclude: Option<set<Key>>, todo: set<Key>, k: Key)
    requires Keyed(areas) && Apart(areas) && k in areas && k in todo && Keeps(exclude, k)
    ensures |PagesLeft(areas, exclude, todo)| == |PagesLeft(areas, exclude, todo - {k})| + (k.1 - k.0)
  {
    var now, later, mine := PagesLeft(areas, exclude, todo), PagesLeft(areas, exclude, todo - {k}), PagesOf(areas[k]);
    forall v ensures v in now <==> v in later || v in mine {
      if v in mine {
        assert InRange(k, v);
      }
      if v in now && v !in mine {
        var l :| l in areas && l in todo && Keeps(exclude, l) && InRange(l, v);
        assert l in todo - {k};
      }
    }
    forall v | v in mine ensures v !in later {
      assert InRange(k, v);
    }
    assert now == later + mine && later !! mine;
    IntervalSize(k.0, k.1);
  }

  lemma FewerPages(areas: AreaSet, exclude: Option<set<Key>>, todo: set<Key>, less: set<Key>)
    requires less <= todo
    ensures |PagesLeft(areas, exclude, less)| <= |PagesLeft(areas, exclude, todo)|
  {
    SubsetSize(PagesLeft(areas, exclude, less), PagesLeft(areas, exclude, todo));
  }

  lemma TwoNodes(v: nat, nodes: set<Node>)
    ensures |NodesOf(v) - nodes| <= 2
  {
    assert NodesOf(v) == {NodeOn(v, 1), NodeOn(v, 2)};
    SubsetSize(NodesOf(v) - nodes, NodesOf(v));
  }

  /** Every kept area owns frames, and none of them lies over the trampoline page. */
  ghost predicate Copyable(areas: AreaSet, exclude: Option<set<Key>>) {
    forall k :: k in areas && Keeps(exclude, k) ==> areas[k].framed && !InRange(k, TRAMPOLINE_VPN)
  }

  /** With three frames for each page still to be copied, the next area can be mapped. */
  lemma NextCanMapAll(t: Shot, ss: Shot, areas: AreaSet, exclude: Option<set<Key>>, todo: set<Key>, mine: AreaSet,
    used: set<nat>, k: Key)
    requires Keyed(areas) && Apart(areas) && k in areas && k in todo && Keeps(exclude, k)
    requires Halfway(t, ss, areas, exclude, todo, mine, used) && Laid(t, mine, used)
    requires |t.claim.free| >= 3 * |PagesLeft(areas, exclude, todo)| + 2
    ensures CanMapAll(t, areas[k])
    ensures |t.claim.free| - Cost(areas[k], t.nodes, areas[k].end) >= 3 * |PagesLeft(areas, exclude, todo - {k})| + 2
  {
    NextFits(t, ss, areas, exclude, todo, mine, used, k);
    hide PagesLeft, SameArea, PageOk, Cost;
    OneAreaLess(areas, exclude, todo, k);
    CostBound(areas[k], t.nodes);
    forall v | areas[k].start <= v < areas[k].end ensures v !in t.view {
      assert v in PagesOf(areas[k]);
    }
  }

  /** When all areas are done, the trampoline page is still unmapped. */
  lemma TrampolineFree(t: Shot, ss: Shot, areas: AreaSet, exclude: Option<set<Key>>, mine: AreaSet, used: set<nat>)
    requires Halfway(t, ss, areas, exclude, {}, mine, used) && Laid(t, mine, used) && Copyable(areas, exclude)
    ensures TRAMPOLINE_VPN !in t.view
  {
    hide SameArea, PageOk;
    forall k | k in mine ensures !InRange(k, TRAMPOLINE_VPN) {
      assert k in areas && Keeps(exclude, k);
    }
  }
}
