/** New address spaces: bare ones, and copies of others. */
module UserSpaces {
  import opened Bytes
  import opened Results
  import opened Pools
  import opened Physical
  import opened Sv39
  import opened Tree
  import opened TableState
  import opened PageTables
  import opened Snapshots
  import opened RangeRuns
  import opened RangeAllocator
  import opened Areas
  import opened Layouts
  import opened AreaLife
  import opened PageBytes
  import opened Neighbours
  import opened Spaces
  import opened TableLife
  import opened Forks
  import opened ForkSteps
  import opened StackLayout

  /** Two spaces in the same memory that share no frame and no part. */
  ghost predicate Strangers(a: Space, b: Space)
    reads a.pageTable, b.pageTable, a.ranges, b.ranges
  {
    && a != b && a.ranges != b.ranges && Beside(a.pageTable, b.pageTable)
    && forall n :: n in a.ranges.nodes ==> n !in b.ranges.nodes
  }

  /** A frame taken by nobody before leaves a table as it was. */
  lemma NewcomerKeeps(s: Shot, t: Shot, p: nat, o: Table)
    requires Sound(s.mem, s.claim.live, o) && p !in s.claim.live && t.claim.live == s.claim.live + {p}
      && SameOutside(s.mem, t.mem, {p})
    ensures Sound(t.mem, t.claim.live, o) && p !in Owned(o) && Untouched(ShotFor(o, s), ShotFor(o, t))
  {
    hide Sound, Translation;
    OwnedParts(s.mem, s.claim.live, o);
    FrameKeeps(s.mem, t.mem, s.claim.live, t.claim.live, o);
  }

  /** `new_bare`: a root mapper, and nothing mapped. */
  method NewBare(asid: nat, phys: PhysicalMemory) returns (r: Result<Space>)
    requires phys.Valid()
    modifies phys
    ensures phys.Valid() && phys.pool.limit == old(phys.pool.limit)
    ensures r.Err? <==> old(phys.Free()) == {}
    ensures r.Err? ==> r.error == FrameExhausted && phys.frames == old(phys.frames) && phys.pool == old(phys.pool)
    ensures r.Ok? ==>
      var made := r.value;
      && fresh(made) && fresh(made.pageTable) && fresh(made.ranges) && fresh(made.ranges.nodes)
      && made.pageTable.phys == phys && made.Valid() && made.areaSet == map[] && made.pageTable.View() == map[]
      && made.ranges.Used() == {}
    ensures r.Ok? ==>
      var p := r.value.pageTable.root.ppn;
      && p in old(phys.Free()) && p !in old(phys.Live()) && Owned(r.value.pageTable.Now()) == {p}
      && phys.Live() == old(phys.Live()) + {p} && phys.Free() == old(phys.Free()) - {p}
      && SameOutside(old(phys.frames), phys.frames, {p})
  {
    hide Sound, Translation, Owned, Agrees, Tight, Pool.Free, Pool.Live, Pool.Valid, Chain, Shows, Ordered, Alternating,
      UsedPages, ZeroFrame, Laid;
    var f := phys.AllocFrame();
    if f.Err? {
      return Err(f.error);
    }
    var pageTable := new PageTable(asid, phys, f.value);
    var ranges := new LinkedListPageRangeAllocator(0, VPN_LIMIT);
    var space := new Space(pageTable, ranges);
    BareLaid(ShotOf(pageTable));
    r := Ok(space);
  }

  lemma BareLaid(s: Shot)
    requires s.view == map[] && s.trackers == map[]
    ensures Laid(s, map[], {})
  {
  }

  /** Copies one area of `another` into `child`: `Area::from_another`, then `push`. */
  method CopyOne(child: Space, another: Space, a: Area) returns (r: Outcome<()>)
    requires child.Valid() && another.Valid() && Strangers(child, another)
    requires KeyOf(a) in another.areaSet && another.areaSet[KeyOf(a)] == a
    modifies child`areaSet, child.pageTable, child.pageTable.phys, child.ranges`nodes, child.ranges`marks
    modifies child.ranges.nodes
    ensures forall n :: n in child.ranges.nodes ==> n in old(child.ranges.nodes) || fresh(n)
    ensures r.Panic? <==>
      && Fits(a, old(child.ranges.Used())) && !CanMapAll(old(ShotOf(child.pageTable)), a)
      && !StopsAtTrampoline(old(ShotOf(child.pageTable)), a)
    ensures r.Done? ==>
      && child.Valid() && another.Valid() && Strangers(child, another)
        && child.pageTable.phys.pool.limit == old(child.pageTable.phys.pool.limit)
      && Untouched(old(ShotOf(another.pageTable)), ShotOf(another.pageTable))
      && Steps(old(ShotOf(child.pageTable)), ShotOf(child.pageTable), PagesOf(a))
    ensures r.Done? && r.result.Ok? <==>
      Fits(a, old(child.ranges.Used())) && CanMapAll(old(ShotOf(child.pageTable)), a) && a.framed
    ensures r.Done? && r.result.Ok? ==>
      && child.areaSet == old(child.areaSet)[KeyOf(a) := a]
      && child.ranges.Used() == old(child.ranges.Used()) + PagesOf(a)
      && SameArea(ShotOf(child.pageTable), old(ShotOf(another.pageTable)), a)
      && |child.pageTable.phys.Free()| + Cost(a, old(child.pageTable.at.Keys), a.end) ==
        |old(child.pageTable.phys.Free())|
    ensures r.Done? && r.result.Err? ==>
      child.areaSet == old(child.areaSet) && child.ranges.Used() == old(child.ranges.Used())
    ensures !Fits(a, old(child.ranges.Used())) <==> r == Done(Err(AreaAllocFailed(a.start, a.end)))
  {
    hide Sound, Translation, Owned, CanMapAll, StopsAtTrampoline, Fits, Laid, Steps, AllOk, SameArea, Rewrites, Spliced;
    hide Pool.Valid, Pool.Free, Pool.Live, Chain, Shows, Ordered, Alternating, UsedPages, Untouched, Cost, Refused;
    ghost var ss := ShotOf(another.pageTable);
    LaidAreaOk(ss, another.areaSet, another.ranges.Used(), a);
    assert forall i :: 0 <= i < |another.ranges.nodes| ==> another.ranges.nodes[i] in another.ranges.nodes;
    var f := FromAnother(child.pageTable, child.ranges, another.pageTable, a, child.areaSet);
    if f.Panic? {
      return Panic;
    }
    assert another.ranges.Valid();
    UntouchedLaid(ss, ShotOf(another.pageTable), another.areaSet, another.ranges.Used());
    if f.result.Err? {
      return Done(Err(f.result.error));
    }
    r := child.Push(a, 0, None);
    UntouchedSelf(ShotOf(another.pageTable));
  }

  /** `child` has the kept areas of `another`, with the same permissions and bytes, on frames of its own. */
  ghost predicate Forked(child: Space, another: Space, exclude: Option<set<Key>>)
    reads child, child.pageTable, child.pageTable.phys, child.ranges, child.ranges.nodes
    reads another, another.pageTable, another.pageTable.phys, another.ranges, another.ranges.nodes
  {
    && child.Valid() && another.Valid() && Strangers(child, another)
    && child.areaSet == KeptOf(another.areaSet, exclude, {})
    && forall k :: k in child.areaSet ==> SameArea(ShotOf(child.pageTable), ShotOf(another.pageTable), child.areaSet[k])
  }

  /** Frames for all pages to copy, for their mappers, for the root and for the trampoline page. */
  ghost predicate Ample(areas: AreaSet, exclude: Option<set<Key>>, free: set<nat>) {
    Copyable(areas, exclude) && |free| >= 3 * |PagesLeft(areas, exclude, areas.Keys)| + 3
  }

  lemma LaidParts(s: Shot, areas: AreaSet, used: set<nat>)
    requires Laid(s, areas, used)
    ensures Keyed(areas) && Apart(areas)
  {
  }

  lemma HalfwayStart(t: Shot, ss: Shot, areas: AreaSet, exclude: Option<set<Key>>, used: set<nat>)
    requires t.view == map[]
    ensures Halfway(t, ss, areas, exclude, areas.Keys, map[], used)
  {
    hide SameArea;
    assert KeptOf(areas, exclude, areas.Keys) == map[];
  }

  /** The space that is being copied still is as `ss` shows it. */
  ghost predicate Source(ss: Shot, another: Space)
    requires |another.ranges.marks| >= 2
    reads another, another.pageTable, another.pageTable.phys, another.ranges
  {
    Owns(ss) && Laid(ss, another.areaSet, another.ranges.Used()) && Untouched(ss, ShotOf(another.pageTable))
  }

  /** One kept area more. */
  method CopyNext(child: Space, another: Space, exclude: Option<set<Key>>, ghost todo: set<Key>, k: Key,
    ghost ss: Shot) returns (r: Outcome<()>)
    requires child.Valid() && another.Valid() && Strangers(child, another) && k in another.areaSet && k in todo
      && Keeps(exclude, k)
    requires Halfway(ShotOf(child.pageTable), ss, another.areaSet, exclude, todo, child.areaSet, child.ranges.Used())
    requires Source(ss, another)
    modifies child`areaSet, child.pageTable, child.pageTable.phys, child.ranges`nodes, child.ranges`marks
    modifies child.ranges.nodes
    ensures forall n :: n in child.ranges.nodes ==> n in old(child.ranges.nodes) || fresh(n)
    ensures r.Done? ==>
      && child.Valid() && another.Valid() && Strangers(child, another)
        && child.pageTable.phys.pool.limit == old(child.pageTable.phys.pool.limit)
      && Source(ss, another) && Settled(old(child.pageTable.Claims()), child.pageTable.Claims())
    ensures r.Done? && r.result.Ok? ==>
      Halfway(ShotOf(child.pageTable), ss, another.areaSet, exclude, todo - {k}, child.areaSet, child.ranges.Used())
    ensures r.Done? && r.result.Ok? ==> forall all, before ::
      Spent(another.areaSet, exclude, all, todo, before, old(child.pageTable.phys.Free())) ==>
      Spent(another.areaSet, exclude, all, todo - {k}, before, child.pageTable.phys.Free())
    ensures Roomy(another.areaSet, exclude, todo, old(child.pageTable.phys.Free())) ==>
      (k in another.areaSet && another.areaSet[k].framed ==>
       r.Done? && r.result.Ok? && Roomy(another.areaSet, exclude, todo - {k}, child.pageTable.phys.Free()))
  {
    hide Sound, Translation, Owned, CanMapAll, StopsAtTrampoline, Fits, Laid, Steps, AllOk, SameArea, Halfway;
    hide PagesLeft, Apart, Spent;
    hide Pool.Valid, Pool.Free, Pool.Live, Chain, Shows, Ordered, Alternating, UsedPages, Untouched, Cost, Owns;
    var a := another.areaSet[k];
    ghost var t, st, areas, mine, used := ShotOf(child.pageTable), ShotOf(another.pageTable), another.areaSet,
      child.areaSet, child.ranges.Used();
    LaidParts(ss, areas, another.ranges.Used());
    LaidAreaOk(ss, areas, another.ranges.Used(), a);
    hide Keyed;
    NextFits(t, ss, areas, exclude, todo, mine, used, k);
    if Roomy(areas, exclude, todo, child.pageTable.phys.Free()) {
      NextCanMapAll(t, ss, areas, exclude, todo, mine, used, k);
    }
    r := CopyOne(child, another, a);
    if r.Done? {
      StepsSettle(t, ShotOf(child.pageTable), PagesOf(a));
      UntouchedChain(ss, st, ShotOf(another.pageTable));
      if r.result.Ok? {
        SameAreaStill(ShotOf(child.pageTable), ss, st, a);
        forall all, before | Spent(areas, exclude, all, todo, before, t.claim.free)
          ensures Spent(areas, exclude, all, todo - {k}, before, child.pageTable.phys.Free())
        {
          SpentMore(areas, exclude, all, todo, k, before, t.claim.free, child.pageTable.phys.Free(), t.nodes);
        }
        NextHalfway(t, ShotOf(child.pageTable), ss, areas, exclude, todo, mine, used, k);
      }
    }
  }

  /** The loop of `new_user_from_another`. */
  method CopyAll(child: Space, another: Space, exclude: Option<set<Key>>) returns (r: Outcome<()>)
    requires child.Valid() && another.Valid() && Strangers(child, another)
    requires child.areaSet == map[] && child.pageTable.View() == map[]
    modifies child`areaSet, child.pageTable, child.pageTable.phys, child.ranges`nodes, child.ranges`marks
    modifies child.ranges.nodes
    ensures forall n :: n in child.ranges.nodes ==> n in old(child.ranges.nodes) || fresh(n)
    ensures r.Done? ==>
      && child.Valid() && another.Valid() && Strangers(child, another)
        && child.pageTable.phys.pool.limit == old(child.pageTable.phys.pool.limit)
      && Untouched(old(ShotOf(another.pageTable)), ShotOf(another.pageTable))
      && Settled(old(child.pageTable.Claims()), child.pageTable.Claims())
    ensures r.Done? && r.result.Ok? ==>
      Halfway(ShotOf(child.pageTable), old(ShotOf(another.pageTable)), another.areaSet, exclude, {}, child.areaSet,
        child.ranges.Used())
    ensures Roomy(another.areaSet, exclude, another.areaSet.Keys, old(child.pageTable.phys.Free())) ==>
      (Copyable(another.areaSet, exclude) ==>
       r.Done? && r.result.Ok? && |child.pageTable.phys.Free()| >= 2)
    ensures r.Done? && r.result.Ok? ==>
      Spent(another.areaSet, exclude, another.areaSet.Keys, {}, old(child.pageTable.phys.Free()),
            child.pageTable.phys.Free())
  {
    hide Sound, Translation, Owned, CanMapAll, StopsAtTrampoline, Fits, Laid, Steps, AllOk, SameArea, Halfway;
    hide PagesLeft, Keyed, Apart;
    hide Pool.Valid, Pool.Free, Pool.Live, Chain, Shows, Ordered, Alternating, UsedPages, Untouched, Cost;
    ghost var ss, areas := ShotOf(another.pageTable), another.areaSet;
    ghost var ample := Copyable(areas, exclude) && Roomy(areas, exclude, areas.Keys, child.pageTable.phys.Free());
    var todo := another.areaSet.Keys;
    LaidParts(ss, areas, another.ranges.Used());
    HalfwayStart(ShotOf(child.pageTable), ss, areas, exclude, child.ranges.Used());
    UntouchedSelf(ss);
    TableOwns(another.pageTable);
    SettledNot(child.pageTable.Claims());
    while todo != {}
      invariant todo <= areas.Keys && child.Valid() && another.Valid() && Strangers(child, another)
      invariant child.pageTable.phys.pool.limit == old(child.pageTable.phys.pool.limit)
      invariant forall n :: n in child.ranges.nodes ==> n in old(child.ranges.nodes) || fresh(n)
      invariant Source(ss, another) && Settled(old(child.pageTable.Claims()), child.pageTable.Claims())
      invariant Halfway(ShotOf(child.pageTable), ss, areas, exclude, todo, child.areaSet, child.ranges.Used())
      invariant ample ==> Roomy(areas, exclude, todo, child.pageTable.phys.Free())
      invariant Spent(areas, exclude, areas.Keys, todo, old(child.pageTable.phys.Free()), child.pageTable.phys.Free())
      decreases |todo|
    {
      var k :| k in todo;
      assert forall i :: 0 <= i < |child.ranges.nodes| ==> child.ranges.nodes[i] in child.ranges.nodes;
      if Keeps(exclude, k) {
        ghost var mid := child.pageTable.Claims();
        r := CopyNext(child, another, exclude, todo, k, ss);
        if r.Done? {
          SettledChain(old(child.pageTable.Claims()), mid, child.pageTable.Claims());
        }
        if r.Panic? || r.result.Err? {
          return;
        }
      } else {
        SkipHalfway(ShotOf(child.pageTable), ss, areas, exclude, todo, child.areaSet, child.ranges.Used(), k);
        FewerPages(areas, exclude, todo, todo - {k});
      }
      todo := todo - {k};
    }
    r := Done(Ok(()));
  }

  /** Mapping the trampoline page leaves the copies what they are. */
  lemma CopiesStay(t: Shot, u: Shot, ss: Shot, ss': Shot, areas: AreaSet, exclude: Option<set<Key>>, mine: AreaSet,
    used: set<nat>)
    requires Halfway(t, ss, areas, exclude, {}, mine, used) && Steps(t, u, {TRAMPOLINE_VPN})
    requires TRAMPOLINE_VPN !in t.view
    requires Untouched(ss, ss') && Owns(ss)
    ensures mine == KeptOf(areas, exclude, {}) && forall k :: k in mine ==> SameArea(u, ss', mine[k])
  {
    hide Steps;
    forall k | k in mine ensures SameArea(u, ss', mine[k]) {
      var a := mine[k];
      forall v | v in PagesOf(a) ensures v != TRAMPOLINE_VPN {
        assert PageOk(t, a, v);
      }
      SameAreaElsewhere(t, u, ss, {TRAMPOLINE_VPN}, a);
      OkStays(ss, ss', a);
      forall v | a.start <= v < a.end ensures v in ss'.trackers && BytesOf(ss', v) == BytesOf(ss, v) {
        UntouchedPage(ss, ss', v);
      }
    }
  }

  lemma TrampolineFits(pt: PageTable, t: Shot, ss: Shot, areas: AreaSet, exclude: Option<set<Key>>, mine: AreaSet,
                       used: set<nat>)
    requires Halfway(t, ss, areas, exclude, {}, mine, used) && Laid(t, mine, used)
    ensures Copyable(areas, exclude) ==> TRAMPOLINE_VPN !in t.view
    ensures |pt.Missing(TRAMPOLINE_VPN)| <= 2
  {
    hide Halfway, Laid, Copyable, NodesOf;
    if Copyable(areas, exclude) {
      TrampolineFree(t, ss, areas, exclude, mine, used);
    }
    TwoNodes(TRAMPOLINE_VPN, pt.at.Keys);
  }

  /** The last step of `new_user_from_another`. */
  method Finish(child: Space, another: Space, exclude: Option<set<Key>>, trampoline: nat,
                ghost ss: Shot) returns (r: Result<()>)
    requires child.Valid() && another.Valid() && Strangers(child, another) && trampoline < PPN_LIMIT
    requires Halfway(ShotOf(child.pageTable), ss, another.areaSet, exclude, {}, child.areaSet, child.ranges.Used())
    requires Owns(ss) && Untouched(ss, ShotOf(another.pageTable))
    modifies child.pageTable, child.pageTable.phys
    ensures child.Valid() && another.Valid() && Strangers(child, another)
    ensures child.pageTable.phys.pool.limit == old(child.pageTable.phys.pool.limit)
    ensures Untouched(ss, ShotOf(another.pageTable)) && Settled(old(child.pageTable.Claims()), child.pageTable.Claims())
    ensures r.Ok? ==>
      && Forked(child, another, exclude) && TRAMPOLINE_VPN in child.pageTable.View()
      && child.pageTable.View()[TRAMPOLINE_VPN] == Plain(trampoline, WithValid(RX_FLAGS))
    ensures Copyable(another.areaSet, exclude) && |old(child.pageTable.phys.Free())| >= 2 ==> r.Ok?
    ensures r.Ok? ==> |child.pageTable.phys.Free()| + 2 >= |old(child.pageTable.phys.Free())|
  {
    hide Sound, Translation, Owned, Laid, Steps, SameArea, Owns, Copyable, WithValid, Halfway, KeptOf, NodesOf;
    hide Pool.Valid, Pool.Free, Pool.Live, Chain, Shows, Ordered, Alternating, UsedPages, Untouched;
    ghost var t, st := ShotOf(child.pageTable), ShotOf(another.pageTable);
    TrampolineFits(child.pageTable, t, ss, another.areaSet, exclude, child.areaSet, child.ranges.Used());
    child.pageTable.FreeNotLive();
    hide PageTable.Missing;
    r := child.MapTrampoline(trampoline);
    assert another.ranges.Valid() && another.ranges.Used() == old(another.ranges.Used());
    ghost var pages := if r.Ok? then {TRAMPOLINE_VPN} else {};
    OtherKeeps(t, ShotOf(child.pageTable), pages, another.pageTable.Now());
    StepsSettle(t, ShotOf(child.pageTable), pages);
    assert another.pageTable.Valid();
    assert ShotOf(another.pageTable) == ShotFor(another.pageTable.Now(), ShotOf(child.pageTable));
    UntouchedLaid(st, ShotOf(another.pageTable), another.areaSet, another.ranges.Used());
    UntouchedChain(ss, st, ShotOf(another.pageTable));
    if r.Ok? {
      CopiesStay(t, ShotOf(child.pageTable), ss, ShotOf(another.pageTable), another.areaSet, exclude, child.areaSet,
        child.ranges.Used());
    }
  }

  /** A bare space in the same memory as `another`, which does not notice. */
  method NewBeside(asid: nat, another: Space) returns (r: Result<Space>)
    requires another.Valid()
    modifies another.pageTable.phys
    ensures another.Valid() && another.pageTable.phys.pool.limit == old(another.pageTable.phys.pool.limit)
    ensures Untouched(old(ShotOf(another.pageTable)), ShotOf(another.pageTable))
    ensures r.Err? <==> old(another.pageTable.phys.Free()) == {}
    ensures r.Ok? ==>
      && fresh(r.value) && fresh(r.value.pageTable) && fresh(r.value.ranges)
        && (forall n :: n in r.value.ranges.nodes ==> fresh(n))
      && r.value.Valid() && Strangers(r.value, another) && r.value.areaSet == map[] && r.value.pageTable.View() == map[]
      && Owned(r.value.pageTable.Now()) + another.pageTable.phys.Free() == old(another.pageTable.phys.Free())
      && another.pageTable.phys.Live() - Owned(r.value.pageTable.Now()) == old(another.pageTable.phys.Live())
      && |another.pageTable.phys.Free()| + 1 == |old(another.pageTable.phys.Free())|
    ensures r.Err? ==> another.pageTable.phys.pool == old(another.pageTable.phys.pool)
  {
    hide Sound, Translation, Owned, Laid, SameOutside, Untouched;
    hide Pool.Valid, Pool.Free, Pool.Live, Chain, Shows, Ordered, Alternating, UsedPages;
    ghost var ss := ShotOf(another.pageTable);
    assert forall i :: 0 <= i < |another.ranges.nodes| ==> another.ranges.nodes[i] in another.ranges.nodes;
    r := NewBare(asid, another.pageTable.phys);
    assert another.ranges.Valid() && another.ranges.Used() == old(another.ranges.Used());
    if r.Err? {
      UntouchedSelf(ss);
      return;
    }
    NewcomerKeeps(ss, ShotOf(r.value.pageTable), r.value.pageTable.root.ppn, another.pageTable.Now());
    UntouchedLaid(ss, ShotOf(another.pageTable), another.areaSet, another.ranges.Used());
  }

  method CopyAndFinish(child: Space, another: Space, exclude: Option<set<Key>>,
                       trampoline: nat) returns (r: Outcome<()>)
    requires child.Valid() && another.Valid() && Strangers(child, another) && trampoline < PPN_LIMIT
    requires child.areaSet == map[] && child.pageTable.View() == map[]
    modifies child`areaSet, child.pageTable, child.pageTable.phys, child.ranges`nodes, child.ranges`marks
    modifies child.ranges.nodes
    ensures forall n :: n in child.ranges.nodes ==> n in old(child.ranges.nodes) || fresh(n)
    ensures r.Done? ==>
      && child.Valid() && another.Valid() && Strangers(child, another)
      && another.pageTable.phys.pool.limit == old(another.pageTable.phys.pool.limit)
      && Untouched(old(ShotOf(another.pageTable)), ShotOf(another.pageTable))
      && Settled(old(child.pageTable.Claims()), child.pageTable.Claims())
    ensures r.Done? && r.result.Ok? ==>
      && Forked(child, another, exclude) && TRAMPOLINE_VPN in child.pageTable.View()
      && child.pageTable.View()[TRAMPOLINE_VPN] == Plain(trampoline, WithValid(RX_FLAGS))
    ensures Roomy(another.areaSet, exclude, another.areaSet.Keys, old(child.pageTable.phys.Free())) ==>
      (Copyable(another.areaSet, exclude) ==>
       r.Done? && r.result.Ok?)
    ensures r.Done? && r.result.Ok? ==>
      |child.pageTable.phys.Free()| + 3 * |PagesLeft(another.areaSet, exclude, another.areaSet.Keys)| + 2 >=
        |old(child.pageTable.phys.Free())|
  {
    hide Sound, Translation, Owned, Laid, SameArea, Halfway, PagesLeft, Copyable, WithValid, Forked, KeptOf, Owns;
    hide Pool.Valid, Pool.Free, Pool.Live, Chain, Shows, Ordered, Alternating, UsedPages, Untouched, Settled;
    ghost var ss := ShotOf(another.pageTable);
    TableOwns(another.pageTable);
    r := CopyAll(child, another, exclude);
    if r.Panic? || r.result.Err? {
      return;
    }
    ghost var mid := child.pageTable.Claims();
    var f := Finish(child, another, exclude, trampoline, ss);
    SettledChain(old(child.pageTable.Claims()), mid, child.pageTable.Claims());
    r := Done(f);
  }

  /** A half-made copy is dropped, and every frame it took is free again. */
  method DropCopy(child: Space, another: Space)
    requires child.Valid() && another.Valid() && Strangers(child, another)
    modifies child`areaSet, child.pageTable, child.pageTable.phys, child.ranges`nodes, child.ranges`marks
    modifies child.ranges.nodes
    ensures another.Valid() && another.pageTable.phys.pool.limit == old(another.pageTable.phys.pool.limit)
    ensures Untouched(old(ShotOf(another.pageTable)), ShotOf(another.pageTable))
    ensures another.pageTable.phys.Free() == old(another.pageTable.phys.Free()) + old(Owned(child.pageTable.Now()))
    ensures another.pageTable.phys.Live() == old(another.pageTable.phys.Live()) - old(Owned(child.pageTable.Now()))
  {
    hide Sound, Translation, Owned, Laid, SameOutside, Untouched;
    hide Pool.Valid, Pool.Free, Pool.Live, Chain, Shows, Ordered, Alternating, UsedPages;
    ghost var t, ss := ShotOf(child.pageTable), ShotOf(another.pageTable);
    child.pageTable.FreeNotLive();
    assert forall i :: 0 <= i < |another.ranges.nodes| ==> another.ranges.nodes[i] in another.ranges.nodes;
    child.Discard();
    Outlives(t, ShotOf(another.pageTable), another.pageTable.Now());
    assert another.ranges.Valid();
    UntouchedLaid(ss, ShotOf(another.pageTable), another.areaSet, another.ranges.Used());
  }

  /** The copy into a bare space, which is dropped on an error. */
  method CopyOrGiveUp(child: Space, another: Space, exclude: Option<set<Key>>, trampoline: nat) returns (r: Outcome<()>)
    requires child.Valid() && another.Valid() && Strangers(child, another) && trampoline < PPN_LIMIT
    requires child.areaSet == map[] && child.pageTable.View() == map[]
    modifies child`areaSet, child.pageTable, child.pageTable.phys, child.ranges`nodes, child.ranges`marks
    modifies child.ranges.nodes
    ensures r.Done? && r.result.Ok? ==>
      forall n :: n in child.ranges.nodes ==> n in old(child.ranges.nodes) || fresh(n)
    ensures r.Done? ==>
      && another.Valid() && another.pageTable.phys.pool.limit == old(another.pageTable.phys.pool.limit)
      && Untouched(old(ShotOf(another.pageTable)), ShotOf(another.pageTable))
    ensures r.Done? && r.result.Ok? ==>
      && Forked(child, another, exclude) && TRAMPOLINE_VPN in child.pageTable.View()
      && child.pageTable.View()[TRAMPOLINE_VPN] == Plain(trampoline, WithValid(RX_FLAGS))
      && Settled(old(child.pageTable.Claims()), child.pageTable.Claims())
    ensures r.Done? && r.result.Err? ==>
      && another.pageTable.phys.Free() == old(child.pageTable.Claims().own) + old(another.pageTable.phys.Free())
      && another.pageTable.phys.Live() == old(another.pageTable.phys.Live()) - old(child.pageTable.Claims().own)
    ensures Roomy(another.areaSet, exclude, another.areaSet.Keys, old(child.pageTable.phys.Free())) ==>
      (Copyable(another.areaSet, exclude) ==> r.Done? && r.result.Ok?)
    ensures r.Done? && r.result.Ok? ==>
      |child.pageTable.phys.Free()| + 3 * |PagesLeft(another.areaSet, exclude, another.areaSet.Keys)| + 2 >=
        |old(child.pageTable.phys.Free())|
  {
    hide Sound, Translation, Owned, Laid, PagesLeft, Copyable, WithValid, Forked, PageTable.View;
    hide Pool.Valid, Pool.Free, Pool.Live, Chain, Shows, Ordered, Alternating, UsedPages, Untouched;
    ghost var st := ShotOf(another.pageTable);
    r := CopyAndFinish(child, another, exclude, trampoline);
    if r.Done? && r.result.Err? {
      ghost var su := ShotOf(another.pageTable);
      assert forall i :: 0 <= i < |child.ranges.nodes| ==> child.ranges.nodes[i] in child.ranges.nodes;
      DropCopy(child, another);
      UntouchedChain(st, su, ShotOf(another.pageTable));
    }
  }

  /** `new_user_from_another`: a copy, or an error that leaves no trace. */
  method NewUserFromAnother(asid: nat, another: Space, exclude: Option<set<Key>>,
                            trampoline: nat) returns (r: Outcome<Space>)
    requires another.Valid() && trampoline < PPN_LIMIT
    modifies another.pageTable.phys
    ensures r.Done? ==>
      && another.Valid() && another.pageTable.phys.pool.limit == old(another.pageTable.phys.pool.limit)
      && Untouched(old(ShotOf(another.pageTable)), ShotOf(another.pageTable))
    ensures r.Done? && r.result.Ok? ==>
      && fresh(r.result.value) && fresh(r.result.value.pageTable) && fresh(r.result.value.ranges)
      && (forall n :: n in r.result.value.ranges.nodes ==> fresh(n)) && Forked(r.result.value, another, exclude)
      && TRAMPOLINE_VPN in r.result.value.pageTable.View()
      && r.result.value.pageTable.View()[TRAMPOLINE_VPN] == Plain(trampoline, WithValid(RX_FLAGS))
      && Owned(r.result.value.pageTable.Now()) + another.pageTable.phys.Free() == old(another.pageTable.phys.Free())
    ensures r.Done? && r.result.Ok? ==>
      Inherits(ShotOf(r.result.value.pageTable), ShotOf(another.pageTable), r.result.value.areaSet, another.areaSet,
               exclude)
    ensures r.Done? && r.result.Err? ==>
      && another.pageTable.phys.Free() == old(another.pageTable.phys.Free())
      && another.pageTable.phys.Live() == old(another.pageTable.phys.Live())
    ensures Ample(another.areaSet, exclude, old(another.pageTable.phys.Free())) ==> r.Done? && r.result.Ok?
    ensures r.Done? && r.result.Ok? ==>
      |another.pageTable.phys.Free()| + 3 * |PagesLeft(another.areaSet, exclude, another.areaSet.Keys)| + 3 >=
        |old(another.pageTable.phys.Free())|
  {
    hide Sound, Translation, Owned, Laid, PagesLeft, Copyable, WithValid, Forked, PageTable.View, Inherits;
    hide Pool.Valid, Pool.Free, Pool.Live, Chain, Shows, Ordered, Alternating, UsedPages, Untouched;
    ghost var ss := ShotOf(another.pageTable);
    var made := NewBeside(asid, another);
    if made.Err? {
      return Done(Err(made.error));
    }
    var space := made.value;
    ghost var st := ShotOf(another.pageTable);
    assert forall i :: 0 <= i < |space.ranges.nodes| ==> space.ranges.nodes[i] in space.ranges.nodes;
    var c := CopyOrGiveUp(space, another, exclude, trampoline);
    if c.Panic? {
      return Panic;
    }
    UntouchedChain(ss, st, ShotOf(another.pageTable));
    if c.result.Err? {
      return Done(Err(c.result.error));
    }
    ForkedInherits(space, another, exclude);
    r := Done(Ok(space));
  }

  lemma ForkedInherits(child: Space, another: Space, exclude: Option<set<Key>>)
    requires Forked(child, another, exclude)
    ensures Inherits(ShotOf(child.pageTable), ShotOf(another.pageTable), child.areaSet, another.areaSet, exclude)
  {
    hide Sound, Translation, Owned, Laid, SameArea, KeptOf, Beside, Pool.Valid, Chain, Shows, Ordered, Alternating;
    hide UsedPages, Inherits;
    KeptInherits(ShotOf(child.pageTable), ShotOf(another.pageTable), child.areaSet, another.areaSet, exclude);
  }
}
