/** The memory of a forked process: the parent's areas, and a root stack and trap context of its own. */
module ForkProcess {
  import opened Bytes
  import opened Results
  import opened Pools
  import opened Physical
  import opened Sv39
  import opened TableState
  import opened PageTables
  import opened Snapshots
  import opened RangeRuns
  import opened RangeAllocator
  import opened Areas
  import opened Layouts
  import opened AreaLife
  import opened PageBytes
  import opened Neighbours
  import opened AreaCopy
  import opened Spaces
  import opened Forks
  import opened ForkSteps
  import opened UserSpaces
  import opened StackLayout

  const ROOT_TID: nat := 0

  function UserStackArea(endVa: nat, tid: nat): (a: Area) {
    var (start, end) := UserStackRange(endVa, tid);
    Area(start, end, RWU_FLAGS, true)
  }

  function TrapCtxArea(tid: nat): (a: Area)
    requires tid < TRAMPOLINE_VPN
  {
    var (start, end) := TrapCtxRange(tid);
    Area(start, end, RW_FLAGS, true)
  }

  /** The areas of `kept` hold in `t` what they hold in `ss`. */
  ghost predicate Copies(t: Shot, ss: Shot, kept: AreaSet) {
    forall k :: k in kept ==> SameArea(t, ss, kept[k])
  }

  lemma CopiesElsewhere(t: Shot, u: Shot, ss: Shot, kept: AreaSet, mine: AreaSet, used: set<nat>, pages: set<nat>)
    requires Copies(t, ss, kept) && Laid(t, mine, used) && Steps(t, u, pages) && pages !! used
    requires forall k :: k in kept ==> k in mine && mine[k] == kept[k]
    ensures Copies(u, ss, kept)
  {
    hide SameArea, Steps, PageOk;
    forall k | k in kept ensures SameArea(u, ss, kept[k]) {
      forall v | v in PagesOf(kept[k]) ensures v in used {
        assert k in mine && InRange(k, v);
      }
      SameAreaElsewhere(t, u, ss, pages, kept[k]);
    }
  }

  lemma CopiesStill(t: Shot, ss: Shot, st: Shot, kept: AreaSet)
    requires Copies(t, ss, kept) && Untouched(ss, st) && Owns(ss)
    ensures Copies(t, st, kept)
  {
    forall k | k in kept ensures SameArea(t, st, kept[k]) {
      var a := kept[k];
      OkStays(ss, st, a);
      forall v | a.start <= v < a.end ensures v in st.trackers && BytesOf(st, v) == BytesOf(ss, v) {
        UntouchedPage(ss, st, v);
      }
    }
  }

  /** Area `a` finds its range free, off the trampoline page, and three frames for each of its pages. */
  ghost predicate RoomFor(t: Shot, used: set<nat>, a: Area) {
    && Fits(a, used) && a.framed && a.flags != 0 && TRAMPOLINE_VPN !in PagesOf(a)
    && |t.claim.free| >= 3 * (a.end - a.start)
  }

  lemma RoomMaps(t: Shot, mine: AreaSet, used: set<nat>, a: Area)
    requires Laid(t, mine, used) && RoomFor(t, used, a)
    ensures CanMapAll(t, a)
  {
    CostBound(a, t.nodes);
    hide PageOk, Cost;
    forall v | a.start <= v < a.end ensures v !in t.view {
      assert v in PagesOf(a);
    }
  }

  lemma FilledCost(s: Shot, t: Shot, a: Area)
    requires Filled(s, t, a, []) && a.start <= a.end
    ensures |t.claim.free| + 3 * (a.end - a.start) >= |s.claim.free|
  {
    CostBound(a, s.nodes);
    hide Cost, Steps, AllOk;
  }

  /** A new area in `child` while `parent` stands by. */
  method AllocBeside(child: Space, parent: Space, a: Area, ghost kept: AreaSet) returns (r: Outcome<()>)
    requires child.Valid() && parent.Valid() && Strangers(child, parent) && a.framed
    requires Copies(ShotOf(child.pageTable), ShotOf(parent.pageTable), kept)
    requires forall k :: k in kept ==> k in child.areaSet && child.areaSet[k] == kept[k]
    modifies child`areaSet, child.pageTable, child.pageTable.phys, child.ranges`nodes, child.ranges`marks
    modifies child.ranges.nodes
    ensures forall n :: n in child.ranges.nodes ==> n in old(child.ranges.nodes) || fresh(n)
    ensures r.Done? ==>
      && child.Valid() && parent.Valid() && Strangers(child, parent)
        && child.pageTable.phys.pool.limit == old(child.pageTable.phys.pool.limit)
      && Untouched(old(ShotOf(parent.pageTable)), ShotOf(parent.pageTable))
    ensures r.Done? && r.result.Ok? ==>
      && KeyOf(a) !in old(child.areaSet) && child.areaSet == old(child.areaSet)[KeyOf(a) := a]
      && Copies(ShotOf(child.pageTable), ShotOf(parent.pageTable), kept)
      && child.ranges.Used() == old(child.ranges.Used()) + PagesOf(a)
      && |child.pageTable.phys.Free()| + 3 * (a.end - a.start) >= |old(child.pageTable.phys.Free())|
    ensures RoomFor(old(ShotOf(child.pageTable)), old(child.ranges.Used()), a) ==> r.Done? && r.result.Ok?
  {
    hide Sound, Translation, Owned, CanMapAll, StopsAtTrampoline, Laid, Steps, Filled, Copies, Refused;
    hide Pool.Valid, Pool.Free, Pool.Live, Chain, Shows, Ordered, Alternating, UsedPages, Untouched, Owns;
    ghost var t, ss, mine, used :=
      ShotOf(child.pageTable), ShotOf(parent.pageTable), child.areaSet, child.ranges.Used();
    child.pageTable.FreeNotLive();
    TableOwns(parent.pageTable);
    if RoomFor(t, used, a) {
      RoomMaps(t, mine, used, a);
    }
    hide RoomFor;
    assert forall i :: 0 <= i < |parent.ranges.nodes| ==> parent.ranges.nodes[i] in parent.ranges.nodes;
    r := child.AllocArea(a, None);
    if r.Panic? {
      return;
    }
    assert parent.ranges.Valid();
    OtherKeeps(t, ShotOf(child.pageTable), PagesOf(a), parent.pageTable.Now());
    UntouchedLaid(ss, ShotOf(parent.pageTable), parent.areaSet, parent.ranges.Used());
    if r.result.Ok? {
      FitsIsNew(t, mine, used, a);
      FilledCost(t, ShotOf(child.pageTable), a);
      CopiesElsewhere(t, ShotOf(child.pageTable), ss, kept, mine, used, PagesOf(a));
      CopiesStill(ShotOf(child.pageTable), ss, ShotOf(parent.pageTable), kept);
    }
  }

  lemma FitsIsNew(t: Shot, mine: AreaSet, used: set<nat>, a: Area)
    requires Laid(t, mine, used) && Fits(a, used)
    ensures KeyOf(a) !in mine && PagesOf(a) !! used
  {
    assert a.start in PagesOf(a) && InRange(KeyOf(a), a.start);
  }

  /** Page for page, `t` tracks the pages of `a` and holds the bytes they have in `ss`. */
  ghost predicate SameBytes(t: Shot, ss: Shot, a: Area) {
    forall v :: a.start <= v < a.end ==> v in t.trackers && v in ss.trackers && BytesOf(t, v) == BytesOf(ss, v)
  }

  lemma CopiedBytes(t: Shot, u: Shot, ss: Shot, d: Area, a: Area)
    requires d.start == a.start <= d.end && CopiedUpTo(t, u, ss, d, a, d.end - d.start)
    ensures SameBytes(u, ss, d)
  {
    forall v | d.start <= v < d.end ensures v in u.trackers && v in ss.trackers && BytesOf(u, v) == BytesOf(ss, v) {
      assert PageCopied(u, ss, d, a, v - d.start);
    }
  }

  /** Writing the bytes of one area of the child leaves its other copies. */
  lemma CopiesRewritten(t: Shot, u: Shot, ss: Shot, kept: AreaSet, mine: AreaSet, used: set<nat>, d: Area)
    requires Copies(t, ss, kept) && Laid(t, mine, used) && Owns(t) && Rewrites(t, u, PagesOf(d)) && KeyOf(d) in mine
      && KeyOf(d) !in kept
    requires forall k :: k in kept ==> k in mine && mine[k] == kept[k]
    ensures Copies(u, ss, kept)
  {
    RewritesSteps(t, u, PagesOf(d));
    hide SameArea, Steps, PageOk, Rewrites;
    forall k | k in kept ensures SameArea(u, ss, kept[k]) {
      forall v | v in PagesOf(kept[k]) ensures v !in PagesOf(d) {
        assert InRange(k, v) && (v in PagesOf(d) <==> InRange(KeyOf(d), v));
      }
      SameAreaElsewhere(t, u, ss, PagesOf(d), kept[k]);
    }
  }

  /** What copying area `a` into area `d` says about its result. */
  function CopyResult(a: Area, d: Area): Result<()> {
    if !a.framed then Err(VPNNotMapped(a.start)) else if !d.framed then Err(VPNNotMapped(d.start)) else Ok(())
  }

  /** Copies area `a` of `another` over area `d` of `child`. */
  method CopyOver(child: Space, another: Space, d: Area, a: Area) returns (r: Result<()>)
    requires child.Valid() && another.Valid() && Strangers(child, another)
    requires KeyOf(d) in child.areaSet && child.areaSet[KeyOf(d)] == d && KeyOf(a) in another.areaSet
    requires another.areaSet[KeyOf(a)] == a
    modifies child.pageTable.phys`frames
    ensures child.Valid() && another.Valid() && Strangers(child, another)
    ensures Untouched(old(ShotOf(another.pageTable)), ShotOf(another.pageTable))
    ensures r == CopyResult(a, d) && a.start < a.end && d.start < d.end
    ensures CopiedUpTo(old(ShotOf(child.pageTable)), ShotOf(child.pageTable), old(ShotOf(another.pageTable)), d, a,
                       if r.Ok? then Smaller(a, d) else 0)
  {
    hide Sound, Translation, Owned, Laid, Steps, AllOk, CopiedUpTo, Rewrites;
    hide Pool.Valid, Pool.Free, Pool.Live, Chain, Shows, Ordered, Alternating, UsedPages, Untouched, Owns;
    ghost var t, ss, mine, used :=
      ShotOf(child.pageTable), ShotOf(another.pageTable), child.areaSet, child.ranges.Used();
    LaidAreaOk(t, mine, used, d);
    LaidAreaOk(ss, another.areaSet, another.ranges.Used(), a);
    LaidUnmaps(t, mine, used, d);
    LaidUnmaps(ss, another.areaSet, another.ranges.Used(), a);
    var c := CopyAnother(child.pageTable, d, another.pageTable, a);
    UntouchedLaid(ss, ShotOf(another.pageTable), another.areaSet, another.ranges.Used());
    ghost var n := if c.Ok? then Smaller(a, d) else 0;
    CopiedRewrites(t, ShotOf(child.pageTable), ss, d, a, n);
    LaidRewritten(t, ShotOf(child.pageTable), mine, used, Interval(d.start, d.start + n));
    r := if c.Ok? then Ok(()) else Err(c.error);
  }

  /**
   `copy_area_from_another`: over the area of range `dst` if there is one, else as a new area of the same range as the
   source.
   */
  method CopyAreaFromAnother(child: Space, another: Space, src: Key, dst: Key) returns (r: Outcome<()>)
    requires child.Valid() && another.Valid() && Strangers(child, another)
    modifies child`areaSet, child.pageTable, child.pageTable.phys, child.ranges`nodes, child.ranges`marks
    modifies child.ranges.nodes
    ensures forall n :: n in child.ranges.nodes ==> n in old(child.ranges.nodes) || fresh(n)
    ensures r.Done? ==>
      && child.Valid() && another.Valid() && Strangers(child, another)
      && Untouched(old(ShotOf(another.pageTable)), ShotOf(another.pageTable))
    ensures src !in old(another.areaSet) ==>
      && r == Done(Err(AreaNotExists(src.0, src.1))) && child.areaSet == old(child.areaSet)
      && ShotOf(child.pageTable) == old(ShotOf(child.pageTable))
    ensures src in old(another.areaSet) && dst in old(child.areaSet) ==>
      var a, d := old(another.areaSet)[src], old(child.areaSet)[dst];
      && child.areaSet == old(child.areaSet) && r == Done(CopyResult(a, d)) && a.start < a.end && d.start < d.end
      && CopiedUpTo(old(ShotOf(child.pageTable)), ShotOf(child.pageTable), old(ShotOf(another.pageTable)), d, a,
                    if CopyResult(a, d).Ok? then Smaller(a, d) else 0)
    ensures src in old(another.areaSet) && dst !in old(child.areaSet) ==>
      var a := old(another.areaSet)[src];
      && (r.Done? && r.result.Ok? <==>
            Fits(a, old(child.ranges.Used())) && CanMapAll(old(ShotOf(child.pageTable)), a) && a.framed)
      && (r.Panic? <==>
            && Fits(a, old(child.ranges.Used())) && !CanMapAll(old(ShotOf(child.pageTable)), a)
            && !StopsAtTrampoline(old(ShotOf(child.pageTable)), a))
      && (r == Done(Err(AreaAllocFailed(a.start, a.end))) <==> !Fits(a, old(child.ranges.Used())))
      && (r.Done? && r.result.Ok? ==>
            && child.areaSet == old(child.areaSet)[src := a]
            && SameArea(ShotOf(child.pageTable), old(ShotOf(another.pageTable)), a))
  {
    hide Sound, Translation, Owned, Laid, Steps, SameArea, CopiedUpTo, CanMapAll, StopsAtTrampoline, Fits, Cost;
    hide Pool.Valid, Pool.Free, Pool.Live, Chain, Shows, Ordered, Alternating, UsedPages, Untouched;
    if src !in another.areaSet {
      UntouchedSelf(ShotOf(another.pageTable));
      return Done(Err(AreaNotExists(src.0, src.1)));
    }
    LaidKeyed(ShotOf(another.pageTable), another.areaSet, another.ranges.Used(), src);
    var a := another.areaSet[src];
    if dst in child.areaSet {
      LaidKeyed(ShotOf(child.pageTable), child.areaSet, child.ranges.Used(), dst);
      var c := CopyOver(child, another, child.areaSet[dst], a);
      r := Done(c);
    } else {
      r := CopyOne(child, another, a);
    }
  }

  /**
   After the copy over area `d`, of the same range as `a`, its bytes are those of `a`, and the other copies are what
   they were.
   */
  lemma CopiedOver(t: Shot, u: Shot, ss: Shot, st: Shot, kept: AreaSet, mine: AreaSet, used: set<nat>, d: Area, a: Area)
    requires Copies(t, ss, kept) && Laid(t, mine, used) && Owns(t) && Owns(ss) && Untouched(ss, st)
    requires KeyOf(d) in mine && KeyOf(d) !in kept && forall k :: k in kept ==> k in mine && mine[k] == kept[k]
    requires KeyOf(a) == KeyOf(d) && d.start < d.end && CopiedUpTo(t, u, ss, d, a, d.end - d.start)
    ensures Copies(u, st, kept) && SameBytes(u, st, d)
  {
    hide Laid, Copies, CopiedUpTo, Owns, Untouched, Rewrites, SameBytes;
    CopiedRewrites(t, u, ss, d, a, d.end - d.start);
    CopiesRewritten(t, u, ss, kept, mine, used, d);
    CopiesStill(u, ss, st, kept);
    CopiedBytes(t, u, ss, d, a);
    SameBytesStill(u, ss, st, d);
  }

  lemma SameBytesStill(t: Shot, ss: Shot, st: Shot, a: Area)
    requires SameBytes(t, ss, a) && Untouched(ss, st) && Owns(ss)
    ensures SameBytes(t, st, a)
  {
    forall v | a.start <= v < a.end ensures v in t.trackers && v in st.trackers && BytesOf(t, v) == BytesOf(st, v) {
      UntouchedPage(ss, st, v);
    }
  }

  /** `k` is the stack or the trap context range of one of `tids`. */
  ghost predicate IsTaskRange(base: nat, tids: set<nat>, k: Key) {
    exists t :: t in tids && t < TRAMPOLINE_VPN && (k == UserStackRange(base, t) || k == TrapCtxRange(t))
  }

  method ExcludedRanges(base: nat, tids: set<nat>) returns (ranges: set<Key>)
    requires forall t :: t in tids ==> t < TRAMPOLINE_VPN
    ensures forall k :: k in ranges <==> IsTaskRange(base, tids, k)
    ensures forall t :: t in tids ==> UserStackRange(base, t) in ranges && TrapCtxRange(t) in ranges
  {
    hide UserStackRange, TrapCtxRange;
    TaskRangesIn(base, tids);
    ranges := {};
    var todo := tids;
    while todo != {}
      invariant todo <= tids && forall k :: k in ranges <==> IsTaskRange(base, tids - todo, k)
      decreases |todo|
    {
      var t :| t in todo;
      OneMoreTask(base, tids - todo, t);
      assert tids - (todo - {t}) == tids - todo + {t};
      ranges := ranges + {UserStackRange(base, t), TrapCtxRange(t)};
      todo := todo - {t};
    }
  }

  lemma TaskRangesIn(base: nat, tids: set<nat>)
    requires forall t :: t in tids ==> t < TRAMPOLINE_VPN
    ensures forall t :: t in tids ==>
      IsTaskRange(base, tids, UserStackRange(base, t)) && IsTaskRange(base, tids, TrapCtxRange(t))
  {
    hide UserStackRange, TrapCtxRange;
  }

  ghost predicate OneOf(base: nat, tids: set<nat>, t: nat, k: Key)
    requires t < TRAMPOLINE_VPN
  {
    IsTaskRange(base, tids, k) || k == UserStackRange(base, t) || k == TrapCtxRange(t)
  }

  lemma OneMoreTask(base: nat, tids: set<nat>, t: nat)
    requires t < TRAMPOLINE_VPN
    ensures forall k :: IsTaskRange(base, tids + {t}, k) <==> OneOf(base, tids, t, k)
  {
    hide UserStackRange, TrapCtxRange;
    forall k ensures IsTaskRange(base, tids + {t}, k) <==> OneOf(base, tids, t, k) {
      if IsTaskRange(base, tids, k) {
        var u :| u in tids && u < TRAMPOLINE_VPN && (k == UserStackRange(base, u) || k == TrapCtxRange(u));
        assert u in tids + {t};
      }
      assert t in tids + {t};
    }
  }

  /** The words of a trap context, the last of which is the address of the kernel stack. */
  const TRAP_CTX_WORDS: nat := 37

  /** The trap context is that of the parent, but for the kernel stack at `top`. */
  ghost predicate SameTrap(t: Shot, ss: Shot, v: nat, top: nat) {
    && v in t.trackers && v in ss.trackers
    && forall i :: 0 <= i < TRAP_CTX_WORDS ==>
         Word(BytesOf(t, v), i) == if i == TRAP_CTX_WORDS - 1 then top else Word(BytesOf(ss, v), i)
  }

  /** The frame `own` with a trap context copied from `from` and the kernel stack set. */
  function WithTrap(own: Frame, from: Frame, top: nat): (f: Frame)
    requires top < WORD_LIMIT
  {
    WithWord(Splice(own, 0, from[..WORD_SIZE * TRAP_CTX_WORDS]), TRAP_CTX_WORDS - 1, top)
  }

  lemma WithTrapWords(own: Frame, from: Frame, top: nat, i: nat)
    requires top < WORD_LIMIT && i < TRAP_CTX_WORDS
    ensures Word(WithTrap(own, from, top), i) == if i == TRAP_CTX_WORDS - 1 then top else Word(from, i)
  {
    var mid: Frame := Splice(own, 0, from[..WORD_SIZE * TRAP_CTX_WORDS]);
    WordOfWithWord(mid, TRAP_CTX_WORDS - 1, top, i);
    var a, b := WORD_SIZE * i, WORD_SIZE * i + WORD_SIZE;
    assert b <= WORD_SIZE * TRAP_CTX_WORDS;
    forall k | 0 <= k < WORD_SIZE ensures mid[a..b][k] == from[a..b][k] {
      assert mid[a + k] == from[a + k];
    }
    assert mid[a..b] == from[a..b];
  }

  /** The memory of a child process whose root task has its kernel stack at `top`. */
  ghost predicate IsChild(child: Space, parent: Space, base: nat, exclude: set<Key>, top: nat)
    reads child, child.pageTable, child.pageTable.phys, child.ranges, child.ranges.nodes
    reads parent, parent.pageTable, parent.pageTable.phys, parent.ranges, parent.ranges.nodes
  {
    var kept, stack, trap :=
      KeptOf(parent.areaSet, Some(exclude), {}), UserStackArea(base, ROOT_TID), TrapCtxArea(ROOT_TID);
    && child.Valid() && parent.Valid() && Strangers(child, parent)
    && child.areaSet == kept[KeyOf(stack) := stack][KeyOf(trap) := trap]
    && Copies(ShotOf(child.pageTable), ShotOf(parent.pageTable), kept)
    && SameBytes(ShotOf(child.pageTable), ShotOf(parent.pageTable), stack)
    && SameTrap(ShotOf(child.pageTable), ShotOf(parent.pageTable), trap.start, top)
  }

  /**
   Said area by area: the child has every area of the parent but those of `exclude`, with its permissions and bytes;
   besides these it has the stack and the trap context of its root task, and nothing else.
   */
  ghost predicate ChildAreas(t: Shot, ss: Shot, mine: AreaSet, areas: AreaSet, base: nat, exclude: set<Key>) {
    var stack, trap := UserStackArea(base, ROOT_TID), TrapCtxArea(ROOT_TID);
    && (forall k :: k in areas && k !in exclude ==> k in mine && mine[k] == areas[k] && SameArea(t, ss, areas[k]))
    && KeyOf(stack) in mine && mine[KeyOf(stack)] == stack && KeyOf(trap) in mine && mine[KeyOf(trap)] == trap
    && (forall k :: k in mine ==> (k in areas && k !in exclude) || k == KeyOf(stack) || k == KeyOf(trap))
  }

  lemma IsChildAreas(child: Space, parent: Space, base: nat, exclude: set<Key>, top: nat)
    requires IsChild(child, parent, base, exclude, top)
    requires KeyOf(UserStackArea(base, ROOT_TID)) in exclude && KeyOf(TrapCtxArea(ROOT_TID)) in exclude
    ensures ChildAreas(ShotOf(child.pageTable), ShotOf(parent.pageTable), child.areaSet, parent.areaSet, base, exclude)
  {
    hide Sound, Translation, Owned, Laid, SameArea, Beside, Pool.Valid, Chain, Shows, Ordered, Alternating;
    hide UsedPages, UserStackRange, TrapCtxRange;
    KeysDiffer(base);
  }

  /** Nothing stands in the way of a fork: the root task has its areas, all others can be copied, and frames suffice. */
  ghost predicate ForkReady(areas: AreaSet, base: nat, exclude: set<Key>, free: set<nat>) {
    var stack, trap := KeyOf(UserStackArea(base, ROOT_TID)), KeyOf(TrapCtxArea(ROOT_TID));
    && Copyable(areas, Some(exclude))
    && stack in areas && areas[stack].framed && trap in areas && areas[trap].framed && !InRange(stack, TRAMPOLINE_VPN)
    && |free| >= 3 * (|PagesLeft(areas, Some(exclude), areas.Keys)| + (stack.1 - stack.0) + 1) + 3
  }

  /** The root task has its stack and its trap context. */
  ghost predicate RootHasBoth(areas: AreaSet, base: nat) {
    RootHas(areas, UserStackArea(base, ROOT_TID)) && RootHas(areas, TrapCtxArea(ROOT_TID))
  }

  /** The area is there, with frames of its own. */
  ghost predicate RootHas(areas: AreaSet, a: Area) {
    KeyOf(a) in areas && areas[KeyOf(a)].framed
  }

  /** The parent's root task has its stack and its trap context, and the copy has room for the same. */
  ghost predicate RootReady(t: Shot, mine: AreaSet, used: set<nat>, areas: AreaSet, base: nat) {
    var stack, trap := UserStackArea(base, ROOT_TID), TrapCtxArea(ROOT_TID);
    && KeyOf(stack) in areas && areas[KeyOf(stack)].framed && KeyOf(trap) in areas && areas[KeyOf(trap)].framed
    && Fits(stack, used) && Fits(trap, used + PagesOf(stack)) && TRAMPOLINE_VPN !in PagesOf(stack)
    && |t.claim.free| >= 3 * (stack.end - stack.start + 1)
  }

  lemma RangeIsFree(areas: AreaSet, exclude: set<Key>, used: set<nat>, k: Key)
    requires Keyed(areas) && Apart(areas) && Cover(KeptOf(areas, Some(exclude), {}), used) && k in areas && k in exclude
    ensures k.0 < k.1 <= VPN_LIMIT && Interval(k.0, k.1) !! used
  {
    forall v | v in Interval(k.0, k.1) ensures v !in used {
      assert InRange(k, v);
      forall l | l in KeptOf(areas, Some(exclude), {}) ensures !InRange(l, v) {
        assert l in areas && l != k;
      }
    }
  }

  /** In a copy without its ranges, the root task's areas fit. */
  lemma ReadyInCopy(t: Shot, mine: AreaSet, used: set<nat>, areas: AreaSet, base: nat, exclude: set<Key>,
                    free: set<nat>)
    requires ForkReady(areas, base, exclude, free) && Keyed(areas) && Apart(areas)
    requires KeyOf(UserStackArea(base, ROOT_TID)) in exclude && KeyOf(TrapCtxArea(ROOT_TID)) in exclude
    requires mine == KeptOf(areas, Some(exclude), {}) && Laid(t, mine, used)
    requires |t.claim.free| + 3 * |PagesLeft(areas, Some(exclude), areas.Keys)| + 3 >= |free|
    ensures RootReady(t, mine, used, areas, base)
  {
    hide PagesLeft, PageOk, UserStackRange, TrapCtxRange, Copyable;
    var stack, trap := UserStackArea(base, ROOT_TID), TrapCtxArea(ROOT_TID);
    RangeIsFree(areas, exclude, used, KeyOf(stack));
    RangeIsFree(areas, exclude, used, KeyOf(trap));
    KeysDiffer(base);
    forall v | v in PagesOf(trap) ensures v !in PagesOf(stack) {
      assert InRange(KeyOf(trap), v) && (v in PagesOf(stack) <==> InRange(KeyOf(stack), v));
    }
    assert TRAMPOLINE_VPN in PagesOf(stack) <==> InRange(KeyOf(stack), TRAMPOLINE_VPN);
  }

  lemma KeysDiffer(base: nat)
    ensures TrapCtxRange(ROOT_TID) == (TRAMPOLINE_VPN - 1, TRAMPOLINE_VPN)
    ensures UserStackRange(base, ROOT_TID) != TrapCtxRange(ROOT_TID)
  {
    TrapCtxPlace(ROOT_TID);
    var c := base + PAGE_SIZE + PAGE_SIZE - 1;
    assert UserStackRange(base, ROOT_TID) == (c / PAGE_SIZE % VPN_LIMIT, (c + 8 * PAGE_SIZE) / PAGE_SIZE % VPN_LIMIT);
    assert (c + 8 * PAGE_SIZE) / PAGE_SIZE == c / PAGE_SIZE + 8;
  }

  /**
   The memory part of `fork_process`: copy the space without task areas, then give the root task a stack and a trap
   context. An error in the copy leaves no trace; one after it, with no stack or trap context to copy from, leaves the
   copied space with the new process, `left`.
   */
  method ForkMemory(asid: nat, parent: Space, base: nat, tids: set<nat>, trampoline: nat, top: nat)
    returns (r: Outcome<Space>, ghost exclude: set<Key>, ghost left: Option<Space>)
    requires parent.Valid() && trampoline < PPN_LIMIT && top < WORD_LIMIT
    requires ROOT_TID in tids && forall t :: t in tids ==> t < TRAMPOLINE_VPN
    modifies parent.pageTable.phys
    ensures r.Done? ==> parent.Valid() && Untouched(old(ShotOf(parent.pageTable)), ShotOf(parent.pageTable))
    ensures r.Done? && r.result.Ok? ==> fresh(r.result.value) && IsChild(r.result.value, parent, base, exclude, top)
    ensures r.Done? && r.result.Ok? ==>
      ChildAreas(ShotOf(r.result.value.pageTable), ShotOf(parent.pageTable), r.result.value.areaSet, parent.areaSet,
                 base, exclude)
    ensures r.Done? && r.result.Err? && left.None? ==>
      && parent.pageTable.phys.Free() == old(parent.pageTable.phys.Free())
      && parent.pageTable.phys.Live() == old(parent.pageTable.phys.Live())
    ensures r.Done? && r.result.Err? && left.Some? ==>
      && fresh(left.value) && left.value.Valid() && Strangers(left.value, parent)
      && !RootHasBoth(old(parent.areaSet), base)
    ensures ForkReady(old(parent.areaSet), base, exclude, old(parent.pageTable.phys.Free())) ==> r.Done? && r.result.Ok?
    ensures forall k :: k in exclude <==> IsTaskRange(base, tids, k)
    ensures forall t :: t in tids ==> UserStackRange(base, t) in exclude && TrapCtxRange(t) in exclude
  {
    hide Sound, Translation, Owned, Laid, IsTaskRange, UserStackRange, TrapCtxRange, IsChild, ChildAreas, ForkReady;
    hide Pool.Valid, Pool.Free, Pool.Live, Chain, Shows, Ordered, Alternating, UsedPages, Untouched, PageTable.View;
    hide Beside, RootHasBoth;
    var ranges := ExcludedRanges(base, tids);
    exclude := ranges;
    RootExcluded(base, tids);
    r, left := ForkWithout(asid, parent, base, ranges, trampoline, top);
  }

  /** The copy without the areas of `exclude`, with areas for the root task. */
  method ForkWithout(asid: nat, parent: Space, base: nat, exclude: set<Key>, trampoline: nat, top: nat)
    returns (r: Outcome<Space>, ghost left: Option<Space>)
    requires parent.Valid() && trampoline < PPN_LIMIT && top < WORD_LIMIT
    requires KeyOf(UserStackArea(base, ROOT_TID)) in exclude && KeyOf(TrapCtxArea(ROOT_TID)) in exclude
    modifies parent.pageTable.phys
    ensures r.Done? ==> parent.Valid() && Untouched(old(ShotOf(parent.pageTable)), ShotOf(parent.pageTable))
    ensures r.Done? && r.result.Ok? ==> fresh(r.result.value) && IsChild(r.result.value, parent, base, exclude, top)
    ensures r.Done? && r.result.Ok? ==>
      ChildAreas(ShotOf(r.result.value.pageTable), ShotOf(parent.pageTable), r.result.value.areaSet, parent.areaSet,
                 base, exclude)
    ensures r.Done? && r.result.Err? && left.None? ==>
      && parent.pageTable.phys.Free() == old(parent.pageTable.phys.Free())
      && parent.pageTable.phys.Live() == old(parent.pageTable.phys.Live())
    ensures r.Done? && r.result.Err? && left.Some? ==>
      && fresh(left.value) && left.value.Valid() && Strangers(left.value, parent)
      && !RootHasBoth(old(parent.areaSet), base)
    ensures ForkReady(old(parent.areaSet), base, exclude, old(parent.pageTable.phys.Free())) ==> r.Done? && r.result.Ok?
  {
    hide Sound, Translation, Owned, Laid, Copies, SameBytes, SameTrap, KeptOf, Copyable, UserStackRange, TrapCtxRange;
    hide Pool.Valid, Pool.Free, Pool.Live, Chain, Shows, Ordered, Alternating, UsedPages, Untouched, WithValid;
    hide PageTable.View;
    hide SameArea, PagesLeft, RootReady, ForkReady, IsChild, RootHasBoth, ChildAreas, Inherits;
    ghost var ss, areas, free := ShotOf(parent.pageTable), parent.areaSet, parent.pageTable.phys.Free();
    left := None;
    LaidParts(ss, areas, parent.ranges.Used());
    hide Keyed, Apart;
    if ForkReady(areas, base, exclude, free) {
      ReadyIsAmple(areas, base, exclude, free);
    }
    hide Ample;
    r := NewUserFromAnother(asid, parent, Some(exclude), trampoline);
    if r.Panic? || r.result.Err? {
      return;
    }
    ghost var s0 := ShotOf(parent.pageTable);
    var child := r.result.value;
    assert forall i :: 0 <= i < |child.ranges.nodes| ==> child.ranges.nodes[i] in child.ranges.nodes;
    if ForkReady(areas, base, exclude, free) {
      ForkedReady(child, parent, base, exclude, free);
    }
    var e := GiveRootTask(child, parent, base, exclude, top);
    if e.Panic? {
      return Panic, left;
    }
    UntouchedChain(ss, s0, ShotOf(parent.pageTable));
    if e.result.Err? {
      r, left := Done(Err(e.result.error)), Some(child);
    }
  }

  lemma RootExcluded(base: nat, tids: set<nat>)
    requires ROOT_TID in tids
    ensures IsTaskRange(base, tids, KeyOf(UserStackArea(base, ROOT_TID)))
    ensures IsTaskRange(base, tids, KeyOf(TrapCtxArea(ROOT_TID)))
  {
    hide UserStackRange, TrapCtxRange;
  }

  lemma ReadyIsAmple(areas: AreaSet, base: nat, exclude: set<Key>, free: set<nat>)
    requires ForkReady(areas, base, exclude, free) && Keyed(areas)
    ensures Ample(areas, Some(exclude), free)
  {
    hide PagesLeft, Copyable, UserStackRange, TrapCtxRange;
  }

  lemma ForkedReady(child: Space, parent: Space, base: nat, exclude: set<Key>, free: set<nat>)
    requires Forked(child, parent, Some(exclude)) && ForkReady(parent.areaSet, base, exclude, free)
    requires KeyOf(UserStackArea(base, ROOT_TID)) in exclude && KeyOf(TrapCtxArea(ROOT_TID)) in exclude
    requires |child.pageTable.phys.Free()| + 3 * |PagesLeft(parent.areaSet, Some(exclude), parent.areaSet.Keys)| + 3 >=
      |free|
    ensures RootReady(ShotOf(child.pageTable), child.areaSet, child.ranges.Used(), parent.areaSet, base)
  {
    hide Sound, Translation, Owned, Laid, SameArea, KeptOf, Beside, ForkReady, RootReady, PagesLeft;
    hide Pool.Valid, Pool.Free, Pool.Live, Chain, Shows, Ordered, Alternating, UsedPages, PageTable.View;
    LaidParts(ShotOf(parent.pageTable), parent.areaSet, parent.ranges.Used());
    ReadyInCopy(ShotOf(child.pageTable), child.areaSet, child.ranges.Used(), parent.areaSet, base, exclude, free);
  }

  /** The new root task's areas, and the parent's stack and trap context copied into its own. */
  method GiveRootTask(child: Space, parent: Space, base: nat, ghost exclude: set<Key>,
                      top: nat) returns (r: Outcome<()>)
    requires Forked(child, parent, Some(exclude)) && top < WORD_LIMIT
    requires KeyOf(UserStackArea(base, ROOT_TID)) in exclude && KeyOf(TrapCtxArea(ROOT_TID)) in exclude
    modifies child`areaSet, child.pageTable, child.pageTable.phys, child.ranges`nodes, child.ranges`marks
    modifies child.ranges.nodes
    ensures r.Done? ==>
      && child.Valid() && parent.Valid() && Strangers(child, parent)
      && Untouched(old(ShotOf(parent.pageTable)), ShotOf(parent.pageTable))
    ensures r.Done? && r.result.Ok? ==>
      && IsChild(child, parent, base, exclude, top)
      && ChildAreas(ShotOf(child.pageTable), ShotOf(parent.pageTable), child.areaSet, parent.areaSet, base, exclude)
    ensures r.Done? && r.result.Err? ==>
      !RootHasBoth(parent.areaSet, base)
    ensures RootReady(old(ShotOf(child.pageTable)), old(child.areaSet), old(child.ranges.Used()), parent.areaSet,
                      base) ==>
      r.Done? && r.result.Ok?
  {
    hide Sound, Translation, Owned, Laid, Copies, SameBytes, SameTrap, KeptOf, SameArea, UserStackRange, TrapCtxRange;
    hide Beside, Forked, ChildAreas;
    hide Pool.Valid, Pool.Free, Pool.Live, Chain, Shows, Ordered, Alternating, UsedPages, Untouched, PageTable.View;
    hide Fits;
    ghost var ss, kept := ShotOf(parent.pageTable), child.areaSet;
    ForkedParts(child, parent, exclude);
    KeysDiffer(base);
    var stack, trap := UserStackArea(base, ROOT_TID), TrapCtxArea(ROOT_TID);
    r := AllocBoth(child, parent, stack, trap, kept);
    if r.Panic? || r.result.Err? {
      // The half-made task is dropped, and asks for areas back that the copy does not have.
      return Panic;
    }
    ghost var s2 := ShotOf(parent.pageTable);
    assert forall i :: 0 <= i < |child.ranges.nodes| ==> child.ranges.nodes[i] in child.ranges.nodes;
    r := CopyStack(child, parent, stack, kept);
    if r.Panic? {
      return;
    }
    ghost var s3 := ShotOf(parent.pageTable);
    UntouchedChain(ss, s2, s3);
    if r.result.Err? {
      return;
    }
    var c := CopyTrap(child, parent, trap, stack, kept, top);
    UntouchedChain(ss, s3, ShotOf(parent.pageTable));
    if c.Ok? {
      IsChildAreas(child, parent, base, exclude, top);
    }
    r := Done(c);
  }

  /** The parent's stack is copied over the child's. */
  method CopyStack(child: Space, parent: Space, stack: Area, ghost kept: AreaSet) returns (r: Outcome<()>)
    requires child.Valid() && parent.Valid() && Strangers(child, parent) && stack.framed
    requires KeyOf(stack) in child.areaSet && child.areaSet[KeyOf(stack)] == stack && KeyOf(stack) !in kept
    requires Copies(ShotOf(child.pageTable), ShotOf(parent.pageTable), kept)
    requires forall k :: k in kept ==> k in child.areaSet && child.areaSet[k] == kept[k]
    modifies child`areaSet, child.pageTable, child.pageTable.phys, child.ranges`nodes, child.ranges`marks
    modifies child.ranges.nodes
    ensures r.Done? ==>
      && child.Valid() && parent.Valid() && Strangers(child, parent) && child.areaSet == old(child.areaSet)
      && Untouched(old(ShotOf(parent.pageTable)), ShotOf(parent.pageTable))
    ensures r.Done? && r.result.Ok? ==>
      && Copies(ShotOf(child.pageTable), ShotOf(parent.pageTable), kept)
      && SameBytes(ShotOf(child.pageTable), ShotOf(parent.pageTable), stack)
    ensures r.Done? && (r.result.Ok? <==> KeyOf(stack) in parent.areaSet && parent.areaSet[KeyOf(stack)].framed)
  {
    hide Sound, Translation, Owned, Laid, Copies, SameBytes, SameArea, CopiedUpTo, Owns, Beside;
    hide Pool.Valid, Pool.Free, Pool.Live, Chain, Shows, Ordered, Alternating, UsedPages, Untouched, PageTable.View;
    var key := KeyOf(stack);
    ghost var t, ss, mine, used, areas :=
      ShotOf(child.pageTable), ShotOf(parent.pageTable), child.areaSet, child.ranges.Used(), parent.areaSet;
    TableOwns(child.pageTable);
    TableOwns(parent.pageTable);
    if key in areas {
      LaidKeyed(ss, areas, parent.ranges.Used(), key);
    }
    r := CopyAreaFromAnother(child, parent, key, key);
    if r.Done? && r.result.Ok? {
      CopiedOver(t, ShotOf(child.pageTable), ss, ShotOf(parent.pageTable), kept, mine, used, stack, areas[key]);
    }
  }

  /** The bytes of area `a` are not those written. */
  lemma SameBytesRewritten(t: Shot, u: Shot, ss: Shot, mine: AreaSet, used: set<nat>, a: Area, d: Area)
    requires SameBytes(t, ss, a) && Laid(t, mine, used) && Owns(t) && Rewrites(t, u, PagesOf(d))
    requires KeyOf(a) in mine && KeyOf(d) in mine && KeyOf(a) != KeyOf(d)
    ensures SameBytes(u, ss, a)
  {
    hide PageOk;
    forall v | a.start <= v < a.end ensures v in u.trackers && v in ss.trackers && BytesOf(u, v) == BytesOf(ss, v) {
      assert InRange(KeyOf(a), v) && (v in PagesOf(d) <==> InRange(KeyOf(d), v));
      RewritesElsewhere(t, u, PagesOf(d), v);
    }
  }

  lemma TrapTracked(t: Shot, mine: AreaSet, used: set<nat>, k: Key)
    requires Laid(t, mine, used) && k in mine
    ensures k.0 < k.1 && KeyOf(mine[k]) == k && (k.0 in t.trackers <==> mine[k].framed)
  {
    assert InRange(k, k.0) && PageOk(t, mine[k], k.0);
  }

  /** The parent's trap context is copied over the child's, with another kernel stack. */
  method CopyTrap(child: Space, parent: Space, trap: Area, ghost stack: Area, ghost kept: AreaSet,
                  top: nat) returns (r: Result<()>)
    requires child.Valid() && parent.Valid() && Strangers(child, parent) && trap.framed && top < WORD_LIMIT
    requires KeyOf(trap) in child.areaSet && child.areaSet[KeyOf(trap)] == trap && KeyOf(trap) !in kept
    requires KeyOf(stack) in child.areaSet && KeyOf(stack) != KeyOf(trap)
    requires Copies(ShotOf(child.pageTable), ShotOf(parent.pageTable), kept)
    requires SameBytes(ShotOf(child.pageTable), ShotOf(parent.pageTable), stack)
    requires forall k :: k in kept ==> k in child.areaSet && child.areaSet[k] == kept[k]
    modifies child.pageTable.phys`frames
    ensures child.Valid() && parent.Valid() && Strangers(child, parent)
    ensures Untouched(old(ShotOf(parent.pageTable)), ShotOf(parent.pageTable))
    ensures r == if KeyOf(trap) !in parent.areaSet then Err(AreaNotExists(trap.start, trap.end))
                 else if !parent.areaSet[KeyOf(trap)].framed then Err(VPNNotMapped(trap.start)) else Ok(())
    ensures r.Ok? ==>
      && Copies(ShotOf(child.pageTable), ShotOf(parent.pageTable), kept)
      && SameBytes(ShotOf(child.pageTable), ShotOf(parent.pageTable), stack)
      && SameTrap(ShotOf(child.pageTable), ShotOf(parent.pageTable), trap.start, top)
  {
    hide Sound, Translation, Owned, Laid, Copies, SameBytes, SameArea, Rewrites, Word, WithTrap;
    hide Pool.Valid, Pool.Free, Pool.Live, Chain, Shows, Ordered, Alternating, UsedPages, Untouched;
    ghost var t, ss, mine, used :=
      ShotOf(child.pageTable), ShotOf(parent.pageTable), child.areaSet, child.ranges.Used();
    UntouchedSelf(ss);
    if KeyOf(trap) !in parent.areaSet {
      return Err(AreaNotExists(trap.start, trap.end));
    }
    TrapTracked(ss, parent.areaSet, parent.ranges.Used(), KeyOf(trap));
    TrapTracked(t, mine, used, KeyOf(trap));
    var v := trap.start;
    if v !in parent.pageTable.trackers {
      return Err(VPNNotMapped(v));
    }
    var from := FrameAt(parent.pageTable.phys.frames, parent.pageTable.trackers[v]);
    var own := FrameAt(child.pageTable.phys.frames, child.pageTable.trackers[v]);
    TableOwns(child.pageTable);
    TableOwns(parent.pageTable);
    child.pageTable.FreeNotLive();
    StoreFrame(child.pageTable, v, WithTrap(own, from, top));
    assert child.ranges.Valid() && parent.ranges.Valid();
    TrapStored(t, ShotOf(child.pageTable), ss, ShotOf(parent.pageTable), parent.pageTable.Now(), kept, mine, used, trap,
               stack);
    UntouchedLaid(ss, ShotOf(parent.pageTable), parent.areaSet, parent.ranges.Used());
    UntouchedPage(ss, ShotOf(parent.pageTable), v);
    forall i | 0 <= i < TRAP_CTX_WORDS
      ensures Word(WithTrap(own, from, top), i) == if i == TRAP_CTX_WORDS - 1 then top else Word(from, i)
    {
      WithTrapWords(own, from, top, i);
    }
    r := Ok(());
  }

  /** What storing in the child's trap context leaves alone. */
  lemma TrapStored(t: Shot, u: Shot, ss: Shot, st: Shot, o: Table, kept: AreaSet, mine: AreaSet, used: set<nat>,
                   trap: Area, stack: Area)
    requires Laid(t, mine, used) && Owns(t) && Owns(ss) && Rewrites(t, u, {trap.start}) && trap.start < trap.end
    requires Copies(t, ss, kept) && SameBytes(t, ss, stack) && forall k :: k in kept ==> k in mine && mine[k] == kept[k]
    requires KeyOf(trap) in mine && KeyOf(trap) !in kept && KeyOf(stack) in mine && KeyOf(stack) != KeyOf(trap)
    requires Sound(t.mem, t.claim.live, o) && Owned(o) !! t.claim.own && t.claim.free !! t.claim.live
    requires ss == ShotFor(o, t) && st == ShotFor(o, u)
    ensures Laid(u, mine, used) && Copies(u, st, kept) && SameBytes(u, st, stack) && Untouched(ss, st)
    ensures Sound(u.mem, u.claim.live, o) && Owned(o) !! u.claim.own
  {
    hide Sound, Translation, Owned, Laid, Copies, SameBytes, Untouched, Steps, Owns, Rewrites;
    RewritesMore(t, u, {trap.start}, PagesOf(trap));
    RewritesSteps(t, u, PagesOf(trap));
    OtherKeeps(t, u, PagesOf(trap), o);
    LaidRewritten(t, u, mine, used, PagesOf(trap));
    CopiesRewritten(t, u, ss, kept, mine, used, trap);
    CopiesStill(u, ss, st, kept);
    SameBytesRewritten(t, u, ss, mine, used, stack, trap);
    SameBytesStill(u, ss, st, stack);
  }

  lemma ForkedParts(child: Space, parent: Space, exclude: set<Key>)
    requires Forked(child, parent, Some(exclude))
    ensures child.Valid() && parent.Valid() && Strangers(child, parent)
      && child.areaSet == KeptOf(parent.areaSet, Some(exclude), {})
    ensures Copies(ShotOf(child.pageTable), ShotOf(parent.pageTable), child.areaSet)
  {
    hide Sound, Translation, Owned, Laid, SameArea, KeptOf, Beside, Pool.Valid, Chain, Shows, Ordered, Alternating;
    hide UsedPages;
  }

  ghost predicate RoomForBoth(t: Shot, used: set<nat>, stack: Area, trap: Area) {
    && RoomFor(t, used, stack) && Fits(trap, used + PagesOf(stack)) && trap.flags != 0
    && TRAMPOLINE_VPN !in PagesOf(trap)
    && |t.claim.free| >= 3 * (stack.end - stack.start + trap.end - trap.start)
  }

  method AllocBoth(child: Space, parent: Space, stack: Area, trap: Area, ghost kept: AreaSet) returns (r: Outcome<()>)
    requires child.Valid() && parent.Valid() && Strangers(child, parent) && stack.framed && trap.framed
    requires Copies(ShotOf(child.pageTable), ShotOf(parent.pageTable), kept) && child.areaSet == kept
    modifies child`areaSet, child.pageTable, child.pageTable.phys, child.ranges`nodes, child.ranges`marks
    modifies child.ranges.nodes
    ensures forall n :: n in child.ranges.nodes ==> n in old(child.ranges.nodes) || fresh(n)
    ensures r.Done? ==>
      && child.Valid() && parent.Valid() && Strangers(child, parent)
      && Untouched(old(ShotOf(parent.pageTable)), ShotOf(parent.pageTable))
    ensures r.Done? && r.result.Ok? ==>
      && child.areaSet == kept[KeyOf(stack) := stack][KeyOf(trap) := trap] && KeyOf(stack) !in kept
        && KeyOf(trap) !in kept[KeyOf(stack) := stack]
      && Copies(ShotOf(child.pageTable), ShotOf(parent.pageTable), kept)
    ensures RoomForBoth(old(ShotOf(child.pageTable)), old(child.ranges.Used()), stack, trap) ==> r.Done? && r.result.Ok?
  {
    hide Sound, Translation, Owned, Laid, Copies, Beside, Fits;
    hide Pool.Valid, Pool.Free, Pool.Live, Chain, Shows, Ordered, Alternating, UsedPages, Untouched, PageTable.View;
    ghost var ss := ShotOf(parent.pageTable);
    r := AllocBeside(child, parent, stack, kept);
    if r.Panic? || r.result.Err? {
      return;
    }
    ghost var s1 := ShotOf(parent.pageTable);
    assert forall i :: 0 <= i < |child.ranges.nodes| ==> child.ranges.nodes[i] in child.ranges.nodes;
    r := AllocBeside(child, parent, trap, kept);
    if r.Done? {
      UntouchedChain(ss, s1, ShotOf(parent.pageTable));
    }
  }
}
