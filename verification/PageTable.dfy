/** The three-level page table: mappers created on demand and reclaimed when they empty. */
module PageTables {
  import opened Bytes
  import opened Results
  import opened Pools
  import opened Physical
  import opened Sv39
  import opened Tree
  import opened TableState

  /** Where a table stands in physical memory: its nodes, the free and live frames, and all bytes. */
  datatype Footing = Footing(at: Placement, free: set<nat>, live: set<nat>, mem: Memory)

  /**
   The table's nodes and the free frames are the same frames taken together, the frames of others stay live,
   and bytes change only inside the table's nodes and the free frames.
   */
  ghost predicate Conserves(a: Footing, b: Footing) {
    && b.at.Values + b.free == a.at.Values + a.free
    && b.live - b.at.Values == a.live - a.at.Values
    && SameOutside(a.mem, b.mem, a.at.Values + a.free)
  }

  lemma ConservesWrite(a: Footing, b: Footing, c: Footing)
    requires Conserves(a, b) && c == b.(mem := c.mem) && SameOutside(b.mem, c.mem, b.at.Values)
    ensures Conserves(a, c)
  {
    hide SameOutside;
    SameOutsideMore(b.mem, c.mem, b.at.Values, a.at.Values + a.free);
    SameOutsideChain(a.mem, b.mem, c.mem, a.at.Values + a.free);
  }

  /** `later` has the nodes of `at` where they were, and those in `reached`. */
  ghost predicate Placed(at: Placement, later: Placement, reached: set<Node>) {
    later.Keys == at.Keys + reached && forall n :: n in at ==> later[n] == at[n]
  }

  /** From `a` to `b` the nodes in `reached` were added where missing, one free frame each, and none moved. */
  ghost predicate Grown(a: Footing, b: Footing, reached: set<Node>) {
    && Placed(a.at, b.at, reached)
    && |b.free| + |reached - a.at.Keys| == |a.free|
    && Conserves(a, b)
  }

  lemma GrownNot(a: Footing)
    ensures Grown(a, a, {})
  {
  }

  /** One node is reached that was there already. */
  lemma GrownSame(a: Footing, n: Node)
    requires n in a.at
    ensures Grown(a, a, {n})
  {
    assert {n} - a.at.Keys == {};
  }

  /** One node is placed, on a frame that was free. */
  lemma GrownOne(a: Footing, b: Footing, n: Node, p: nat)
    requires n !in a.at && p in a.free && p !in a.live && SameOutside(a.mem, b.mem, a.at.Values + a.free)
    requires b.at == a.at[n := p] && b.free == a.free - {p} && b.live == a.live + {p}
    ensures Grown(a, b, {n})
  {
    hide SameOutside;
    ValuesAdded(a.at, n, p);
    assert {n} - a.at.Keys == {n};
    assert Conserves(a, b);
  }

  lemma GrownChain(a: Footing, b: Footing, c: Footing, reached: set<Node>, more: set<Node>)
    requires Grown(a, b, reached) && Grown(b, c, more)
    ensures Grown(a, c, reached + more)
  {
    hide Conserves, Placed;
    ConservesChain(a, b, c);
    PlacedChain(a.at, b.at, c.at, reached, more);
    Beyond(reached, more, a.at.Keys);
  }

  lemma PlacedChain(a: Placement, b: Placement, c: Placement, reached: set<Node>, more: set<Node>)
    requires Placed(a, b, reached) && Placed(b, c, more)
    ensures Placed(a, c, reached + more) && b.Keys == a.Keys + reached
  {
  }

  lemma ConservesChain(a: Footing, b: Footing, c: Footing)
    requires Conserves(a, b) && Conserves(b, c)
    ensures Conserves(a, c)
  {
    hide SameOutside;
    SameOutsideChain(a.mem, b.mem, c.mem, a.at.Values + a.free);
  }

  lemma Beyond<T>(r: set<T>, more: set<T>, s: set<T>)
    ensures |(r + more) - s| == |r - s| + |more - (s + r)|
  {
    assert (r + more) - s == (r - s) + (more - (s + r));
  }

  /** Bytes of the table's own nodes are rewritten. */
  lemma GrownWrite(a: Footing, b: Footing, c: Footing, reached: set<Node>)
    requires Grown(a, b, reached) && c == b.(mem := c.mem) && SameOutside(b.mem, c.mem, b.at.Values)
    ensures Grown(a, c, reached)
  {
    hide Conserves, SameOutside;
    ConservesWrite(a, b, c);
  }

  /** From `a` to `b` the nodes in `dropped` were removed. */
  ghost predicate Shrunk(a: Footing, b: Footing, dropped: set<Node>) {
    dropped <= a.at.Keys && b.at == a.at - dropped && Conserves(a, b)
  }

  lemma ShrunkNot(a: Footing)
    ensures Shrunk(a, a, {})
  {
    assert a.at - {} == a.at;
  }

  lemma ShrunkWrite(a: Footing, b: Footing, c: Footing, dropped: set<Node>)
    requires Shrunk(a, b, dropped) && c == b.(mem := c.mem) && SameOutside(b.mem, c.mem, b.at.Values)
    ensures Shrunk(a, c, dropped)
  {
    hide Conserves, SameOutside;
    ConservesWrite(a, b, c);
  }

  lemma ShrunkChain(a: Footing, b: Footing, c: Footing, dropped: set<Node>, more: set<Node>)
    requires Shrunk(a, b, dropped) && Shrunk(b, c, more)
    ensures Shrunk(a, c, dropped + more)
  {
    hide Conserves;
    ConservesChain(a, b, c);
    assert a.at - (dropped + more) == (a.at - dropped) - more;
  }

  lemma ShrunkParts(a: Footing, b: Footing, dropped: set<Node>)
    requires Shrunk(a, b, dropped)
    ensures b.at == a.at - dropped && Conserves(a, b) && SameOutside(a.mem, b.mem, a.at.Values + a.free)
  {
  }

  /** One node is dropped, and its frame becomes free. */
  lemma ShrunkOne(a: Footing, b: Footing, n: Node)
    requires n in a.at && Separate(a.at)
    requires b == Footing(a.at - {n}, a.free + {a.at[n]}, a.live - {a.at[n]}, a.mem)
    ensures Shrunk(a, b, {n})
  {
    ValuesRemoved(a.at, n);
  }

  lemma GrownSize(a: Footing, b: Footing, reached: set<Node>, all: set<Node>, n: Node)
    requires Grown(a, b, reached) && reached <= all && n in all && n !in b.at && b.free == {}
    ensures |a.free| < |all - a.at.Keys|
  {
    SubsetSize((reached - a.at.Keys) + {n}, all - a.at.Keys);
  }

  lemma GrownEnough(a: Footing, b: Footing, reached: set<Node>)
    requires Grown(a, b, reached)
    ensures |a.free| >= |reached - a.at.Keys|
  {
  }

  lemma GrownParts(a: Footing, b: Footing, reached: set<Node>)
    requires Grown(a, b, reached)
    ensures Placed(a.at, b.at, reached) && Conserves(a, b) && SameOutside(a.mem, b.mem, a.at.Values + a.free)
    ensures |b.free| == |a.free| - |reached - a.at.Keys|
  {
  }

  /** The frames a table owns, next to the free and the live frames of the machine. */
  datatype Claim = Claim(own: set<nat>, free: set<nat>, live: set<nat>)

  /** No frame is lost, gained or taken from others: owned and free frames trade places. */
  ghost predicate Settled(a: Claim, b: Claim) {
    b.own + b.free == a.own + a.free && b.live - b.own == a.live - a.own
  }

  lemma SettledNot(a: Claim)
    ensures Settled(a, a)
  {
  }

  lemma SettledChain(a: Claim, b: Claim, c: Claim)
    requires Settled(a, b) && Settled(b, c)
    ensures Settled(a, c)
  {
  }

  /** Changes of the nodes alone settle, whatever data is owned, and whether or not `p` is held besides. */
  lemma ConservesSettles(a: Footing, b: Footing, data: set<nat>, p: nat)
    requires Conserves(a, b)
    ensures Settled(Claim(a.at.Values + data, a.free, a.live), Claim(b.at.Values + data, b.free, b.live))
    ensures Settled(Claim(a.at.Values + data + {p}, a.free, a.live), Claim(b.at.Values + data + {p}, b.free, b.live))
  {
    hide SameOutside;
    assert b.live - (b.at.Values + data) == (b.live - b.at.Values) - data;
    assert b.live - (b.at.Values + data + {p}) == (b.live - b.at.Values) - data - {p};
  }

  lemma TakenOutside(mem: Memory, p: nat, f: Frame, mem': Memory, nodes: set<nat>, free: set<nat>)
    requires p in free && SameOutside(mem[p := f], mem', nodes + (free - {p}))
    ensures SameOutside(mem, mem', nodes + free)
  {
  }

  /** A frame that neither holds a node nor is free keeps its bytes while the nodes change. */
  lemma ConservesData(a: Footing, b: Footing, p: nat)
    requires Conserves(a, b) && a.at.Values <= a.live && p in a.live && p !in a.at.Values && p !in a.free
    ensures FrameAt(b.mem, p) == FrameAt(a.mem, p) && p in b.live && p !in b.at.Values
  {
    assert p in a.live - a.at.Values;
  }

  /** The nodes below the root that the walk of `vpn` has passed when it reaches depth `level`. */
  ghost function NodesUpTo(vpn: nat, level: nat): set<Node> {
    if level == 0 then {} else if level == 1 then {NodeOn(vpn, 1)} else NodesOf(vpn)
  }

  class PageTable {
    const asid: nat
    const phys: PhysicalMemory
    var root: Mapper
    var mappers: map<nat, Mapper>
    var trackers: map<nat, nat>
    ghost var at: Placement

    ghost function Now(): Table
      reads this
    {
      Table(root, mappers, trackers, at)
    }

    ghost predicate Valid()
      reads this, phys
    {
      phys.Valid() && Sound(phys.frames, phys.Live(), Now())
    }

    ghost function View(): map<nat, Mapping>
      reads this, phys
    {
      Translation(phys.frames, Now())
    }

    /** The count of valid entries recorded for the mapper on frame `ppn`. */
    function Count(ppn: nat): (c: nat)
      reads this
      ensures c == CountIn(Now(), ppn)
    {
      if ppn == root.ppn then root.count else if ppn in mappers then mappers[ppn].count else 0
    }

    /** `PageMapper::incr` on the mapper that frame `ppn` holds. */
    method Incr(ppn: nat) returns (r: Result<nat>)
      requires ppn == root.ppn || ppn in mappers
      modifies this`root, this`mappers
      ensures r == if old(CountIn(Now(), ppn)) == WORDS_PER_PAGE then Err(AllocFullPageMapper(ppn))
                   else Ok(old(CountIn(Now(), ppn)) + 1)
      ensures r.Err? ==> root == old(root) && mappers == old(mappers)
      ensures r.Ok? ==> (root, mappers) == WithCount(old(root), old(mappers), ppn, r.value)
    {
      var count := Count(ppn);
      if count == WORDS_PER_PAGE {
        return Err(AllocFullPageMapper(ppn));
      }
      r := Ok(count + 1);
      if ppn == root.ppn {
        root := root.(count := count + 1);
      } else {
        mappers := mappers[ppn := mappers[ppn].(count := count + 1)];
      }
    }

    /** `PageMapper::decr` on the mapper that frame `ppn` holds. */
    method Decr(ppn: nat) returns (r: Result<nat>)
      requires ppn == root.ppn || ppn in mappers
      modifies this`root, this`mappers
      ensures r == if old(CountIn(Now(), ppn)) == 0 then Err(DeallocEmptyPageMapper(ppn))
                   else Ok(old(CountIn(Now(), ppn)) - 1)
      ensures r.Err? ==> root == old(root) && mappers == old(mappers)
      ensures r.Ok? ==> (root, mappers) == WithCount(old(root), old(mappers), ppn, r.value)
    {
      var count := Count(ppn);
      if count == 0 {
        return Err(DeallocEmptyPageMapper(ppn));
      }
      r := Ok(count - 1);
      if ppn == root.ppn {
        root := root.(count := count - 1);
      } else {
        mappers := mappers[ppn := mappers[ppn].(count := count - 1)];
      }
    }

    /** `PageTable::new`, given the frame it allocated for the root mapper. */
    constructor (asid: nat, phys: PhysicalMemory, tracker: nat)
      requires phys.Valid() && tracker in phys.Live() && FrameAt(phys.frames, tracker) == ZeroFrame()
      ensures Valid() && Agrees(phys.frames, Now()) && Tight(phys.frames, Now())
      ensures this.phys == phys && this.asid == asid && root.ppn == tracker
      ensures View() == map[] && trackers == map[] && at == map[Top := tracker] && Owned(Now()) == {tracker}
    {
      this.asid := asid;
      this.phys := phys;
      root := Mapper(None, 0, tracker);
      mappers := map[];
      trackers := map[];
      at := map[Top := tracker];
      new;
      hide Sound, Translation, Agrees, Tight, Owned;
      FreshTableSound(phys.frames, phys.Live(), tracker);
      assert Now() == FreshTable(tracker);
    }

    /** Hangs a new mapper under the empty slot `i` of mapper `cur`. */
    method CreateMapper(cur: nat, i: nat, ghost n: Node) returns (r: Result<nat>)
      requires Valid() && n in at && at[n] == cur && !n.Low? && i < WORDS_PER_PAGE && Child(n, i) !in at
      modifies this`root, this`mappers, this`at, phys
      ensures Valid() && View() == old(View()) && phys.pool.limit == old(phys.pool.limit)
      ensures r.Err? <==> old(phys.Free()) == {}
      ensures r.Err? ==> r.error == FrameExhausted && Here() == old(Here())
      ensures r.Ok? ==> at == old(at)[Child(n, i) := r.value]
      ensures r.Ok? ==> r.value in old(phys.Free()) && phys.Free() == old(phys.Free()) - {r.value}
      ensures r.Ok? ==> phys.Live() == old(phys.Live()) + {r.value} && at.Values == old(at.Values) + {r.value}
      ensures SameOutside(old(phys.frames), phys.frames, old(at.Values) + old(phys.Free()))
    {
      hide WithWord, Sound, Booked, Translation, SameOutside, Owned, NewEntry, ZeroFrame, Pool.Free, Pool.Live;
      hide Pool.Valid;
      var t := phys.AllocFrame();
      if t.Err? {
        SameOutsideRefl(phys.frames, at.Values + phys.Free());
        return Err(t.error);
      }
      var p := t.value;
      assert cur == root.ppn || cur in mappers by {
        SoundIsBooked(old(phys.frames), old(phys.Live()), Now());
        NodeFacts(old(phys.frames), old(phys.Live()), Now(), n);
      }
      NewMapperSound(old(phys.frames), old(phys.Live()), Now(), n, i, p);
      ValuesAdded(at, Child(n, i), p);
      phys.frames := WithEntry(phys.frames, cur, i, NewEntry(p, VALID_FLAG));
      var inc := Incr(cur);
      if inc.Err? {
        assert false;
      }
      if p in mappers {
        assert false;
      }
      mappers := mappers[p := Mapper(Some(cur), 0, p)];
      at := at[Child(n, i) := p];
      assert Now() == WithNewMapper(old(Now()), n, i, p);
      SameOutsideMore(old(phys.frames), phys.frames, old(at.Values) + {p}, old(at.Values) + old(phys.Free()));
      r := Ok(p);
    }

    /** One step of the walk in `map_without_alloc`: find the next mapper, or create it. */
    method Descend(cur: nat, i: nat, ghost n: Node) returns (r: Result<nat>)
      requires Valid() && n in at && at[n] == cur && !n.Low? && i < WORDS_PER_PAGE
      modifies this`root, this`mappers, this`at, phys
      ensures Valid() && View() == old(View()) && phys.pool.limit == old(phys.pool.limit)
      ensures r.Err? <==> Child(n, i) !in old(at) && old(phys.Free()) == {}
      ensures r.Err? ==> r.error == FrameExhausted && Here() == old(Here())
      ensures r.Ok? ==> Child(n, i) in at && at[Child(n, i)] == r.value && Grown(old(Here()), Here(), {Child(n, i)})
    {
      hide Word, Sound, Translation, SameOutside, Grown, Pool.Free, Pool.Live, Pool.Valid, Decode, IsValid;
      LinkFacts(phys.frames, phys.Live(), Now(), n, i);
      FreeNotLive();
      var e := EntryAt(phys.frames, cur, i);
      if e.None? {
        r := CreateMapper(cur, i, n);
        if r.Ok? {
          GrownOne(old(Here()), Here(), Child(n, i), r.value);
        }
      } else {
        if e.value.ppn !in mappers {
          assert false;
        }
        GrownSame(Here(), Child(n, i));
        r := Ok(e.value.ppn);
      }
    }

    ghost function Here(): Footing
      reads this, phys
    {
      Footing(at, phys.Free(), phys.Live(), phys.frames)
    }

    /** The nodes that mapping `vpn` would have to create. */
    ghost function Missing(vpn: nat): set<Node>
      reads this
    {
      NodesOf(vpn) - at.Keys
    }

    /** The walk of `map_without_alloc`, down to the mapper that holds the entry of page `v`. */
    method WalkDown(indexes: seq<nat>, ghost v: nat) returns (r: Result<nat>, ghost reached: set<Node>)
      requires Valid() && v < VPN_LIMIT && indexes == [Index(v, 0), Index(v, 1), Index(v, 2)]
      modifies this`root, this`mappers, this`at, phys
      ensures Valid() && View() == old(View()) && phys.pool.limit == old(phys.pool.limit)
      ensures r.Ok? <==> |old(phys.Free())| >= |old(Missing(v))|
      ensures r.Err? ==> r.error == FrameExhausted
      ensures r.Ok? ==> NodeOn(v, 2) in at && at[NodeOn(v, 2)] == r.value && reached == NodesOf(v)
      ensures Grown(old(Here()), Here(), reached) && reached <= NodesOf(v)
    {
      hide Sound, Translation, Grown, SameOutside, Pool.Free, Pool.Live, Pool.Valid, Index;
      SoundFacts(phys.frames, phys.Live(), Now());
      GrownNot(Here());
      var cur := root.ppn;
      var i := 0;
      reached := {};
      while i < LEVELS - 1
        invariant 0 <= i <= LEVELS - 1
        invariant Valid() && View() == old(View()) && phys.pool.limit == old(phys.pool.limit)
        invariant NodeOn(v, i) in at && at[NodeOn(v, i)] == cur
        invariant Grown(old(Here()), Here(), reached) && reached == NodesUpTo(v, i)
      {
        ghost var n, b := NodeOn(v, i + 1), Here();
        var next := Descend(cur, indexes[i], NodeOn(v, i));
        if next.Err? {
          GrownSize(old(Here()), b, reached, NodesOf(v), n);
          return Err(next.error), reached;
        }
        GrownChain(old(Here()), b, Here(), reached, {n});
        cur := next.value;
        i := i + 1;
        reached := reached + {n};
      }
      GrownEnough(old(Here()), Here(), reached);
      r := Ok(cur);
    }

    /** Fills the empty slot of `v` in its lowest mapper, on frame `cur`. */
    method StorePage(ghost v: nat, cur: nat, i: nat, ppn: nat, flags: Byte)
      requires Valid() && v < VPN_LIMIT && v !in View() && ppn < PPN_LIMIT && flags % 2 == 1
      requires NodeOn(v, 2) in at && at[NodeOn(v, 2)] == cur && i == Index(v, 2)
      modifies this`root, this`mappers, phys`frames
      ensures Valid() && View() == old(View())[v := Plain(ppn, flags)]
      ensures SameOutside(old(phys.frames), phys.frames, at.Values)
    {
      hide Sound, Translation, SameOutside, Pool.Live, Pool.Valid, Index, Word, WithWord, NewEntry, IsValid, Decode;
      var e := NewEntry(ppn, flags);
      EntryRoundTrip(ppn, flags);
      PageWriteSound(phys.frames, phys.Live(), Now(), v, e);
      phys.frames := WithEntry(phys.frames, cur, i, e);
      var inc := Incr(cur);
      if inc.Err? {
        assert false;
      }
      assert Now() == WithPage(old(Now()), v, old(CountIn(Now(), cur)) + 1);
    }

    /** Maps the page of `vpn` to `ppn`; the entry's valid flag is forced. */
    method MapWithoutAlloc(vpn: nat, ppn: nat, flags: Byte) returns (r: Result<()>, ghost reached: set<Node>)
      requires Valid() && ppn < PPN_LIMIT
      modifies this`root, this`mappers, this`at, phys
      ensures Valid() && phys.pool.limit == old(phys.pool.limit)
      ensures r == if PageOf(vpn) in old(View()) then Err(VPNAlreadyMapped(vpn))
                   else if |old(phys.Free())| < |old(Missing(PageOf(vpn)))| then Err(FrameExhausted) else Ok(())
      ensures View() == if r.Ok? then old(View())[PageOf(vpn) := Plain(ppn, WithValid(flags))] else old(View())
      ensures Grown(old(Here()), Here(), reached) && reached <= NodesOf(PageOf(vpn))
      ensures r != Err(FrameExhausted) ==> reached == NodesOf(PageOf(vpn))
    {
      PageOfIndexes(vpn);
      hide Sound, Translation, Grown, SameOutside, Pool.Free, Pool.Live, Pool.Valid, Index, Word;
      var indexes := PageIndexes(vpn);
      ghost var v := PageOf(vpn);
      hide PageOf;
      if v in View() {
        MappedHasNodes(phys.frames, phys.Live(), Now(), v);
        assert Missing(v) == {};
      }
      var walk;
      walk, reached := WalkDown(indexes, v);
      if walk.Err? {
        return Err(walk.error), reached;
      }
      var cur := walk.value;
      ghost var b := Here();
      PageFacts(phys.frames, Now(), v);
      var e := EntryAt(phys.frames, cur, indexes[2]);
      if e.Some? {
        return Err(VPNAlreadyMapped(vpn)), reached;
      }
      StorePage(v, cur, indexes[2], ppn, WithValid(flags));
      GrownWrite(old(Here()), b, Here(), reached);
      r := Ok(());
    }

    /** Empties the slot of `v` in its lowest mapper, on frame `cur`. */
    method ErasePage(ghost v: nat, cur: nat, i: nat)
      requires Valid() && v < VPN_LIMIT && v in View()
      requires NodeOn(v, 2) in at && at[NodeOn(v, 2)] == cur && i == Index(v, 2)
      modifies this`root, this`mappers, phys`frames
      ensures Valid() && View() == old(View()) - {v}
      ensures SameOutside(old(phys.frames), phys.frames, at.Values)
    {
      hide Sound, Translation, SameOutside, Pool.Live, Pool.Valid, Index, Word, WithWord, Decode;
      assert !IsValid(0);
      hide IsValid;
      PageWriteSound(phys.frames, phys.Live(), Now(), v, 0);
      var dec := Decr(cur);
      if dec.Err? {
        assert false;
      }
      phys.frames := WithEntry(phys.frames, cur, i, 0);
      assert Now() == WithPage(old(Now()), v, old(CountIn(Now(), cur)) - 1);
    }

    /** Drops the record and the frame of the empty mapper `cur`; the link to it is still in place. */
    method DropMapper(cur: nat, ghost c: Node)
      requires Valid() && c in at && c != Top && at[c] == cur && CountIn(Now(), cur) == 0
      modifies this`mappers, this`at, phys`pool
      ensures phys.Valid() && Booked(phys.frames, phys.Live(), Now()) && phys.pool.limit == old(phys.pool.limit)
      ensures at == old(at) - {c} && Parent(c) in at && CountsOf(phys.frames)(cur) == 0 && c !in at
      ensures IsTree(EntriesOf(phys.frames), at[c := cur])
      ensures Tree.View(EntriesOf(phys.frames), at[c := cur]) == old(View())
      ensures Here() == Footing(old(at) - {c}, old(phys.Free()) + {cur}, old(phys.Live()) - {cur}, old(phys.frames))
    {
      hide Booked, IsTree, Tree.View, Pool.Free, Pool.Live, Pool.Valid, ValidCount;
      DropMapperKeeps(phys.frames, phys.Live(), Now(), c);
      phys.LiveStarts(cur);
      if cur !in mappers {
        assert false;
      }
      mappers := mappers - {cur};
      var d := phys.DeallocFrame(cur);
      if d.Err? {
        assert false;
      }
      at := at - {c};
      assert Now() == WithoutMapper(old(Now()), c);
    }

    /** Clears the link to the mapper dropped from frame `p`. */
    method Unlink(cur: nat, i: nat, ghost n: Node, ghost p: nat)
      requires phys.Valid() && Booked(phys.frames, phys.Live(), Now())
      requires n in at && !n.Low? && at[n] == cur && i < WORDS_PER_PAGE && Child(n, i) !in at
      requires IsTree(EntriesOf(phys.frames), at[Child(n, i) := p]) && CountsOf(phys.frames)(p) == 0
      requires Clear(Tree.View(EntriesOf(phys.frames), at[Child(n, i) := p]))
      modifies this`root, this`mappers, phys`frames
      ensures Valid() && View() == old(Tree.View(EntriesOf(phys.frames), at[Child(n, i) := p]))
      ensures SameOutside(old(phys.frames), phys.frames, at.Values)
    {
      hide Booked, Sound, IsTree, Tree.View, Translation, SameOutside, Pool.Live, Pool.Valid, ValidCount, WithWord;
      UnlinkSound(phys.frames, phys.Live(), Now(), n, i, p);
      NodeFacts(phys.frames, phys.Live(), Now(), n);
      var dec := Decr(cur);
      if dec.Err? {
        assert false;
      }
      phys.frames := WithEntry(phys.frames, cur, i, 0);
      assert Now() == WithFewer(old(Now()), n);
    }

    /** The first loop of `unmap_without_dealloc`: follow the links down to the lowest mapper. */
    method FollowDown(vpn: nat, indexes: seq<nat>, ghost v: nat) returns (r: Result<nat>)
      requires Valid() && v < VPN_LIMIT && indexes == [Index(v, 0), Index(v, 1), Index(v, 2)]
      ensures r.Ok? ==> NodeOn(v, 2) in at && at[NodeOn(v, 2)] == r.value
      ensures r.Err? ==> r.error == VPNNotMapped(vpn) && v !in View()
    {
      hide Sound, Translation, Pool.Live, Pool.Valid, Index, Word, Decode, IsValid;
      SoundFacts(phys.frames, phys.Live(), Now());
      var cur := root.ppn;
      var i := 0;
      while i < LEVELS - 1
        invariant 0 <= i <= LEVELS - 1
        invariant NodeOn(v, i) in at && at[NodeOn(v, i)] == cur
      {
        LinkFacts(phys.frames, phys.Live(), Now(), NodeOn(v, i), Index(v, i));
        var e := EntryAt(phys.frames, cur, indexes[i]);
        if e.None? {
          if v in View() {
            MappedHasNodes(phys.frames, phys.Live(), Now(), v);
            assert false;
          }
          return Err(VPNNotMapped(vpn));
        }
        cur := e.value.ppn;
        if cur !in mappers {
          assert false;
        }
        i := i + 1;
      }
      r := Ok(cur);
    }

    /** Removes the empty mapper `cur` and the link to it from its parent `up`. */
    method ReclaimOne(cur: nat, i: nat, ghost c: Node) returns (up: nat)
      requires Valid() && c in at && c != Top && at[c] == cur && Count(cur) == 0 && i == Slot(c)
      modifies this`root, this`mappers, this`at, phys
      ensures Valid() && View() == old(View()) && phys.pool.limit == old(phys.pool.limit)
      ensures at == old(at) - {c} && Parent(c) in at && at[Parent(c)] == up
      ensures Shrunk(old(Here()), Here(), {c})
    {
      hide Sound, Booked, IsTree, Tree.View, Translation, Shrunk, SameOutside, Pool.Free, Pool.Live, Pool.Valid;
      hide WithWord, ValidCount;
      SoundIsBooked(phys.frames, phys.Live(), Now());
      SoundIsClear(phys.frames, phys.Live(), Now());
      NodeFacts(phys.frames, phys.Live(), Now(), c);
      DropMapperKeeps(phys.frames, phys.Live(), Now(), c);
      var parent := mappers[cur].parent;
      if parent == None {
        assert false;
      }
      up := parent.value;
      DropMapper(cur, c);
      ShrunkOne(old(Here()), Here(), c);
      ghost var b := Here();
      Unlink(up, i, Parent(c), cur);
      ShrunkWrite(old(Here()), b, Here(), {c});
    }

    /** The second loop of `unmap_without_dealloc`, after the entry of `v` is cleared. */
    method Reclaim(indexes: seq<nat>, lowest: nat, ghost v: nat) returns (ghost dropped: set<Node>)
      requires Valid() && v < VPN_LIMIT && indexes == [Index(v, 0), Index(v, 1), Index(v, 2)]
      requires NodeOn(v, 2) in at && at[NodeOn(v, 2)] == lowest
      modifies this`root, this`mappers, this`at, phys
      ensures Valid() && View() == old(View()) && phys.pool.limit == old(phys.pool.limit)
      ensures Shrunk(old(Here()), Here(), dropped) && dropped <= NodesOf(v)
      ensures NoneIdle(Now(), v)
    {
      hide Sound, Translation, Shrunk, SameOutside, Pool.Free, Pool.Live, Pool.Valid, Index;
      ShrunkNot(Here());
      dropped := {};
      var cur := lowest;
      var i := LEVELS - 1;
      while i > 0 && Count(cur) == 0
        invariant 0 <= i <= LEVELS - 1
        invariant Valid() && View() == old(View()) && phys.pool.limit == old(phys.pool.limit)
        invariant NodeOn(v, i) in at && at[NodeOn(v, i)] == cur
        invariant Shrunk(old(Here()), Here(), dropped) && dropped <= NodesOf(v)
        invariant i < 2 ==> NodeOn(v, 2) !in at
        invariant i < 1 ==> NodeOn(v, 1) !in at
      {
        ghost var c, b := NodeOn(v, i), Here();
        cur := ReclaimOne(cur, indexes[i - 1], c);
        ShrunkChain(old(Here()), b, Here(), dropped, {c});
        dropped := dropped + {c};
        i := i - 1;
      }
    }

    /** Removes the entry of `vpn`, then every mapper on its walk that is left empty, from the lowest up. */
    method UnmapWithoutDealloc(vpn: nat) returns (r: Result<nat>, ghost dropped: set<Node>)
      requires Valid()
      modifies this`root, this`mappers, this`at, phys
      ensures Valid() && phys.pool.limit == old(phys.pool.limit)
      ensures r == if PageOf(vpn) in old(View()) then Ok(old(View())[PageOf(vpn)].ppn) else Err(VPNNotMapped(vpn))
      ensures View() == old(View()) - {PageOf(vpn)}
      ensures Shrunk(old(Here()), Here(), dropped) && dropped <= NodesOf(PageOf(vpn))
      ensures r.Err? ==> dropped == {}
      ensures r.Ok? ==> NoneIdle(Now(), PageOf(vpn))
    {
      PageOfIndexes(vpn);
      hide Sound, Translation, Shrunk, SameOutside, Pool.Free, Pool.Live, Pool.Valid, Index, Word, Decode, IsValid;
      var indexes := PageIndexes(vpn);
      ghost var v := PageOf(vpn);
      hide PageOf;
      ShrunkNot(Here());
      dropped := {};
      PageFacts(phys.frames, Now(), v);
      var down := FollowDown(vpn, indexes, v);
      if down.Err? {
        assert View() - {v} == View();
        return Err(down.error), dropped;
      }
      var e := EntryAt(phys.frames, down.value, indexes[2]);
      if e.None? {
        assert View() - {v} == View();
        return Err(VPNNotMapped(vpn)), dropped;
      }
      r := Ok(e.value.ppn);
      ErasePage(v, down.value, indexes[2]);
      ghost var b := Here();
      ShrunkWrite(old(Here()), old(Here()), b, {});
      dropped := Reclaim(indexes, down.value, v);
      ShrunkChain(old(Here()), b, Here(), {}, dropped);
      assert {} + dropped == dropped;
    }

    ghost function Claims(): Claim
      reads this, phys
    {
      Claim(Owned(Now()), phys.Free(), phys.Live())
    }

    /** What the table claims when it also holds frame `p`, not tracked yet. */
    ghost function ClaimsWith(p: nat): Claim
      reads this, phys
    {
      Claim(Owned(Now()) + {p}, phys.Free(), phys.Live())
    }

    /** Gives back a frame that is held but not tracked. */
    method ReturnFrame(p: nat)
      requires Valid() && p in phys.Live() && p !in Owned(Now())
      modifies phys`pool
      ensures Valid() && View() == old(View()) && phys.pool.limit == old(phys.pool.limit)
      ensures Settled(old(ClaimsWith(p)), Claims())
    {
      hide Sound, Translation, Pool.Free, Pool.Valid;
      phys.LiveStarts(p);
      var d := phys.DeallocFrame(p);
      if d.Err? {
        assert false;
      }
      OwnedIsLive(old(phys.frames), old(phys.Live()), Now());
      FrameKeeps(phys.frames, phys.frames, old(phys.Live()), phys.Live(), Now());
    }

    /** Takes a cleared frame for data. */
    method TakeFrame() returns (r: Result<nat>)
      requires Valid()
      modifies phys
      ensures Valid() && View() == old(View()) && phys.pool.limit == old(phys.pool.limit)
      ensures r.Err? <==> old(phys.Free()) == {}
      ensures r.Err? ==> r.error == FrameExhausted && phys.pool == old(phys.pool) && phys.frames == old(phys.frames)
      ensures r.Ok? ==>
        && r.value in old(phys.Free()) && r.value in phys.Live() && r.value !in Owned(Now()) && r.value < PPN_LIMIT
        && phys.Free() == old(phys.Free()) - {r.value}
        && phys.frames == old(phys.frames)[r.value := ZeroFrame()]
        && Settled(old(Claims()), ClaimsWith(r.value))
    {
      hide Sound, Translation, Pool.Free, Pool.Live, Pool.Valid, ZeroFrame;
      FreeNotLive();
      r := phys.AllocFrame();
      if r.Ok? {
        OwnedIsLive(old(phys.frames), old(phys.Live()), Now());
        FrameKeeps(old(phys.frames), phys.frames, old(phys.Live()), phys.Live(), Now());
      }
    }

    /** Tracks the held frame `p` for `vpn`; a frame tracked for it before is given back, and reported. */
    method Track(vpn: nat, p: nat) returns (r: Result<nat>)
      requires Valid() && p in phys.Live() && p !in Owned(Now())
      modifies this`trackers, phys`pool
      ensures Valid() && View() == old(View()) && phys.pool.limit == old(phys.pool.limit)
      ensures trackers == old(trackers)[vpn := p]
      ensures r == if vpn in old(trackers) then Err(VPNAlreadyMapped(vpn)) else Ok(p)
      ensures vpn !in old(trackers) ==> phys.pool == old(phys.pool)
      ensures Settled(old(ClaimsWith(p)), Claims())
    {
      hide Sound, Translation, Pool.Free, Pool.Live, Pool.Valid;
      TrackSound(phys.frames, phys.Live(), Now(), vpn, p);
      OwnedIsLive(phys.frames, phys.Live(), Now());
      var was := trackers;
      trackers := trackers[vpn := p];
      assert Now() == old(Now()).(trackers := old(trackers)[vpn := p]);
      if vpn in was {
        assert was[vpn] in was.Values;
        ReturnFrame(was[vpn]);
        r := Err(VPNAlreadyMapped(vpn));
      } else {
        r := Ok(p);
      }
    }

    /** `map_without_alloc`, with its effect on frames stated for the table as a whole. */
    method MapFixed(vpn: nat, ppn: nat, flags: Byte) returns (r: Result<()>, ghost reached: set<Node>)
      requires Valid() && ppn < PPN_LIMIT
      modifies this`root, this`mappers, this`at, phys
      ensures Valid() && phys.pool.limit == old(phys.pool.limit)
      ensures r == if PageOf(vpn) in old(View()) then Err(VPNAlreadyMapped(vpn))
                   else if |old(phys.Free())| < |old(Missing(PageOf(vpn)))| then Err(FrameExhausted) else Ok(())
      ensures View() == if r.Ok? then old(View())[PageOf(vpn) := Plain(ppn, WithValid(flags))] else old(View())
      ensures r.Ok? ==> at.Keys == old(at.Keys) + NodesOf(PageOf(vpn))
      ensures r.Ok? ==> |phys.Free()| == |old(phys.Free())| - |old(Missing(PageOf(vpn)))|
      ensures Placed(old(at), at, reached) && reached <= NodesOf(PageOf(vpn))
      ensures Settled(old(Claims()), Claims())
      ensures SameOutside(old(phys.frames), phys.frames, old(at.Values) + old(phys.Free()))
    {
      hide Sound, Translation, SameOutside, Settled, Grown, Conserves, Pool.Free, Pool.Live, Pool.Valid, WithValid;
      r, reached := MapWithoutAlloc(vpn, ppn, flags);
      GrownParts(old(Here()), Here(), reached);
      ConservesSettles(old(Here()), Here(), trackers.Values, 0);
    }

    /** `map_without_alloc` while a data frame `p` is held for the page. */
    method MapHeld(vpn: nat, flags: Byte, p: nat) returns (r: Result<()>, ghost reached: set<Node>)
      requires Valid() && p < PPN_LIMIT && p in phys.Live() && p !in Owned(Now())
      modifies this`root, this`mappers, this`at, phys
      ensures Valid() && phys.pool.limit == old(phys.pool.limit)
      ensures r == if PageOf(vpn) in old(View()) then Err(VPNAlreadyMapped(vpn))
                   else if |old(phys.Free())| < |old(Missing(PageOf(vpn)))| then Err(FrameExhausted) else Ok(())
      ensures View() == if r.Ok? then old(View())[PageOf(vpn) := Plain(p, WithValid(flags))] else old(View())
      ensures r.Ok? ==>
        reached == NodesOf(PageOf(vpn)) && |phys.Free()| == |old(phys.Free())| - |old(Missing(PageOf(vpn)))|
      ensures Placed(old(at), at, reached) && reached <= NodesOf(PageOf(vpn))
      ensures p in phys.Live() && p !in Owned(Now()) && FrameAt(phys.frames, p) == old(FrameAt(phys.frames, p))
      ensures Settled(old(ClaimsWith(p)), ClaimsWith(p))
      ensures SameOutside(old(phys.frames), phys.frames, old(at.Values) + old(phys.Free()))
    {
      hide Sound, Translation, SameOutside, Settled, Grown, Conserves, Placed, Pool.Free, Pool.Live, Pool.Valid;
      hide WithValid;
      FreeNotLive();
      OwnedParts(phys.frames, phys.Live(), Now());
      r, reached := MapWithoutAlloc(vpn, p, flags);
      GrownParts(old(Here()), Here(), reached);
      ConservesData(old(Here()), Here(), p);
      ConservesSettles(old(Here()), Here(), trackers.Values, p);
    }

    /** The part of `map` after its data frame `p` is allocated. */
    method MapTo(vpn: nat, flags: Byte, p: nat) returns (r: Result<nat>, ghost reached: set<Node>)
      requires Valid() && p < PPN_LIMIT && p in phys.Live() && p !in Owned(Now())
      modifies this`root, this`mappers, this`trackers, this`at, phys
      ensures Valid() && phys.pool.limit == old(phys.pool.limit)
      ensures var maps := PageOf(vpn) !in old(View()) && |old(phys.Free())| >= |old(Missing(PageOf(vpn)))|;
        && (maps ==> reached == NodesOf(PageOf(vpn)))
        && trackers == (if maps then old(trackers)[vpn := p] else old(trackers))
        && View() == (if maps then old(View())[PageOf(vpn) := Plain(p, WithValid(flags))] else old(View()))
        && r == if PageOf(vpn) in old(View()) || (maps && vpn in old(trackers)) then Err(VPNAlreadyMapped(vpn))
                else if maps then Ok(p) else Err(FrameExhausted)
      ensures r.Ok? ==> |phys.Free()| == |old(phys.Free())| - |old(Missing(PageOf(vpn)))|
      ensures Placed(old(at), at, reached) && reached <= NodesOf(PageOf(vpn))
      ensures Settled(old(ClaimsWith(p)), Claims())
      ensures FrameAt(phys.frames, p) == old(FrameAt(phys.frames, p))
      ensures SameOutside(old(phys.frames), phys.frames, old(at.Values) + old(phys.Free()))
    {
      hide Sound, Translation, SameOutside, Settled, Placed, Owned, Pool.Free, Pool.Live, Pool.Valid, WithValid;
      var m;
      m, reached := MapHeld(vpn, flags, p);
      ghost var mid := ClaimsWith(p);
      if m.Err? {
        ReturnFrame(p);
        r := Err(m.error);
      } else {
        r := Track(vpn, p);
      }
      SettledChain(old(ClaimsWith(p)), mid, Claims());
    }

    /** Whether `map` would put a page in place: with flags, unmapped, and with frames for it and its mappers. */
    ghost predicate Maps(vpn: nat, flags: Byte)
      reads this, phys
    {
      flags != 0 && PageOf(vpn) !in View() && |phys.Free()| > |Missing(PageOf(vpn))|
    }

    /** Maps `vpn` to a new cleared frame and tracks it. */
    method Map(vpn: nat, flags: Byte) returns (r: Result<nat>, ghost reached: set<Node>)
      requires Valid()
      modifies this`root, this`mappers, this`trackers, this`at, phys
      ensures Valid() && phys.pool.limit == old(phys.pool.limit)
      ensures old(Maps(vpn, flags)) ==>
        && vpn in trackers && trackers == old(trackers)[vpn := trackers[vpn]] && trackers[vpn] in old(phys.Free())
        && View() == old(View())[PageOf(vpn) := Plain(trackers[vpn], WithValid(flags))]
        && FrameAt(phys.frames, trackers[vpn]) == ZeroFrame()
        && r == if vpn in old(trackers) then Err(VPNAlreadyMapped(vpn)) else Ok(trackers[vpn])
      ensures !old(Maps(vpn, flags)) ==>
        && View() == old(View()) && trackers == old(trackers)
        && r == Err(if flags == 0 then InvalidPageTablePerm(0)
                    else if old(phys.Free()) != {} && PageOf(vpn) in old(View()) then VPNAlreadyMapped(vpn)
                    else FrameExhausted)
      ensures r.Ok? ==>
        && trackers == old(trackers)[vpn := r.value]
        && View() == old(View())[PageOf(vpn) := Plain(r.value, WithValid(flags))]
        && FrameAt(phys.frames, r.value) == ZeroFrame() && at.Keys == old(at.Keys) + NodesOf(PageOf(vpn))
      ensures r.Ok? ==> |phys.Free()| == |old(phys.Free())| - |old(Missing(PageOf(vpn)))| - 1
      ensures Placed(old(at), at, reached) && reached <= NodesOf(PageOf(vpn))
      ensures (old(Maps(vpn, flags)) ==> reached == NodesOf(PageOf(vpn)))
      ensures flags == 0 ==> reached == {}
      ensures Settled(old(Claims()), Claims())
      ensures SameOutside(old(phys.frames), phys.frames, old(at.Values) + old(phys.Free()))
    {
      hide Sound, Translation, Settled, Owned, SameOutside, Pool.Free, Pool.Live, Pool.Valid, ZeroFrame, WithValid;
      reached := {};
      SettledNot(Claims());
      SameOutsideRefl(phys.frames, at.Values + phys.Free());
      if flags == 0 {
        return Err(InvalidPageTablePerm(0)), reached;
      }
      var t := TakeFrame();
      if t.Err? {
        return Err(t.error), reached;
      }
      ghost var mid := ClaimsWith(t.value);
      r, reached := MapTo(vpn, flags, t.value);
      TakenOutside(old(phys.frames), t.value, ZeroFrame(), phys.frames, old(at.Values), old(phys.Free()));
      assert r.Ok? ==> at.Keys == old(at.Keys) + reached;
      hide Placed;
      SettledChain(old(Claims()), mid, Claims());
    }

    /** Stops tracking `vpn` and gives its frame back. */
    method Untrack(vpn: nat)
      requires Valid() && vpn in trackers
      modifies this`trackers, phys`pool
      ensures Valid() && View() == old(View()) && phys.pool.limit == old(phys.pool.limit)
      ensures trackers == old(trackers) - {vpn}
      ensures Settled(old(Claims()), Claims())
    {
      hide Sound, Translation, Pool.Free, Pool.Live, Pool.Valid;
      UntrackSound(phys.frames, phys.Live(), Now(), vpn);
      var p := trackers[vpn];
      assert p in trackers.Values;
      trackers := trackers - {vpn};
      assert Now() == old(Now()).(trackers := old(trackers) - {vpn});
      assert old(Claims()) == ClaimsWith(p);
      ReturnFrame(p);
    }

    /** Removes the entry of `vpn` and gives its tracked frame back. */
    method Unmap(vpn: nat) returns (r: Result<nat>, ghost dropped: set<Node>)
      requires Valid()
      modifies this`root, this`mappers, this`trackers, this`at, phys
      ensures Valid() && phys.pool.limit == old(phys.pool.limit)
      ensures r == if PageOf(vpn) in old(View()) && vpn in old(trackers) then Ok(old(View())[PageOf(vpn)].ppn)
                   else Err(VPNNotMapped(vpn))
      ensures View() == old(View()) - {PageOf(vpn)}
      ensures trackers == if PageOf(vpn) in old(View()) then old(trackers) - {vpn} else old(trackers)
      ensures at == old(at) - dropped && dropped <= NodesOf(PageOf(vpn))
      ensures (PageOf(vpn) !in old(View()) ==> dropped == {})
      ensures PageOf(vpn) in old(View()) ==> NoneIdle(Now(), PageOf(vpn))
      ensures Settled(old(Claims()), Claims())
      ensures SameOutside(old(phys.frames), phys.frames, old(at.Values) + old(phys.Free()))
    {
      hide Sound, Translation, SameOutside, Settled, Conserves, Pool.Free, Pool.Live, Pool.Valid, Index;
      var u;
      u, dropped := UnmapWithoutDealloc(vpn);
      ShrunkParts(old(Here()), Here(), dropped);
      ConservesSettles(old(Here()), Here(), trackers.Values, 0);
      ghost var mid := Claims();
      if u.Err? {
        return Err(u.error), dropped;
      }
      if vpn !in trackers {
        assert trackers - {vpn} == trackers;
        return Err(VPNNotMapped(vpn)), dropped;
      }
      Untrack(vpn);
      SettledChain(old(Claims()), mid, Claims());
      r := Ok(u.value);
    }

    /** `unmap_without_dealloc`, with its effect on frames stated for the table as a whole. */
    method UnmapFixed(vpn: nat) returns (r: Result<nat>, ghost dropped: set<Node>)
      requires Valid()
      modifies this`root, this`mappers, this`at, phys
      ensures Valid() && phys.pool.limit == old(phys.pool.limit)
      ensures r == if PageOf(vpn) in old(View()) then Ok(old(View())[PageOf(vpn)].ppn) else Err(VPNNotMapped(vpn))
      ensures View() == old(View()) - {PageOf(vpn)}
      ensures at == old(at) - dropped && dropped <= NodesOf(PageOf(vpn))
      ensures (PageOf(vpn) !in old(View()) ==> dropped == {})
      ensures PageOf(vpn) in old(View()) ==> NoneIdle(Now(), PageOf(vpn))
      ensures Settled(old(Claims()), Claims())
      ensures SameOutside(old(phys.frames), phys.frames, old(at.Values) + old(phys.Free()))
    {
      hide Sound, Translation, SameOutside, Settled, Conserves, Pool.Free, Pool.Live, Pool.Valid, Index;
      r, dropped := UnmapWithoutDealloc(vpn);
      ShrunkParts(old(Here()), Here(), dropped);
      ConservesSettles(old(Here()), Here(), trackers.Values, 0);
    }

    /** `translate_ppn_with`: the walk for reading. */
    method Translate(vpn: nat) returns (r: Option<nat>)
      requires Valid()
      ensures r == if PageOf(vpn) in View() then Some(View()[PageOf(vpn)].ppn) else None
    {
      PageOfIndexes(vpn);
      hide Sound, Translation, Pool.Live, Pool.Valid, Index, Word, Decode, IsValid;
      var indexes := PageIndexes(vpn);
      ghost var v := PageOf(vpn);
      hide PageOf;
      PageFacts(phys.frames, Now(), v);
      var down := FollowDown(vpn, indexes, v);
      if down.Err? {
        return None;
      }
      var e := EntryAt(phys.frames, down.value, indexes[2]);
      r := if e.Some? then Some(e.value.ppn) else None;
    }

    /** `get_tracker_with`. */
    method GetTracker(vpn: nat) returns (r: Result<nat>)
      ensures r == if vpn in trackers then Ok(trackers[vpn]) else Err(VPNNotMapped(vpn))
    {
      r := if vpn in trackers then Ok(trackers[vpn]) else Err(VPNNotMapped(vpn));
    }

    lemma FreeNotLive()
      requires phys.Valid()
      ensures phys.Free() !! phys.Live()
    {
      Partition(phys.pool, phys.start);
    }
  }
}
