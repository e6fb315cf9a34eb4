/** Two address spaces over one memory, step by step in any order: what one reads depends on its own steps only. */
module Isolation {
  import opened Bytes
  import opened Results
  import opened Pools
  import opened Physical
  import opened Tree
  import opened TableState
  import opened PageTables
  import opened Snapshots
  import opened RangeRuns
  import opened RangeAllocator
  import opened Areas
  import opened Layouts
  import opened PageBytes
  import opened Neighbours
  import opened Spaces
  import opened Forks
  import opened ForkSteps
  import opened UserSpaces
  import opened ForkProcess
  import opened StackLayout

  /** Two tables and the memory around them. */
  datatype Duo = Duo(one: Table, other: Table, mem: Memory, free: set<nat>, live: set<nat>) {
    function Swapped(): Duo {
      Duo(other, one, mem, free, live)
    }
  }

  ghost function ShotOne(d: Duo): Shot {
    Shot(Translation(d.mem, d.one), d.one.trackers, d.one.at.Keys, Claim(Owned(d.one), d.free, d.live), d.mem)
  }

  ghost predicate Parted(d: Duo) {
    Sound(d.mem, d.live, d.one) && Sound(d.mem, d.live, d.other) && Owned(d.one) !! Owned(d.other) && d.free !! d.live
  }

  /** A step of the first table, whatever it does. */
  ghost predicate ByOne(d: Duo, d': Duo) {
    && d'.other == d.other && Sound(d'.mem, d'.live, d'.one) && d'.free !! d'.live
    && exists pages :: Steps(ShotOne(d), ShotOne(d'), pages)
  }

  /** A step of the one whose turn it is. */
  ghost predicate Turns(d: Duo, d': Duo, first: bool) {
    if first then ByOne(d, d') else ByOne(d.Swapped(), d'.Swapped())
  }

  ghost predicate Interleaved(trace: seq<Duo>, turns: seq<bool>) {
    |trace| == |turns| + 1 && Parted(trace[0]) && forall i :: 0 <= i < |turns| ==> TurnsAt(trace, turns, i)
  }

  ghost predicate TurnsAt(trace: seq<Duo>, turns: seq<bool>, i: nat)
    requires i < |turns| && |trace| == |turns| + 1
  {
    Turns(trace[i], trace[i + 1], turns[i])
  }

  /**
   What user code of the first space can tell: which pages are there, with which rights, and the bytes of its own
   frames.
   */
  datatype Reading = Reading(rights: map<nat, Byte>, bytes: map<nat, Frame>)

  ghost function ReadingOf(s: Shot): Reading {
    Reading(map v | v in s.view :: s.view[v].flags, map v | v in s.trackers :: BytesOf(s, v))
  }

  lemma UntouchedReads(s: Shot, t: Shot)
    requires Untouched(s, t) && Owns(s)
    ensures ReadingOf(t) == ReadingOf(s)
  {
    forall v | v in s.trackers ensures BytesOf(t, v) == BytesOf(s, v) {
      assert s.trackers[v] in s.trackers.Values;
    }
  }

  lemma SoundOwns(d: Duo)
    requires Sound(d.mem, d.live, d.one)
    ensures Owns(ShotOne(d))
  {
    OwnedParts(d.mem, d.live, d.one);
    hide Translation, IsTree, Recorded;
  }

  /** A step of one keeps the two apart, and leaves what the other reads. */
  lemma OneTurns(d: Duo, d': Duo)
    requires Parted(d) && ByOne(d, d')
    ensures Parted(d') && Untouched(ShotOne(d.Swapped()), ShotOne(d'.Swapped()))
    ensures ReadingOf(ShotOne(d'.Swapped())) == ReadingOf(ShotOne(d.Swapped()))
  {
    hide Sound, Translation, Owned, Steps, Untouched, ReadingOf;
    var pages :| Steps(ShotOne(d), ShotOne(d'), pages);
    OtherKeeps(ShotOne(d), ShotOne(d'), pages, d.other);
    SoundOwns(d.Swapped());
    UntouchedReads(ShotOne(d.Swapped()), ShotOne(d'.Swapped()));
  }

  lemma TurnKeeps(d: Duo, d': Duo, first: bool)
    requires Parted(d) && Turns(d, d', first)
    ensures Parted(d')
    ensures !first ==> Untouched(ShotOne(d), ShotOne(d')) && ReadingOf(ShotOne(d')) == ReadingOf(ShotOne(d))
  {
    hide Sound, Owned, ByOne, Untouched, ReadingOf, ShotOne;
    if first {
      OneTurns(d, d');
    } else {
      OneTurns(d.Swapped(), d'.Swapped());
    }
  }

  /** The steps of the first space, each as what it does to what that space reads. */
  ghost function OwnSteps(start: Reading, does: seq<Reading -> Reading>, turns: seq<bool>): Reading
    requires |does| == |turns|
  {
    if turns == [] then start
    else
      var n := |turns| - 1;
      var before := OwnSteps(start, does[..n], turns[..n]);
      if turns[n] then does[n](before) else before
  }

  /** Each step of the first space does to its reading what `does` says. */
  ghost predicate Does(trace: seq<Duo>, turns: seq<bool>, does: seq<Reading -> Reading>) {
    |does| == |turns| && |trace| == |turns| + 1
    && forall i :: 0 <= i < |turns| && turns[i] ==>
      ReadingOf(ShotOne(trace[i + 1])) == does[i](ReadingOf(ShotOne(trace[i])))
  }

  /** In any interleaving the two stay apart, and what the first one reads comes of its own steps alone. */
  lemma {:induction false} OwnStepsOnly(trace: seq<Duo>, turns: seq<bool>, does: seq<Reading -> Reading>)
    requires Interleaved(trace, turns) && Does(trace, turns, does)
    ensures Parted(trace[|turns|])
    ensures ReadingOf(ShotOne(trace[|turns|])) == OwnSteps(ReadingOf(ShotOne(trace[0])), does, turns)
    decreases |turns|
  {
    hide Parted, Turns, ReadingOf, ShotOne;
    if turns != [] {
      var n := |turns| - 1;
      FrontInterleaved(trace, turns);
      OwnStepsOnly(trace[..n + 1], turns[..n], does[..n]);
      assert TurnsAt(trace, turns, n);
      TurnKeeps(trace[n], trace[n + 1], turns[n]);
    }
  }

  lemma FrontInterleaved(trace: seq<Duo>, turns: seq<bool>)
    requires Interleaved(trace, turns) && turns != []
    ensures Interleaved(trace[..|turns|], turns[..|turns| - 1])
  {
    hide Parted, Turns;
    var n := |turns| - 1;
    var front, before := trace[..n + 1], turns[..n];
    forall i | 0 <= i < n ensures TurnsAt(front, before, i) {
      assert TurnsAt(trace, turns, i);
    }
  }

  /** As long as only the other one steps, the first one is not touched. */
  lemma {:induction false} OthersStepsOnly(trace: seq<Duo>, turns: seq<bool>)
    requires Interleaved(trace, turns) && forall i :: 0 <= i < |turns| ==> !turns[i]
    ensures |trace| == |turns| + 1 && Parted(trace[|turns|]) && Untouched(ShotOne(trace[0]), ShotOne(trace[|turns|]))
    decreases |turns|
  {
    hide Parted, Turns, ShotOne, Untouched;
    if turns == [] {
      UntouchedSelf(ShotOne(trace[0]));
    } else {
      var n := |turns| - 1;
      FrontInterleaved(trace, turns);
      OthersStepsOnly(trace[..n + 1], turns[..n]);
      assert TurnsAt(trace, turns, n);
      TurnKeeps(trace[n], trace[n + 1], turns[n]);
      UntouchedChain(ShotOne(trace[0]), ShotOne(trace[n]), ShotOne(trace[n + 1]));
    }
  }

  // ---------- after a fork ----------

  /** The page tables of two spaces as they stand. */
  ghost function DuoOf(a: Space, b: Space): Duo
    reads a.pageTable, a.pageTable.phys, b.pageTable
  {
    Duo(a.pageTable.Now(), b.pageTable.Now(), a.pageTable.phys.frames, a.pageTable.phys.Free(), a.pageTable.phys.Live())
  }

  lemma StrangersParted(a: Space, b: Space)
    requires a.Valid() && b.Valid() && Strangers(a, b)
    ensures Parted(DuoOf(a, b)) && ShotOne(DuoOf(a, b)) == ShotOf(a.pageTable)
    ensures ShotOne(DuoOf(a, b).Swapped()) == ShotOf(b.pageTable)
  {
    a.pageTable.FreeNotLive();
    hide Sound, Translation, Owned, Laid, Pool.Valid, Pool.Free, Pool.Live, Chain, Shows, Ordered, Alternating;
    hide UsedPages;
  }

  /**
   A fork is a snapshot: whatever the parent does afterwards, for however long, until the child's first own step its
   copied areas hold what the parent's areas held at the fork.
   */
  lemma ForkIsSnapshot(child: Space, parent: Space, base: nat, exclude: set<Key>, top: nat, trace: seq<Duo>,
                       turns: seq<bool>)
    requires IsChild(child, parent, base, exclude, top) && Interleaved(trace, turns) && |trace| == |turns| + 1
    requires trace[0] == DuoOf(child, parent) && forall i :: 0 <= i < |turns| ==> !turns[i]
    ensures forall k :: k in parent.areaSet && k !in exclude ==>
      SameArea(ShotOne(trace[|turns|]), ShotOf(parent.pageTable), parent.areaSet[k])
    ensures SameBytes(ShotOne(trace[|turns|]), ShotOf(parent.pageTable), UserStackArea(base, ROOT_TID))
  {
    hide Sound, Translation, Owned, Laid, Pool.Valid, Pool.Free, Pool.Live, Chain, Shows, Ordered, Alternating;
    hide UsedPages;
    hide SameArea, SameBytes, SameTrap, UserStackRange, TrapCtxRange, Beside, Interleaved, PageTable.View;
    hide Untouched;
    StrangersParted(child, parent);
    TableOwns(child.pageTable);
    OthersStepsOnly(trace, turns);
    var s, t, ss := ShotOf(child.pageTable), ShotOne(trace[|turns|]), ShotOf(parent.pageTable);
    var kept, stack := KeptOf(parent.areaSet, Some(exclude), {}), UserStackArea(base, ROOT_TID);
    forall k | k in parent.areaSet && k !in exclude ensures SameArea(t, ss, parent.areaSet[k]) {
      assert k in kept && kept[k] == parent.areaSet[k];
      SameAreaFor(s, t, ss, kept[k]);
    }
    SameBytesFor(s, t, ss, stack);
  }

  lemma SameAreaFor(s: Shot, t: Shot, ss: Shot, a: Area)
    requires SameArea(s, ss, a) && Untouched(s, t) && Owns(s)
    ensures SameArea(t, ss, a)
  {
    OkStays(s, t, a);
    forall v | a.start <= v < a.end ensures v in t.trackers && BytesOf(t, v) == BytesOf(ss, v) {
      UntouchedPage(s, t, v);
    }
  }

  lemma SameBytesFor(s: Shot, t: Shot, ss: Shot, a: Area)
    requires SameBytes(s, ss, a) && Untouched(s, t) && Owns(s)
    ensures SameBytes(t, ss, a)
  {
    forall v | a.start <= v < a.end ensures v in t.trackers && v in ss.trackers && BytesOf(t, v) == BytesOf(ss, v) {
      UntouchedPage(s, t, v);
    }
  }

  /**
   From the fork on, in any interleaving, what parent and child read comes of their own steps alone, for each of the
   two.
   */
  lemma ForkIsolates(child: Space, parent: Space, base: nat, exclude: set<Key>, top: nat, one: Space, other: Space,
                     trace: seq<Duo>, turns: seq<bool>, does: seq<Reading -> Reading>)
    requires IsChild(child, parent, base, exclude, top)
    requires (one == child && other == parent) || (one == parent && other == child)
    requires |trace| == |turns| + 1 && trace[0] == DuoOf(one, other) && Does(trace, turns, does)
    requires forall i :: 0 <= i < |turns| ==> TurnsAt(trace, turns, i)
    ensures ReadingOf(ShotOne(trace[|turns|])) == OwnSteps(ReadingOf(ShotOf(one.pageTable)), does, turns)
  {
    hide Sound, Translation, Owned, Laid, Pool.Valid, Pool.Free, Pool.Live, Chain, Shows, Ordered, Alternating;
    hide UsedPages;
    hide Copies, SameBytes, SameTrap, KeptOf, UserStackRange, TrapCtxRange, PageTable.View, Parted, Does, Turns;
    StrangersParted(one, other);
    OwnStepsOnly(trace, turns, does);
  }
}
