/**
 The radix tree that a page table's frames hold, seen as a placement `at` of tree nodes on frames.
 A node is named by the slots that lead to it from the root.
 */
module Tree {
  import opened Bytes
  import opened Results
  import opened Pools
  import opened Physical
  import opened Sv39

  datatype Node = Top | Mid(i: nat) | Low(i: nat, j: nat)

  type Placement = map<Node, nat>

  datatype Mapper = Mapper(parent: Option<nat>, count: nat, ppn: nat)

  function Child(n: Node, i: nat): (c: Node)
    requires !n.Low?
    ensures c != Top && Parent(c) == n && Slot(c) == i
  {
    if n.Top? then Mid(i) else Low(n.i, i)
  }

  function Parent(n: Node): Node
    requires n != Top
  {
    if n.Mid? then Top else Mid(n.i)
  }

  function Slot(n: Node): nat
    requires n != Top
  {
    if n.Mid? then n.i else n.j
  }

  /** The node at depth `level` on the walk of `vpn`. */
  function NodeOn(vpn: nat, level: nat): Node
    requires level < LEVELS
  {
    if level == 0 then Top else if level == 1 then Mid(Index(vpn, 0)) else Low(Index(vpn, 0), Index(vpn, 1))
  }

  /** The nodes below the root that the walk of `vpn` passes. */
  ghost function NodesOf(vpn: nat): set<Node> {
    {NodeOn(vpn, 1), NodeOn(vpn, 2)}
  }

  /** What each slot of each frame says when it is read as a page table entry. */
  type Entries = (nat, nat) -> Option<Mapping>

  function EntryAt(mem: Memory, p: nat, i: nat): Option<Mapping>
    requires i < WORDS_PER_PAGE
  {
    var e := Word(FrameAt(mem, p), i);
    if IsValid(e) then Some(Decode(e)) else None
  }

  ghost function EntriesOf(mem: Memory): Entries {
    (p: nat, i: nat) => if i < WORDS_PER_PAGE then EntryAt(mem, p, i) else None
  }

  function WithEntry(mem: Memory, p: nat, i: nat, e: nat): Memory
    requires i < WORDS_PER_PAGE
  {
    mem[p := WithWord(FrameAt(mem, p), i, e)]
  }

  /** `to` is `from` with one slot rewritten. */
  ghost predicate Rewritten(from: Entries, to: Entries, p: nat, i: nat, e: Option<Mapping>) {
    forall q, j :: to(q, j) == if q == p && j == i then e else from(q, j)
  }

  ghost predicate Separate(at: Placement) {
    forall m, n :: m in at && n in at && at[m] == at[n] ==> m == n
  }

  ghost predicate Rooted(at: Placement) {
    && Top in at
    && forall n :: n in at && n != Top ==> Parent(n) in at && Slot(n) < WORDS_PER_PAGE
  }

  /** Above the lowest level, the valid entries of a node are exactly the links to its children. */
  ghost predicate Linked(ent: Entries, at: Placement) {
    forall n, i :: n in at && !n.Low? && 0 <= i < WORDS_PER_PAGE ==>
      ent(at[n], i) == if Child(n, i) in at then Some(Plain(at[Child(n, i)], VALID_FLAG)) else None
  }

  ghost predicate IsTree(ent: Entries, at: Placement) {
    Rooted(at) && Separate(at) && Linked(ent, at)
  }

  // ---------- counts ----------

  ghost function ValidSlots(f: Frame): set<nat> {
    set i: nat | i < WORDS_PER_PAGE && IsValid(Word(f, i))
  }

  ghost function ValidCount(f: Frame): nat {
    |ValidSlots(f)|
  }

  lemma {:induction false} IntervalSize(lo: nat, hi: nat)
    requires lo <= hi
    ensures |Interval(lo, hi)| == hi - lo
    decreases hi - lo
  {
    if lo == hi {
      assert Interval(lo, hi) == {};
    } else {
      IntervalSize(lo + 1, hi);
      assert Interval(lo, hi) == {lo} + Interval(lo + 1, hi);
    }
  }

  lemma ValuesAdded(at: Placement, c: Node, p: nat)
    requires c !in at
    ensures at[c := p].Values == at.Values + {p}
  {
    var at' := at[c := p];
    forall q | q in at.Values + {p} ensures q in at'.Values {
      if q == p {
        assert at'[c] == q;
      } else {
        var m :| m in at && at[m] == q;
        assert at'[m] == q;
      }
    }
  }

  lemma ValuesRemoved(at: Placement, c: Node)
    requires c in at && Separate(at)
    ensures (at - {c}).Values == at.Values - {at[c]}
  {
    var at' := at - {c};
    forall q | q in at.Values - {at[c]} ensures q in at'.Values {
      var m :| m in at && at[m] == q;
      assert at'[m] == q;
    }
  }

  lemma SubsetSize<T>(a: set<T>, b: set<T>)
    requires a <= b
    ensures |a| <= |b|
  {
    assert b == a + (b - a);
  }

  lemma SlotsAfterWrite(f: Frame, i: nat, e: nat)
    requires i < WORDS_PER_PAGE && e < WORD_LIMIT
    ensures ValidSlots(WithWord(f, i, e)) == if IsValid(e) then ValidSlots(f) + {i} else ValidSlots(f) - {i}
  {
    hide LeBytes, LeValue, Splice, IsValid;
    forall j: nat | j < WORDS_PER_PAGE ensures Word(WithWord(f, i, e), j) == if i == j then e else Word(f, j) {
      WordOfWithWord(f, i, e, j);
    }
    hide Word, WithWord;
  }

  /** What writing one entry does to the number of valid entries. */
  lemma CountAfterWrite(f: Frame, i: nat, e: nat)
    requires i < WORDS_PER_PAGE && e < WORD_LIMIT
    ensures IsValid(e) && !IsValid(Word(f, i)) ==>
      ValidCount(f) < WORDS_PER_PAGE && ValidCount(WithWord(f, i, e)) == ValidCount(f) + 1
    ensures !IsValid(e) && IsValid(Word(f, i)) ==>
      ValidCount(f) > 0 && ValidCount(WithWord(f, i, e)) == ValidCount(f) - 1
  {
    SlotsAfterWrite(f, i, e);
    SlotsInside(f, i);
    hide Word, WithWord, IsValid, ValidSlots;
    IntervalSize(0, WORDS_PER_PAGE);
    if i !in ValidSlots(f) {
      SubsetSize(ValidSlots(f) + {i}, Interval(0, WORDS_PER_PAGE));
    }
  }

  lemma SlotsInside(f: Frame, i: nat)
    requires i < WORDS_PER_PAGE
    ensures ValidSlots(f) + {i} <= Interval(0, WORDS_PER_PAGE) && (i in ValidSlots(f) <==> IsValid(Word(f, i)))
  {
    hide Word, IsValid;
  }

  lemma NoValidSlots(f: Frame)
    ensures ValidCount(f) == 0 <==> forall i :: 0 <= i < WORDS_PER_PAGE ==> !IsValid(Word(f, i))
  {
    if ValidCount(f) == 0 {
      forall i | 0 <= i < WORDS_PER_PAGE ensures !IsValid(Word(f, i)) {
        assert i !in ValidSlots(f);
      }
    } else {
      var i :| i in ValidSlots(f);
    }
  }

  lemma ZeroFrameEmpty()
    ensures ValidCount(ZeroFrame()) == 0
  {
    forall i: nat | i < WORDS_PER_PAGE ensures !IsValid(Word(ZeroFrame(), i)) {
      WordOfZeroFrame(i);
    }
    NoValidSlots(ZeroFrame());
  }

  // ---------- bookkeeping records ----------

  type Counts = nat -> nat

  ghost function CountsOf(mem: Memory): Counts {
    (p: nat) => ValidCount(FrameAt(mem, p))
  }

  /** The bookkeeping record that node `n` ought to have. */
  ghost function RecordOf(cnt: Counts, at: Placement, n: Node): Mapper
    requires Rooted(at) && n in at
  {
    Mapper(if n.Top? then None else Some(at[Parent(n)]), cnt(at[n]), at[n])
  }

  /** `root` and `mappers` record every node's frame, parent and number of valid entries. */
  ghost predicate Recorded(cnt: Counts, at: Placement, root: Mapper, mappers: map<nat, Mapper>) {
    && Rooted(at) && Separate(at)
    && root == RecordOf(cnt, at, Top)
    && (forall n :: n in at && n != Top ==> at[n] in mappers && mappers[at[n]] == RecordOf(cnt, at, n))
    && (forall p :: p in mappers ==> p in at.Values && p != root.ppn)
  }

  ghost predicate CountChanged(from: Counts, to: Counts, p: nat, k: nat) {
    forall q :: to(q) == if q == p then k else from(q)
  }

  lemma RecordFacts(cnt: Counts, at: Placement, root: Mapper, mappers: map<nat, Mapper>, n: Node)
    requires Recorded(cnt, at, root, mappers) && n in at
    ensures root.ppn == at[Top] && mappers.Keys <= at.Values
    ensures if n == Top then root.count == cnt(at[n])
            else at[n] in mappers && at[n] != root.ppn && mappers[at[n]] == RecordOf(cnt, at, n)
  {
  }

  /** The records with mapper `ppn` counting `k` valid entries. */
  function WithCount(root: Mapper, mappers: map<nat, Mapper>, ppn: nat, k: nat): (r: (Mapper, map<nat, Mapper>))
  {
    if ppn == root.ppn then (root.(count := k), mappers)
    else if ppn in mappers then (root, mappers[ppn := mappers[ppn].(count := k)])
    else (root, mappers)
  }

  lemma RecountKeeps(cnt: Counts, cnt': Counts, at: Placement, root: Mapper, mappers: map<nat, Mapper>, n: Node, k: nat)
    requires Recorded(cnt, at, root, mappers) && n in at && CountChanged(cnt, cnt', at[n], k)
    ensures var w := WithCount(root, mappers, at[n], k); Recorded(cnt', at, w.0, w.1)
  {
  }

  lemma SeparateAdded(at: Placement, c: Node, p: nat)
    requires Rooted(at) && Separate(at) && p !in at.Values && c !in at && c != Top && Parent(c) in at
    requires Slot(c) < WORDS_PER_PAGE
    ensures Separate(at[c := p]) && Rooted(at[c := p])
  {
    forall n | n in at ensures at[n] in at.Values {
    }
  }

  lemma RecordAddedAt(cnt: Counts, at: Placement, root: Mapper, mappers: map<nat, Mapper>, c: Node, p: nat, n: Node)
    requires Recorded(cnt, at, root, mappers) && p !in at.Values && cnt(p) == 0 && Rooted(at[c := p])
    requires c !in at && c != Top && Parent(c) in at && n in at[c := p] && n != Top
    ensures var at', mappers' := at[c := p], mappers[p := Mapper(Some(at[Parent(c)]), 0, p)];
      at'[n] in mappers' && mappers'[at'[n]] == RecordOf(cnt, at', n)
  {
    if n != c {
      assert at[n] in at.Values;
      RecordFacts(cnt, at, root, mappers, n);
    }
  }

  lemma RecordAdded(cnt: Counts, at: Placement, root: Mapper, mappers: map<nat, Mapper>, c: Node, p: nat)
    requires Recorded(cnt, at, root, mappers) && p !in at.Values && cnt(p) == 0
    requires c !in at && c != Top && Parent(c) in at && Slot(c) < WORDS_PER_PAGE
    ensures Recorded(cnt, at[c := p], root, mappers[p := Mapper(Some(at[Parent(c)]), 0, p)])
  {
    var at' := at[c := p];
    var mappers' := mappers[p := Mapper(Some(at[Parent(c)]), 0, p)];
    ValuesAdded(at, c, p);
    SeparateAdded(at, c, p);
    forall n | n in at' && n != Top ensures at'[n] in mappers' && mappers'[at'[n]] == RecordOf(cnt, at', n) {
      RecordAddedAt(cnt, at, root, mappers, c, p, n);
    }
    assert root == RecordOf(cnt, at', Top) && at[Top] in at.Values;
    hide RecordOf, Separate, Rooted;
  }

  lemma RecordRemoved(cnt: Counts, at: Placement, root: Mapper, mappers: map<nat, Mapper>, c: Node)
    requires Recorded(cnt, at, root, mappers) && c in at && c != Top
    requires forall m :: m in at && m != Top ==> Parent(m) != c
    ensures Recorded(cnt, at - {c}, root, mappers - {at[c]})
  {
    var at' := at - {c};
    forall p | p in mappers && p != at[c] ensures p in at'.Values {
      var m :| m in at && at[m] == p;
      assert m in at' && at'[m] == p;
    }
  }

  /** A counted write: the number of valid entries follows the slot written. */
  lemma WriteCounts(mem: Memory, p: nat, i: nat, e: nat)
    requires i < WORDS_PER_PAGE && e < WORD_LIMIT
    requires IsValid(e) <==> EntryAt(mem, p, i) == None
    ensures var was := CountsOf(mem)(p);
      && (IsValid(e) ==> was < WORDS_PER_PAGE)
      && (!IsValid(e) ==> was > 0)
      && CountChanged(CountsOf(mem), CountsOf(WithEntry(mem, p, i, e)), p, if IsValid(e) then was + 1 else was - 1)
  {
    CountAfterWrite(FrameAt(mem, p), i, e);
  }

  lemma EmptyNode(mem: Memory, p: nat)
    ensures CountsOf(mem)(p) == 0 <==> forall j :: EntriesOf(mem)(p, j) == None
  {
    NoValidSlots(FrameAt(mem, p));
    if forall j :: EntriesOf(mem)(p, j) == None {
      forall i: nat | i < WORDS_PER_PAGE ensures !IsValid(Word(FrameAt(mem, p), i)) {
        assert EntriesOf(mem)(p, i) == None;
      }
    }
  }

  // ---------- the translation a tree denotes ----------

  ghost function LeafEntry(ent: Entries, at: Placement, n: Node, k: nat): Option<Mapping> {
    if n in at then ent(at[n], k) else None
  }

  ghost function View(ent: Entries, at: Placement): map<nat, Mapping> {
    map v: nat | v < VPN_LIMIT && PageEntry(ent, at, v).Some? :: PageEntry(ent, at, v).value
  }

  lemma SameLeavesSameView(ent: Entries, at: Placement, ent': Entries, at': Placement)
    requires forall n: Node, k: nat :: n.Low? && k < WORDS_PER_PAGE ==>
      LeafEntry(ent', at', n, k) == LeafEntry(ent, at, n, k)
    ensures View(ent', at') == View(ent, at)
  {
  }

  lemma SlotDeterminesPage(u: nat, v: nat)
    requires u < VPN_LIMIT && v < VPN_LIMIT
    ensures NodeOn(u, 2) == NodeOn(v, 2) && Index(u, 2) == Index(v, 2) <==> u == v
  {
    hide Index;
    JoinOfIndexes(u);
    JoinOfIndexes(v);
  }

  /** The entry that decides how page number `v` is translated. */
  ghost function PageEntry(ent: Entries, at: Placement, v: nat): Option<Mapping> {
    LeafEntry(ent, at, NodeOn(v, 2), Index(v, 2))
  }

  lemma OneLeafChanged(ent: Entries, at: Placement, ent': Entries, v: nat, e: Option<Mapping>)
    requires v < VPN_LIMIT && NodeOn(v, 2) in at && Separate(at)
    requires Rewritten(ent, ent', at[NodeOn(v, 2)], Index(v, 2), e)
    ensures View(ent', at) == if e.Some? then View(ent, at)[v := e.value] else View(ent, at) - {v}
  {
    forall u: nat | u < VPN_LIMIT
      ensures PageEntry(ent', at, u) == if u == v then e else PageEntry(ent, at, u)
    {
      OnePageChanged(ent, at, ent', v, e, u);
    }
  }

  lemma OnePageChanged(ent: Entries, at: Placement, ent': Entries, v: nat, e: Option<Mapping>, u: nat)
    requires u < VPN_LIMIT && v < VPN_LIMIT && NodeOn(v, 2) in at && Separate(at)
    requires Rewritten(ent, ent', at[NodeOn(v, 2)], Index(v, 2), e)
    ensures PageEntry(ent', at, u) == if u == v then e else PageEntry(ent, at, u)
  {
    SlotDeterminesPage(u, v);
    var n, k := NodeOn(u, 2), Index(u, 2);
    if n in at {
      assert ent'(at[n], k) == if at[n] == at[NodeOn(v, 2)] && k == Index(v, 2) then e else ent(at[n], k);
    }
  }

  // ---------- the three changes a walk makes ----------

  lemma WriteRewrites(mem: Memory, p: nat, i: nat, e: nat)
    requires i < WORDS_PER_PAGE && e < WORD_LIMIT
    ensures Rewritten(EntriesOf(mem), EntriesOf(WithEntry(mem, p, i, e)), p, i,
                      if IsValid(e) then Some(Decode(e)) else None)
  {
    forall j: nat | j < WORDS_PER_PAGE
      ensures Word(WithWord(FrameAt(mem, p), i, e), j) == if i == j then e else Word(FrameAt(mem, p), j)
    {
      WordOfWithWord(FrameAt(mem, p), i, e, j);
    }
  }

  /** Only the frames that hold nodes matter. */
  lemma OnlyNodesMatter(mem: Memory, mem': Memory, at: Placement, root: Mapper, mappers: map<nat, Mapper>)
    requires IsTree(EntriesOf(mem), at) && forall n :: n in at ==> FrameAt(mem', at[n]) == FrameAt(mem, at[n])
    ensures IsTree(EntriesOf(mem'), at) && View(EntriesOf(mem'), at) == View(EntriesOf(mem), at)
    ensures Recorded(CountsOf(mem), at, root, mappers) ==> Recorded(CountsOf(mem'), at, root, mappers)
  {
    forall n, j: nat | n in at ensures EntriesOf(mem')(at[n], j) == EntriesOf(mem)(at[n], j) {
    }
    assert Linked(EntriesOf(mem'), at);
    SameLeavesSameView(EntriesOf(mem), at, EntriesOf(mem'), at);
  }

  /** Hanging an empty, unused frame under an empty interior slot keeps the tree and its translation. */
  lemma AttachKeeps(ent: Entries, ent': Entries, at: Placement, n: Node, i: nat, p: nat)
    requires IsTree(ent, at) && n in at && !n.Low? && i < WORDS_PER_PAGE && Child(n, i) !in at
    requires p !in at.Values && forall j :: ent(p, j) == None
    requires Rewritten(ent, ent', at[n], i, Some(Plain(p, VALID_FLAG)))
    ensures IsTree(ent', at[Child(n, i) := p]) && View(ent', at[Child(n, i) := p]) == View(ent, at)
  {
    var at' := at[Child(n, i) := p];
    assert Separate(at');
    forall m, j | m in at' && !m.Low? && 0 <= j < WORDS_PER_PAGE
      ensures ent'(at'[m], j) == if Child(m, j) in at' then Some(Plain(at'[Child(m, j)], VALID_FLAG)) else None
    {
      if m != Child(n, i) {
        assert at[m] == at[n] ==> m == n;
      } else {
        assert Child(m, j) !in at;
      }
    }
    SameLeavesSameView(ent, at, ent', at');
  }

  /** Writing an entry of a lowest node changes the translation of one page number only. */
  lemma LeafWriteKeeps(ent: Entries, ent': Entries, at: Placement, v: nat, e: Option<Mapping>)
    requires IsTree(ent, at) && v < VPN_LIMIT && NodeOn(v, 2) in at
    requires Rewritten(ent, ent', at[NodeOn(v, 2)], Index(v, 2), e)
    ensures IsTree(ent', at)
    ensures View(ent', at) == if e.Some? then View(ent, at)[v := e.value] else View(ent, at) - {v}
  {
    OneLeafChanged(ent, at, ent', v, e);
  }

  /** Unhooking a node without valid entries keeps the tree and its translation. */
  lemma DetachKeeps(ent: Entries, ent': Entries, at: Placement, n: Node, i: nat)
    requires IsTree(ent, at) && n in at && !n.Low? && i < WORDS_PER_PAGE && Child(n, i) in at
    requires forall j :: ent(at[Child(n, i)], j) == None
    requires Rewritten(ent, ent', at[n], i, None)
    ensures IsTree(ent', at - {Child(n, i)}) && View(ent', at - {Child(n, i)}) == View(ent, at)
  {
    var c := Child(n, i);
    var at' := at - {c};
    forall m | m in at' && m != Top ensures Parent(m) in at' {
      if !c.Low? {
        assert Child(c, Slot(m)) !in at;
      }
    }
    SameLeavesSameView(ent, at, ent', at');
  }

  lemma EmptySlot(ent: Entries, at: Placement, n: Node, i: nat)
    requires IsTree(ent, at) && n in at && !n.Low? && i < WORDS_PER_PAGE
    ensures ent(at[n], i) == if Child(n, i) in at then Some(Plain(at[Child(n, i)], VALID_FLAG)) else None
  {
  }

  // ---------- the same changes on memory and records together ----------

  /** A new mapper: its frame cleared, its link written, its parent's count raised, its record added. */
  lemma NewMapperKeeps(mem: Memory, at: Placement, root: Mapper, mappers: map<nat, Mapper>, n: Node, i: nat, p: nat)
    requires IsTree(EntriesOf(mem), at) && Recorded(CountsOf(mem), at, root, mappers)
    requires n in at && !n.Low? && i < WORDS_PER_PAGE && Child(n, i) !in at && p !in at.Values && p < PPN_LIMIT
    ensures var mem' := WithEntry(mem[p := ZeroFrame()], at[n], i, NewEntry(p, VALID_FLAG));
      var at' := at[Child(n, i) := p];
      var was := CountsOf(mem)(at[n]);
      var w := WithCount(root, mappers, at[n], was + 1);
      && was < WORDS_PER_PAGE
      && IsTree(EntriesOf(mem'), at') && View(EntriesOf(mem'), at') == View(EntriesOf(mem), at)
      && Recorded(CountsOf(mem'), at', w.0, w.1[p := Mapper(Some(at[n]), 0, p)])
  {
    hide WithWord, IsTree, View, Recorded, NewEntry, Decode, IsValid, ValidCount;
    var zeroed := mem[p := ZeroFrame()];
    var e := NewEntry(p, VALID_FLAG);
    var mem' := WithEntry(zeroed, at[n], i, e);
    OnlyNodesMatter(mem, zeroed, at, root, mappers);
    ZeroFrameEmpty();
    EmptyNode(zeroed, p);
    EntryRoundTrip(p, VALID_FLAG);
    EmptySlot(EntriesOf(zeroed), at, n, i);
    WriteRewrites(zeroed, at[n], i, e);
    AttachKeeps(EntriesOf(zeroed), EntriesOf(mem'), at, n, i, p);
    WriteCounts(zeroed, at[n], i, e);
    var k := CountsOf(zeroed)(at[n]) + 1;
    RecountKeeps(CountsOf(zeroed), CountsOf(mem'), at, root, mappers, n, k);
    var w := WithCount(root, mappers, at[n], k);
    RecordAdded(CountsOf(mem'), at, w.0, w.1, Child(n, i), p);
  }

  /** A counted entry written in, or cleared from, a lowest node. */
  lemma LeafUpdateKeeps(mem: Memory, at: Placement, root: Mapper, mappers: map<nat, Mapper>, v: nat, e: nat)
    requires IsTree(EntriesOf(mem), at) && Recorded(CountsOf(mem), at, root, mappers)
    requires v < VPN_LIMIT && NodeOn(v, 2) in at && e < WORD_LIMIT
    requires IsValid(e) <==> EntryAt(mem, at[NodeOn(v, 2)], Index(v, 2)) == None
    ensures var p := at[NodeOn(v, 2)];
      var mem' := WithEntry(mem, p, Index(v, 2), e);
      var was := CountsOf(mem)(p);
      && (if IsValid(e) then was < WORDS_PER_PAGE else was > 0)
      && var w := WithCount(root, mappers, p, if IsValid(e) then was + 1 else was - 1);
      && IsTree(EntriesOf(mem'), at) && Recorded(CountsOf(mem'), at, w.0, w.1)
      && View(EntriesOf(mem'), at) ==
         if IsValid(e) then View(EntriesOf(mem), at)[v := Decode(e)] else View(EntriesOf(mem), at) - {v}
  {
    hide WithWord, IsTree, View, Recorded, Decode, IsValid, ValidCount, Index;
    var p := at[NodeOn(v, 2)];
    var mem' := WithEntry(mem, p, Index(v, 2), e);
    WriteRewrites(mem, p, Index(v, 2), e);
    LeafWriteKeeps(EntriesOf(mem), EntriesOf(mem'), at, v, if IsValid(e) then Some(Decode(e)) else None);
    WriteCounts(mem, p, Index(v, 2), e);
    var was := CountsOf(mem)(p);
    RecountKeeps(CountsOf(mem), CountsOf(mem'), at, root, mappers, NodeOn(v, 2),
                 if IsValid(e) then was + 1 else was - 1);
  }

  /** Clearing the link to an empty mapper, on frame `p`, whose record is already gone. */
  lemma UnlinkKeeps(mem: Memory, at: Placement, root: Mapper, mappers: map<nat, Mapper>, n: Node, i: nat, p: nat)
    requires n in at && !n.Low? && i < WORDS_PER_PAGE && Child(n, i) !in at
    requires IsTree(EntriesOf(mem), at[Child(n, i) := p]) && Recorded(CountsOf(mem), at, root, mappers)
    requires CountsOf(mem)(p) == 0
    ensures CountsOf(mem)(at[n]) > 0
    ensures var mem' := WithEntry(mem, at[n], i, 0);
      var w := WithCount(root, mappers, at[n], CountsOf(mem)(at[n]) - 1);
      && IsTree(EntriesOf(mem'), at) && View(EntriesOf(mem'), at) == View(EntriesOf(mem), at[Child(n, i) := p])
      && Recorded(CountsOf(mem'), at, w.0, w.1)
  {
    UnlinkTree(mem, at, n, i, p);
    UnlinkRecords(mem, at, root, mappers, n, i, p);
  }

  lemma UnlinkTree(mem: Memory, at: Placement, n: Node, i: nat, p: nat)
    requires n in at && !n.Low? && i < WORDS_PER_PAGE && Child(n, i) !in at
    requires IsTree(EntriesOf(mem), at[Child(n, i) := p]) && CountsOf(mem)(p) == 0
    ensures var ent' := EntriesOf(WithEntry(mem, at[n], i, 0));
      IsTree(ent', at) && View(ent', at) == View(EntriesOf(mem), at[Child(n, i) := p])
  {
    hide WithWord, IsTree, View, ValidCount;
    var linked := at[Child(n, i) := p];
    var ent, ent' := EntriesOf(mem), EntriesOf(WithEntry(mem, at[n], i, 0));
    EmptyNode(mem, p);
    assert Rewritten(ent, ent', at[n], i, None) by {
      WriteRewrites(mem, at[n], i, 0);
      assert !IsValid(0);
    }
    assert linked[n] == at[n] && linked[Child(n, i)] == p;
    assert linked - {Child(n, i)} == at;
    DetachKeeps(ent, ent', linked, n, i);
  }

  lemma UnlinkRecords(mem: Memory, at: Placement, root: Mapper, mappers: map<nat, Mapper>, n: Node, i: nat, p: nat)
    requires n in at && !n.Low? && i < WORDS_PER_PAGE && Child(n, i) !in at
    requires IsTree(EntriesOf(mem), at[Child(n, i) := p]) && Recorded(CountsOf(mem), at, root, mappers)
    ensures CountsOf(mem)(at[n]) > 0
    ensures var w := WithCount(root, mappers, at[n], CountsOf(mem)(at[n]) - 1);
      Recorded(CountsOf(WithEntry(mem, at[n], i, 0)), at, w.0, w.1)
  {
    hide WithWord, IsTree, Recorded, ValidCount;
    var linked := at[Child(n, i) := p];
    EmptySlot(EntriesOf(mem), linked, n, i);
    assert !IsValid(0);
    WriteCounts(mem, at[n], i, 0);
    RecountKeeps(CountsOf(mem), CountsOf(WithEntry(mem, at[n], i, 0)), at, root, mappers, n, CountsOf(mem)(at[n]) - 1);
  }

  /** An empty node has no children. */
  lemma EmptyHasNoChildren(mem: Memory, at: Placement, c: Node)
    requires IsTree(EntriesOf(mem), at) && c in at && CountsOf(mem)(at[c]) == 0
    ensures forall m :: m in at && m != Top ==> Parent(m) != c
  {
    EmptyNode(mem, at[c]);
    forall m | m in at && m != Top ensures Parent(m) != c {
      if !c.Low? {
        assert Child(c, Slot(m)) !in at;
      }
    }
  }
}
