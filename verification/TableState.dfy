/** The state of one page table as a value, what makes it sound, and what each change to it keeps. */
module TableState {
  import opened Bytes
  import opened Results
  import opened Physical
  import opened Sv39
  import opened Tree

  /** The fields of a page table: its records, its trackers, and where its nodes lie. */
  datatype Table = Table(root: Mapper, mappers: map<nat, Mapper>, trackers: map<nat, nat>, at: Placement)

  ghost predicate Injective(m: map<nat, nat>) {
    forall u, v :: u in m && v in m && m[u] == m[v] ==> u == v
  }

  /** The frames a table keeps alive: those of its mappers and the data frames it tracks. */
  ghost function Owned(t: Table): set<nat> {
    t.at.Values + t.trackers.Values
  }

  /** Records match the nodes, and every frame the table owns is live and owned once. */
  ghost predicate Booked(mem: Memory, live: set<nat>, t: Table) {
    && Recorded(CountsOf(mem), t.at, t.root, t.mappers)
    && Owned(t) <= live
    && t.at.Values !! t.trackers.Values
    && Injective(t.trackers)
  }

  /** The translation the table denotes. */
  ghost function Translation(mem: Memory, t: Table): map<nat, Mapping> {
    View(EntriesOf(mem), t.at)
  }

  /** No entry has any of its reserved bits set. */
  ghost predicate Clear(view: map<nat, Mapping>) {
    forall v :: v in view ==> view[v].reserved == 0
  }

  ghost predicate Sound(mem: Memory, live: set<nat>, t: Table) {
    Booked(mem, live, t) && IsTree(EntriesOf(mem), t.at) && Clear(Translation(mem, t))
  }

  /** Tracked pages are mapped, to the frame that is tracked. */
  ghost predicate Agrees(mem: Memory, t: Table) {
    forall v :: v in t.trackers ==> v in Translation(mem, t) && Translation(mem, t)[v].ppn == t.trackers[v]
  }

  /** No mapper is kept without a page below it. */
  ghost predicate Tight(mem: Memory, t: Table) {
    forall n :: n in t.at && n != Top ==> exists v :: v in Translation(mem, t) && n in NodesOf(v)
  }

  /** Every frame outside `touched` holds the same bytes. */
  ghost predicate SameOutside(mem: Memory, mem': Memory, touched: set<nat>) {
    forall p :: p !in touched ==> FrameAt(mem', p) == FrameAt(mem, p)
  }

  lemma SameOutsideRefl(mem: Memory, a: set<nat>)
    ensures SameOutside(mem, mem, a)
  {
  }

  lemma SameOutsideMore(mem: Memory, mem': Memory, a: set<nat>, b: set<nat>)
    requires SameOutside(mem, mem', a) && a <= b
    ensures SameOutside(mem, mem', b)
  {
  }

  lemma SameOutsideChain(mem: Memory, mem': Memory, mem'': Memory, a: set<nat>)
    requires SameOutside(mem, mem', a) && SameOutside(mem', mem'', a)
    ensures SameOutside(mem, mem'', a)
  {
  }

  // ---------- reading a sound table ----------

  lemma NodeFacts(mem: Memory, live: set<nat>, t: Table, n: Node)
    requires Booked(mem, live, t) && n in t.at
    ensures t.root.ppn == t.at[Top] && t.mappers.Keys <= t.at.Values && t.at[n] in live && Separate(t.at)
    ensures n != Top ==> Parent(n) in t.at && Slot(n) < WORDS_PER_PAGE
    ensures if n == Top then t.root.count == CountsOf(mem)(t.at[n])
            else t.at[n] in t.mappers && t.at[n] != t.root.ppn && t.mappers[t.at[n]] == RecordOf(CountsOf(mem), t.at, n)
  {
    hide ValidCount;
  }

  lemma SoundIsBooked(mem: Memory, live: set<nat>, t: Table)
    requires Sound(mem, live, t)
    ensures Booked(mem, live, t)
  {
  }

  lemma SoundFacts(mem: Memory, live: set<nat>, t: Table)
    requires Sound(mem, live, t)
    ensures Top in t.at && t.root.ppn == t.at[Top] && t.at.Values <= live && t.mappers.Keys <= t.at.Values
    ensures t.trackers.Values <= live && t.at.Values !! t.trackers.Values
  {
  }

  lemma OwnedIsLive(mem: Memory, live: set<nat>, t: Table)
    requires Sound(mem, live, t)
    ensures Owned(t) <= live
  {
  }

  lemma OwnedParts(mem: Memory, live: set<nat>, t: Table)
    requires Sound(mem, live, t)
    ensures Owned(t) == t.at.Values + t.trackers.Values && Owned(t) <= live && t.at.Values !! t.trackers.Values
  {
  }

  lemma SoundIsClear(mem: Memory, live: set<nat>, t: Table)
    requires Sound(mem, live, t)
    ensures Clear(Translation(mem, t))
  {
  }

  /** A valid interior entry leads to the record of the next mapper. */
  lemma LinkFacts(mem: Memory, live: set<nat>, t: Table, n: Node, i: nat)
    requires Sound(mem, live, t) && n in t.at && !n.Low? && i < WORDS_PER_PAGE
    ensures EntryAt(mem, t.at[n], i) ==
            if Child(n, i) in t.at then Some(Plain(t.at[Child(n, i)], VALID_FLAG)) else None
    ensures Child(n, i) in t.at ==> t.at[Child(n, i)] in t.mappers
  {
    hide ValidCount, Decode, IsValid;
    assert EntriesOf(mem)(t.at[n], i) == EntryAt(mem, t.at[n], i);
  }

  lemma PageFacts(mem: Memory, t: Table, v: nat)
    requires v < VPN_LIMIT
    ensures v in Translation(mem, t) <==> NodeOn(v, 2) in t.at && EntryAt(mem, t.at[NodeOn(v, 2)], Index(v, 2)).Some?
    ensures v in Translation(mem, t) ==> Some(Translation(mem, t)[v]) == EntryAt(mem, t.at[NodeOn(v, 2)], Index(v, 2))
  {
    hide Index, Decode, IsValid;
  }

  lemma MappedHasNodes(mem: Memory, live: set<nat>, t: Table, v: nat)
    requires Sound(mem, live, t) && v < VPN_LIMIT && v in Translation(mem, t)
    ensures NodesOf(v) <= t.at.Keys
  {
    hide Index, Word, Decode, IsValid, ValidCount, IsTree, Recorded, Translation;
    PageFacts(mem, t, v);
    NodeFacts(mem, live, t, NodeOn(v, 2));
    assert Parent(NodeOn(v, 2)) == NodeOn(v, 1);
  }

  // ---------- changes ----------

  function FreshTable(p: nat): Table {
    Table(Mapper(None, 0, p), map[], map[], map[Top := p])
  }

  lemma FreshTableSound(mem: Memory, live: set<nat>, p: nat)
    requires p in live && FrameAt(mem, p) == ZeroFrame()
    ensures var t := FreshTable(p);
      Sound(mem, live, t) && Translation(mem, t) == map[] && Agrees(mem, t) && Tight(mem, t) && Owned(t) == {p}
  {
    hide ValidCount, ZeroFrame, Index;
    ZeroFrameEmpty();
    EmptyNode(mem, p);
    var none: Placement := map[];
    ValuesAdded(none, Top, p);
    assert FreshTable(p).at == none[Top := p];
  }

  /** Memory and the set of live frames may change elsewhere. */
  lemma FrameKeeps(mem: Memory, mem': Memory, live: set<nat>, live': set<nat>, t: Table)
    requires Sound(mem, live, t) && Owned(t) <= live'
    requires forall p :: p in t.at.Values ==> FrameAt(mem', p) == FrameAt(mem, p)
    ensures Sound(mem', live', t) && Translation(mem', t) == Translation(mem, t)
  {
    hide View, IsTree, Recorded, EntriesOf, CountsOf;
    OnlyNodesMatter(mem, mem', t.at, t.root, t.mappers);
  }

  function WithNewMapper(t: Table, n: Node, i: nat, p: nat): Table
    requires n in t.at && !n.Low?
  {
    var w := WithCount(t.root, t.mappers, t.at[n], CountIn(t, t.at[n]) + 1);
    Table(w.0, w.1[p := Mapper(Some(t.at[n]), 0, p)], t.trackers, t.at[Child(n, i) := p])
  }

  function CountIn(t: Table, ppn: nat): nat {
    if ppn == t.root.ppn then t.root.count else if ppn in t.mappers then t.mappers[ppn].count else 0
  }

  lemma NewMapperSound(mem: Memory, live: set<nat>, t: Table, n: Node, i: nat, p: nat)
    requires Sound(mem, live, t) && n in t.at && !n.Low? && i < WORDS_PER_PAGE && Child(n, i) !in t.at
    requires p !in live && p < PPN_LIMIT
    ensures var mem' := WithEntry(mem[p := ZeroFrame()], t.at[n], i, NewEntry(p, VALID_FLAG));
      var t' := WithNewMapper(t, n, i, p);
      && CountIn(t, t.at[n]) < WORDS_PER_PAGE && p !in t.mappers
      && Sound(mem', live + {p}, t') && Translation(mem', t') == Translation(mem, t)
      && Owned(t') == Owned(t) + {p}
      && SameOutside(mem, mem', t.at.Values + {p})
  {
    hide WithWord, IsTree, View, Recorded, NewEntry, ValidCount;
    NodeFacts(mem, live, t, n);
    NewMapperKeeps(mem, t.at, t.root, t.mappers, n, i, p);
    ValuesAdded(t.at, Child(n, i), p);
  }

  function WithPage(t: Table, v: nat, k: nat): Table
    requires NodeOn(v, 2) in t.at
  {
    var w := WithCount(t.root, t.mappers, t.at[NodeOn(v, 2)], k);
    t.(root := w.0, mappers := w.1)
  }

  /** Writing the entry of a page, valid or not, together with the count of its mapper. */
  lemma PageWriteSound(mem: Memory, live: set<nat>, t: Table, v: nat, e: nat)
    requires Sound(mem, live, t) && v < VPN_LIMIT && NodeOn(v, 2) in t.at && e < WORD_LIMIT
    requires (IsValid(e) <==> v !in Translation(mem, t)) && (IsValid(e) ==> Decode(e).reserved == 0)
    ensures var p := t.at[NodeOn(v, 2)];
      var mem' := WithEntry(mem, p, Index(v, 2), e);
      && p in t.mappers && p != t.root.ppn
      && (if IsValid(e) then CountIn(t, p) < WORDS_PER_PAGE else CountIn(t, p) > 0)
      && var t' := WithPage(t, v, if IsValid(e) then CountIn(t, p) + 1 else CountIn(t, p) - 1);
      && Sound(mem', live, t')
      && Translation(mem', t') ==
        (if IsValid(e) then Translation(mem, t)[v := Decode(e)] else Translation(mem, t) - {v})
      && SameOutside(mem, mem', t.at.Values)
  {
    hide WithWord, IsTree, View, Recorded, Decode, IsValid, ValidCount, Index;
    NodeFacts(mem, live, t, NodeOn(v, 2));
    PageFacts(mem, t, v);
    LeafUpdateKeeps(mem, t.at, t.root, t.mappers, v, e);
  }

  function WithoutMapper(t: Table, c: Node): Table
    requires c in t.at
  {
    t.(mappers := t.mappers - {t.at[c]}, at := t.at - {c})
  }

  /** Dropping the record and the frame of an empty mapper, while the link to it is still in place. */
  lemma DropMapperKeeps(mem: Memory, live: set<nat>, t: Table, c: Node)
    requires Sound(mem, live, t) && c in t.at && c != Top && CountIn(t, t.at[c]) == 0
    ensures var t' := WithoutMapper(t, c);
      && Booked(mem, live - {t.at[c]}, t') && Parent(c) in t'.at && t'.at[c := t.at[c]] == t.at
      && CountsOf(mem)(t.at[c]) == 0 && t.at[c] in live && t.at[c] in t.mappers && Separate(t.at)
      && t.mappers[t.at[c]].parent == Some(t.at[Parent(c)])
      && Owned(t') == Owned(t) - {t.at[c]} && t'.at.Values == t.at.Values - {t.at[c]}
  {
    hide IsTree, Recorded, ValidCount, Separate;
    NodeFacts(mem, live, t, c);
    EmptyHasNoChildren(mem, t.at, c);
    RecordRemoved(CountsOf(mem), t.at, t.root, t.mappers, c);
    ValuesRemoved(t.at, c);
  }

  function WithFewer(t: Table, n: Node): Table
    requires n in t.at && CountIn(t, t.at[n]) > 0
  {
    var w := WithCount(t.root, t.mappers, t.at[n], CountIn(t, t.at[n]) - 1);
    t.(root := w.0, mappers := w.1)
  }

  /** Clearing the link to a mapper already dropped from frame `p`. */
  lemma UnlinkSound(mem: Memory, live: set<nat>, t: Table, n: Node, i: nat, p: nat)
    requires Booked(mem, live, t) && n in t.at && !n.Low? && i < WORDS_PER_PAGE && Child(n, i) !in t.at
    requires IsTree(EntriesOf(mem), t.at[Child(n, i) := p]) && CountsOf(mem)(p) == 0
    requires Clear(View(EntriesOf(mem), t.at[Child(n, i) := p]))
    ensures EntryAt(mem, t.at[n], i).Some? && CountIn(t, t.at[n]) > 0
    ensures var mem' := WithEntry(mem, t.at[n], i, 0);
      && Sound(mem', live, WithFewer(t, n))
      && Translation(mem', WithFewer(t, n)) == View(EntriesOf(mem), t.at[Child(n, i) := p])
      && SameOutside(mem, mem', t.at.Values)
  {
    hide WithWord, Word, IsTree, View, Recorded, ValidCount, IsValid, Decode;
    NodeFacts(mem, live, t, n);
    UnlinkKeeps(mem, t.at, t.root, t.mappers, n, i, p);
    assert t.at[Child(n, i) := p][n] == t.at[n];
    EmptySlot(EntriesOf(mem), t.at[Child(n, i) := p], n, i);
    assert Booked(WithEntry(mem, t.at[n], i, 0), live, WithFewer(t, n));
  }

  // ---------- trackers ----------

  /** Tracking frame `p` for page `v`, in place of whatever `v` tracked before. */
  lemma TrackSound(mem: Memory, live: set<nat>, t: Table, v: nat, p: nat)
    requires Sound(mem, live, t) && p in live && p !in Owned(t)
    ensures var t' := t.(trackers := t.trackers[v := p]);
      && Sound(mem, live, t') && Translation(mem, t') == Translation(mem, t)
      && Owned(t') == (if v in t.trackers then Owned(t) - {t.trackers[v]} else Owned(t)) + {p}
  {
    hide Recorded, IsTree, View;
    var tr := t.trackers[v := p];
    forall q | q in t.trackers.Values && (v in t.trackers ==> q != t.trackers[v]) ensures q in tr.Values {
      var u :| u in t.trackers && t.trackers[u] == q;
      assert tr[u] == q;
    }
    assert tr[v] == p;
  }

  lemma UntrackSound(mem: Memory, live: set<nat>, t: Table, v: nat)
    requires Sound(mem, live, t) && v in t.trackers
    ensures var t' := t.(trackers := t.trackers - {v});
      && Sound(mem, live, t') && Translation(mem, t') == Translation(mem, t)
      && Owned(t') == Owned(t) - {t.trackers[v]} && t.trackers[v] in live && t.trackers[v] !in t.at.Values
  {
    hide Recorded, IsTree, View;
    var tr := t.trackers - {v};
    forall q | q in t.trackers.Values && q != t.trackers[v] ensures q in tr.Values {
      var u :| u in t.trackers && t.trackers[u] == q;
      assert tr[u] == q;
    }
  }

  // ---------- tightness ----------

  /** A tight table has exactly the mappers that its mapped pages need. */
  lemma TightDeterminesNodes(mem: Memory, live: set<nat>, t: Table)
    requires Sound(mem, live, t) && Tight(mem, t)
    ensures forall n :: n in t.at <==> n == Top || exists v :: v in Translation(mem, t) && n in NodesOf(v)
  {
    hide IsTree, Recorded, View, NodesOf;
    SoundFacts(mem, live, t);
    forall v, n | v in Translation(mem, t) && n in NodesOf(v) ensures n in t.at {
      TranslationBelowLimit(mem, t, v);
      MappedHasNodes(mem, live, t, v);
    }
  }

  lemma TranslationBelowLimit(mem: Memory, t: Table, v: nat)
    requires v in Translation(mem, t)
    ensures v < VPN_LIMIT
  {
    hide PageEntry;
  }

  lemma TightAfterMap(mem: Memory, t: Table, mem': Memory, t': Table, v: nat, m: Mapping)
    requires Tight(mem, t) && t'.at.Keys <= t.at.Keys + NodesOf(v)
    requires Translation(mem', t') == Translation(mem, t)[v := m]
    ensures Tight(mem', t')
  {
    hide NodesOf, Translation;
    assert v in Translation(mem', t');
    forall n | n in t'.at && n != Top ensures exists u :: u in Translation(mem', t') && n in NodesOf(u) {
      if n !in NodesOf(v) {
        var u :| u in Translation(mem, t) && n in NodesOf(u);
        assert u in Translation(mem', t');
      }
    }
  }

  /** The lowest mapper of `v` is not empty: some other page lies below it. */
  lemma PageBelowLow(mem: Memory, live: set<nat>, t: Table, n: Node) returns (u: nat)
    requires Sound(mem, live, t) && n in t.at && n.Low? && CountIn(t, t.at[n]) > 0
    ensures u in Translation(mem, t) && n in NodesOf(u)
  {
    hide Word, ValidCount, Recorded, IsTree, IsValid, Decode;
    NodeFacts(mem, live, t, n);
    EmptyNode(mem, t.at[n]);
    var k :| EntriesOf(mem)(t.at[n], k) != None;
    LowBounds(mem, live, t, n);
    IndexOfJoin(n.i, n.j, k);
    u := Join(n.i, n.j, k);
    assert NodeOn(u, 2) == n;
    PageFacts(mem, t, u);
  }

  lemma LowBounds(mem: Memory, live: set<nat>, t: Table, n: Node)
    requires Booked(mem, live, t) && n in t.at && n.Low?
    ensures n.i < WORDS_PER_PAGE && n.j < WORDS_PER_PAGE && Mid(n.i) in t.at
  {
    hide ValidCount;
    assert Parent(n) == Mid(n.i);
  }

  lemma LowBelowMid(mem: Memory, live: set<nat>, t: Table, n: Node) returns (c: Node)
    requires Sound(mem, live, t) && n in t.at && n.Mid? && CountIn(t, t.at[n]) > 0
    ensures c in t.at && c.Low? && c.i == n.i
  {
    hide Word, ValidCount, Recorded, IsTree, IsValid, Decode;
    NodeFacts(mem, live, t, n);
    EmptyNode(mem, t.at[n]);
    var k :| EntriesOf(mem)(t.at[n], k) != None;
    LinkFacts(mem, live, t, n, k);
    c := Child(n, k);
  }

  /** The lowest mapper left on the walk of page `v`, below the root, is in use. */
  ghost predicate NoneIdle(t: Table, v: nat) {
    forall l :: 1 <= l <= 2 && NodeOn(v, l) in t.at && (l == 2 || NodeOn(v, 2) !in t.at) ==>
      CountIn(t, t.at[NodeOn(v, l)]) > 0
  }

  lemma TightAfterUnmap(mem: Memory, t: Table, mem': Memory, live: set<nat>, t': Table, v: nat)
    requires Tight(mem, t) && Sound(mem', live, t') && t'.at.Keys <= t.at.Keys
    requires Translation(mem', t') == Translation(mem, t) - {v}
    requires NoneIdle(t', v)
    ensures Tight(mem', t')
  {
    hide Index, Translation, Sound;
    forall n | n in t'.at && n != Top ensures exists u :: u in Translation(mem', t') && n in NodesOf(u) {
      if n == NodeOn(v, 2) {
        var u := PageBelowLow(mem', live, t', n);
      } else if n == NodeOn(v, 1) {
        if NodeOn(v, 2) in t'.at {
          var u := PageBelowLow(mem', live, t', NodeOn(v, 2));
          assert n in NodesOf(u);
        } else {
          var c := LowBelowMid(mem', live, t', n);
          var u :| u in Translation(mem, t) && c in NodesOf(u);
          assert u in Translation(mem', t') && n in NodesOf(u);
        }
      } else {
        var u :| u in Translation(mem, t) && n in NodesOf(u);
        assert u in Translation(mem', t');
      }
    }
  }
}
