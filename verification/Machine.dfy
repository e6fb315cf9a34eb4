/** All page tables of the system over one frame allocator. */
module Machines {
  import opened Bytes
  import opened Results
  import opened Pools
  import opened Physical
  import opened Sv39
  import opened Tree
  import opened TableState
  import opened PageTables
  import opened Snapshots
  import opened Neighbours
  import opened TableRuns
  import opened PageBytes
  import opened TableLife

  type Tables = map<nat, Table>

  ghost predicate Held(ts: Tables, p: nat) {
    exists i :: i in ts && p in Owned(ts[i])
  }

  ghost predicate Disjoint(ts: Tables) {
    forall i, j :: i in ts && j in ts && i != j ==> Owned(ts[i]) !! Owned(ts[j])
  }

  ghost predicate AllSound(mem: Memory, live: set<nat>, ts: Tables) {
    forall i :: i in ts ==> Sound(mem, live, ts[i])
  }

  ghost predicate AllTight(mem: Memory, ts: Tables) {
    forall i :: i in ts ==> Tight(mem, ts[i])
  }

  /** Every table is sound, and every live frame is owned by exactly one of them. */
  ghost predicate Shared(mem: Memory, live: set<nat>, ts: Tables) {
    AllSound(mem, live, ts) && Disjoint(ts) && forall p :: p in live ==> Held(ts, p)
  }

  /** What a table stands for: where its pages lead, and the bytes of those that have a frame of their own. */
  datatype Book = Book(plan: Plan, bytes: map<nat, Frame>)

  ghost function BookIn(mem: Memory, t: Table): Book {
    Book(Plan(Translation(mem, t), t.trackers), BytesAt(mem, t.trackers))
  }

  ghost function Books(mem: Memory, ts: Tables): map<nat, Book> {
    map i | i in ts :: BookIn(mem, ts[i])
  }

  /** Table `o` stays sound and apart from the frames `own`, and stands for the same and is tight as before. */
  ghost predicate Kept(mem: Memory, mem': Memory, live: set<nat>, o: Table, own: set<nat>) {
    && Sound(mem', live, o) && Owned(o) !! own && BookIn(mem', o) == BookIn(mem, o)
    && (Tight(mem, o) ==> Tight(mem', o))
  }

  /** A table whose frames keep their bytes stands for the same. */
  lemma SameBook(mem: Memory, mem': Memory, live: set<nat>, o: Table)
    requires Sound(mem, live, o) && Translation(mem', o) == Translation(mem, o)
    requires forall p :: p in Owned(o) ==> FrameAt(mem', p) == FrameAt(mem, p)
    ensures BookIn(mem', o) == BookIn(mem, o) && (Tight(mem, o) ==> Tight(mem', o))
  {
    OwnedParts(mem, live, o);
    hide Sound, Translation, Tight, Owned;
    forall v | v in o.trackers ensures FrameAt(mem', o.trackers[v]) == FrameAt(mem, o.trackers[v]) {
      assert o.trackers[v] in o.trackers.Values;
    }
    if Tight(mem, o) {
      TightStays(mem, o, mem', o);
    }
  }

  ghost predicate OthersKept(ts: Tables, i: nat, t: Table, mem: Memory, mem': Memory, live: set<nat>) {
    forall j :: j in ts && j != i ==> Kept(mem, mem', live, ts[j], Owned(t))
  }

  lemma OthersSound(ts: Tables, i: nat, t: Table, mem: Memory, mem': Memory, live: set<nat>)
    requires Disjoint(ts) && Sound(mem', live, t) && OthersKept(ts, i, t, mem, mem', live)
    ensures AllSound(mem', live, ts[i := t]) && Disjoint(ts[i := t])
  {
    hide Sound, Translation, Owned, Tight;
  }

  lemma OthersTight(ts: Tables, i: nat, t: Table, mem: Memory, mem': Memory, live: set<nat>)
    requires OthersKept(ts, i, t, mem, mem', live) && AllTight(mem, ts) && Tight(mem', t)
    ensures AllTight(mem', ts[i := t])
  {
    hide Sound, Translation, Owned, Tight;
  }

  lemma OthersBooks(ts: Tables, i: nat, t: Table, mem: Memory, mem': Memory, live: set<nat>)
    requires OthersKept(ts, i, t, mem, mem', live)
    ensures Books(mem', ts[i := t]) == Books(mem, ts)[i := BookIn(mem', t)]
  {
    hide Sound, BookIn, Owned, Tight;
  }

  /** Table `i` becomes, or joins as, `t`; all others are kept. */
  lemma OthersStay(ts: Tables, i: nat, t: Table, mem: Memory, mem': Memory, live: set<nat>)
    requires Disjoint(ts) && Sound(mem', live, t) && OthersKept(ts, i, t, mem, mem', live)
    ensures AllSound(mem', live, ts[i := t]) && Disjoint(ts[i := t])
    ensures Books(mem', ts[i := t]) == Books(mem, ts)[i := BookIn(mem', t)]
    ensures AllTight(mem, ts) && Tight(mem', t) ==> AllTight(mem', ts[i := t])
  {
    hide Sound, Translation, Owned, Tight, OthersKept, Disjoint, AllSound, AllTight, Books, BookIn;
    OthersSound(ts, i, t, mem, mem', live);
    OthersBooks(ts, i, t, mem, mem', live);
    if AllTight(mem, ts) && Tight(mem', t) {
      OthersTight(ts, i, t, mem, mem', live);
    }
  }

  lemma StillHeld(ts: Tables, i: nat, t: Table, q: nat)
    requires q in Owned(t) || exists j :: j in ts && j != i && q in Owned(ts[j])
    ensures Held(ts[i := t], q)
  {
    hide Owned;
    var ts' := ts[i := t];
    if q in Owned(t) {
      assert i in ts' && q in Owned(ts'[i]);
    } else {
      var j :| j in ts && j != i && q in Owned(ts[j]);
      assert j in ts' && q in Owned(ts'[j]);
    }
  }

  /** One table steps from `a` to `b`; all others stay sound, apart and translate as before. */
  lemma OneSteps(ts: Tables, i: nat, a: Stand, b: Stand, pages: set<nat>)
    requires Shared(a.mem, a.live, ts) && i in ts && ts[i] == a.now && a.free !! a.live
    requires Steps(ShotIn(a), ShotIn(b), pages) && Sound(b.mem, b.live, b.now)
    ensures Shared(b.mem, b.live, ts[i := b.now])
    ensures Books(b.mem, ts[i := b.now]) == Books(a.mem, ts)[i := BookIn(b.mem, b.now)]
    ensures AllTight(a.mem, ts) && Tight(b.mem, b.now) ==> AllTight(b.mem, ts[i := b.now])
  {
    hide Sound, Translation, Owned, Steps, Tight, Books, BookIn, AllTight;
    forall j | j in ts && j != i ensures Kept(a.mem, b.mem, b.live, ts[j], Owned(b.now)) {
      Bystander(ShotIn(a), ShotIn(b), pages, ts[j]);
      SameBook(a.mem, b.mem, a.live, ts[j]);
    }
    OthersStay(ts, i, b.now, a.mem, b.mem, b.live);
    forall p | p in b.live ensures Held(ts[i := b.now], p) {
      LiveMoves(ShotIn(a).claim, ShotIn(b).claim, ShotIn(a), ShotIn(b), pages, p);
      if p !in Owned(b.now) {
        var j :| j in ts && p in Owned(ts[j]);
      }
      StillHeld(ts, i, b.now, p);
    }
  }

  lemma LiveMoves(a: Claim, b: Claim, s: Shot, t: Shot, pages: set<nat>, p: nat)
    requires Steps(s, t, pages) && a == s.claim && b == t.claim && p in b.live
    ensures p in b.own || (p in a.live && p !in a.own)
  {
    assert p !in b.own ==> p in b.live - b.own;
  }

  /** Each frame is free, or a mapper of one table, or tracked for one page of one table; and only one of these. */
  lemma FrameHasOnePlace(mem: Memory, pool: Pool, start: nat, ts: Tables, p: nat)
    requires pool.Valid(start) && Shared(mem, pool.Live(start), ts)
    ensures start <= p < pool.limit <==> (p in pool.Free() <==> !Held(ts, p))
    ensures forall i, j :: i in ts && j in ts && p in Owned(ts[i]) && p in Owned(ts[j]) ==> i == j
    ensures forall i :: i in ts && p in Owned(ts[i]) ==> (p in ts[i].at.Values <==> p !in ts[i].trackers.Values)
    ensures forall i, n, m :: i in ts && n in ts[i].at && m in ts[i].at && ts[i].at[n] == p == ts[i].at[m] ==> n == m
    ensures forall i, v, w ::
      i in ts && v in ts[i].trackers && w in ts[i].trackers && ts[i].trackers[v] == p == ts[i].trackers[w] ==> v == w
  {
    Partition(pool, start);
    assert p in pool.Free() + pool.Live(start) <==> start <= p < pool.limit;
    forall i | i in ts
      ensures Owned(ts[i]) <= pool.Live(start) && Owned(ts[i]) == ts[i].at.Values + ts[i].trackers.Values
      ensures ts[i].at.Values !! ts[i].trackers.Values && Separate(ts[i].at) && Injective(ts[i].trackers)
    {
      OwnedParts(mem, pool.Live(start), ts[i]);
      SoundApart(mem, pool.Live(start), ts[i]);
    }
    hide AllSound, Pool.Free, Pool.Live, Pool.Valid, Owned;
  }

  lemma SoundApart(mem: Memory, live: set<nat>, t: Table)
    requires Sound(mem, live, t)
    ensures Separate(t.at) && Injective(t.trackers)
  {
  }

  lemma JoinKeeps(mem: Memory, mem': Memory, live: set<nat>, p: nat, o: Table)
    requires Sound(mem, live, o) && p !in live && SameOutside(mem, mem', {p})
    ensures Kept(mem, mem', live + {p}, o, {p})
  {
    hide Sound, Translation, Tight, BookIn;
    OwnedParts(mem, live, o);
    FrameKeeps(mem, mem', live, live + {p}, o);
    SameBook(mem, mem', live, o);
  }

  /** A new table joins, on frame `p`. */
  lemma OneJoins(ts: Tables, i: nat, t: Table, mem: Memory, mem': Memory, live: set<nat>, p: nat)
    requires Shared(mem, live, ts) && i !in ts && p !in live && Owned(t) == {p} && SameOutside(mem, mem', {p})
    requires Sound(mem', live + {p}, t)
    ensures Shared(mem', live + {p}, ts[i := t])
    ensures Books(mem', ts[i := t]) == Books(mem, ts)[i := BookIn(mem', t)]
    ensures AllTight(mem, ts) && Tight(mem', t) ==> AllTight(mem', ts[i := t])
  {
    hide Sound, Translation, Owned, Tight, SameOutside, Books, BookIn, AllTight, Kept;
    forall j | j in ts && j != i ensures Kept(mem, mem', live + {p}, ts[j], Owned(t)) {
      JoinKeeps(mem, mem', live, p, ts[j]);
    }
    OthersStay(ts, i, t, mem, mem', live + {p});
    forall q | q in live + {p} ensures Held(ts[i := t], q) {
      if q != p {
        var j :| j in ts && q in Owned(ts[j]);
      }
      StillHeld(ts, i, t, q);
    }
  }

  /** A table leaves, and with it all its frames. */
  lemma OneLeaves(ts: Tables, i: nat, mem: Memory, live: set<nat>)
    requires Shared(mem, live, ts) && i in ts
    ensures Shared(mem, live - Owned(ts[i]), ts - {i})
    ensures Books(mem, ts - {i}) == Books(mem, ts) - {i} && (AllTight(mem, ts) ==> AllTight(mem, ts - {i}))
  {
    hide Sound, Translation, Owned, Tight, BookIn;
    var ts' := ts - {i};
    forall j | j in ts' ensures Sound(mem, live - Owned(ts[i]), ts'[j]) {
      OwnedParts(mem, live, ts[j]);
      FrameKeeps(mem, mem, live, live - Owned(ts[i]), ts[j]);
    }
    forall q | q in live - Owned(ts[i]) ensures Held(ts', q) {
      var j :| j in ts && q in Owned(ts[j]);
      assert j in ts';
    }
  }

  lemma BookThere(ts: Tables, i: nat, mem: Memory)
    requires i in ts
    ensures i in Books(mem, ts) && Books(mem, ts)[i] == BookIn(mem, ts[i])
  {
  }

  /** One job for the machine: a new table, a call on one, a byte stored in one of its pages, or the end of one. */
  datatype Job =
    | Make(asid: nat)
    | On(id: nat, call: Call)
    | Put(id: nat, vpn: nat, offset: nat, byte: Byte)
    | End(id: nat)

  /** All tables, as what they stand for, and how many there ever were. */
  datatype Ledger = Ledger(books: map<nat, Book>, made: nat)

  function EmptyBook(): Book {
    Book(Plan(map[], map[]), map[])
  }

  /** What a call makes of a book. */
  function BookAfter(b: Book, c: Call, given: Supply): Book {
    Book(Answer(b.plan, c, given).0, BytesAfter(b.bytes, b.plan, c, given))
  }

  /** A byte stored through the frame that is kept for `vpn`. */
  function BookPut(b: Book, vpn: nat, offset: nat, byte: Byte): (r: (Book, Result<nat>))
    requires offset < PAGE_SIZE
    ensures r.0.plan == b.plan && r.0.bytes.Keys == b.bytes.Keys && (r.1.Ok? <==> vpn in b.bytes)
    ensures forall v, o :: v in b.bytes && 0 <= o < PAGE_SIZE ==>
      r.0.bytes[v][o] == if v == vpn && o == offset then byte else b.bytes[v][o]
  {
    if vpn !in b.bytes then (b, Err(VPNNotMapped(vpn)))
    else (b.(bytes := b.bytes[vpn := b.bytes[vpn][offset := byte]]), Ok(offset))
  }

  /** What a job does to one book, if it is about that book. */
  function BookServed(b: Book, job: Job, given: Supply): (Book, Option<Result<nat>>)
    requires job.On? || job.Put?
  {
    match job
    case On(_, c) => (BookAfter(b, c, given), Some(Answer(b.plan, c, given).1))
    case Put(_, v, offset, byte) =>
      if offset < PAGE_SIZE then var a := BookPut(b, v, offset, byte); (a.0, Some(a.1)) else (b, None)
  }

  /** What a job does to the ledger; a job that does not apply is skipped. */
  function Served(l: Ledger, job: Job, given: Supply): (Ledger, Option<Result<nat>>) {
    match job
    case Make(_) =>
      if given.NoFrame? then (l, Some(Err(FrameExhausted)))
      else (Ledger(l.books[l.made := EmptyBook()], l.made + 1), Some(Ok(l.made)))
    case End(i) =>
      if i in l.books then (l.(books := l.books - {i}), Some(Ok(i))) else (l, None)
    case _ =>
      if job.id !in l.books then (l, None)
      else var a := BookServed(l.books[job.id], job, given); (l.(books := l.books[job.id := a.0]), a.1)
  }

  function ServedAll(l: Ledger, jobs: seq<Job>, given: seq<Supply>): Ledger
    requires |given| == |jobs|
  {
    if jobs == [] then l
    else Served(ServedAll(l, jobs[..|jobs| - 1], given[..|jobs| - 1]), jobs[|jobs| - 1], given[|jobs| - 1]).0
  }

  /** What the jobs on table `i` alone make of its book. */
  function OwnJobs(b: Book, jobs: seq<Job>, given: seq<Supply>, i: nat): Book
    requires |given| == |jobs|
  {
    if jobs == [] then b
    else
      var n := |jobs| - 1;
      var before := OwnJobs(b, jobs[..n], given[..n], i);
      if (jobs[n].On? || jobs[n].Put?) && jobs[n].id == i then BookServed(before, jobs[n], given[n]).0 else before
  }

  /**
   In any run over any number of tables, what a table stands for, its translation and every byte of its pages, is what
   the jobs on that table alone make of it.
   */
  lemma {:induction false} TablesAreIndependent(l: Ledger, jobs: seq<Job>, given: seq<Supply>, i: nat)
    requires |given| == |jobs| && i in l.books && i < l.made && forall k :: 0 <= k < |jobs| ==> jobs[k] != End(i)
    ensures var l' := ServedAll(l, jobs, given);
      i in l'.books && i < l'.made && l'.books[i] == OwnJobs(l.books[i], jobs, given, i)
    decreases |jobs|
  {
    hide BookServed;
    if jobs != [] {
      var n := |jobs| - 1;
      TablesAreIndependent(l, jobs[..n], given[..n], i);
    }
  }

  /**
   The job leaves byte `offset` of page `vpn` of table `i` alone: it neither stores there nor maps or unmaps the page.
   */
  predicate LeavesByte(job: Job, i: nat, vpn: nat, offset: nat) {
    match job
    case On(id, c) => id == i && (c.Map? || c.Unmap?) ==> c.vpn != vpn
    case Put(id, v, o, _) => !(id == i && v == vpn && o == offset)
    case _ => true
  }

  /** A byte reads as it was stored, through any run without another store to it, and with its page in place. */
  lemma {:induction false} ReadsAsStored(b: Book, jobs: seq<Job>, given: seq<Supply>, i: nat, vpn: nat, offset: nat)
    requires |given| == |jobs| && vpn in b.bytes && offset < PAGE_SIZE
    requires forall k :: 0 <= k < |jobs| ==> LeavesByte(jobs[k], i, vpn, offset)
    ensures var b' := OwnJobs(b, jobs, given, i); vpn in b'.bytes && b'.bytes[vpn][offset] == b.bytes[vpn][offset]
    decreases |jobs|
  {
    if jobs != [] {
      var n := |jobs| - 1;
      ReadsAsStored(b, jobs[..n], given[..n], i, vpn, offset);
      assert LeavesByte(jobs[n], i, vpn, offset);
      hide Answer, BookPut;
    }
  }

  lemma OnlyAt(mem: Memory, p: nat, f: Frame)
    ensures SameOutside(mem, mem[p := f], {p})
  {
  }

  /** The machine as one value. */
  datatype Scene = Scene(mem: Memory, free: set<nat>, live: set<nat>, limit: nat, tables: Tables)

  ghost function StandIn(a: Scene, i: nat): Stand
    requires i in a.tables
  {
    Stand(a.tables[i], a.mem, a.free, a.live, a.limit)
  }

  /**
   Every frame from `start` on is free, or owned by exactly one table, which is sound; and none is idle, if so promised.
   */
  ghost predicate Upright(a: Scene, start: nat, tight: bool) {
    && Shared(a.mem, a.live, a.tables) && a.free !! a.live && a.free + a.live == Interval(start, a.limit)
    && (tight ==> AllTight(a.mem, a.tables))
  }

  /** The supply of a job is what the machine had, and the job takes and gives back frames accordingly. */
  ghost predicate Backed(a: Scene, b: Scene, job: Job, given: Supply, r: Option<Result<nat>>) {
    match job
    case Make(_) => given.NoFrame? <==> a.free == {}
    case On(i, c) =>
      i in a.tables ==> i in b.tables && r.Some? && Did(StandIn(a, i), StandIn(b, i), c, r.value, given)
    case Put(i, _, _, _) => b.free == a.free && b.tables == a.tables
    case End(i) => b.free == a.free + if i in a.tables then Owned(a.tables[i]) else {}
  }

  // ---------- no frame is lost ----------

  lemma ValuesSplit<K, V>(m: map<K, V>, k: K)
    requires k in m && forall x, y :: x in m && y in m && m[x] == m[y] ==> x == y
    ensures |m.Values| == |(m - {k}).Values| + 1
  {
    var rest := m - {k};
    forall v | v in m.Values ensures v in rest.Values + {m[k]} {
      var x :| x in m && m[x] == v;
      assert x == k || (x in rest && rest[x] == v);
    }
    assert m.Values == rest.Values + {m[k]} && m[k] !in rest.Values;
  }

  lemma {:induction false} SameSize<K, V, W>(m: map<K, V>, n: map<K, W>)
    requires m.Keys == n.Keys && (forall x, y :: x in m && y in m && m[x] == m[y] ==> x == y)
    requires forall x, y :: x in n && y in n && n[x] == n[y] ==> x == y
    ensures |m.Values| == |n.Values|
    decreases |m.Keys|
  {
    if m.Keys == {} {
      assert m.Values == {} && n.Values == {};
    } else {
      var k :| k in m.Keys;
      var m', n' := m - {k}, n - {k};
      assert m'.Keys == m.Keys - {k} && n'.Keys == m.Keys - {k};
      SameSize(m', n');
      ValuesSplit(m, k);
      ValuesSplit(n, k);
    }
  }

  /** Two tight tables that map the same pages, and keep frames for the same, own equally many frames. */
  lemma SameHoldings(a: Stand, b: Stand)
    requires Sound(a.mem, a.live, a.now) && Tight(a.mem, a.now) && Sound(b.mem, b.live, b.now) && Tight(b.mem, b.now)
    requires PlanOf(a).view.Keys == PlanOf(b).view.Keys && a.now.trackers.Keys == b.now.trackers.Keys
    ensures |Owned(a.now)| == |Owned(b.now)|
  {
    FootprintDetermined(a, b);
    SoundApart(a.mem, a.live, a.now);
    SoundApart(b.mem, b.live, b.now);
    OwnedParts(a.mem, a.live, a.now);
    OwnedParts(b.mem, b.live, b.now);
    hide Sound, Tight, Translation, Owned;
    SameSize(a.now.at, b.now.at);
    SameSize(a.now.trackers, b.now.trackers);
  }

  /** All frames owned. */
  ghost function Holdings(ts: Tables): set<nat> {
    set i, p | i in ts && p in Owned(ts[i]) :: p
  }

  lemma {:induction false} SameTotal(a: Tables, b: Tables)
    requires a.Keys == b.Keys && Disjoint(a) && Disjoint(b) && forall i :: i in a ==> |Owned(a[i])| == |Owned(b[i])|
    ensures |Holdings(a)| == |Holdings(b)|
    decreases |a.Keys|
  {
    hide Owned;
    if a.Keys == {} {
      assert Holdings(a) == {} && Holdings(b) == {};
    } else {
      var i :| i in a.Keys;
      var a', b' := a - {i}, b - {i};
      assert a'.Keys == a.Keys - {i} && b'.Keys == a.Keys - {i};
      SameTotal(a', b');
      HoldingsSplit(a, i);
      HoldingsSplit(b, i);
    }
  }

  lemma HoldingsSplit(a: Tables, i: nat)
    requires i in a && Disjoint(a)
    ensures |Holdings(a)| == |Holdings(a - {i})| + |Owned(a[i])|
  {
    hide Owned;
    var rest := a - {i};
    assert Holdings(a) == Holdings(rest) + Owned(a[i]) by {
      forall p | p in Holdings(a) ensures p in Holdings(rest) + Owned(a[i]) {
        var j :| j in a && p in Owned(a[j]);
        assert j == i || (j in rest && p in Owned(rest[j]));
      }
      forall p | p in Holdings(rest) ensures p in Holdings(a) {
        var j :| j in rest && p in Owned(rest[j]);
        assert j in a && p in Owned(a[j]);
      }
    }
    assert Holdings(rest) !! Owned(a[i]);
  }

  lemma LiveIsHeld(a: Scene, start: nat, tight: bool)
    requires Upright(a, start, tight)
    ensures a.live == Holdings(a.tables)
  {
    hide Sound, Tight, Translation, Owned;
    forall p ensures p in a.live <==> p in Holdings(a.tables) {
      if p in a.live {
        assert Held(a.tables, p);
      }
      if p in Holdings(a.tables) {
        var i :| i in a.tables && p in Owned(a.tables[i]);
        OwnedParts(a.mem, a.live, a.tables[i]);
      }
    }
  }

  /** In both the same tables map the same pages, and keep frames for the same. */
  ghost predicate SameMaps(a: map<nat, Book>, b: map<nat, Book>) {
    a.Keys == b.Keys && forall i :: i in a ==>
      a[i].plan.view.Keys == b[i].plan.view.Keys && a[i].plan.trackers.Keys == b[i].plan.trackers.Keys
  }

  /** Whatever happened in between: when the same pages are mapped again, as many frames are free again. */
  lemma SameMapsSameFree(a: Scene, b: Scene, start: nat)
    requires Upright(a, start, true) && Upright(b, start, true) && a.limit == b.limit
    requires SameMaps(Books(a.mem, a.tables), Books(b.mem, b.tables))
    ensures |a.free| == |b.free|
  {
    hide Sound, Tight, Translation, Owned;
    LiveIsHeld(a, start, true);
    LiveIsHeld(b, start, true);
    assert a.tables.Keys == Books(a.mem, a.tables).Keys && b.tables.Keys == Books(b.mem, b.tables).Keys;
    forall i | i in a.tables ensures |Owned(a.tables[i])| == |Owned(b.tables[i])| {
      SameOneHoldings(a, b, start, i);
    }
    hide Books, AllTight, AllSound, SameMaps, Holdings;
    SameTotal(a.tables, b.tables);
    FreeSize(a.free, a.live, Interval(start, a.limit));
    FreeSize(b.free, b.live, Interval(start, b.limit));
  }

  lemma FreeSize(free: set<nat>, live: set<nat>, all: set<nat>)
    requires free !! live && free + live == all
    ensures |free| == |all| - |live|
  {
    assert |free + live| == |free| + |live|;
  }

  lemma SameOneHoldings(a: Scene, b: Scene, start: nat, i: nat)
    requires Upright(a, start, true) && Upright(b, start, true) && i in a.tables && i in b.tables
    requires SameMaps(Books(a.mem, a.tables), Books(b.mem, b.tables))
    ensures |Owned(a.tables[i])| == |Owned(b.tables[i])|
  {
    hide Sound, Tight, Translation, Owned;
    BookThere(a.tables, i, a.mem);
    BookThere(b.tables, i, b.mem);
    SameHoldings(StandIn(a, i), StandIn(b, i));
  }

  /** Mapping a page of any table and unmapping it again gives back every frame. */
  lemma MapUnmapGivesBack(a: Scene, b: Scene, c: Scene, start: nat, i: nat, vpn: nat, flags: Byte, p: nat,
                          given: Supply, r: Option<Result<nat>>, given': Supply)
    requires Upright(a, start, true) && Upright(b, start, true) && Upright(c, start, true)
    requires i in a.tables && i in b.tables && Backed(a, b, On(i, Map(vpn, flags)), given, Some(Ok(p)))
    requires Backed(b, c, On(i, Unmap(vpn)), given', r)
    ensures r == Some(Ok(p)) && i in c.tables && c.free == a.free
    ensures BookIn(c.mem, c.tables[i]).plan == BookIn(a.mem, a.tables[i]).plan
  {
    hide Sound, Tight, Translation, Owned, Did;
    MapUnmapRestores(StandIn(a, i), StandIn(b, i), StandIn(c, i), vpn, flags, p, given, r.value, given');
  }

  /** An unmapped page can be mapped whenever three frames are free. */
  lemma ThreeFramesMap(a: Scene, b: Scene, i: nat, vpn: nat, flags: Byte, given: Supply, r: Option<Result<nat>>)
    requires i in a.tables && Backed(a, b, On(i, Map(vpn, flags)), given, r) && flags != 0 && |a.free| >= 3
    requires PageOf(vpn) !in BookIn(a.mem, a.tables[i]).plan.view && vpn !in a.tables[i].trackers
    ensures r.Some? && r.value.Ok?
  {
    hide Translation, Steps, PageOf, Tight, NodesOf;
    ThreeFramesSuffice(StandIn(a, i), Map(vpn, flags));
  }

  class Machine {
    const phys: PhysicalMemory
    var tables: map<nat, PageTable>
    /** How many tables there ever were; each has the number it was made with. */
    var made: nat
    /** Whether some call ever ran out of frames. */
    ghost var strained: bool

    ghost function Nows(): Tables
      reads this, tables.Values
    {
      map i | i in tables :: tables[i].Now()
    }

    ghost predicate Wired()
      reads this, tables.Values
    {
      && (forall i :: i in tables ==> tables[i].phys == phys && i < made)
      && (forall i, j :: i in tables && j in tables && tables[i] == tables[j] ==> i == j)
    }

    ghost predicate Valid()
      reads this, phys, tables.Values
    {
      && phys.Valid() && Wired()
      && Shared(phys.frames, phys.Live(), Nows())
      && (!strained ==> AllTight(phys.frames, Nows()))
    }

    constructor (start: nat, end: nat)
      requires start < end <= PPN_LIMIT
      ensures Valid() && fresh(phys) && tables == map[] && phys.Free() == Interval(start, end) && phys.start == start
      ensures made == 0 && !strained
    {
      phys := new PhysicalMemory(start, end);
      tables := map[];
      made := 0;
      strained := false;
    }

    /** What the tables stand for. */
    ghost function LedgerNow(): Ledger
      reads this, phys, tables.Values
    {
      Ledger(Books(phys.frames, Nows()), made)
    }

    ghost function SceneNow(): Scene
      reads this, phys, tables.Values
    {
      Scene(phys.frames, phys.Free(), phys.Live(), phys.pool.limit, Nows())
    }

    lemma ValidIsUpright()
      requires Valid()
      ensures Upright(SceneNow(), phys.start, !strained)
    {
      hide Shared, AllTight;
      Partition(phys.pool, phys.start);
    }

    lemma TableValid(i: nat)
      requires Valid() && i in tables
      ensures tables[i].Valid() && tables[i].phys == phys && i in Nows() && Nows()[i] == StandOf(tables[i]).now
      ensures !strained ==> Tight(phys.frames, tables[i].Now())
    {
      hide Sound, Translation, Owned, Tight;
      assert i in Nows();
    }

    /** Any call on any table, with the frames the machine has. */
    method Do(i: nat, c: Call) returns (r: Result<nat>, ghost given: Supply)
      requires Valid() && i in tables && InBounds(c)
      modifies this`strained, phys, tables[i]
      ensures Valid() && phys.pool.limit == old(phys.pool.limit)
      ensures Did(old(StandOf(tables[i])), StandOf(tables[i]), c, r, given)
      ensures Nows() == old(Nows())[i := tables[i].Now()]
      ensures i in old(LedgerNow()).books && r == Answer(old(LedgerNow()).books[i].plan, c, given).1
      ensures LedgerNow() ==
        old(LedgerNow()).(books := old(LedgerNow()).books[i := BookAfter(old(LedgerNow()).books[i], c, given)])
      ensures strained == (old(strained) || r == Err(FrameExhausted))
    {
      hide Sound, Translation, Owned, Tight, AllTight, Books, BookIn, Did, Shared, Pool.Free, Pool.Live, Pool.Valid;
      hide Answer, BookAfter, Steps, InBounds;
      var pt := tables[i];
      ghost var ts, a := Nows(), StandOf(pt);
      TableValid(i);
      pt.FreeNotLive();
      r, given := Perform(pt, c);
      strained := strained || r == Err(FrameExhausted);
      DidIsBook(a, StandOf(pt), c, r, given);
      OneSteps(ts, i, a, StandOf(pt), PagesAt(c.vpn));
      BookThere(ts, i, a.mem);
      NowsChange(i);
    }

    /** One table changed, the others did not. */
    twostate lemma NowsChange(i: nat)
      requires i in tables && tables == old(tables) && forall j :: j in tables && j != i ==> unchanged(tables[j])
      ensures Nows() == old(Nows())[i := tables[i].Now()]
    {
    }

    /** A byte stored in a page of any table. */
    method Store(i: nat, vpn: nat, offset: nat, byte: Byte) returns (r: Result<nat>)
      requires Valid() && i in tables && offset < PAGE_SIZE
      modifies phys`frames
      ensures Valid() && phys.pool == old(phys.pool) && Nows() == old(Nows()) && i in old(LedgerNow()).books
      ensures LedgerNow() ==
        old(LedgerNow()).(books := old(LedgerNow()).books[i := BookPut(old(LedgerNow()).books[i], vpn, offset, byte).0])
      ensures r == BookPut(old(LedgerNow()).books[i], vpn, offset, byte).1
    {
      hide Sound, Translation, Owned, Tight, AllTight, Books, BookIn, Shared, Pool.Free, Pool.Live, Pool.Valid;
      hide Rewrites;
      var pt := tables[i];
      ghost var ts, a := Nows(), StandOf(pt);
      TableValid(i);
      BookThere(ts, i, a.mem);
      BookKeys(a.mem, a.now, vpn);
      if vpn !in pt.trackers {
        assert Books(phys.frames, Nows())[i := Books(phys.frames, Nows())[i]] == Books(phys.frames, Nows());
        return Err(VPNNotMapped(vpn));
      }
      pt.FreeNotLive();
      TableOwns(pt);
      ghost var s := ShotOf(pt);
      var f := FrameAt(phys.frames, pt.trackers[vpn])[offset := byte];
      StoreFrame(pt, vpn, f);
      RewritesSteps(s, ShotOf(pt), {vpn});
      PutIsBook(a, StandOf(pt), vpn, offset, byte);
      OneSteps(ts, i, a, StandOf(pt), {vpn});
      assert ts[i := pt.Now()] == ts;
      r := Ok(offset);
    }

    /** `PageTable::new`, for whatever address space it is. */
    method Create(asid: nat) returns (r: Result<nat>)
      requires Valid()
      modifies this, phys
      ensures Valid() && phys.pool.limit == old(phys.pool.limit)
      ensures r == if old(phys.Free()) == {} then Err(FrameExhausted) else Ok(old(made))
      ensures r.Err? ==> tables == old(tables) && LedgerNow() == old(LedgerNow())
      ensures r.Ok? ==> LedgerNow() == Ledger(old(LedgerNow()).books[old(made) := EmptyBook()], old(made) + 1)
      ensures r.Ok? ==>
        tables.Keys == old(tables.Keys) + {r.value} && fresh(tables[r.value]) && tables[r.value].asid == asid
      ensures r.Ok? ==> r.value !in old(tables) && forall j :: j in old(tables) ==> tables[j] == old(tables[j])
      ensures strained == old(strained)
    {
      hide Sound, Translation, Owned, Tight, AllTight, Books, Shared, Pool.Free, Pool.Live, Pool.Valid, ZeroFrame;
      ghost var ts, mem, live := Nows(), phys.frames, phys.Live();
      var f := phys.AllocFrame();
      NowsSame();
      if f.Err? {
        return Err(f.error);
      }
      OnlyAt(mem, f.value, ZeroFrame());
      Adopt(asid, f.value, mem, live);
      r := Ok(made - 1);
    }

    /** Puts a new table on frame `p`, just allocated and cleared. */
    method Adopt(asid: nat, p: nat, ghost mem: Memory, ghost live: set<nat>)
      requires phys.Valid() && Wired() && p !in live && phys.Live() == live + {p}
      requires Shared(mem, live, Nows()) && (!strained ==> AllTight(mem, Nows()))
      requires FrameAt(phys.frames, p) == ZeroFrame() && SameOutside(mem, phys.frames, {p})
      modifies this`tables, this`made
      ensures Valid() && made == old(made) + 1 && tables.Keys == old(tables.Keys) + {old(made)}
      ensures LedgerNow().books == Books(mem, old(Nows()))[old(made) := EmptyBook()]
      ensures old(made) !in old(tables) && fresh(tables[old(made)]) && tables[old(made)].asid == asid
      ensures forall j :: j in old(tables) ==> tables[j] == old(tables[j])
    {
      hide Sound, Translation, Owned, Tight, AllTight, Books, Shared, SameOutside, Pool.Free, Pool.Live, Pool.Valid,
        ZeroFrame, Agrees;
      hide Machine.Nows;
      ghost var ts := Nows();
      NowsKeys();
      var i := made;
      var pt := new PageTable(asid, phys, p);
      tables := tables[i := pt];
      made := made + 1;
      NowsJoin(i, pt);
      OneJoins(ts, i, pt.Now(), mem, phys.frames, live, p);
    }

    lemma NowsKeys()
      ensures Nows().Keys == tables.Keys
    {
    }

    twostate lemma NowsSame()
      requires tables == old(tables) && forall j :: j in tables ==> unchanged(tables[j])
      ensures Nows() == old(Nows())
    {
    }

    twostate lemma NowsJoin(i: nat, new pt: PageTable)
      requires i !in old(tables) && tables == old(tables)[i := pt]
      requires forall j :: j in old(tables) ==> unchanged(tables[j])
      requires old(Wired()) && pt.phys == phys && fresh(pt) && i == old(made) && made == i + 1
      ensures Nows() == old(Nows())[i := pt.Now()] && Wired()
    {
    }

    /** The end of a page table: all its trackers are dropped, and every frame it owned is free again. */
    method Remove(i: nat)
      requires Valid() && i in tables
      modifies this`tables, phys`pool
      ensures Valid() && phys.pool.limit == old(phys.pool.limit) && tables == old(tables) - {i}
      ensures phys.Free() == old(phys.Free()) + old(Owned(tables[i].Now()))
      ensures LedgerNow() == old(LedgerNow()).(books := old(LedgerNow()).books - {i}) && Nows() == old(Nows()) - {i}
    {
      hide Sound, Translation, Owned, Tight, AllTight, Books, Shared, Pool.Free, Pool.Live, Pool.Valid;
      ghost var ts, live := Nows(), phys.Live();
      TableValid(i);
      var pt := tables[i];
      OneLeaves(ts, i, phys.frames, live);
      DropTable(pt);
      tables := tables - {i};
      NowsLeave(i);
    }

    twostate lemma NowsLeave(i: nat)
      requires i in old(tables) && tables == old(tables) - {i} && forall j :: j in tables ==> unchanged(tables[j])
      ensures Nows() == old(Nows()) - {i}
    {
    }

    lemma LedgerKeys()
      ensures LedgerNow().books.Keys == tables.Keys == Nows().Keys
    {
    }

    /** One job. */
    method Serve(job: Job) returns (r: Option<Result<nat>>, ghost given: Supply)
      requires Valid() && (job.On? ==> InBounds(job.call))
      modifies this, phys, tables.Values
      ensures Valid() && phys.pool.limit == old(phys.pool.limit)
      ensures (LedgerNow(), r) == Served(old(LedgerNow()), job, given)
      ensures Backed(old(SceneNow()), SceneNow(), job, given, r)
      ensures strained == (old(strained) || (job.On? && r == Some(Err(FrameExhausted))))
      ensures forall j :: j in tables ==> fresh(tables[j]) || tables[j] in old(tables.Values)
    {
      LedgerKeys();
      hide Sound, Translation, Owned, Tight, AllTight, Shared, Books, Answer, BytesAfter, Did, Pool.Free, Pool.Live;
      hide Pool.Valid;
      hide Machine.Nows;
      given := NoFrame;
      match job
      case Make(asid) =>
        var a := Create(asid);
        given := if a.Ok? then FrameOnly else NoFrame;
        r := Some(a);
      case On(i, c) =>
        r := None;
        if i in tables {
          var a;
          NowAt(i);
          a, given := Do(i, c);
          NowAt(i);
          r := Some(a);
        }
      case Put(i, vpn, offset, byte) =>
        r := None;
        if i in tables && offset < PAGE_SIZE {
          var a := Store(i, vpn, offset, byte);
          r := Some(a);
        }
        if i in old(LedgerNow()).books {
          SameAgain(old(LedgerNow()).books, i);
        }
      case End(i) =>
        r := None;
        if i in tables {
          NowAt(i);
          Remove(i);
          r := Some(Ok(i));
        }
    }

    lemma NowAt(i: nat)
      requires i in tables
      ensures i in Nows() && Nows()[i] == tables[i].Now()
    {
    }

    /** Any sequence of jobs, each served as the ledger says, and with the frames the machine had. */
    method Run(jobs: seq<Job>)
      returns (ghost given: seq<Supply>, ghost answers: seq<Option<Result<nat>>>, ghost scenes: seq<Scene>)
      requires Valid() && forall k :: 0 <= k < |jobs| && jobs[k].On? ==> InBounds(jobs[k].call)
      modifies this, phys, tables.Values
      ensures Valid() && phys.pool.limit == old(phys.pool.limit)
      ensures |given| == |answers| == |jobs| && LedgerNow() == ServedAll(old(LedgerNow()), jobs, given)
      ensures |scenes| == |jobs| + 1 && scenes[0] == old(SceneNow()) && scenes[|jobs|] == SceneNow()
      ensures forall k :: 0 <= k < |jobs| ==> Backed(scenes[k], scenes[k + 1], jobs[k], given[k], answers[k])
      ensures forall k :: 0 <= k < |scenes| ==> Upright(scenes[k], phys.start, !strained)
      ensures strained ==
        (old(strained) || exists k :: 0 <= k < |jobs| && jobs[k].On? && answers[k] == Some(Err(FrameExhausted)))
    {
      hide Sound, Translation, Owned, Tight, Shared, Served, Backed, Upright, Pool.Free, Pool.Live, Pool.Valid;
      given, answers, scenes := [], [], [SceneNow()];
      ValidIsUpright();
      var k := 0;
      while k < |jobs|
        invariant 0 <= k == |given| == |answers| <= |jobs| && Valid() && phys.pool.limit == old(phys.pool.limit)
        invariant LedgerNow() == ServedAll(old(LedgerNow()), jobs[..k], given)
        invariant |scenes| == k + 1 && scenes[0] == old(SceneNow()) && scenes[k] == SceneNow()
        invariant forall j :: 0 <= j < k ==> Backed(scenes[j], scenes[j + 1], jobs[j], given[j], answers[j])
        invariant forall j :: 0 <= j < |scenes| ==> Upright(scenes[j], phys.start, !strained)
        invariant strained ==
          (old(strained) || exists j :: 0 <= j < k && jobs[j].On? && answers[j] == Some(Err(FrameExhausted)))
        invariant forall j :: j in tables ==> fresh(tables[j]) || tables[j] in old(tables.Values)
      {
        ghost var g;
        var r;
        ghost var was := strained;
        r, g := Serve(jobs[k]);
        ValidIsUpright();
        forall j | 0 <= j < |scenes| ensures Upright(scenes[j], phys.start, !strained) {
          LessIsUpright(scenes[j], phys.start, !was, !strained);
        }
        assert jobs[..k + 1][..k] == jobs[..k] && (given + [g])[..k] == given;
        given, answers, scenes := given + [g], answers + [r], scenes + [SceneNow()];
        k := k + 1;
      }
      assert jobs[..k] == jobs;
    }
  }

  lemma LessIsUpright(a: Scene, start: nat, tight: bool, less: bool)
    requires Upright(a, start, tight) && (less ==> tight)
    ensures Upright(a, start, less)
  {
  }

  lemma SameAgain<V>(m: map<nat, V>, i: nat)
    requires i in m
    ensures m[i := m[i]] == m
  {
  }

  /** A call changes the book as said. */
  lemma DidIsBook(a: Stand, b: Stand, c: Call, r: Result<nat>, given: Supply)
    requires Did(a, b, c, r, given)
    ensures BookIn(b.mem, b.now) == BookAfter(BookIn(a.mem, a.now), c, given)
    ensures r == Answer(BookIn(a.mem, a.now).plan, c, given).1 && Steps(ShotIn(a), ShotIn(b), PagesAt(c.vpn))
    ensures b.limit == a.limit && (Tight(a.mem, a.now) && r != Err(FrameExhausted) ==> Tight(b.mem, b.now))
  {
    hide Translation, Steps, Answer, BytesAfter, Supplied, Tight;
  }

  lemma BookKeys(mem: Memory, t: Table, vpn: nat)
    ensures vpn in BookIn(mem, t).bytes <==> vpn in t.trackers
    ensures vpn in t.trackers ==> BookIn(mem, t).bytes[vpn] == FrameAt(mem, t.trackers[vpn])
  {
  }

  /** A byte stored changes the book as said. */
  lemma PutIsBook(a: Stand, b: Stand, vpn: nat, offset: nat, byte: Byte)
    requires vpn in a.now.trackers && Sound(a.mem, a.live, a.now) && offset < PAGE_SIZE && b.now == a.now
    requires Translation(b.mem, b.now) == Translation(a.mem, a.now)
    requires b.mem == a.mem[a.now.trackers[vpn] := FrameAt(a.mem, a.now.trackers[vpn])[offset := byte]]
    ensures BookIn(b.mem, b.now) == BookPut(BookIn(a.mem, a.now), vpn, offset, byte).0
    ensures Tight(a.mem, a.now) ==> Tight(b.mem, b.now)
  {
    hide Sound, Translation, Tight, Injective, Separate;
    SoundApart(a.mem, a.live, a.now);
    if Tight(a.mem, a.now) {
      TightStays(a.mem, a.now, b.mem, b.now);
    }
    BookKeys(a.mem, a.now, vpn);
    hide BytesAt;
    PutBytes(a.now.trackers, a.mem, vpn, FrameAt(a.mem, a.now.trackers[vpn])[offset := byte]);
  }

  lemma PutBytes(trackers: map<nat, nat>, mem: Memory, vpn: nat, f: Frame)
    requires vpn in trackers && Injective(trackers)
    ensures var mem' := mem[trackers[vpn] := f];
      BytesAt(mem', trackers) == BytesAt(mem, trackers)[vpn := f]
  {
  }
}
