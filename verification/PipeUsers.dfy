/** Pipes between user buffers: bytes go from the memory of writers to the memory of readers. */
module PipeUsers {
  import opened Bytes
  import opened Physical
  import opened Sv39
  import opened TableState
  import opened Snapshots
  import opened PageBytes
  import opened Neighbours
  import opened ByteBuffers
  import opened RingBuffers
  import opened Pipes
  import opened PipeRuns

  predicate InPages(places: seq<Addr>) {
    forall i :: 0 <= i < |places| ==> places[i].1 < PAGE_SIZE
  }

  /** A pipe, the memory, and where the calls on the pipe have their buffers. */
  datatype Flow = Flow(world: World, mem: Memory, sinks: seq<seq<Addr>>, sources: seq<seq<Addr>>)

  datatype Move = Reads(who: nat, writersClosed: bool) | Writes(who: nat, readersOpen: bool)

  /** Each call has a buffer of its size. */
  ghost predicate Fitted(f: Flow) {
    && |f.sinks| == |f.world.readers| && |f.sources| == |f.world.writers| && |f.world.contents| <= f.world.capacity
    && (forall i :: 0 <= i < |f.sinks| ==>
          InPages(f.sinks[i]) && f.world.readers[i].already <= f.world.readers[i].size == |f.sinks[i]|)
    && (forall i :: 0 <= i < |f.sources| ==>
          InPages(f.sources[i]) && f.world.writers[i].already <= f.world.writers[i].size == |f.sources[i]|)
  }

  predicate Names(f: Flow, m: Move) {
    if m.Reads? then m.who < |f.world.readers| else m.who < |f.world.writers|
  }

  /** The bytes that call `who` has still to write. */
  ghost function Rest(f: Flow, who: nat): seq<Byte>
    requires Fitted(f) && who < |f.sources|
  {
    LoadAll(f.mem, f.sources[who][f.world.writers[who].already..])
  }

  ghost function EventOf(f: Flow, m: Move): (e: Event)
    requires Fitted(f) && Names(f, m)
    ensures Fits(f.world, e)
  {
    match m
    case Reads(who, closed) => ReadBy(who, closed)
    case Writes(who, open) => WriteBy(who, open, Rest(f, who))
  }

  /** The memory after one pass: a read stores what it takes, from where it stands on. */
  ghost function MemAfter(f: Flow, m: Move): Memory
    requires Fitted(f) && Names(f, m)
  {
    match m
    case Writes(_, _) => f.mem
    case Reads(who, _) =>
      var c := f.world.readers[who];
      var n := Share(|f.world.contents|, c.size, c.already);
      StoreAll(f.mem, f.sinks[who][c.already..c.already + n], f.world.contents[..n])
  }

  ghost function FlowStep(f: Flow, m: Move): (Flow, Turn)
    requires Fitted(f) && Names(f, m)
  {
    var r := Step(f.world, EventOf(f, m));
    (f.(world := r.0, mem := MemAfter(f, m)), r.1)
  }

  /** No two readers' bytes share a place, and none has a place in a writer's buffer. */
  ghost predicate Separated(sinks: seq<seq<Addr>>, sources: seq<seq<Addr>>) {
    && (forall i, k, l :: 0 <= i < |sinks| && 0 <= k < l < |sinks[i]| ==> sinks[i][k] != sinks[i][l])
    && (forall i, j, x :: 0 <= i < j < |sinks| && x in sinks[i] ==> x !in sinks[j])
    && (forall i, j, x :: 0 <= i < |sinks| && 0 <= j < |sources| && x in sinks[i] ==> x !in sources[j])
  }

  /** Each reader's buffer holds what it has read, and each writer's what it has written. */
  ghost predicate Delivered(f: Flow)
    requires Fitted(f)
  {
    && (forall i :: 0 <= i < |f.sinks| ==>
          LoadAll(f.mem, f.sinks[i][..f.world.readers[i].already]) == MovedBy(f.world.readLog, i))
    && (forall i :: 0 <= i < |f.sources| ==>
          LoadAll(f.mem, f.sources[i][..f.world.writers[i].already]) == MovedBy(f.world.writeLog, i))
  }

  /** Every byte in the logs was moved by one of the calls. */
  ghost predicate Known(w: World) {
    && (forall k :: 0 <= k < |w.readLog| ==> w.readLog[k].0 < |w.readers|)
    && (forall k :: 0 <= k < |w.writeLog| ==> w.writeLog[k].0 < |w.writers|)
  }

  ghost predicate InOrder(f: Flow) {
    Fitted(f) && Separated(f.sinks, f.sources) && Intact(f.world) && Known(f.world) && Delivered(f)
  }

  // ---------- one pass ----------

  /** What is stored elsewhere does not change what is loaded. */
  lemma LoadUnchanged(mem: Memory, places: seq<Addr>, bytes: seq<Byte>, at: seq<Addr>)
    requires |places| == |bytes| && InPages(places) && InPages(at) && forall x :: x in at ==> x !in places
    ensures LoadAll(StoreAll(mem, places, bytes), at) == LoadAll(mem, at)
  {
    hide StoreAll, ByteAt;
    forall i | 0 <= i < |at| ensures ByteAt(StoreAll(mem, places, bytes), at[i]) == ByteAt(mem, at[i]) {
      assert at[i] in at;
      StoredElsewhere(mem, places, bytes, at[i]);
    }
  }

  lemma PartsApart<T>(a: seq<T>, b: seq<T>, k: nat, i: nat, j: nat)
    requires k <= |a| && i <= j <= |b| && forall x :: x in a ==> x !in b
    ensures forall x :: x in a[..k] ==> x !in b[i..j]
  {
    forall x | x in a[..k] ensures x !in b[i..j] {
      assert x in a && x !in b;
    }
  }

  lemma LoadBoth(mem: Memory, a: seq<Addr>, b: seq<Addr>)
    requires InPages(a) && InPages(b)
    ensures InPages(a + b) && LoadAll(mem, a + b) == LoadAll(mem, a) + LoadAll(mem, b)
  {
    hide ByteAt;
  }

  /** A read that stores `bytes` from where it stands on finds them behind what it had. */
  lemma SinkGrows(mem: Memory, sink: seq<Addr>, a: nat, bytes: seq<Byte>)
    requires InPages(sink) && a + |bytes| <= |sink| && forall k, l :: 0 <= k < l < |sink| ==> sink[k] != sink[l]
    ensures LoadAll(StoreAll(mem, sink[a..a + |bytes|], bytes), sink[..a + |bytes|]) == LoadAll(mem, sink[..a]) + bytes
  {
    var n := |bytes|;
    var mem' := StoreAll(mem, sink[a..a + n], bytes);
    assert sink[..a + n] == sink[..a] + sink[a..a + n];
    hide LoadAll, StoreAll;
    LoadBoth(mem', sink[..a], sink[a..a + n]);
    FrontDiffers(sink, a, n);
    LoadUnchanged(mem, sink[a..a + n], bytes, sink[..a]);
    StoredIsLoaded(mem, sink[a..a + n], bytes);
  }

  lemma FrontDiffers<T>(s: seq<T>, a: nat, n: nat)
    requires a + n <= |s| && forall k, l :: 0 <= k < l < |s| ==> s[k] != s[l]
    ensures forall x :: x in s[..a] ==> x !in s[a..a + n]
  {
    var part := s[a..a + n];
    forall x | x in s[..a] ensures x !in part {
      var k :| 0 <= k < a && s[k] == x;
      forall l | 0 <= l < n ensures part[l] != x {
        assert part[l] == s[a + l];
      }
    }
  }

  lemma ReadSizes(f: Flow, who: nat, closed: bool)
    requires Fitted(f) && who < |f.world.readers|
    ensures Fitted(FlowStep(f, Reads(who, closed)).0)
  {
    hide LoadAll, StoreAll, InPages;
  }

  lemma WriteSizes(f: Flow, who: nat, open: bool)
    requires Fitted(f) && who < |f.world.writers|
    ensures Fitted(FlowStep(f, Writes(who, open)).0)
  {
    hide LoadAll, StoreAll, InPages;
  }

  /** What the pass of reader `who` moves, and where to. */
  ghost predicate Lands(f: Flow, who: nat, mem: Memory, a: nat, bytes: seq<Byte>)
    requires Fitted(f) && who < |f.sinks|
  {
    a + |bytes| <= |f.sinks[who]| && mem == StoreAll(f.mem, f.sinks[who][a..a + |bytes|], bytes)
  }

  lemma SinkDelivers(f: Flow, who: nat, mem: Memory, a: nat, bytes: seq<Byte>, i: nat, k: nat)
    requires Fitted(f) && Separated(f.sinks, f.sources) && who < |f.sinks| && Lands(f, who, mem, a, bytes)
    requires i < |f.sinks|
    requires k <= |f.sinks[i]| && (i == who ==> k == a)
    ensures LoadAll(mem, f.sinks[i][..if i == who then a + |bytes| else k]) ==
      LoadAll(f.mem, f.sinks[i][..k]) + if i == who then bytes else []
  {
    hide StoreAll, ByteAt;
    if i == who {
      SinkGrows(f.mem, f.sinks[who], a, bytes);
    } else {
      forall x | x in f.sinks[i] ensures x !in f.sinks[who] {
      }
      hide LoadAll;
      PartsApart(f.sinks[i], f.sinks[who], k, a, a + |bytes|);
      LoadUnchanged(f.mem, f.sinks[who][a..a + |bytes|], bytes, f.sinks[i][..k]);
    }
  }

  lemma SourceStays(f: Flow, who: nat, mem: Memory, a: nat, bytes: seq<Byte>, i: nat, k: nat)
    requires Fitted(f) && Separated(f.sinks, f.sources) && who < |f.sinks| && Lands(f, who, mem, a, bytes)
    requires i < |f.sources|
    requires k <= |f.sources[i]|
    ensures LoadAll(mem, f.sources[i][..k]) == LoadAll(f.mem, f.sources[i][..k])
  {
    hide StoreAll, ByteAt, LoadAll;
    forall x | x in f.sources[i] ensures x !in f.sinks[who] {
    }
    PartsApart(f.sources[i], f.sinks[who], k, a, a + |bytes|);
    LoadUnchanged(f.mem, f.sinks[who][a..a + |bytes|], bytes, f.sources[i][..k]);
  }

  lemma ReadDelivers(f: Flow, who: nat, closed: bool)
    requires InOrder(f) && who < |f.world.readers|
    ensures Fitted(FlowStep(f, Reads(who, closed)).0) && Delivered(FlowStep(f, Reads(who, closed)).0)
  {
    ReadSizes(f, who, closed);
    var f' := FlowStep(f, Reads(who, closed)).0;
    var c := f.world.readers[who];
    var n := Share(|f.world.contents|, c.size, c.already);
    var bytes := f.world.contents[..n];
    assert Lands(f, who, f'.mem, c.already, bytes);
    hide LoadAll, StoreAll, MovedBy, Separated, InPages;
    forall i | 0 <= i < |f'.sinks|
      ensures LoadAll(f'.mem, f'.sinks[i][..f'.world.readers[i].already]) == MovedBy(f'.world.readLog, i)
    {
      MovedMore(f.world.readLog, who, bytes, i);
      SinkDelivers(f, who, f'.mem, c.already, bytes, i, f.world.readers[i].already);
    }
    forall i | 0 <= i < |f'.sources|
      ensures LoadAll(f'.mem, f'.sources[i][..f'.world.writers[i].already]) == MovedBy(f'.world.writeLog, i)
    {
      SourceStays(f, who, f'.mem, c.already, bytes, i, f.world.writers[i].already);
    }
  }

  lemma SourceGrows(mem: Memory, source: seq<Addr>, a: nat, n: nat)
    requires InPages(source) && a + n <= |source|
    ensures LoadAll(mem, source[..a + n]) == LoadAll(mem, source[..a]) + LoadAll(mem, source[a..])[..n]
  {
    hide ByteAt;
    LoadBoth(mem, source[..a], source[a..a + n]);
    assert source[..a + n] == source[..a] + source[a..a + n];
    LoadPart(mem, source, a, n);
  }

  lemma LoadPart(mem: Memory, source: seq<Addr>, a: nat, n: nat)
    requires InPages(source) && a + n <= |source|
    ensures LoadAll(mem, source[a..a + n]) == LoadAll(mem, source[a..])[..n]
  {
    hide ByteAt;
  }

  lemma WriteDelivers(f: Flow, who: nat, open: bool)
    requires InOrder(f) && who < |f.world.writers|
    ensures Fitted(FlowStep(f, Writes(who, open)).0) && Delivered(FlowStep(f, Writes(who, open)).0)
  {
    WriteSizes(f, who, open);
    var f' := FlowStep(f, Writes(who, open)).0;
    var c := f.world.writers[who];
    var n := if open then Share(f.world.capacity - |f.world.contents|, c.size, c.already) else 0;
    var rest := Rest(f, who);
    hide LoadAll, StoreAll, MovedBy, Separated;
    forall i | 0 <= i < |f'.sources|
      ensures LoadAll(f'.mem, f'.sources[i][..f'.world.writers[i].already]) == MovedBy(f'.world.writeLog, i)
    {
      MovedMore(f.world.writeLog, who, rest[..n], i);
      if i == who {
        SourceGrows(f.mem, f.sources[who], c.already, n);
      }
    }
  }

  lemma StepKnown(f: Flow, m: Move)
    requires Fitted(f) && Names(f, m) && Known(f.world)
    ensures Known(FlowStep(f, m).0.world)
  {
    hide LoadAll, StoreAll;
  }

  /** Every pass of every call keeps it so. */
  lemma FlowStepKeeps(f: Flow, m: Move)
    requires InOrder(f) && Names(f, m)
    ensures InOrder(FlowStep(f, m).0)
  {
    StepKnown(f, m);
    if m.Reads? {
      ReadDelivers(f, m.who, m.writersClosed);
      ReadKeeps(f.world, EventOf(f, m));
    } else {
      WriteDelivers(f, m.who, m.readersOpen);
      WriteKeeps(f.world, EventOf(f, m));
    }
  }

  // ---------- runs ----------

  ghost predicate FlowRun(trace: seq<Flow>, moves: seq<Move>) {
    |trace| == |moves| + 1 && forall i :: 0 <= i < |moves| ==> FlowsAt(trace, moves, i)
  }

  ghost predicate FlowsAt(trace: seq<Flow>, moves: seq<Move>, i: nat)
    requires i < |moves| && |trace| == |moves| + 1
  {
    Fitted(trace[i]) && Names(trace[i], moves[i]) && trace[i + 1] == FlowStep(trace[i], moves[i]).0
  }

  lemma {:induction false} AlwaysInOrder(trace: seq<Flow>, moves: seq<Move>, i: nat)
    requires FlowRun(trace, moves) && InOrder(trace[0]) && i < |trace|
    ensures InOrder(trace[i])
    decreases i
  {
    hide InOrder, FlowStep;
    if i > 0 {
      AlwaysInOrder(trace, moves, i - 1);
      assert FlowsAt(trace, moves, i - 1);
      FlowStepKeeps(trace[i - 1], moves[i - 1]);
    }
  }

  lemma {:induction false} OnlyCall(log: Log)
    requires forall k :: 0 <= k < |log| ==> log[k].0 == 0
    ensures MovedBy(log, 0) == BytesIn(log)
    decreases |log|
  {
    if log != [] {
      var n := |log| - 1;
      OnlyCall(log[..n]);
      assert BytesIn(log) == BytesIn(log[..n]) + [log[n].1];
    }
  }

  /**
   From user buffer to user buffer: with one reader and one writer, what has been read is the front of the writer's
   buffer.
   */
  lemma UserToUser(trace: seq<Flow>, moves: seq<Move>, i: nat)
    requires FlowRun(trace, moves) && InOrder(trace[0]) && i < |trace|
    requires |trace[i].world.readers| == 1 && |trace[i].world.writers| == 1
    ensures
      var f := trace[i];
      var n := f.world.readers[0].already;
      && Fitted(f) && n <= f.world.writers[0].already
      && LoadAll(f.mem, f.sinks[0][..n]) == LoadAll(f.mem, f.sources[0][..n])
  {
    AlwaysInOrder(trace, moves, i);
    var f := trace[i];
    OnlyCall(f.world.readLog);
    OnlyCall(f.world.writeLog);
    var n, m := f.world.readers[0].already, f.world.writers[0].already;
    hide MovedBy, BytesIn;
    var read, written := LoadAll(f.mem, f.sinks[0][..n]), LoadAll(f.mem, f.sources[0][..m]);
    assert written == read + f.world.contents;
    assert read == written[..n];
    assert f.sources[0][..m][..n] == f.sources[0][..n];
    assert written[..n] == LoadAll(f.mem, f.sources[0][..n]);
  }

  // ---------- the objects ----------

  /** The pipe and the calls on it, as objects, stand as `f` says. */
  ghost predicate Mirrors(f: Flow, pipe: Pipe, phys: PhysicalMemory, readers: seq<Transfer>, writers: seq<Transfer>)
    reads pipe, pipe.ring, pipe.ring.buffer, phys, readers, writers
    reads set t | t in readers :: t.cursor
    reads set t | t in writers :: t.cursor
  {
    && pipe.Valid() && f.world.capacity == pipe.ring.buffer.Length && f.world.contents == pipe.ring.Contents()
    && BytesIn(f.world.writeLog) == pipe.written && BytesIn(f.world.readLog) == pipe.taken && f.mem == phys.frames
    && |readers| == |f.world.readers| == |f.sinks| && |writers| == |f.world.writers| == |f.sources|
    && (forall i :: 0 <= i < |readers| ==> MirrorsOne(f.world.readers[i], f.sinks[i], readers[i], phys))
    && (forall i :: 0 <= i < |writers| ==> MirrorsOne(f.world.writers[i], f.sources[i], writers[i], phys))
  }

  ghost predicate MirrorsOne(c: Call, places: seq<Addr>, t: Transfer, phys: PhysicalMemory)
    reads t, t.cursor
  {
    t.Valid() && t.cursor.phys == phys && c == Call(t.size, t.already) && places == Places(t.cursor.buffer)
  }

  /** The calls are different objects, each with an iterator of its own. */
  ghost predicate Different(readers: seq<Transfer>, writers: seq<Transfer>) {
    var all := readers + writers;
    forall i, j :: 0 <= i < j < |all| ==> all[i] != all[j] && all[i].cursor != all[j].cursor
  }

  lemma {:induction false} MirroredFits(f: Flow, pipe: Pipe, phys: PhysicalMemory, readers: seq<Transfer>,
                                        writers: seq<Transfer>)
    requires Mirrors(f, pipe, phys, readers, writers)
    ensures Fitted(f)
  {
    forall i | 0 <= i < |f.sinks| ensures InPages(f.sinks[i]) {
      assert MirrorsOne(f.world.readers[i], f.sinks[i], readers[i], phys);
      PlacesInPages(readers[i].cursor.buffer);
    }
    forall i | 0 <= i < |f.sources| ensures InPages(f.sources[i]) {
      assert MirrorsOne(f.world.writers[i], f.sources[i], writers[i], phys);
      PlacesInPages(writers[i].cursor.buffer);
    }
  }

  /** One pass of `Pipe::read` is the step of the run. */
  method ReadPass(pipe: Pipe, phys: PhysicalMemory, call: Transfer, closed: bool, ghost readers: seq<Transfer>,
                  ghost writers: seq<Transfer>, ghost who: nat, ghost f: Flow)
    returns (t: Turn)
    requires Mirrors(f, pipe, phys, readers, writers) && Different(readers, writers) && who < |readers|
    requires call == readers[who]
    modifies pipe`taken, pipe.ring, call`already, call.cursor, phys`frames
    ensures Fitted(f) && t == FlowStep(f, Reads(who, closed)).1
    ensures t.Return? <==> old(call.already) == call.size || (f.world.contents == [] && closed)
    ensures Mirrors(FlowStep(f, Reads(who, closed)).0, pipe, phys, readers, writers)
  {
    hide Places, StoreAll, LoadAll, BytesIn, MovedBy, RingBuffer.Contents, RingBuffer.Valid, ByteIterator.Pos;
    hide ByteIterator.Valid;
    MirroredFits(f, pipe, phys, readers, writers);
    assert MirrorsOne(f.world.readers[who], f.sinks[who], readers[who], phys);
    ghost var all := readers + writers;
    assert all[who] == readers[who] && forall i :: 0 <= i < |writers| ==> all[|readers| + i] == writers[i];
    ghost var bytes;
    t, bytes := pipe.ReadTurn(call, closed);
    assert bytes == f.world.contents[..|bytes|];
    BytesMore(f.world.readLog, who, bytes);
    ghost var f' := FlowStep(f, Reads(who, closed)).0;
    forall i | 0 <= i < |readers| ensures MirrorsOne(f'.world.readers[i], f'.sinks[i], readers[i], phys) {
      assert old(MirrorsOne(f.world.readers[i], f.sinks[i], readers[i], phys));
      assert all[i] == readers[i];
    }
    forall i | 0 <= i < |writers| ensures MirrorsOne(f'.world.writers[i], f'.sources[i], writers[i], phys) {
      assert old(MirrorsOne(f.world.writers[i], f.sources[i], writers[i], phys));
    }
  }

  /** One pass of `Pipe::write` is the step of the run. */
  method WritePass(pipe: Pipe, phys: PhysicalMemory, call: Transfer, open: bool, ghost readers: seq<Transfer>,
                   ghost writers: seq<Transfer>, ghost who: nat, ghost f: Flow)
    returns (t: Turn)
    requires Mirrors(f, pipe, phys, readers, writers) && Different(readers, writers) && who < |writers|
    requires call == writers[who]
    modifies pipe`written, pipe.ring, pipe.ring.buffer, call`already, call.cursor
    ensures Fitted(f) && t == FlowStep(f, Writes(who, open)).1
    ensures t.Return? <==> old(call.already) == call.size || !open
    ensures Mirrors(FlowStep(f, Writes(who, open)).0, pipe, phys, readers, writers)
  {
    hide Places, StoreAll, BytesIn, MovedBy, LoadAll, RingBuffer.Contents, RingBuffer.Valid, ByteIterator.Pos;
    hide ByteIterator.Valid;
    MirroredFits(f, pipe, phys, readers, writers);
    assert MirrorsOne(f.world.writers[who], f.sources[who], writers[who], phys);
    ghost var all := readers + writers;
    assert all[|readers| + who] == writers[who] && forall i :: 0 <= i < |writers| ==> all[|readers| + i] == writers[i];
    ghost var bytes, a := [], writers[who].already;
    t, bytes := pipe.WriteTurn(call, open);
    LoadPart(f.mem, f.sources[who], a, |bytes|);
    BytesMore(f.world.writeLog, who, bytes);
    ghost var f' := FlowStep(f, Writes(who, open)).0;
    forall i | 0 <= i < |readers| ensures MirrorsOne(f'.world.readers[i], f'.sinks[i], readers[i], phys) {
      assert old(MirrorsOne(f.world.readers[i], f.sinks[i], readers[i], phys));
      assert all[i] == readers[i];
    }
    forall i | 0 <= i < |writers| ensures MirrorsOne(f'.world.writers[i], f'.sources[i], writers[i], phys) {
      assert old(MirrorsOne(f.world.writers[i], f.sources[i], writers[i], phys));
    }
  }

  // ---------- the page tables ----------

  /** The pages that a buffer touches. */
  ghost function BufferPages(trackers: map<nat, nat>, from: nat, to: nat): set<nat> {
    set v | v in trackers && Touches(v, from, to)
  }

  ghost predicate Touches(v: nat, from: nat, to: nat) {
    exists va :: from <= va < to && GetVpn(va) == v
  }

  /** Only frames of `frames` are stored in. */
  lemma {:induction false} StoredOutside(mem: Memory, places: seq<Addr>, bytes: seq<Byte>, frames: set<nat>)
    requires |places| == |bytes| && InPages(places) && forall i :: 0 <= i < |places| ==> places[i].0 in frames
    ensures SameOutside(mem, StoreAll(mem, places, bytes), frames)
    decreases |places|
  {
    if places != [] {
      var n := |places| - 1;
      StoredOutside(mem, places[..n], bytes[..n], frames);
    }
  }

  /** Bytes stored through the slices of a translated buffer go to frames of the pages it touches, and nowhere else. */
  lemma StoresRewrite(s: Shot, slices: seq<Slice>, from: nat, to: nat, a: nat, bytes: seq<Byte>)
    requires Translates(s.trackers, slices, from, to) && a + |bytes| <= to - from
    ensures AllValid(slices) && InPages(Places(slices)) && |Places(slices)| == to - from
    ensures Rewrites(s, s.(mem := StoreAll(s.mem, Places(slices)[a..a + |bytes|], bytes)),
                     BufferPages(s.trackers, from, to))
  {
    PlacesInPages(slices);
    var places := Places(slices);
    hide Places, StoreAll;
    forall i | a <= i < a + |bytes| ensures places[i].0 in FramesOf(s, BufferPages(s.trackers, from, to)) {
      assert TranslatesAt(s.trackers, places, from, from + i);
      assert Touches(GetVpn(from + i), from, to);
    }
    StoredOutside(s.mem, places[a..a + |bytes|], bytes, FramesOf(s, BufferPages(s.trackers, from, to)));
  }

  /** Rewriting bytes of tracked pages keeps the table they are tracked by. */
  lemma RewritesKeepTable(t: Table, s: Shot, u: Shot, pages: set<nat>)
    requires Sound(s.mem, s.claim.live, t) && s.trackers == t.trackers && Rewrites(s, u, pages)
    ensures Sound(u.mem, s.claim.live, t) && Translation(u.mem, t) == Translation(s.mem, t)
  {
    OwnedParts(s.mem, s.claim.live, t);
    hide Sound, Translation, Owned;
    forall p | p in t.at.Values ensures FrameAt(u.mem, p) == FrameAt(s.mem, p) {
      forall v | v in s.trackers ensures s.trackers[v] != p {
        assert s.trackers[v] in s.trackers.Values;
      }
      assert p !in FramesOf(s, pages);
    }
    FrameKeeps(s.mem, u.mem, s.claim.live, s.claim.live, t);
  }

  /** So the table of the buffer stays sound and translates as before, and every table beside it is untouched. */
  lemma StoresKeepTables(t: Table, s: Shot, slices: seq<Slice>, from: nat, to: nat, a: nat, bytes: seq<Byte>, o: Table)
    requires Sound(s.mem, s.claim.live, t) && s == ShotFor(t, s) && s.claim.free !! s.claim.live
    requires Translates(t.trackers, slices, from, to) && a + |bytes| <= to - from
    requires Sound(s.mem, s.claim.live, o) && Owned(o) !! Owned(t)
    ensures InPages(Places(slices)) && |Places(slices)| == to - from
    ensures
      var mem := StoreAll(s.mem, Places(slices)[a..a + |bytes|], bytes);
      && Sound(mem, s.claim.live, t) && Translation(mem, t) == Translation(s.mem, t)
      && Sound(mem, s.claim.live, o) && Untouched(ShotFor(o, s), ShotFor(o, s.(mem := mem)))
  {
    hide Sound, Translation, StoreAll, Places, Untouched, Rewrites, Steps, Owned, Translates;
    StoresRewrite(s, slices, from, to, a, bytes);
    var u := s.(mem := StoreAll(s.mem, Places(slices)[a..a + |bytes|], bytes));
    var pages := BufferPages(s.trackers, from, to);
    SoundOwns(t, s);
    hide InPages, BufferPages;
    RewritesKeepTable(t, s, u, pages);
    RewritesSteps(s, u, pages);
    OtherKeeps(s, u, pages, o);
  }

  lemma SoundOwns(t: Table, s: Shot)
    requires Sound(s.mem, s.claim.live, t) && s == ShotFor(t, s)
    ensures Owns(s)
  {
    OwnedParts(s.mem, s.claim.live, t);
    TrackersApart(s.mem, s.claim.live, t);
    hide Sound, Translation;
  }

  lemma TrackersApart(mem: Memory, live: set<nat>, t: Table)
    requires Sound(mem, live, t)
    ensures Injective(t.trackers)
  {
  }

  /** The bytes of a buffer of at most 2^39 bytes are at places all different. */
  lemma PlacesDiffer(trackers: map<nat, nat>, slices: seq<Slice>, from: nat, to: nat, k: nat, l: nat)
    requires Injective(trackers) && Translates(trackers, slices, from, to) && to - from <= VPN_LIMIT * PAGE_SIZE
    requires k < l < to - from
    ensures |Places(slices)| == to - from && Places(slices)[k] != Places(slices)[l]
  {
    var places := Places(slices);
    hide Places;
    assert TranslatesAt(trackers, places, from, from + k) && TranslatesAt(trackers, places, from, from + l);
    SamePlaceSameByte(from + k, from + l);
  }

  lemma SamePlaceSameByte(a: nat, b: nat)
    requires a < b < a + VPN_LIMIT * PAGE_SIZE
    ensures GetVpn(a) != GetVpn(b) || Offset(a) != Offset(b)
  {
    if Offset(a) == Offset(b) {
      var p, q := a / PAGE_SIZE, b / PAGE_SIZE;
      assert a == p * PAGE_SIZE + Offset(a) && b == q * PAGE_SIZE + Offset(b);
      assert p < q < p + VPN_LIMIT;
    }
  }
}
