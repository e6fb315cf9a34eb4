/** Writing the bytes of tracked pages, and an area seen as one run of bytes. */
module PageBytes {
  import opened Bytes
  import opened Results
  import opened Pools
  import opened Physical
  import opened Tree
  import opened TableState
  import opened PageTables
  import opened Snapshots
  import opened Areas

  ghost predicate Owns(s: Shot) {
    Injective(s.trackers) && s.trackers.Values <= s.claim.own
  }

  lemma TableOwns(pt: PageTable)
    requires pt.Valid()
    ensures Owns(ShotOf(pt))
  {
    hide Translation, IsTree, Recorded;
  }

  /** The frames tracked for `pages`. */
  ghost function FramesOf(s: Shot, pages: set<nat>): set<nat> {
    set v | v in pages && v in s.trackers :: s.trackers[v]
  }

  /** Only bytes change, and only in the frames tracked for `pages`. */
  ghost predicate Rewrites(s: Shot, t: Shot, pages: set<nat>) {
    t == s.(mem := t.mem) && SameOutside(s.mem, t.mem, FramesOf(s, pages))
  }

  lemma RewritesNot(s: Shot)
    ensures Rewrites(s, s, {})
  {
  }

  lemma RewritesChain(s: Shot, t: Shot, u: Shot, pages: set<nat>)
    requires Rewrites(s, t, pages) && Rewrites(t, u, pages)
    ensures Rewrites(s, u, pages)
  {
    assert FramesOf(t, pages) == FramesOf(s, pages);
  }

  lemma RewritesMore(s: Shot, t: Shot, p: set<nat>, q: set<nat>)
    requires Rewrites(s, t, p) && p <= q
    ensures Rewrites(s, t, q)
  {
    SameOutsideMore(s.mem, t.mem, FramesOf(s, p), FramesOf(s, q));
  }

  /** Rewriting some pages leaves the bytes of all others. */
  lemma RewritesElsewhere(s: Shot, t: Shot, pages: set<nat>, v: nat)
    requires Owns(s) && Rewrites(s, t, pages) && v in s.trackers && v !in pages
    ensures BytesOf(t, v) == BytesOf(s, v)
  {
    assert s.trackers[v] !in FramesOf(s, pages);
  }

  lemma RewritesSteps(s: Shot, t: Shot, pages: set<nat>)
    requires Owns(s) && Rewrites(s, t, pages)
    ensures Steps(s, t, pages)
  {
    forall v | v !in pages ensures SamePage(s, t, v) {
      if v in s.trackers {
        RewritesElsewhere(s, t, pages, v);
      }
    }
    assert FramesOf(s, pages) <= s.claim.own by {
      forall p | p in FramesOf(s, pages) ensures p in s.claim.own {
        assert p in s.trackers.Values;
      }
    }
  }

  /** Stores a whole frame of bytes behind a tracked page. */
  method StoreFrame(pt: PageTable, vpn: nat, f: Frame)
    requires pt.Valid() && vpn in pt.trackers
    modifies pt.phys`frames
    ensures pt.Valid() && ShotOf(pt) == old(ShotOf(pt)).(mem := old(pt.phys.frames)[pt.trackers[vpn] := f])
    ensures Rewrites(old(ShotOf(pt)), ShotOf(pt), {vpn}) && BytesOf(ShotOf(pt), vpn) == f
  {
    ghost var mem, mem' := pt.phys.frames, pt.phys.frames[pt.trackers[vpn] := f];
    OwnedParts(mem, pt.phys.Live(), pt.Now());
    assert pt.trackers[vpn] in pt.trackers.Values;
    assert pt.trackers[vpn] !in pt.at.Values;
    FrameKeeps(mem, mem', pt.phys.Live(), pt.phys.Live(), pt.Now());
    hide Sound, Translation, Owned, Pool.Valid, Pool.Free, Pool.Live;
    pt.phys.frames := pt.phys.frames[pt.trackers[vpn] := f];
    assert pt.trackers[vpn] in FramesOf(old(ShotOf(pt)), {vpn});
  }

  /** `write_page`. */
  method WritePage(pt: PageTable, a: Area, vpn: nat, offset: nat, data: seq<Byte>) returns (r: Outcome<()>)
    requires pt.Valid()
    modifies pt.phys`frames
    ensures pt.Valid()
    ensures r.Panic? <==> !a.framed || (vpn in pt.trackers && offset + |data| > PAGE_SIZE)
    ensures r.Done? && r.result.Err? <==> a.framed && vpn !in pt.trackers
    ensures r.Done? && r.result.Err? ==> r.result.error == VPNNotMapped(vpn)
    ensures r.Panic? || r.result.Err? ==> ShotOf(pt) == old(ShotOf(pt))
    ensures r.Done? && r.result.Ok? ==>
      && Rewrites(old(ShotOf(pt)), ShotOf(pt), {vpn})
      && BytesOf(ShotOf(pt), vpn) == Splice(old(BytesOf(ShotOf(pt), vpn)), offset, data)
  {
    if !a.framed {
      return Panic;
    }
    var tracker := pt.GetTracker(vpn);
    if tracker.Err? {
      return Done(Err(tracker.error));
    }
    if offset + |data| > PAGE_SIZE {
      return Panic;
    }
    hide Sound, Translation, Owned, Pool.Valid, Pool.Free, Pool.Live;
    StoreFrame(pt, vpn, Splice(FrameAt(pt.phys.frames, tracker.value), offset, data));
    r := Done(Ok(()));
  }

  // ---------- an area as one run of bytes ----------

  ghost predicate Tracked(s: Shot, a: Area) {
    a.start <= a.end && forall v :: a.start <= v < a.end ==> v in s.trackers
  }

  function Size(a: Area): nat
    requires a.start <= a.end
  {
    (a.end - a.start) * PAGE_SIZE
  }

  function PageHolding(a: Area, i: nat): (v: nat)
    requires a.start <= a.end && i < Size(a)
    ensures a.start <= v < a.end
  {
    a.start + i / PAGE_SIZE
  }

  /** The bytes of the area's pages, page after page. */
  ghost function AreaBytes(s: Shot, a: Area): (b: seq<Byte>)
    requires Tracked(s, a)
    ensures |b| == Size(a)
  {
    seq(Size(a), i requires 0 <= i < Size(a) => BytesOf(s, PageHolding(a, i))[i % PAGE_SIZE])
  }

  /** Splicing into one page splices into the area. */
  lemma PageSplice(s: Shot, t: Shot, a: Area, at: nat, data: seq<Byte>)
    requires Owns(s) && Tracked(s, a) && at < Size(a) && at % PAGE_SIZE + |data| <= PAGE_SIZE
    requires Rewrites(s, t, {PageHolding(a, at)})
    requires BytesOf(t, PageHolding(a, at)) == Splice(BytesOf(s, PageHolding(a, at)), at % PAGE_SIZE, data)
    ensures at + |data| <= Size(a) && Tracked(t, a) && AreaBytes(t, a) == Splice(AreaBytes(s, a), at, data)
  {
    hide Splice, SameOutside;
    var v := PageHolding(a, at);
    WholePage(a, at);
    assert at + |data| <= Size(a);
    forall i | 0 <= i < Size(a) ensures AreaBytes(t, a)[i] == SpliceAt(AreaBytes(s, a), at, data, i) {
      WholePage(a, i);
      if PageHolding(a, i) == v {
        SpliceIndex(BytesOf(s, v), at % PAGE_SIZE, data, i % PAGE_SIZE);
      } else {
        RewritesElsewhere(s, t, {v}, PageHolding(a, i));
      }
    }
    SpliceByIndex(AreaBytes(s, a), at, data, AreaBytes(t, a));
  }

  lemma WholePage(a: Area, i: nat)
    requires a.start <= a.end && i < Size(a)
    ensures i == (PageHolding(a, i) - a.start) * PAGE_SIZE + i % PAGE_SIZE && i - i % PAGE_SIZE + PAGE_SIZE <= Size(a)
  {
    assert i / PAGE_SIZE + 1 <= a.end - a.start;
  }

  function SpliceAt(f: seq<Byte>, at: nat, data: seq<Byte>, k: nat): Byte
    requires k < |f|
  {
    if at <= k < at + |data| then data[k - at] else f[k]
  }

  lemma SpliceIndex(f: seq<Byte>, at: nat, data: seq<Byte>, k: nat)
    requires at + |data| <= |f| && k < |f|
    ensures Splice(f, at, data)[k] == SpliceAt(f, at, data, k)
  {
  }

  lemma SpliceByIndex(f: seq<Byte>, at: nat, data: seq<Byte>, r: seq<Byte>)
    requires at + |data| <= |f| == |r| && forall k :: 0 <= k < |f| ==> r[k] == SpliceAt(f, at, data, k)
    ensures r == Splice(f, at, data)
  {
  }

  lemma SpliceTwice(f: seq<Byte>, at: nat, d: seq<Byte>, e: seq<Byte>)
    requires at + |d| + |e| <= |f|
    ensures Splice(Splice(f, at, d), at + |d|, e) == Splice(f, at, d + e)
  {
  }

  /**
   What makes `write_multi_pages` panic: no room, no frames of its own, or an unaligned start with a page boundary
   ahead.
   */
  ghost predicate Refused(a: Area, offset: nat, n: nat)
    requires a.start <= a.end
  {
    offset + n > Size(a) || (n > 0 && !a.framed) || (offset % PAGE_SIZE != 0 && offset % PAGE_SIZE + n > PAGE_SIZE)
  }

  ghost predicate AllOk(s: Shot, a: Area) {
    a.start <= a.end && forall v :: a.start <= v < a.end ==> PageOk(s, a, v)
  }

  lemma OkTracked(s: Shot, a: Area)
    requires AllOk(s, a) && a.framed
    ensures Tracked(s, a)
  {
    forall v | a.start <= v < a.end ensures v in s.trackers {
      assert PageOk(s, a, v);
    }
  }

  /** The bytes of the area, with `data` put in from `offset` on and all others kept. */
  ghost predicate Spliced(s: Shot, t: Shot, a: Area, offset: nat, data: seq<Byte>) {
    && Tracked(s, a) && Tracked(t, a) && offset + |data| <= Size(a)
    && AreaBytes(t, a) == Splice(AreaBytes(s, a), offset, data)
  }

  /** How far the copying has come at linear position `at`. */
  ghost predicate WrittenUpTo(s: Shot, t: Shot, a: Area, offset: nat, data: seq<Byte>, at: nat)
    requires Tracked(s, a) && offset + |data| <= Size(a)
  {
    && offset <= at <= offset + |data|
    && Rewrites(s, t, PagesOf(a)) && Tracked(t, a)
    && AreaBytes(t, a) == Splice(AreaBytes(s, a), offset, data[..at - offset])
  }

  lemma WrittenNone(s: Shot, a: Area, offset: nat, data: seq<Byte>)
    requires Tracked(s, a) && offset + |data| <= Size(a)
    ensures WrittenUpTo(s, s, a, offset, data, offset)
  {
    hide SameOutside;
    RewritesNot(s);
    RewritesMore(s, s, {}, PagesOf(a));
    assert data[..0] == [];
  }

  /** One more piece of `data`, inside the page that position `at` lies in. */
  lemma WrittenNext(s: Shot, t: Shot, t': Shot, a: Area, offset: nat, data: seq<Byte>, at: nat, to: nat)
    requires Tracked(s, a) && offset + |data| <= Size(a) && Owns(t) && WrittenUpTo(s, t, a, offset, data, at)
    requires at < to <= offset + |data| && at % PAGE_SIZE + (to - at) <= PAGE_SIZE
    requires Rewrites(t, t', {PageHolding(a, at)})
    requires BytesOf(t', PageHolding(a, at)) ==
      Splice(BytesOf(t, PageHolding(a, at)), at % PAGE_SIZE, data[at - offset..to - offset])
    ensures WrittenUpTo(s, t', a, offset, data, to)
  {
    hide SameOutside, Splice, AreaBytes;
    var piece := data[at - offset..to - offset];
    PageSplice(t, t', a, at, piece);
    RewritesMore(t, t', {PageHolding(a, at)}, PagesOf(a));
    RewritesChain(s, t, t', PagesOf(a));
    assert data[..to - offset] == data[..at - offset] + piece;
    assert |AreaBytes(s, a)| == Size(a) by {
      AreaSize(s, a);
    }
    SpliceTwice(AreaBytes(s, a), offset, data[..at - offset], piece);
  }

  lemma AreaSize(s: Shot, a: Area)
    requires Tracked(s, a)
    ensures |AreaBytes(s, a)| == Size(a)
  {
  }

  /** `write_multi_pages`: page-sized pieces, each cut where the previous one ended. */
  method WriteMultiPages(pt: PageTable, a: Area, offset: nat, data: seq<Byte>) returns (r: Outcome<()>)
    requires pt.Valid() && AllOk(ShotOf(pt), a)
    modifies pt.phys`frames
    ensures pt.Valid()
    ensures r == if Refused(a, offset, |data|) then Panic else Done(Ok(()))
    ensures r.Done? ==>
      Rewrites(old(ShotOf(pt)), ShotOf(pt), PagesOf(a)) && (data == [] ==> ShotOf(pt) == old(ShotOf(pt)))
    ensures r.Done? && a.framed ==> Spliced(old(ShotOf(pt)), ShotOf(pt), a, offset, data)
  {
    hide Sound, Translation, Owned, Pool.Valid, Pool.Free, Pool.Live, WrittenUpTo, Spliced, Rewrites, AreaBytes, Splice;
    ghost var s := ShotOf(pt);
    var linearEnd := offset + |data|;
    if linearEnd > Size(a) {
      return Panic;
    }
    if a.framed {
      OkTracked(s, a);
      WrittenNone(s, a, offset, data);
    }
    var start := offset;
    while start < linearEnd
      invariant offset <= start <= linearEnd && pt.Valid() && pt.trackers == old(pt.trackers)
      invariant start == offset ==> ShotOf(pt) == s
      invariant start > offset ==> a.framed && !Refused(a, offset, |data|)
      invariant start == offset || start == linearEnd || (offset % PAGE_SIZE == 0 && start % PAGE_SIZE == 0)
      invariant a.framed ==> WrittenUpTo(s, ShotOf(pt), a, offset, data, start)
    {
      var end := if linearEnd <= start + PAGE_SIZE then linearEnd else start + PAGE_SIZE;
      var piece := data[start - offset..end - offset];
      ghost var t := ShotOf(pt);
      TableOwns(pt);
      var vpn := a.start + start / PAGE_SIZE;
      assert vpn == PageHolding(a, start);
      var w := WritePage(pt, a, vpn, start % PAGE_SIZE, piece);
      if w.Panic? {
        return Panic;
      }
      if w.result.Err? {
        assert false;
      }
      WrittenNext(s, t, ShotOf(pt), a, offset, data, start, end);
      start := end;
    }
    r := Done(Ok(()));
    WrittenEnd(s, ShotOf(pt), a, offset, data);
  }

  lemma WrittenEnd(s: Shot, t: Shot, a: Area, offset: nat, data: seq<Byte>)
    requires a.start <= a.end && offset + |data| <= Size(a) && (a.framed ==> Tracked(s, a)) && (data == [] ==> s == t)
    requires !a.framed ==> data == []
    requires a.framed ==> WrittenUpTo(s, t, a, offset, data, offset + |data|)
    ensures Rewrites(s, t, PagesOf(a))
    ensures a.framed ==> Spliced(s, t, a, offset, data)
  {
    hide SameOutside, AreaBytes, Splice;
    assert data[..|data|] == data;
    RewritesNot(s);
    RewritesMore(s, s, {}, PagesOf(a));
  }
}
