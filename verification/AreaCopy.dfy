/** Copying the bytes of an area into an area of another address space. */
module AreaCopy {
  import opened Results
  import opened Pools
  import opened Physical
  import opened TableState
  import opened PageTables
  import opened Snapshots
  import opened Areas
  import opened PageBytes
  import opened Neighbours

  /** Page `i` of area `d` holds what page `i` of area `a` held. */
  ghost predicate PageCopied(dt: Shot, ss: Shot, d: Area, a: Area, i: nat) {
    && d.start + i in dt.trackers && a.start + i in ss.trackers
    && BytesOf(dt, d.start + i) == BytesOf(ss, a.start + i)
  }

  /** The first `k` pages of `a` have been copied to those of `d`, and nothing else was written. */
  ghost predicate CopiedUpTo(ds: Shot, dt: Shot, ss: Shot, d: Area, a: Area, k: nat) {
    Rewrites(ds, dt, Interval(d.start, d.start + k)) && forall i: nat :: i < k ==> PageCopied(dt, ss, d, a, i)
  }

  lemma CopiedNone(ds: Shot, ss: Shot, d: Area, a: Area)
    ensures CopiedUpTo(ds, ds, ss, d, a, 0)
  {
    RewritesNot(ds);
    assert Interval(d.start, d.start) == {};
  }

  lemma CopiedNext(ds: Shot, dt: Shot, dt': Shot, ss: Shot, d: Area, a: Area, k: nat)
    requires Owns(ds) && CopiedUpTo(ds, dt, ss, d, a, k) && Rewrites(dt, dt', {d.start + k})
    requires PageCopied(dt', ss, d, a, k)
    ensures CopiedUpTo(ds, dt', ss, d, a, k + 1)
  {
    hide SameOutside;
    var pages := Interval(d.start, d.start + k + 1);
    RewritesMore(ds, dt, Interval(d.start, d.start + k), pages);
    RewritesMore(dt, dt', {d.start + k}, pages);
    RewritesChain(ds, dt, dt', pages);
    forall i: nat | i < k + 1 ensures PageCopied(dt', ss, d, a, i) {
      if i < k {
        assert PageCopied(dt, ss, d, a, i);
        RewritesElsewhere(dt, dt', {d.start + k}, d.start + i);
      }
    }
  }

  /** The pages that both areas have. */
  function Smaller(a: Area, d: Area): (n: nat)
    requires a.start <= a.end && d.start <= d.end
    ensures a.start + n <= a.end && d.start + n <= d.end && (a.start + n == a.end || d.start + n == d.end)
  {
    if a.end - a.start >= d.end - d.start then d.end - d.start else a.end - a.start
  }

  lemma UntouchedBytes(s: Shot, t: Shot, v: nat)
    requires Untouched(s, t) && Owns(s) && v in s.trackers
    ensures v in t.trackers && t.trackers[v] == s.trackers[v] && BytesOf(t, v) == BytesOf(s, v)
  {
    UntouchedPage(s, t, v);
  }

  /**
   `copy_another`: page by page, as many as both areas have, from another table or from another area of the same one.
   */
  method CopyAnother(dst: PageTable, d: Area, src: PageTable, a: Area) returns (r: Result<nat>)
    requires dst.Valid() && src.Valid() && AllOk(ShotOf(dst), d) && AllOk(ShotOf(src), a)
    requires Beside(dst, src) || (dst == src && PagesOf(a) !! PagesOf(d))
    modifies dst.phys`frames
    ensures dst.Valid() && src.Valid() && (dst != src ==> Beside(dst, src) && Untouched(old(ShotOf(src)), ShotOf(src)))
    ensures r == if Smaller(a, d) == 0 then Ok(0) else if !a.framed then Err(VPNNotMapped(a.start))
                 else if !d.framed then Err(VPNNotMapped(d.start)) else Ok(Smaller(a, d))
    ensures CopiedUpTo(old(ShotOf(dst)), ShotOf(dst), old(ShotOf(src)), d, a, if r.Ok? then Smaller(a, d) else 0)
    ensures r.Err? ==> dst.phys.frames == old(dst.phys.frames)
  {
    hide Sound, Translation, Owned, Rewrites, CopiedUpTo, Steps, Untouched, Pool.Valid, Pool.Free, Pool.Live;
    ghost var ds, ss := ShotOf(dst), ShotOf(src);
    TableOwns(dst);
    TableOwns(src);
    CopiedNone(ds, ss, d, a);
    var count := Smaller(a, d);
    var k := 0;
    UntouchedSelf(ss);
    dst.FreeNotLive();
    while k < count
      invariant 0 <= k <= count && dst.Valid() && src.Valid()
      invariant dst != src ==> Beside(dst, src) && Untouched(ss, ShotOf(src))
      invariant CopiedUpTo(ds, ShotOf(dst), ss, d, a, k)
      invariant if k > 0 then a.framed && d.framed else dst.phys.frames == old(dst.phys.frames)
    {
      OkAt(ss, a, k);
      OkAt(ds, d, k);
      ghost var dt := ShotOf(dst);
      CopiedKeeps(ds, dt, ss, d, a, k);
      if a.framed && dst != src {
        UntouchedBytes(ss, ShotOf(src), a.start + k);
      } else if a.framed {
        StillToCopy(ds, dt, d, a, k);
      }
      var from := src.GetTracker(a.start + k);
      if from.Err? {
        return Err(from.error);
      }
      var to := dst.GetTracker(d.start + k);
      if to.Err? {
        return Err(to.error);
      }
      StoreFrame(dst, d.start + k, FrameAt(dst.phys.frames, from.value));
      CopiedNext(ds, dt, ShotOf(dst), ss, d, a, k);
      k := k + 1;
      if dst != src {
        CopiedSteps(ds, ShotOf(dst), ss, d, a, k);
        OtherKeeps(ds, ShotOf(dst), Interval(d.start, d.start + k), src.Now());
      }
    }
    r := Ok(count);
  }

  lemma CopiedKeeps(ds: Shot, dt: Shot, ss: Shot, d: Area, a: Area, k: nat)
    requires CopiedUpTo(ds, dt, ss, d, a, k)
    ensures dt.trackers == ds.trackers && Rewrites(ds, dt, Interval(d.start, d.start + k))
  {
  }

  /** In one table, what is still to be copied has not been written. */
  lemma StillToCopy(ds: Shot, dt: Shot, d: Area, a: Area, k: nat)
    requires Owns(ds) && Rewrites(ds, dt, Interval(d.start, d.start + k)) && PagesOf(a) !! PagesOf(d)
    requires k < a.end - a.start && k < d.end - d.start && a.start + k in ds.trackers
    ensures a.start + k in dt.trackers && BytesOf(dt, a.start + k) == BytesOf(ds, a.start + k)
  {
    hide Rewrites;
    assert a.start + k in PagesOf(a);
    forall v | v in Interval(d.start, d.start + k) ensures v in PagesOf(d) {
    }
    RewritesElsewhere(ds, dt, Interval(d.start, d.start + k), a.start + k);
    RewritesSameTrackers(ds, dt, Interval(d.start, d.start + k));
  }

  lemma RewritesSameTrackers(s: Shot, t: Shot, pages: set<nat>)
    requires Rewrites(s, t, pages)
    ensures t.trackers == s.trackers
  {
  }

  lemma CopiedSteps(ds: Shot, dt: Shot, ss: Shot, d: Area, a: Area, k: nat)
    requires CopiedUpTo(ds, dt, ss, d, a, k) && Owns(ds)
    ensures Steps(ds, dt, Interval(d.start, d.start + k))
  {
    hide PageCopied;
    RewritesSteps(ds, dt, Interval(d.start, d.start + k));
  }

  lemma OkAt(s: Shot, a: Area, k: nat)
    requires AllOk(s, a) && k < a.end - a.start
    ensures a.start + k in s.trackers <==> a.framed
  {
    assert PageOk(s, a, a.start + k);
  }
}
