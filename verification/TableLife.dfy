/** The end of a page table: all its frames go back. */
module TableLife {
  import opened Pools
  import opened Physical
  import opened Tree
  import opened TableState
  import opened PageTables
  import opened Snapshots
  import opened Neighbours

  lemma OwnedRecords(mem: Memory, live: set<nat>, t: Table)
    requires Sound(mem, live, t)
    ensures Owned(t) == {t.root.ppn} + t.mappers.Keys + t.trackers.Values
  {
    hide IsTree, ValidCount;
    assert t.at[Top] in t.at.Values;
    assert {t.root.ppn} + t.mappers.Keys <= t.at.Values;
    forall p | p in t.at.Values ensures p in {t.root.ppn} + t.mappers.Keys {
      var n :| n in t.at && t.at[n] == p;
      NodeFacts(mem, live, t, n);
    }
  }

  /** Drops the `FrameTracker`s of `frames`, one by one. */
  method DropFrames(phys: PhysicalMemory, frames: set<nat>)
    requires phys.Valid() && frames <= phys.Live()
    modifies phys`pool
    ensures phys.Valid() && phys.pool.limit == old(phys.pool.limit)
    ensures phys.Free() == old(phys.Free()) + frames && phys.Live() == old(phys.Live()) - frames
  {
    hide Pool.Free, Pool.Live, Pool.Valid;
    var todo := frames;
    while todo != {}
      invariant todo <= frames && phys.Valid() && phys.pool.limit == old(phys.pool.limit)
      invariant phys.Free() == old(phys.Free()) + (frames - todo) && phys.Live() == old(phys.Live()) - (frames - todo)
      decreases |todo|
    {
      var p :| p in todo;
      phys.LiveStarts(p);
      var d := phys.DeallocFrame(p);
      if d.Err? {
        assert false;
      }
      todo := todo - {p};
    }
  }

  /** A page table is dropped, and with it the trackers of its root, of its mappers and of its pages. */
  method DropTable(pt: PageTable)
    requires pt.Valid()
    modifies pt.phys`pool
    ensures pt.phys.Valid() && pt.phys.pool.limit == old(pt.phys.pool.limit)
    ensures pt.phys.Free() == old(pt.phys.Free()) + Owned(pt.Now())
    ensures pt.phys.Live() == old(pt.phys.Live()) - Owned(pt.Now())
  {
    OwnedRecords(pt.phys.frames, pt.phys.Live(), pt.Now());
    OwnedParts(pt.phys.frames, pt.phys.Live(), pt.Now());
    hide Sound, Owned, Pool.Free, Pool.Live, Pool.Valid;
    DropFrames(pt.phys, {pt.root.ppn} + pt.mappers.Keys + pt.trackers.Values);
  }

  /** A table that owns nothing of what is given back, or written meanwhile, is not touched. */
  lemma Outlives(s: Shot, t: Shot, o: Table)
    requires Sound(s.mem, s.claim.live, o) && Owned(o) !! s.claim.own && s.claim.free !! s.claim.live
    requires t.claim.live >= s.claim.live - s.claim.own && SameOutside(s.mem, t.mem, s.claim.own + s.claim.free)
    ensures Sound(t.mem, t.claim.live, o) && Untouched(ShotFor(o, s), ShotFor(o, t))
  {
    OwnedParts(s.mem, s.claim.live, o);
    hide Sound, Translation;
    FrameKeeps(s.mem, t.mem, s.claim.live, t.claim.live, o);
  }
}
