/** Several page tables over one physical memory: what one table does leaves every other alone. */
module Neighbours {
  import opened Physical
  import opened TableState
  import opened PageTables
  import opened Snapshots
  import opened Areas
  import opened Layouts
  import opened PageBytes

  /** Two tables in the same memory, owning no frame in common. */
  ghost predicate Beside(a: PageTable, b: PageTable)
    reads a, b
  {
    a != b && a.phys == b.phys && Owned(a.Now()) !! Owned(b.Now())
  }

  /** The table translates and tracks the same pages on the same frames, with the same bytes in all of them. */
  ghost predicate Untouched(s: Shot, t: Shot) {
    && t.view == s.view && t.trackers == s.trackers && t.nodes == s.nodes && t.claim.own == s.claim.own
    && forall p :: p in s.claim.own ==> FrameAt(t.mem, p) == FrameAt(s.mem, p)
  }

  lemma UntouchedChain(a: Shot, b: Shot, c: Shot)
    requires Untouched(a, b) && Untouched(b, c)
    ensures Untouched(a, c)
  {
  }

  lemma UntouchedPage(s: Shot, t: Shot, v: nat)
    requires Untouched(s, t) && Owns(s)
    ensures SamePage(s, t, v)
  {
    if v in s.trackers {
      assert s.trackers[v] in s.trackers.Values;
    }
  }

  lemma UntouchedLaid(s: Shot, t: Shot, areas: AreaSet, used: set<nat>)
    requires Untouched(s, t) && Laid(s, areas, used)
    ensures Laid(t, areas, used)
  {
    forall k, v | k in areas && InRange(k, v) ensures PageOk(t, areas[k], v) {
      assert PageOk(s, areas[k], v);
    }
  }

  /** What a step of one table, from `s` to `t`, means for a table `o` beside it. */
  lemma Bystander(s: Shot, t: Shot, pages: set<nat>, o: Table)
    requires Steps(s, t, pages) && s.claim.free !! s.claim.live
    requires Sound(s.mem, s.claim.live, o) && Owned(o) !! s.claim.own
    ensures Sound(t.mem, t.claim.live, o) && Owned(o) !! t.claim.own && Translation(t.mem, o) == Translation(s.mem, o)
    ensures forall p :: p in Owned(o) ==> FrameAt(t.mem, p) == FrameAt(s.mem, p)
  {
    OwnedParts(s.mem, s.claim.live, o);
    forall p | p in Owned(o) ensures p in t.claim.live && p !in t.claim.own && FrameAt(t.mem, p) == FrameAt(s.mem, p) {
      assert p in s.claim.live - s.claim.own;
      assert p in t.claim.live - t.claim.own;
    }
    hide Sound, Translation, SamePage;
    FrameKeeps(s.mem, t.mem, s.claim.live, t.claim.live, o);
  }

  /** The table `o` in the machine that `s` is a snapshot of. */
  ghost function ShotFor(o: Table, s: Shot): Shot {
    Shot(Translation(s.mem, o), o.trackers, o.at.Keys, Claim(Owned(o), s.claim.free, s.claim.live), s.mem)
  }

  lemma OtherKeeps(s: Shot, t: Shot, pages: set<nat>, o: Table)
    requires Steps(s, t, pages) && s.claim.free !! s.claim.live
    requires Sound(s.mem, s.claim.live, o) && Owned(o) !! s.claim.own
    ensures Sound(t.mem, t.claim.live, o) && Owned(o) !! t.claim.own && Untouched(ShotFor(o, s), ShotFor(o, t))
  {
    hide Sound, Translation, Owned, Steps;
    Bystander(s, t, pages, o);
  }

  /** A step of one table, whatever pages it touches. */
  ghost predicate Moves(s: Shot, t: Shot) {
    s.claim.free !! s.claim.live && exists pages :: Steps(s, t, pages)
  }

  ghost predicate Run(trace: seq<Shot>) {
    |trace| > 0 && forall i :: 0 <= i < |trace| - 1 ==> MovesAt(trace, i)
  }

  ghost predicate MovesAt(trace: seq<Shot>, i: nat)
    requires i + 1 < |trace|
  {
    Moves(trace[i], trace[i + 1])
  }

  /**
   Whatever one table does, for however long, a table beside it keeps its translation, its frames and all its bytes.
   */
  lemma {:induction false} RunsLeaveOthersAlone(trace: seq<Shot>, o: Table)
    requires Run(trace) && Sound(trace[0].mem, trace[0].claim.live, o) && Owned(o) !! trace[0].claim.own
    ensures var last := trace[|trace| - 1];
      && Sound(last.mem, last.claim.live, o) && Owned(o) !! last.claim.own
      && Untouched(ShotFor(o, trace[0]), ShotFor(o, last))
    decreases |trace|
  {
    hide Sound, Translation, Owned, Steps, Untouched;
    if |trace| == 1 {
      UntouchedSelf(ShotFor(o, trace[0]));
    } else {
      var n := |trace| - 2;
      var before := trace[..n + 1];
      forall i | 0 <= i < n ensures MovesAt(before, i) {
        assert MovesAt(trace, i);
      }
      RunsLeaveOthersAlone(before, o);
      assert MovesAt(trace, n) && before[n] == trace[n];
      var pages :| Steps(trace[n], trace[n + 1], pages);
      OtherKeeps(trace[n], trace[n + 1], pages, o);
      UntouchedChain(ShotFor(o, trace[0]), ShotFor(o, trace[n]), ShotFor(o, trace[n + 1]));
    }
  }

  lemma UntouchedSelf(s: Shot)
    ensures Untouched(s, s)
  {
  }
}
