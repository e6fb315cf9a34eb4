/** A page table together with the machine around it, as one value; and what a change to some pages leaves alone. */
module Snapshots {
  import opened Bytes
  import opened Physical
  import opened Sv39
  import opened Tree
  import opened TableState
  import opened PageTables

  datatype Shot = Shot(view: map<nat, Mapping>, trackers: map<nat, nat>, nodes: set<Node>, claim: Claim, mem: Memory)

  ghost function ShotOf(pt: PageTable): Shot
    reads pt, pt.phys
  {
    Shot(pt.View(), pt.trackers, pt.at.Keys, pt.Claims(), pt.phys.frames)
  }

  /** The bytes of the frame tracked for page `v`. */
  ghost function BytesOf(s: Shot, v: nat): Frame
    requires v in s.trackers
  {
    FrameAt(s.mem, s.trackers[v])
  }

  /** Page `v` is translated and tracked alike in both, and holds the same bytes. */
  ghost predicate SamePage(a: Shot, b: Shot, v: nat) {
    && (v in a.view <==> v in b.view) && (v in a.view ==> b.view[v] == a.view[v])
    && (v in a.trackers <==> v in b.trackers)
    && (v in a.trackers ==> b.trackers[v] == a.trackers[v] && BytesOf(b, v) == BytesOf(a, v))
  }

  /** Only `pages` change, and only frames that the table owned or that were free. */
  ghost predicate Steps(a: Shot, b: Shot, pages: set<nat>) {
    && (forall v :: v !in pages ==> SamePage(a, b, v))
    && Settled(a.claim, b.claim)
    && SameOutside(a.mem, b.mem, a.claim.own + a.claim.free)
  }

  lemma StepsNot(a: Shot)
    ensures Steps(a, a, {})
  {
  }

  lemma StepsChain(a: Shot, b: Shot, c: Shot, p: set<nat>, q: set<nat>)
    requires Steps(a, b, p) && Steps(b, c, q)
    ensures Steps(a, c, p + q)
  {
    hide SameOutside;
    SettledChain(a.claim, b.claim, c.claim);
    SameOutsideChain(a.mem, b.mem, c.mem, a.claim.own + a.claim.free);
    forall v | v !in p + q ensures SamePage(a, c, v) {
      assert SamePage(a, b, v) && SamePage(b, c, v);
    }
  }

  lemma StepsSettle(s: Shot, t: Shot, pages: set<nat>)
    requires Steps(s, t, pages)
    ensures Settled(s.claim, t.claim)
  {
  }

  /** Facts about a table from which a step follows, when the translation and the trackers change only at `pages`. */
  lemma StepsIntro(t: Table, live: set<nat>, free: set<nat>, mem: Memory, a: Shot, b: Shot, pages: set<nat>)
    requires Sound(mem, live, t) && free !! live && SameOutside(mem, b.mem, t.at.Values + free)
    requires a == Shot(Translation(mem, t), t.trackers, t.at.Keys, Claim(Owned(t), free, live), mem)
    requires b.view - pages == a.view - pages && b.trackers - pages == a.trackers - pages && Settled(a.claim, b.claim)
    ensures Steps(a, b, pages)
  {
    hide Sound, Translation;
    OwnedParts(mem, live, t);
    forall u | u !in pages ensures SamePage(a, b, u) {
      assert u in a.view <==> u in a.view - pages;
      assert u in b.view <==> u in b.view - pages;
      assert u in a.trackers <==> u in a.trackers - pages;
      assert u in b.trackers <==> u in b.trackers - pages;
      if u in a.view {
        assert (a.view - pages)[u] == (b.view - pages)[u];
      }
      if u in a.trackers {
        assert (a.trackers - pages)[u] == (b.trackers - pages)[u];
        assert a.trackers[u] in a.trackers.Values;
      }
    }
  }

  lemma StepsMore(a: Shot, b: Shot, p: set<nat>, q: set<nat>)
    requires Steps(a, b, p) && p <= q
    ensures Steps(a, b, q)
  {
    hide SamePage, SameOutside, Settled;
  }

  lemma ChangeWithin<V>(m: map<nat, V>, v: nat, x: V, pages: set<nat>)
    requires v in pages
    ensures m[v := x] - pages == m - pages && (m - {v}) - pages == m - pages
  {
  }

  lemma WithoutAgain<V>(m: map<nat, V>, v: nat)
    ensures (m - {v}) - {v} == m - {v} && (v !in m ==> m - {v} == m)
  {
  }

  lemma UpdateElsewhere<V>(m: map<nat, V>, v: nat, x: V)
    ensures m[v := x] - {v} == m - {v} && (m - {v}) - {v} == m - {v}
  {
  }
}
