/** How the areas of one address space lie in it: the invariant that ties areas, ranges, tables and trackers. */
module Layouts {
  import opened Sv39
  import opened TableState
  import opened PageTables
  import opened Snapshots
  import opened Areas

  type Key = (nat, nat)
  type AreaSet = map<Key, Area>

  function KeyOf(a: Area): Key {
    (a.start, a.end)
  }

  predicate InRange(k: Key, v: nat) {
    k.0 <= v < k.1
  }

  /** Every area is stored under its own range, which is not empty and lies below the page number limit. */
  ghost predicate Keyed(areas: AreaSet) {
    forall k :: k in areas ==>
      KeyOf(areas[k]) == k && k.0 < k.1 <= VPN_LIMIT && (areas[k].framed ==> areas[k].flags != 0)
  }

  ghost predicate Apart(areas: AreaSet) {
    forall k, l, v :: k in areas && l in areas && InRange(k, v) && InRange(l, v) ==> k == l
  }

  /** The pages of the areas, taken together. */
  ghost predicate Cover(areas: AreaSet, used: set<nat>) {
    && (forall k, v :: k in areas && InRange(k, v) ==> v in used)
    && (forall v :: v in used ==> exists k :: k in areas && InRange(k, v))
  }

  /** Every page of every area is mapped as its area says. */
  ghost predicate PagesOk(s: Shot, areas: AreaSet) {
    forall k, v :: k in areas && InRange(k, v) ==> PageOk(s, areas[k], v)
  }

  /** No page is tracked or mapped besides, except that the trampoline page may be mapped. */
  ghost predicate Tidy(s: Shot, used: set<nat>) {
    && (forall v :: v in s.trackers ==> v in used)
    && (forall v :: v in s.view ==> v in used || v == TRAMPOLINE_VPN)
  }

  ghost predicate Laid(s: Shot, areas: AreaSet, used: set<nat>) {
    Keyed(areas) && Apart(areas) && Cover(areas, used) && PagesOk(s, areas) && Tidy(s, used)
  }

  lemma LaidTracked(s: Shot, areas: AreaSet, used: set<nat>)
    requires Laid(s, areas, used)
    ensures TrackedAreMapped(s) && forall v :: v in used ==> v in s.view && v < VPN_LIMIT
  {
    forall v | v in used ensures v in s.view && v < VPN_LIMIT {
      var k :| k in areas && InRange(k, v);
      assert PageOk(s, areas[k], v);
    }
  }

  /** Areas do not notice changes to pages that are not theirs, nor to the bytes of pages. */
  lemma LaidElsewhere(s: Shot, t: Shot, areas: AreaSet, used: set<nat>, pages: set<nat>)
    requires Laid(s, areas, used) && Steps(s, t, pages) && pages !! used
    requires forall v :: v in pages ==> v !in t.trackers && (v in t.view ==> v == TRAMPOLINE_VPN)
    ensures Laid(t, areas, used)
  {
    hide SameOutside, Settled;
    forall k, v | k in areas && InRange(k, v) ensures PageOk(t, areas[k], v) {
      assert PageOk(s, areas[k], v) && v in used && v !in pages && SamePage(s, t, v);
    }
    forall v | v in t.trackers ensures v in used {
      assert v !in pages ==> SamePage(s, t, v);
    }
    forall v | v in t.view ensures v in used || v == TRAMPOLINE_VPN {
      assert v !in pages ==> SamePage(s, t, v);
    }
  }

  lemma KeysAdded(areas: AreaSet, used: set<nat>, a: Area)
    requires Keyed(areas) && Apart(areas) && Cover(areas, used) && a.start < a.end <= VPN_LIMIT && PagesOf(a) !! used
    requires a.framed ==> a.flags != 0
    ensures KeyOf(a) !in areas && Keyed(areas[KeyOf(a) := a]) && Apart(areas[KeyOf(a) := a])
    ensures Cover(areas[KeyOf(a) := a], used + PagesOf(a))
  {
    var more := areas[KeyOf(a) := a];
    assert InRange(KeyOf(a), a.start) && a.start in PagesOf(a);
    forall k, v | k in areas && InRange(k, v) ensures v in used && !InRange(KeyOf(a), v) {
      assert v in used;
    }
    forall v | v in used + PagesOf(a) ensures exists k :: k in more && InRange(k, v) {
      if v in PagesOf(a) {
        assert InRange(KeyOf(a), v);
      } else {
        var k :| k in areas && InRange(k, v);
        assert k in more;
      }
    }
  }

  /** A new area beside the others. */
  lemma LaidAdded(s: Shot, t: Shot, areas: AreaSet, used: set<nat>, a: Area)
    requires Laid(s, areas, used) && a.start < a.end <= VPN_LIMIT && PagesOf(a) !! used && (a.framed ==> a.flags != 0)
    requires Steps(s, t, PagesOf(a)) && forall v :: a.start <= v < a.end ==> PageOk(t, a, v)
    ensures KeyOf(a) !in areas && Laid(t, areas[KeyOf(a) := a], used + PagesOf(a))
  {
    hide SameOutside, Settled;
    KeysAdded(areas, used, a);
    var more := areas[KeyOf(a) := a];
    forall k, v | k in more && InRange(k, v) ensures PageOk(t, more[k], v) {
      if k != KeyOf(a) {
        assert PageOk(s, areas[k], v) && v in used && v !in PagesOf(a) && SamePage(s, t, v);
      }
    }
    assert PagesOk(t, more);
    hide Keyed, Apart, Cover, PagesOk;
    forall v | v in t.trackers ensures v in used + PagesOf(a) {
      assert v !in PagesOf(a) ==> SamePage(s, t, v);
    }
    forall v | v in t.view ensures v in used + PagesOf(a) || v == TRAMPOLINE_VPN {
      assert v !in PagesOf(a) ==> SamePage(s, t, v);
    }
  }

  /** An area taken away. */
  lemma LaidRemoved(s: Shot, t: Shot, areas: AreaSet, used: set<nat>, a: Area)
    requires Laid(s, areas, used) && KeyOf(a) in areas && areas[KeyOf(a)] == a
    requires UnmappedUpTo(s, t, a, a.end)
    ensures Laid(t, areas - {KeyOf(a)}, used - PagesOf(a)) && PagesOf(a) <= used
  {
    hide SameOutside, Settled;
    var fewer := areas - {KeyOf(a)};
    assert forall v :: v in PagesOf(a) <==> InRange(KeyOf(a), v);
    forall k, v | k in fewer && InRange(k, v) ensures v !in PagesOf(a) && PageOk(t, fewer[k], v) {
      assert PageOk(s, areas[k], v) && SamePage(s, t, v);
    }
    forall v | v in t.trackers ensures v in used - PagesOf(a) {
      assert v !in PagesOf(a) ==> SamePage(s, t, v);
    }
    forall v | v in t.view ensures v in used - PagesOf(a) || v == TRAMPOLINE_VPN {
      assert v !in PagesOf(a) ==> SamePage(s, t, v);
    }
  }

  /** An area of the space can always be unmapped. */
  lemma LaidUnmaps(s: Shot, areas: AreaSet, used: set<nat>, a: Area)
    requires Laid(s, areas, used) && KeyOf(a) in areas && areas[KeyOf(a)] == a
    ensures CanUnmapAll(s, a) && PagesOf(a) <= used && a.start < a.end <= VPN_LIMIT
  {
    forall v | a.start <= v < a.end ensures CanUnmap(s, a, v) && v in used {
      assert InRange(KeyOf(a), v) && PageOk(s, a, v);
    }
  }
}
