/**
 A set of page numbers kept as marks: each mark starts an interval that runs to the next mark and is used or
 not as a whole. The last mark only ends the managed range.
 */
module RangeRuns {
  import opened Pools

  datatype Mark = Mark(vpn: nat, used: bool)

  ghost predicate Ordered(r: seq<Mark>) {
    && |r| >= 2
    && forall i :: 0 <= i < |r| - 1 ==> r[i].vpn < r[i + 1].vpn
  }

  lemma {:induction false} Increasing(r: seq<Mark>, i: nat, j: nat)
    requires Ordered(r) && i <= j < |r|
    ensures r[i].vpn <= r[j].vpn
  {
    if i < j {
      Increasing(r, i, j - 1);
      assert r[j - 1].vpn < r[j - 1 + 1].vpn;
    }
  }

  /** Neighbouring intervals differ in status. */
  ghost predicate Alternating(r: seq<Mark>) {
    forall i :: 0 <= i < |r| - 2 ==> r[i].used != r[i + 1].used
  }

  predicate Covers(r: seq<Mark>, i: int, v: nat) {
    0 <= i < |r| - 1 && r[i].vpn <= v < r[i + 1].vpn
  }

  ghost predicate InUse(r: seq<Mark>, v: nat) {
    exists i :: Covers(r, i, v) && r[i].used
  }

  ghost function UsedPages(r: seq<Mark>): (s: set<nat>)
    requires |r| >= 2
    ensures forall v: nat :: v in s <==> v < r[|r| - 1].vpn && InUse(r, v)
  {
    set v: nat | v < r[|r| - 1].vpn && InUse(r, v)
  }

  lemma {:induction false} CoverExists(r: seq<Mark>, v: nat, n: nat) returns (i: nat)
    requires Ordered(r) && n < |r| && r[0].vpn <= v < r[n].vpn
    ensures Covers(r, i, v)
  {
    if r[n - 1].vpn <= v {
      i := n - 1;
    } else {
      i := CoverExists(r, v, n - 1);
    }
  }

  lemma OneCover(r: seq<Mark>, i: nat, j: nat, v: nat)
    requires Ordered(r) && Covers(r, i, v) && Covers(r, j, v)
    ensures i <= j
  {
    Increasing(r, if j < i then j + 1 else 0, i);
  }

  /** The one interval that covers a page decides its status. */
  lemma StatusOf(r: seq<Mark>, i: nat, v: nat)
    requires Ordered(r) && Covers(r, i, v)
    ensures InUse(r, v) <==> r[i].used
  {
    forall j | Covers(r, j, v) ensures j == i {
      OneCover(r, i, j, v);
      OneCover(r, j, i, v);
    }
  }

  // ---------- the elementary changes ----------

  function Split(r: seq<Mark>, i: nat, m: nat): seq<Mark>
    requires i < |r|
  {
    r[..i + 1] + [Mark(m, r[i].used)] + r[i + 1..]
  }

  lemma SplitAt(r: seq<Mark>, i: nat, m: nat, j: nat)
    requires i < |r| && j <= |r|
    ensures |Split(r, i, m)| == |r| + 1
    ensures Split(r, i, m)[j] == if j <= i then r[j] else if j == i + 1 then Mark(m, r[i].used) else r[j - 1]
  {
  }

  function Flip(r: seq<Mark>, i: nat): seq<Mark>
    requires i < |r|
  {
    r[i := Mark(r[i].vpn, !r[i].used)]
  }

  predicate Mergeable(r: seq<Mark>, k: nat) {
    0 < k < |r| - 1 && r[k].used == r[k - 1].used
  }

  /** Mark `k` goes if it has neighbours on both sides and the status of the one before it. */
  function Merge(r: seq<Mark>, k: nat): seq<Mark> {
    if Mergeable(r, k) then r[..k] + r[k + 1..] else r
  }

  lemma MergeAt(r: seq<Mark>, k: nat, j: nat)
    requires Mergeable(r, k) && j < |r| - 1
    ensures |Merge(r, k)| == |r| - 1
    ensures Merge(r, k)[j] == if j < k then r[j] else r[j + 1]
  {
  }

  ghost predicate SameStatus(r: seq<Mark>, r': seq<Mark>) {
    && Ordered(r) && Ordered(r')
    && r[0].vpn == r'[0].vpn && r[|r| - 1].vpn == r'[|r'| - 1].vpn
    && forall v: nat :: InUse(r', v) <==> InUse(r, v)
  }

  lemma SplitKeeps(r: seq<Mark>, i: nat, m: nat)
    requires Ordered(r) && i < |r| - 1 && r[i].vpn < m < r[i + 1].vpn
    ensures SameStatus(r, Split(r, i, m))
  {
    var r' := Split(r, i, m);
    SplitAt(r, i, m, 0);
    SplitAt(r, i, m, |r|);
    hide Split, InUse;
    forall j | 0 <= j < |r'| - 1 ensures r'[j].vpn < r'[j + 1].vpn {
      SplitAt(r, i, m, j);
      SplitAt(r, i, m, j + 1);
      assert j > i + 1 ==> r[j - 1].vpn < r[j - 1 + 1].vpn;
    }
    forall v: nat ensures InUse(r', v) <==> InUse(r, v) {
      SplitStatus(r, i, m, v);
    }
  }

  lemma SplitStatus(r: seq<Mark>, i: nat, m: nat, v: nat)
    requires i < |r| - 1 && r[i].vpn < m < r[i + 1].vpn
    ensures InUse(Split(r, i, m), v) <==> InUse(r, v)
  {
    hide Split;
    var r' := Split(r, i, m);
    SplitAt(r, i, m, 0);
    if InUse(r, v) {
      var j :| Covers(r, j, v) && r[j].used;
      var j' := if j < i || (j == i && v < m) then j else j + 1;
      SplitAt(r, i, m, j');
      SplitAt(r, i, m, j' + 1);
      assert Covers(r', j', v);
    }
    if InUse(r', v) {
      var j :| Covers(r', j, v) && r'[j].used;
      SplitAt(r, i, m, j);
      SplitAt(r, i, m, j + 1);
      assert Covers(r, if j <= i then j else j - 1, v);
    }
  }

  lemma MergeKeeps(r: seq<Mark>, k: nat)
    requires Ordered(r)
    ensures SameStatus(r, Merge(r, k))
  {
    if Mergeable(r, k) {
      var r' := Merge(r, k);
      MergeAt(r, k, 0);
      MergeAt(r, k, |r| - 2);
      hide Merge, InUse;
      forall j | 0 <= j < |r'| - 1 ensures r'[j].vpn < r'[j + 1].vpn {
        MergeAt(r, k, j);
        MergeAt(r, k, j + 1);
        assert r[j].vpn < r[j + 1].vpn < r[j + 1 + 1].vpn;
      }
      forall v: nat ensures InUse(r', v) <==> InUse(r, v) {
        MergeStatus(r, k, v);
      }
    }
  }

  lemma MergeStatus(r: seq<Mark>, k: nat, v: nat)
    requires Ordered(r) && Mergeable(r, k)
    ensures InUse(Merge(r, k), v) <==> InUse(r, v)
  {
    hide Merge;
    assert r[k - 1].vpn < r[k - 1 + 1].vpn < r[k - 1 + 1 + 1].vpn;
    hide Ordered;
    if InUse(r, v) {
      var j :| Covers(r, j, v) && r[j].used;
      MergeCovers(r, k, v, j);
    }
    if InUse(Merge(r, k), v) {
      var j :| Covers(Merge(r, k), j, v) && Merge(r, k)[j].used;
      MergeCovered(r, k, v, j);
    }
  }

  lemma MergeCovers(r: seq<Mark>, k: nat, v: nat, j: nat)
    requires Mergeable(r, k) && r[k - 1].vpn < r[k].vpn < r[k + 1].vpn && Covers(r, j, v) && r[j].used
    ensures InUse(Merge(r, k), v)
  {
    hide Merge;
    var j' := if j < k then j else j - 1;
    MergeAt(r, k, j');
    MergeAt(r, k, if j' + 1 < |r| - 1 then j' + 1 else 0);
    assert Covers(Merge(r, k), j', v);
  }

  lemma MergeCovered(r: seq<Mark>, k: nat, v: nat, j: nat)
    requires Mergeable(r, k) && r[k - 1].vpn < r[k].vpn < r[k + 1].vpn && Covers(Merge(r, k), j, v)
    requires Merge(r, k)[j].used
    ensures InUse(r, v)
  {
    MergeAt(r, k, 0);
    hide Merge;
    MergeAt(r, k, j);
    MergeAt(r, k, j + 1);
    assert Covers(r, if j < k - 1 || (j == k - 1 && v < r[k].vpn) then j else j + 1, v);
  }

  /** Flipping one interval changes the status of its pages and of no others. */
  lemma FlipChanges(r: seq<Mark>, i: nat)
    requires Ordered(r) && i < |r| - 1
    ensures Ordered(Flip(r, i))
    ensures forall v: nat :: InUse(Flip(r, i), v) <==> if r[i].vpn <= v < r[i + 1].vpn then !r[i].used else InUse(r, v)
  {
    var r' := Flip(r, i);
    forall v: nat ensures InUse(r', v) <==> if r[i].vpn <= v < r[i + 1].vpn then !r[i].used else InUse(r, v) {
      if Covers(r, i, v) {
        assert Covers(r', i, v);
        StatusOf(r', i, v);
      } else {
        if InUse(r, v) {
          var j :| Covers(r, j, v) && r[j].used;
          assert Covers(r', j, v) && r'[j].used;
        }
        if InUse(r', v) {
          var j :| Covers(r', j, v) && r'[j].used;
          assert Covers(r, j, v) && r[j].used;
        }
      }
    }
  }

  // ---------- changing a range ----------

  /** Interval `i` holds the range from `s` to `e`. */
  predicate Holds(r: seq<Mark>, i: nat, s: nat, e: nat) {
    i < |r| - 1 && r[i].vpn <= s < e <= r[i + 1].vpn
  }

  /** The marks after the status of the range changes: the four cases of `change`. */
  function Changed(r: seq<Mark>, i: nat, s: nat, e: nat): seq<Mark>
    requires Holds(r, i, s, e)
  {
    if r[i].vpn != s then
      if r[i + 1].vpn != e then Flip(Split(Split(r, i, s), i + 1, e), i + 1)
      else Merge(Flip(Split(r, i, s), i + 1), i + 2)
    else
      if r[i + 1].vpn != e then Merge(Flip(Split(r, i, e), i), i)
      else
        var left := Merge(Flip(r, i), i);
        if |left| < |r| then Merge(left, i) else Merge(left, i + 1)
  }

  /** The range gets the other status, every other page keeps its own, and the ends stay. */
  ghost predicate Toggled(r: seq<Mark>, r': seq<Mark>, s: nat, e: nat, used: bool) {
    && Ordered(r) && Ordered(r')
    && r[0].vpn == r'[0].vpn && r[|r| - 1].vpn == r'[|r'| - 1].vpn
    && forall v: nat :: InUse(r', v) <==> if s <= v < e then used else InUse(r, v)
  }

  /** Flipping an interval of marks that have the status of `r` toggles that interval's pages. */
  lemma FlipToggles(r: seq<Mark>, a: seq<Mark>, k: nat, s: nat, e: nat)
    requires SameStatus(r, a) && k < |a| - 1 && a[k].vpn == s && a[k + 1].vpn == e
    ensures Toggled(r, Flip(a, k), s, e, !a[k].used)
  {
    hide InUse;
    FlipChanges(a, k);
  }

  lemma MergeToggles(r: seq<Mark>, a: seq<Mark>, k: nat, s: nat, e: nat, used: bool)
    requires Toggled(r, a, s, e, used)
    ensures Toggled(r, Merge(a, k), s, e, used)
  {
    hide InUse;
    MergeKeeps(a, k);
  }

  lemma InsideToggles(r: seq<Mark>, i: nat, s: nat, e: nat)
    requires Ordered(r) && Holds(r, i, s, e) && r[i].vpn != s && r[i + 1].vpn != e
    ensures Toggled(r, Changed(r, i, s, e), s, e, !r[i].used)
  {
    hide InUse, Toggled;
    SplitKeeps(r, i, s);
    var a := Split(r, i, s);
    SplitKeeps(a, i + 1, e);
    FlipToggles(r, Split(a, i + 1, e), i + 1, s, e);
  }

  lemma RightToggles(r: seq<Mark>, i: nat, s: nat, e: nat)
    requires Ordered(r) && Holds(r, i, s, e) && r[i].vpn != s && r[i + 1].vpn == e
    ensures Toggled(r, Changed(r, i, s, e), s, e, !r[i].used)
  {
    hide InUse, Toggled, Merge;
    SplitKeeps(r, i, s);
    var a := Split(r, i, s);
    FlipToggles(r, a, i + 1, s, e);
    MergeToggles(r, Flip(a, i + 1), i + 2, s, e, !r[i].used);
  }

  lemma LeftToggles(r: seq<Mark>, i: nat, s: nat, e: nat)
    requires Ordered(r) && Holds(r, i, s, e) && r[i].vpn == s && r[i + 1].vpn != e
    ensures Toggled(r, Changed(r, i, s, e), s, e, !r[i].used)
  {
    hide InUse, Toggled, Merge;
    SplitKeeps(r, i, e);
    FlipToggles(r, Split(r, i, e), i, s, e);
    MergeToggles(r, Flip(Split(r, i, e), i), i, s, e, !r[i].used);
  }

  lemma WholeToggles(r: seq<Mark>, i: nat, s: nat, e: nat)
    requires Ordered(r) && Holds(r, i, s, e) && r[i].vpn == s && r[i + 1].vpn == e
    ensures Toggled(r, Changed(r, i, s, e), s, e, !r[i].used)
  {
    SameAsItself(r);
    hide InUse, Toggled, Merge, SameStatus;
    FlipToggles(r, r, i, s, e);
    MergeToggles(r, Flip(r, i), i, s, e, !r[i].used);
    var left := Merge(Flip(r, i), i);
    MergeToggles(r, left, if |left| < |r| then i else i + 1, s, e, !r[i].used);
  }

  lemma SameAsItself(r: seq<Mark>)
    requires Ordered(r)
    ensures SameStatus(r, r)
  {
    hide InUse;
  }

  lemma ChangeToggles(r: seq<Mark>, i: nat, s: nat, e: nat)
    requires Ordered(r) && Holds(r, i, s, e)
    ensures Toggled(r, Changed(r, i, s, e), s, e, !r[i].used)
  {
    hide Toggled, Changed, Ordered;
    if r[i].vpn != s {
      if r[i + 1].vpn != e {
        InsideToggles(r, i, s, e);
      } else {
        RightToggles(r, i, s, e);
      }
    } else if r[i + 1].vpn != e {
      LeftToggles(r, i, s, e);
    } else {
      WholeToggles(r, i, s, e);
    }
  }

  /** Only the boundary after mark `k` may separate intervals of equal status. */
  ghost predicate AlternatingBut(r: seq<Mark>, k: int) {
    forall i {:trigger r[i]} :: 0 <= i < |r| - 2 && i != k ==> r[i].used != r[i + 1].used
  }

  lemma SplitAlternates(r: seq<Mark>, i: nat, m: nat)
    requires Alternating(r) && i < |r| - 1
    ensures AlternatingBut(Split(r, i, m), i) && Split(r, i, m)[i].used == Split(r, i, m)[i + 1].used == r[i].used
  {
    var r' := Split(r, i, m);
    SplitAt(r, i, m, i);
    SplitAt(r, i, m, i + 1);
    hide Split;
    forall j | 0 <= j < |r'| - 2 && j != i ensures r'[j].used != r'[j + 1].used {
      SplitAt(r, i, m, j);
      SplitAt(r, i, m, j + 1);
      assert j > i ==> r[j - 1].used != r[j - 1 + 1].used;
    }
  }

  /** Splitting twice and flipping the middle part. */
  lemma SplitTwiceAlternates(r: seq<Mark>, i: nat, s: nat, e: nat)
    requires Alternating(r) && i < |r| - 1
    ensures Alternating(Flip(Split(Split(r, i, s), i + 1, e), i + 1))
  {
    var a := Split(r, i, s);
    SplitAt(r, i, s, 0);
    SplitAlternates(r, i, s);
    var b := Split(a, i + 1, e);
    SplitAt(a, i + 1, e, 0);
    var f := Flip(b, i + 1);
    hide Split;
    forall j | 0 <= j < |f| - 2 ensures f[j].used != f[j + 1].used {
      SplitAt(a, i + 1, e, j);
      SplitAt(a, i + 1, e, j + 1);
      assert j > i + 1 ==> a[j - 1].used != a[j - 1 + 1].used;
    }
  }

  /** Merging where the one faulty boundary is. */
  lemma MergeAlternates(r: seq<Mark>, k: nat)
    requires AlternatingBut(r, k - 1) && 0 < k < |r|
    ensures Alternating(Merge(r, k))
  {
    if Mergeable(r, k) {
      var r' := Merge(r, k);
      MergeAt(r, k, 0);
      hide Merge;
      forall j | 0 <= j < |r'| - 2 ensures r'[j].used != r'[j + 1].used {
        MergeAt(r, k, j);
        MergeAt(r, k, j + 1);
        assert j + 1 != k - 1 && j + 1 < |r| - 2 ==> r[j + 1].used != r[j + 1 + 1].used;
      }
    } else {
      assert k < |r| - 1 ==> r[k - 1].used != r[k - 1 + 1].used;
    }
  }

  /** Flipping an interval of canonical marks spoils at most its two boundaries; merging left mends one. */
  lemma FlipMergeAlternates(r: seq<Mark>, i: nat)
    requires Alternating(r) && i < |r| - 1
    ensures var left := Merge(Flip(r, i), i); Alternating(if |left| < |r| then Merge(left, i) else Merge(left, i + 1))
  {
    var f := Flip(r, i);
    if i > 0 {
      assert r[i - 1].used != r[i - 1 + 1].used;
      assert Mergeable(f, i);
      var left := Merge(f, i);
      MergeAt(f, i, 0);
      MergeAt(f, i, i - 1);
      hide Merge;
      forall j | 0 <= j < |left| - 2 && j != i - 1 ensures left[j].used != left[j + 1].used {
        MergeAt(f, i, j);
        MergeAt(f, i, j + 1);
        assert j >= i ==> f[j + 1].used != f[j + 1 + 1].used;
      }
      MergeAlternates(left, i);
    } else {
      MergeAlternates(f, 1);
    }
  }

  /** Every case leaves the marks in canonical form again. */
  lemma ChangeAlternates(r: seq<Mark>, i: nat, s: nat, e: nat)
    requires Ordered(r) && Alternating(r) && Holds(r, i, s, e)
    ensures Alternating(Changed(r, i, s, e))
  {
    hide Split, Merge, Ordered;
    if r[i].vpn != s {
      if r[i + 1].vpn != e {
        SplitTwiceAlternates(r, i, s, e);
      } else {
        SplitAt(r, i, s, 0);
        SplitAlternates(r, i, s);
        MergeAlternates(Flip(Split(r, i, s), i + 1), i + 2);
      }
    } else if r[i + 1].vpn != e {
      SplitAt(r, i, e, 0);
      SplitAlternates(r, i, e);
      var f := Flip(Split(r, i, e), i);
      if i > 0 {
        MergeAlternates(f, i);
      } else {
        MergeFirst(f);
      }
    } else {
      FlipMergeAlternates(r, i);
    }
  }

  lemma MergeFirst(r: seq<Mark>)
    ensures Merge(r, 0) == r
  {
  }

  // ---------- completeness of the search ----------

  /** In canonical form, a range has one status throughout only if one interval holds it. */
  lemma {:induction false} UniformIsHeld(r: seq<Mark>, i: nat, s: nat, e: nat, used: bool)
    requires Ordered(r) && Alternating(r) && Covers(r, i, s) && s < e <= r[|r| - 1].vpn
    requires forall v: nat :: s <= v < e ==> (InUse(r, v) <==> used)
    ensures Holds(r, i, s, e) && r[i].used == used
  {
    StatusOf(r, i, s);
    if r[i + 1].vpn < e {
      var v := r[i + 1].vpn;
      assert Covers(r, i + 1, v);
      StatusOf(r, i + 1, v);
    }
  }

  /** A held range has the status of its interval throughout. */
  lemma HeldIsUniform(r: seq<Mark>, i: nat, s: nat, e: nat)
    requires Ordered(r) && Holds(r, i, s, e)
    ensures forall v: nat :: s <= v < e ==> (InUse(r, v) <==> r[i].used)
  {
    forall v: nat | s <= v < e ensures InUse(r, v) <==> r[i].used {
      assert Covers(r, i, v);
      StatusOf(r, i, v);
    }
  }

  /** Where the search gives up, no interval holds the range. */
  lemma NotHeld(r: seq<Mark>, i: nat, s: nat, e: nat)
    requires Ordered(r) && i < |r| && s < e && (i == 0 || r[i].vpn <= s)
    requires i == |r| - 1 || (s < r[i + 1].vpn && !(r[i].vpn <= s && e <= r[i + 1].vpn))
    ensures forall j: nat :: !Holds(r, j, s, e)
  {
    forall j: nat ensures !Holds(r, j, s, e) {
      if j < i {
        Increasing(r, j + 1, i);
      } else if i < j < |r| {
        Increasing(r, i + 1, j);
      }
    }
  }

  /** Some interval holds the range with status `!used`. */
  ghost predicate Found(r: seq<Mark>, s: nat, e: nat, used: bool) {
    exists i: nat :: Holds(r, i, s, e) && r[i].used != used
  }

  /** The search finds an interval exactly when the range is managed and every page has the other status. */
  lemma FoundIff(r: seq<Mark>, s: nat, e: nat, used: bool)
    requires Ordered(r) && Alternating(r) && s < e
    ensures Found(r, s, e, used) <==>
      r[0].vpn <= s && e <= r[|r| - 1].vpn && forall v: nat :: s <= v < e ==> (InUse(r, v) <==> !used)
  {
    if Found(r, s, e, used) {
      var i: nat :| Holds(r, i, s, e) && r[i].used != used;
      HeldIsUniform(r, i, s, e);
      Increasing(r, 0, i);
      Increasing(r, i + 1, |r| - 1);
    }
    if r[0].vpn <= s && e <= r[|r| - 1].vpn && forall v: nat :: s <= v < e ==> (InUse(r, v) <==> !used) {
      var i := CoverExists(r, s, |r| - 1);
      UniformIsHeld(r, i, s, e, !used);
    }
  }

  /** The search condition in terms of the managed pages and the pages in use. */
  lemma SearchIff(r: seq<Mark>, s: nat, e: nat, used: bool)
    requires Ordered(r) && Alternating(r) && s < e
    ensures Found(r, s, e, used) <==>
      && Interval(s, e) <= Interval(r[0].vpn, r[|r| - 1].vpn)
      && (if used then Interval(s, e) !! UsedPages(r) else Interval(s, e) <= UsedPages(r))
  {
    FoundIff(r, s, e, used);
    if Interval(s, e) <= Interval(r[0].vpn, r[|r| - 1].vpn) {
      assert s in Interval(s, e) && e - 1 in Interval(s, e);
      forall v: nat | s <= v < e ensures v in UsedPages(r) <==> InUse(r, v) {
        assert v in Interval(s, e);
      }
    }
  }

  lemma HoldsParts(r: seq<Mark>, i: nat, s: nat, e: nat)
    requires Holds(r, i, s, e)
    ensures i < |r| - 1 && r[i].vpn <= s < e <= r[i + 1].vpn
  {
  }

  /** At most one interval holds a range, so its status decides the search. */
  lemma HoldsOnce(r: seq<Mark>, i: nat, s: nat, e: nat)
    requires Ordered(r) && Holds(r, i, s, e)
    ensures forall used :: Found(r, s, e, used) <==> r[i].used != used
    ensures e <= r[|r| - 1].vpn
  {
    Increasing(r, i + 1, |r| - 1);
    forall j: nat | Holds(r, j, s, e) ensures j == i {
      OneCover(r, i, j, s);
      OneCover(r, j, i, s);
    }
  }

  lemma ToggledPages(r: seq<Mark>, r': seq<Mark>, s: nat, e: nat, used: bool)
    requires Toggled(r, r', s, e, used) && e <= r[|r| - 1].vpn
    ensures UsedPages(r') == if used then UsedPages(r) + Interval(s, e) else UsedPages(r) - Interval(s, e)
    ensures Interval(r'[0].vpn, r'[|r'| - 1].vpn) == Interval(r[0].vpn, r[|r| - 1].vpn)
  {
  }

  lemma UsedIsManaged(r: seq<Mark>)
    requires Ordered(r)
    ensures UsedPages(r) <= Interval(r[0].vpn, r[|r| - 1].vpn)
  {
    forall v | v in UsedPages(r) ensures r[0].vpn <= v {
      var i :| Covers(r, i, v) && r[i].used;
      Increasing(r, 0, i);
    }
  }

  // ---------- the same changes as insertions ----------

  function InsMark(r: seq<Mark>, i: nat, y: Mark): seq<Mark>
    requires i < |r|
  {
    r[..i + 1] + [y] + r[i + 1..]
  }

  lemma ChangeByInsertion(r: seq<Mark>, i: nat, s: nat, e: nat)
    requires Holds(r, i, s, e)
    ensures r[i].vpn != s && r[i + 1].vpn != e ==>
      Changed(r, i, s, e) == InsMark(InsMark(r, i, Mark(s, !r[i].used)), i + 1, Mark(e, r[i].used))
    ensures r[i].vpn != s && r[i + 1].vpn == e ==>
      Changed(r, i, s, e) == Merge(InsMark(r, i, Mark(s, !r[i].used)), i + 2)
    ensures r[i].vpn == s && r[i + 1].vpn != e ==>
      Changed(r, i, s, e) == Merge(InsMark(Flip(r, i), i, Mark(e, r[i].used)), i)
  {
    hide Merge;
    if r[i].vpn != s {
      assert Flip(Split(r, i, s), i + 1) == InsMark(r, i, Mark(s, !r[i].used));
    } else {
      assert Flip(Split(r, i, e), i) == InsMark(Flip(r, i), i, Mark(e, r[i].used));
    }
  }
}
