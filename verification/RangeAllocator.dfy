/** The page range allocator: marks kept as nodes of a doubly linked list and rewired in place. */
module RangeAllocator {
  import opened Results
  import opened Pools
  import opened RangeRuns

  /** `prev` is a weak reference in the source; every node reachable by `next` is alive, so it upgrades. */
  class PageNode {
    var used: bool
    var vpn: nat
    var prev: PageNode?
    var next: PageNode?

    constructor (used: bool, vpn: nat)
      ensures this.used == used && this.vpn == vpn && prev == null && next == null
    {
      this.used := used;
      this.vpn := vpn;
      prev := null;
      next := null;
    }
  }

  /** The node at position `i`, or null past either end. */
  ghost function At(nodes: seq<PageNode>, i: int): PageNode? {
    if 0 <= i < |nodes| then nodes[i] else null
  }

  ghost predicate Distinct(nodes: seq<PageNode>) {
    forall i, j :: 0 <= i < j < |nodes| ==> nodes[i] != nodes[j]
  }

  /** Node `i` points to its neighbours in `nodes`, and past the ends to nothing. */
  ghost predicate WiredAt(nodes: seq<PageNode>, i: nat)
    reads nodes
    requires i < |nodes|
  {
    nodes[i].prev == At(nodes, i - 1) && nodes[i].next == At(nodes, i + 1)
  }

  /** `next` and `prev` lead through `nodes` in order, and end at its ends. */
  ghost predicate Chain(nodes: seq<PageNode>)
    reads nodes
  {
    Distinct(nodes) && forall i :: 0 <= i < |nodes| ==> WiredAt(nodes, i)
  }

  /** The nodes hold these marks. */
  ghost predicate Shows(nodes: seq<PageNode>, marks: seq<Mark>)
    reads nodes
  {
    |nodes| == |marks|
    && forall i :: 0 <= i < |nodes| ==> nodes[i].vpn == marks[i].vpn && nodes[i].used == marks[i].used
  }

  /** `PageNode::link`: make `next` the successor of `prev`, cutting both from their old neighbours. */
  method Link(prev: PageNode, next: PageNode)
    modifies prev`next, next`prev
    modifies (if prev.next == null then {} else {prev.next})`prev
    modifies (if next.prev == null then {} else {next.prev})`next
    ensures next.prev == prev
    ensures prev.next == if old(next.prev) == prev && old(prev.next) != next then null else next
    ensures old(prev.next) != null && old(prev.next) != next ==> old(prev.next).prev == null
    ensures old(next.prev) != null && old(next.prev) != prev && old(prev.next) != next ==> old(next.prev).next == null
    ensures forall n: PageNode :: old(allocated(n)) ==> n.used == old(n.used) && n.vpn == old(n.vpn)
    ensures forall n: PageNode :: old(allocated(n)) && n != prev && n != old(next.prev) ==> n.next == old(n.next)
    ensures forall n: PageNode :: old(allocated(n)) && n != next && n != old(prev.next) ==> n.prev == old(n.prev)
  {
    if prev.next != null {
      prev.next.prev := null;
    }
    prev.next := next;
    if next.prev != null {
      next.prev.next := null;
    }
    next.prev := prev;
  }

  // ---------- rewiring a chain ----------

  ghost function Ins(nodes: seq<PageNode>, i: nat, x: PageNode): seq<PageNode>
    requires i < |nodes|
  {
    nodes[..i + 1] + [x] + nodes[i + 1..]
  }

  lemma InsAt(nodes: seq<PageNode>, i: nat, x: PageNode, j: int)
    requires i < |nodes|
    ensures |Ins(nodes, i, x)| == |nodes| + 1
    ensures At(Ins(nodes, i, x), j) == if j <= i then At(nodes, j) else if j == i + 1 then x else At(nodes, j - 1)
  {
  }

  ghost function Del(nodes: seq<PageNode>, k: nat): seq<PageNode>
    requires k < |nodes|
  {
    nodes[..k] + nodes[k + 1..]
  }

  lemma DelAt(nodes: seq<PageNode>, k: nat, j: int)
    requires k < |nodes|
    ensures |Del(nodes, k)| == |nodes| - 1
    ensures At(Del(nodes, k), j) == if j < k then At(nodes, j) else At(nodes, j + 1)
  {
  }

  lemma InsMembers(nodes: seq<PageNode>, i: nat, x: PageNode)
    requires i < |nodes|
    ensures forall n :: n in Ins(nodes, i, x) <==> n == x || n in nodes
  {
  }

  lemma InsDistinct(nodes: seq<PageNode>, i: nat, x: PageNode)
    requires i < |nodes| && Distinct(nodes) && x !in nodes
    ensures Distinct(Ins(nodes, i, x)) && forall n :: n in Ins(nodes, i, x) <==> n == x || n in nodes
  {
  }

  lemma DelDistinct(nodes: seq<PageNode>, k: nat)
    requires k < |nodes| && Distinct(nodes)
    ensures Distinct(Del(nodes, k)) && forall n :: n in Del(nodes, k) ==> n in nodes
  {
  }

  /** Node `k` points to its neighbours, with `x` put between nodes `i` and `i + 1`. */
  ghost predicate WiredAround(nodes: seq<PageNode>, i: nat, x: PageNode, k: nat)
    reads nodes
    requires k < |nodes|
  {
    && nodes[k].next == (if k == i then x else At(nodes, k + 1))
    && nodes[k].prev == (if k == i + 1 then x else At(nodes, k - 1))
  }

  lemma InsChain(nodes: seq<PageNode>, i: nat, x: PageNode)
    requires Distinct(nodes) && i + 1 < |nodes| && x !in nodes
    requires x.prev == nodes[i] && x.next == nodes[i + 1]
    requires forall k :: 0 <= k < |nodes| ==> WiredAround(nodes, i, x, k)
    ensures Chain(Ins(nodes, i, x))
  {
    var after := Ins(nodes, i, x);
    InsDistinct(nodes, i, x);
    InsAt(nodes, i, x, 0);
    hide Ins, Distinct;
    forall j | 0 <= j < |after| ensures WiredAt(after, j) {
      InsAt(nodes, i, x, j - 1);
      InsAt(nodes, i, x, j);
      InsAt(nodes, i, x, j + 1);
      assert j != i + 1 ==> WiredAround(nodes, i, x, if j <= i then j else j - 1);
    }
  }

  /** Node `j` points to its neighbours, with node `k` left out. */
  ghost predicate WiredWithout(nodes: seq<PageNode>, k: nat, j: nat)
    reads nodes
    requires j < |nodes|
  {
    && nodes[j].next == (if j == k - 1 then At(nodes, k + 1) else At(nodes, j + 1))
    && nodes[j].prev == (if j == k + 1 then At(nodes, k - 1) else At(nodes, j - 1))
  }

  lemma DelChain(nodes: seq<PageNode>, k: nat)
    requires Distinct(nodes) && 0 < k < |nodes| - 1
    requires forall j :: 0 <= j < |nodes| && j != k ==> WiredWithout(nodes, k, j)
    ensures Chain(Del(nodes, k))
  {
    var after := Del(nodes, k);
    DelDistinct(nodes, k);
    DelAt(nodes, k, 0);
    hide Del, Distinct;
    forall j | 0 <= j < |after| ensures WiredAt(after, j) {
      DelAt(nodes, k, j - 1);
      DelAt(nodes, k, j);
      DelAt(nodes, k, j + 1);
      assert WiredWithout(nodes, k, if j < k then j else j + 1);
    }
  }

  lemma InsShows(nodes: seq<PageNode>, marks: seq<Mark>, i: nat, x: PageNode)
    requires Shows(nodes, marks) && i < |nodes|
    ensures Shows(Ins(nodes, i, x), InsMark(marks, i, Mark(x.vpn, x.used)))
  {
  }

  lemma DelShows(nodes: seq<PageNode>, marks: seq<Mark>, k: nat)
    requires Shows(nodes, marks) && Mergeable(marks, k)
    ensures Shows(Del(nodes, k), Merge(marks, k))
  {
  }

  lemma ShowsAt(nodes: seq<PageNode>, marks: seq<Mark>, i: nat)
    requires Shows(nodes, marks)
    ensures |nodes| == |marks|
    ensures i < |nodes| ==> nodes[i].vpn == marks[i].vpn && nodes[i].used == marks[i].used
    ensures i + 1 < |nodes| ==> nodes[i + 1].vpn == marks[i + 1].vpn
  {
  }

  /** Puts `x` between two neighbours. */
  method InsertOne(left: PageNode, x: PageNode, right: PageNode, ghost nodes: seq<PageNode>, ghost i: nat)
    requires Chain(nodes) && i + 1 < |nodes| && left == nodes[i] && right == nodes[i + 1]
    requires x !in nodes && x.prev == null && x.next == null
    modifies left`next, x`prev, x`next, right`prev
    ensures Chain(Ins(nodes, i, x))
  {
    assert WiredAt(nodes, i) && WiredAt(nodes, i + 1);
    Link(left, x);
    Link(x, right);
    forall k | 0 <= k < |nodes| ensures WiredAround(nodes, i, x, k) {
      assert old(WiredAt(nodes, k));
    }
    InsChain(nodes, i, x);
  }

  /** Puts `a` and `b` between two neighbours. */
  method InsertTwo(left: PageNode, a: PageNode, b: PageNode, right: PageNode, ghost nodes: seq<PageNode>, ghost i: nat)
    requires Chain(nodes) && i + 1 < |nodes| && left == nodes[i] && right == nodes[i + 1]
    requires a !in nodes && a.prev == null && a.next == null
    requires b !in nodes && b.prev == null && b.next == null && a != b
    modifies left`next, a`prev, a`next, b`prev, b`next, right`prev
    ensures Chain(Ins(Ins(nodes, i, a), i + 1, b))
  {
    assert WiredAt(nodes, i) && WiredAt(nodes, i + 1);
    Link(left, a);
    Link(a, b);
    Link(b, right);
    ghost var mid := Ins(nodes, i, a);
    InsDistinct(nodes, i, a);
    InsAt(nodes, i, a, i + 1);
    InsAt(nodes, i, a, i + 2);
    ghost var at := i + 1;
    hide Ins;
    forall k | 0 <= k < |mid| ensures WiredAround(mid, at, b, k) {
      InsAt(nodes, i, a, k - 1);
      InsAt(nodes, i, a, k);
      InsAt(nodes, i, a, k + 1);
      assert k != i + 1 ==> old(WiredAt(nodes, if k <= i then k else k - 1));
    }
    InsChain(mid, i + 1, b);
  }

  /** Takes the node between two neighbours out. */
  method Remove(left: PageNode, node: PageNode, right: PageNode, ghost nodes: seq<PageNode>, ghost k: nat)
    requires Chain(nodes) && 0 < k < |nodes| - 1
    requires left == nodes[k - 1] && node == nodes[k] && right == nodes[k + 1]
    modifies left`next, right`prev, node`prev, node`next
    ensures Chain(Del(nodes, k))
  {
    assert WiredAt(nodes, k - 1) && WiredAt(nodes, k) && WiredAt(nodes, k + 1);
    Link(left, right);
    forall j | 0 <= j < |nodes| && j != k ensures WiredWithout(nodes, k, j) {
      assert old(WiredAt(nodes, j));
    }
    DelChain(nodes, k);
  }

  class LinkedListPageRangeAllocator {
    const root: PageNode
    ghost var nodes: seq<PageNode>
    ghost var marks: seq<Mark>

    ghost predicate Valid()
      reads this, nodes
    {
      && |nodes| >= 2 && |marks| >= 2 && nodes[0] == root
      && Chain(nodes) && Shows(nodes, marks)
      && Ordered(marks) && Alternating(marks)
    }

    /** The pages allocated now. */
    ghost function Used(): set<nat>
      reads this
      requires |marks| >= 2
    {
      UsedPages(marks)
    }

    /** The managed range. */
    ghost function Managed(): set<nat>
      reads this
      requires |marks| >= 2
    {
      Interval(marks[0].vpn, marks[|marks| - 1].vpn)
    }

    constructor (start: nat, end: nat)
      requires start < end
      ensures Valid() && fresh(nodes) && Managed() == Interval(start, end) && Used() == {}
    {
      var first := new PageNode(false, start);
      var last := new PageNode(false, end);
      Link(first, last);
      root := first;
      nodes := [first, last];
      marks := [Mark(start, false), Mark(end, false)];
    }

    /** `find_range_nodes`: walk the list to the interval that holds the range. */
    method FindRangeNodes(s: nat, e: nat) returns (found: Option<(PageNode, PageNode)>, ghost i: nat)
      requires Valid() && s < e
      ensures found.Some? ==> Holds(marks, i, s, e) && found.value == (nodes[i], nodes[i + 1])
      ensures found.None? ==> forall j: nat :: !Holds(marks, j, s, e)
    {
      hide Distinct, Alternating, Ordered;
      var cur := root;
      i := 0;
      while true
        invariant i < |nodes| && cur == nodes[i]
        invariant i == 0 || marks[i].vpn <= s
        decreases |nodes| - i
      {
        assert WiredAt(nodes, i);
        var next := cur.next;
        if next == null {
          NotHeld(marks, i, s, e);
          return None, i;
        }
        if cur.vpn <= s && next.vpn >= e {
          return Some((cur, next)), i;
        } else if next.vpn <= s {
          cur := next;
          i := i + 1;
        } else {
          NotHeld(marks, i, s, e);
          return None, i;
        }
      }
    }

    /** The list without its ordering: what holds between the steps of a change. */
    ghost predicate Wired()
      reads this, nodes
    {
      |nodes| >= 2 && |marks| >= 2 && nodes[0] == root && Chain(nodes) && Shows(nodes, marks)
    }

    /** `PageNode::merge_range`. */
    method MergeRange(node: PageNode, ghost k: nat)
      requires Wired() && k < |nodes| && nodes[k] == node
      modifies this`nodes, this`marks, nodes
      ensures Wired() && marks == Merge(old(marks), k) && forall n :: n in nodes ==> n in old(nodes)
      ensures nodes == if Mergeable(old(marks), k) then Del(old(nodes), k) else old(nodes)
    {
      hide Distinct;
      assert WiredAt(nodes, k);
      if node.prev != null && node.next != null {
        if node.used == node.prev.used {
          Remove(node.prev, node, node.next, nodes, k);
          DelShows(nodes, marks, k);
          DelAt(nodes, k, 0);
          DelKeeps(nodes, k);
          nodes := Del(nodes, k);
          marks := Merge(marks, k);
        }
      }
    }

    /** Gives interval `i` the status `used`, in place. */
    method SetStatus(node: PageNode, used: bool, ghost i: nat)
      requires Wired() && i < |nodes| && nodes[i] == node && node.used != used
      modifies this`marks, node`used
      ensures Wired() && marks == Flip(old(marks), i) && nodes == old(nodes)
    {
      node.used := used;
      marks := Flip(marks, i);
      assert Distinct(nodes);
      forall k | 0 <= k < |nodes| ensures WiredAt(nodes, k) {
        assert old(WiredAt(nodes, k));
      }
    }

    /** Puts a new node after node `i`. */
    method AddNode(left: PageNode, right: PageNode, x: PageNode, ghost i: nat)
      requires Wired() && i + 1 < |nodes| && left == nodes[i] && right == nodes[i + 1]
      requires x !in nodes && x.prev == null && x.next == null
      modifies this`nodes, this`marks, nodes, x
      ensures Wired() && marks == InsMark(old(marks), i, Mark(x.vpn, x.used)) && nodes == Ins(old(nodes), i, x)
      ensures x.vpn == old(x.vpn) && x.used == old(x.used)
      ensures At(nodes, i) == left && At(nodes, i + 2) == right && forall n :: n in nodes ==> n == x || n in old(nodes)
    {
      InsAt(nodes, i, x, i);
      InsAt(nodes, i, x, i + 2);
      InsMembers(nodes, i, x);
      InsertOne(left, x, right, nodes, i);
      InsShows(nodes, marks, i, x);
      InsAt(nodes, i, x, 0);
      nodes := Ins(nodes, i, x);
      marks := InsMark(marks, i, Mark(x.vpn, x.used));
    }

    /** Puts two new nodes after node `i`. */
    method AddTwo(left: PageNode, right: PageNode, x: PageNode, y: PageNode, ghost i: nat)
      requires Wired() && i + 1 < |nodes| && left == nodes[i] && right == nodes[i + 1]
      requires x !in nodes && y !in nodes && x != y && x.prev == null && x.next == null && y.prev == null
      requires y.next == null
      modifies this`nodes, this`marks, nodes, x, y
      ensures Wired() && marks == InsMark(InsMark(old(marks), i, Mark(old(x.vpn), old(x.used))), i + 1, Mark(old(y.vpn),
        old(y.used)))
      ensures forall n :: n in nodes ==> n == x || n == y || n in old(nodes)
    {
      hide Chain;
      InsertTwo(left, x, y, right, nodes, i);
      InsShows(nodes, marks, i, x);
      InsAt(nodes, i, x, 0);
      InsShows(Ins(nodes, i, x), InsMark(marks, i, Mark(x.vpn, x.used)), i + 1, y);
      InsAt(Ins(nodes, i, x), i + 1, y, 0);
      InsMembers(nodes, i, x);
      InsMembers(Ins(nodes, i, x), i + 1, y);
      hide Ins;
      nodes := Ins(Ins(nodes, i, x), i + 1, y);
      marks := InsMark(InsMark(marks, i, Mark(x.vpn, x.used)), i + 1, Mark(y.vpn, y.used));
    }

    /** `change` where the range lies strictly inside its interval. */
    method ChangeInside(left: PageNode, right: PageNode, s: nat, e: nat, used: bool, ghost i: nat)
      requires Wired() && Holds(marks, i, s, e) && left == nodes[i] && right == nodes[i + 1]
      requires left.used != used && left.vpn != s && right.vpn != e
      modifies this`nodes, this`marks, nodes
      ensures Wired() && marks == Changed(old(marks), i, s, e) && forall n :: n in nodes ==> n in old(nodes) || fresh(n)
    {
      ChangeByInsertion(marks, i, s, e);
      ShowsAt(nodes, marks, i);
      hide Changed, Chain, Shows, InsMark, Holds;
      var start := new PageNode(used, s);
      var end := new PageNode(!used, e);
      AddTwo(left, right, start, end, i);
    }

    /** `change` where the range ends with its interval. */
    method ChangeRight(left: PageNode, right: PageNode, s: nat, e: nat, used: bool, ghost i: nat)
      requires Wired() && Holds(marks, i, s, e) && left == nodes[i] && right == nodes[i + 1]
      requires left.used != used && left.vpn != s && right.vpn == e
      modifies this`nodes, this`marks, nodes
      ensures Wired() && marks == Changed(old(marks), i, s, e) && forall n :: n in nodes ==> n in old(nodes) || fresh(n)
    {
      ChangeByInsertion(marks, i, s, e);
      ShowsAt(nodes, marks, i);
      hide Changed, Chain, Shows, Merge, Mergeable, Del, Flip, Holds;
      var start := new PageNode(!used, s);
      start.used := used;
      hide Ins, InsMark;
      AddNode(left, right, start, i);
      assert forall k :: 0 <= k < |nodes| ==> nodes[k] in nodes;
      MergeRange(right, i + 2);
    }

    /** `change` where the range starts with its interval. */
    method ChangeLeft(left: PageNode, right: PageNode, s: nat, e: nat, used: bool, ghost i: nat)
      requires Wired() && Holds(marks, i, s, e) && left == nodes[i] && right == nodes[i + 1]
      requires left.used != used && left.vpn == s && right.vpn != e
      modifies this`nodes, this`marks, nodes
      ensures Wired() && marks == Changed(old(marks), i, s, e) && forall n :: n in nodes ==> n in old(nodes) || fresh(n)
    {
      ChangeByInsertion(marks, i, s, e);
      ShowsAt(nodes, marks, i);
      hide Changed, Chain, Shows, Merge, Mergeable, Del, Flip, Holds;
      var end := new PageNode(!used, e);
      hide Ins, InsMark;
      SetStatus(left, used, i);
      AddNode(left, right, end, i);
      assert forall k :: 0 <= k < |nodes| ==> nodes[k] in nodes;
      MergeRange(left, i);
    }

    /** `change` of a whole interval. */
    method ChangeWhole(left: PageNode, right: PageNode, s: nat, e: nat, used: bool, ghost i: nat)
      requires Wired() && Holds(marks, i, s, e) && left == nodes[i] && right == nodes[i + 1]
      requires left.used != used && left.vpn == s && right.vpn == e
      modifies this`nodes, this`marks, nodes
      ensures Wired() && marks == Changed(old(marks), i, s, e) && forall n :: n in nodes ==> n in old(nodes) || fresh(n)
    {
      hide Chain;
      SetStatus(left, used, i);
      DelAt(nodes, i, i);
      MergeRange(left, i);
      MergeRange(right, if |marks| < |old(marks)| then i else i + 1);
    }

    /** Gives the pages from `s` up to `e` the status `used`, if all of them are managed and have the other one. */
    method Change(s: nat, e: nat, used: bool) returns (r: Option<()>)
      requires Valid()
      modifies this`nodes, this`marks, nodes
      ensures Valid() && Managed() == old(Managed()) && forall n :: n in nodes ==> n in old(nodes) || fresh(n)
      ensures r.Some? <==>
        && s < e && Interval(s, e) <= old(Managed())
        && (if used then Interval(s, e) !! old(Used()) else Interval(s, e) <= old(Used()))
      ensures Used() == if r.None? then old(Used()) else if used then old(Used()) + Interval(s,
        e) else old(Used()) - Interval(s, e)
    {
      hide Chain, Shows, Changed, Ordered, Alternating, InUse, Holds;
      if s >= e {
        return None;
      }
      SearchIff(marks, s, e, used);
      var found, i := FindRangeNodes(s, e);
      if found.None? {
        return None;
      }
      var (left, right) := found.value;
      ShowsAt(nodes, marks, i);
      HoldsParts(marks, i, s, e);
      HoldsOnce(marks, i, s, e);
      if left.used == used {
        return None;
      }
      ChangeToggles(marks, i, s, e);
      ChangeAlternates(marks, i, s, e);
      ToggledPages(marks, Changed(marks, i, s, e), s, e, used);
      if left.vpn != s && right.vpn != e {
        ChangeInside(left, right, s, e, used, i);
      } else if left.vpn != s {
        ChangeRight(left, right, s, e, used, i);
      } else if right.vpn != e {
        ChangeLeft(left, right, s, e, used, i);
      } else {
        ChangeWhole(left, right, s, e, used, i);
      }
      r := Some(());
    }

    method Alloc(s: nat, e: nat) returns (r: Option<()>)
      requires Valid()
      modifies this`nodes, this`marks, nodes
      ensures Valid() && Managed() == old(Managed()) && forall n :: n in nodes ==> n in old(nodes) || fresh(n)
      ensures r.Some? <==> s < e && Interval(s, e) <= old(Managed()) && Interval(s, e) !! old(Used())
      ensures Used() == if r.Some? then old(Used()) + Interval(s, e) else old(Used())
    {
      r := Change(s, e, true);
    }

    method Dealloc(s: nat, e: nat) returns (r: Option<()>)
      requires Valid()
      modifies this`nodes, this`marks, nodes
      ensures Valid() && Managed() == old(Managed()) && forall n :: n in nodes ==> n in old(nodes) || fresh(n)
      ensures r.Some? <==> s < e && Interval(s, e) <= old(Used())
      ensures Used() == if r.Some? then old(Used()) - Interval(s, e) else old(Used())
    {
      UsedIsManaged(marks);
      r := Change(s, e, false);
    }

    lemma DelKeeps(nodes: seq<PageNode>, k: nat)
      requires k < |nodes|
      ensures forall n :: n in Del(nodes, k) ==> n in nodes
    {
    }
  }
}
