/** The family of processes: who is ended together with whom. */
module Processes {
  /** A process, by the identity of its control block: never used again for another process. */
  type Pid = nat

  /** The first process, which adopts the children of those that end. */
  const INIT: Pid := 0

  /** Going from parent to parent leads from process `q` to process `p`. */
  predicate Under(parents: map<Pid, Pid>, q: Pid, p: Pid)
    decreases q
  {
    q == p || (q in parents && parents[q] < q && Under(parents, parents[q], p))
  }

  /** Every process is older than its children. */
  ghost predicate Lineage(parents: map<Pid, Pid>, limit: Pid) {
    forall q :: q in parents ==> parents[q] < q < limit
  }

  function Children(parents: map<Pid, Pid>, p: Pid): set<Pid> {
    set q | q in parents && parents[q] == p
  }

  /** `mark_zombie`: the process itself, and then each of its children in turn. */
  ghost function Marked(parents: map<Pid, Pid>, limit: Pid, p: Pid): set<Pid>
    requires Lineage(parents, limit)
    decreases if p < limit then limit - p else 0
  {
    {p} + set c, q | c in Children(parents, p) && q in Marked(parents, limit, c) :: q
  }

  lemma {:induction false} UnderStep(parents: map<Pid, Pid>, q: Pid, c: Pid, p: Pid)
    requires Under(parents, q, c) && c in parents && parents[c] == p < c
    ensures Under(parents, q, p)
    decreases q
  {
    if q != c {
      UnderStep(parents, parents[q], c, p);
    }
  }

  /** A descendant is one by way of a child. */
  lemma {:induction false} ByChild(parents: map<Pid, Pid>, q: Pid, p: Pid) returns (c: Pid)
    requires Under(parents, q, p) && q != p
    ensures c in parents && parents[c] == p && Under(parents, q, c)
    decreases q
  {
    if parents[q] == p {
      c := q;
    } else {
      c := ByChild(parents, parents[q], p);
    }
  }

  /** The recursion through the children ends exactly the process and its descendants. */
  lemma {:induction false} MarkedAreUnder(parents: map<Pid, Pid>, limit: Pid, p: Pid, q: Pid)
    requires Lineage(parents, limit)
    ensures q in Marked(parents, limit, p) <==> Under(parents, q, p)
    decreases if p < limit then limit - p else 0
  {
    if q != p && q in Marked(parents, limit, p) {
      var c :| c in Children(parents, p) && q in Marked(parents, limit, c);
      MarkedAreUnder(parents, limit, c, q);
      UnderStep(parents, q, c, p);
    }
    if q != p && Under(parents, q, p) {
      var c := ByChild(parents, q, p);
      MarkedAreUnder(parents, limit, c, q);
    }
  }
}
