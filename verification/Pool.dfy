/**
 The allocation discipline shared by the frame allocator and the id allocators: a bump pointer
 and a set of recycled numbers, the least of which is handed out first.
 */
module Pools {

  predicate IsLeast(m: nat, s: set<nat>) {
    m in s && forall x :: x in s ==> m <= x
  }

  lemma {:induction false} LeastExists(s: set<nat>)
    requires s != {}
    ensures exists m :: IsLeast(m, s)
  {
    var m :| m in s;
    var rest := s - {m};
    if rest == {} {
      assert s == {m};
      assert IsLeast(m, s);
    } else {
      LeastExists(rest);
      var k :| IsLeast(k, rest);
      assert forall x :: x in s ==> x == m || x in rest;
      assert IsLeast(if m <= k then m else k, s);
    }
  }

  predicate Within(lo: nat, hi: nat, p: nat) {
    lo <= p < hi
  }

  /** The numbers from `lo` up to, not including, `hi`. */
  ghost function Interval(lo: nat, hi: nat): (s: set<nat>)
    ensures forall p: nat :: p in s <==> lo <= p < hi
  {
    set p: nat | p < hi && Within(lo, hi, p)
  }

  datatype Pool = Pool(current: nat, limit: nat, recycled: set<nat>) {

    /** The numbers the pool could still hand out. */
    ghost function Free(): set<nat> {
      recycled + Interval(current, limit)
    }

    /** The numbers from `start` on that are handed out now. */
    ghost function Live(start: nat): set<nat> {
      Interval(start, current) - recycled
    }

    ghost predicate Valid(start: nat) {
      && start <= current <= limit
      && forall p :: p in recycled ==> start <= p < current
    }

    predicate Exhausted() {
      recycled == {} && current >= limit
    }

    /** Allocation may hand out `n`, leaving `q`: the least recycled number, else the next fresh one. */
    predicate Gives(n: nat, q: Pool) {
      if recycled != {} then IsLeast(n, recycled) && q == this.(recycled := recycled - {n})
      else current < limit && n == current && q == this.(current := current + 1)
    }

    predicate Takes(n: nat) {
      n < current && n !in recycled
    }
  }

  /** Allocation moves one number from the free side to the live side, and fails only when none is free. */
  lemma GivesMoves(p: Pool, start: nat, n: nat, q: Pool)
    requires p.Valid(start) && p.Gives(n, q)
    ensures q.Valid(start) && n in p.Free() && n !in p.Live(start)
    ensures q.Free() == p.Free() - {n} && q.Live(start) == p.Live(start) + {n}
  {
  }

  /** Of all free numbers the least is handed out. */
  lemma GivesLeast(p: Pool, start: nat, n: nat, q: Pool)
    requires p.Valid(start) && p.Gives(n, q)
    ensures n in p.Free() && forall x :: x in p.Free() ==> n <= x
  {
  }

  lemma ExhaustedIffNoneFree(p: Pool)
    ensures p.Exhausted() <==> p.Free() == {}
  {
    if p.current < p.limit {
      assert p.current in p.Free();
    }
  }

  /** A live number can be given back, and nothing else from `start` on can; what is below `start` spoils the pool. */
  lemma TakesMoves(p: Pool, start: nat, n: nat)
    requires p.Valid(start)
    ensures p.Takes(n) <==> n in p.Live(start) || n < start
    ensures p.Takes(n) ==>
      var q := p.(recycled := p.recycled + {n});
      && (q.Valid(start) <==> start <= n)
      && q.Free() == p.Free() + {n} && q.Live(start) == p.Live(start) - {n} && n !in p.Free()
  {
    var q := p.(recycled := p.recycled + {n});
    assert n in q.recycled;
  }

  /** Free and live numbers split the managed interval. */
  lemma Partition(p: Pool, start: nat)
    requires p.Valid(start)
    ensures p.Free() !! p.Live(start)
    ensures p.Free() + p.Live(start) == Interval(start, p.limit)
  {
  }
}
