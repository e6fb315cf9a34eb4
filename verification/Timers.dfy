/** The timer heap: which sleeping tasks a check wakes, and in which order. */
module Timers {
  import opened Sync

  const SIGN: nat := 0x8000_0000_0000_0000

  /** `TimerCondVar`, with an expiry that fits into 64 bits. */
  datatype Timer = Timer(expire: nat, task: Tid)

  /** The expiry read as a signed number and negated, with wrap-around: what the heap compares. */
  function Rank(expire: nat): int {
    if expire <= SIGN then 0 - expire else 2 * SIGN - expire
  }

  /** The heap may show `t` at its top: no other ranks higher. */
  predicate IsTop(heap: seq<Timer>, i: nat) {
    i < |heap| && forall j :: 0 <= j < |heap| ==> Rank(heap[j].expire) <= Rank(heap[i].expire)
  }

  lemma {:induction false} TopExists(heap: seq<Timer>)
    requires heap != []
    ensures exists i: nat :: IsTop(heap, i)
    decreases |heap|
  {
    var n := |heap| - 1;
    if n == 0 {
      assert IsTop(heap, 0);
    } else {
      TopExists(heap[..n]);
      var i: nat :| IsTop(heap[..n], i);
      assert forall j :: 0 <= j < n ==> heap[..n][j] == heap[j];
      assert IsTop(heap, if Rank(heap[n].expire) <= Rank(heap[i].expire) then i else n);
    }
  }

  function RemoveAt(heap: seq<Timer>, i: nat): seq<Timer>
    requires i < |heap|
  {
    heap[..i] + heap[i + 1..]
  }

  /** The tasks of timers that were not dropped because the task had ended. */
  function Woken(popped: seq<Timer>, zombies: set<Tid>): seq<Tid> {
    if popped == [] then []
    else
      var n := |popped| - 1;
      Woken(popped[..n], zombies) + if popped[n].task in zombies then [] else [popped[n].task]
  }

  /** Taken from the heap one after the other, always the top. */
  ghost predicate Taken(before: seq<Timer>, popped: seq<Timer>, left: seq<Timer>) {
    && multiset(before) == multiset(popped) + multiset(left)
    && (forall i, j :: 0 <= i < j < |popped| ==> Rank(popped[i].expire) >= Rank(popped[j].expire))
    && (forall i, x :: 0 <= i < |popped| && x in left ==> Rank(popped[i].expire) >= Rank(x.expire))
  }

  lemma TakenNext(before: seq<Timer>, popped: seq<Timer>, left: seq<Timer>, i: nat)
    requires Taken(before, popped, left) && IsTop(left, i)
    ensures Taken(before, popped + [left[i]], RemoveAt(left, i))
  {
    var rest := RemoveAt(left, i);
    assert left == left[..i] + [left[i]] + left[i + 1..];
    forall x | x in rest ensures x in left {
      if x in left[..i] {
        var k :| 0 <= k < i && left[k] == x;
      } else {
        assert x in left[i + 1..];
      }
    }
    forall j, x | 0 <= j < |popped| + 1 && x in rest ensures Rank((popped + [left[i]])[j].expire) >= Rank(x.expire) {
    }
  }

  predicate Due(x: Timer, now: nat) {
    x.expire <= now
  }

  /** Every timer is due, or that of an ended task. */
  ghost predicate AllDue(popped: seq<Timer>, now: nat, zombies: set<Tid>) {
    forall x :: x in popped ==> x.task in zombies || Due(x, now)
  }

  /** What one check does: it stops at the first timer that is neither due nor that of an ended task. */
  ghost predicate Checked(before: seq<Timer>, popped: seq<Timer>, left: seq<Timer>, now: nat, zombies: set<Tid>) {
    && Taken(before, popped, left)
    && AllDue(popped, now, zombies)
    && (left != [] ==> exists i: nat :: IsTop(left, i) && left[i].task !in zombies && !Due(left[i], now))
  }

  lemma CheckedStops(before: seq<Timer>, popped: seq<Timer>, left: seq<Timer>, i: nat, now: nat, zombies: set<Tid>)
    requires Taken(before, popped, left) && AllDue(popped, now, zombies)
    requires IsTop(left, i) && left[i].task !in zombies && left[i].expire > now
    ensures Checked(before, popped, left, now, zombies)
  {
    hide Taken, AllDue;
  }

  lemma CheckedEnds(before: seq<Timer>, popped: seq<Timer>, now: nat, zombies: set<Tid>)
    requires Taken(before, popped, []) && AllDue(popped, now, zombies)
    ensures Checked(before, popped, [], now, zombies)
  {
    hide Taken, AllDue;
  }

  lemma WokenNone(zombies: set<Tid>)
    ensures Woken([], zombies) == []
  {
  }

  lemma WokenMore(popped: seq<Timer>, x: Timer, zombies: set<Tid>)
    ensures Woken(popped + [x], zombies) == Woken(popped, zombies) + if x.task in zombies then [] else [x.task]
  {
    assert (popped + [x])[..|popped|] == popped;
  }

  lemma TakenNone(heap: seq<Timer>)
    ensures Taken(heap, [], heap)
  {
  }

  lemma TopInside(heap: seq<Timer>, i: nat)
    requires IsTop(heap, i)
    ensures i < |heap|
  {
  }

  /** The heap without the timers of `task`: drained, and put back without them. */
  function Kept(heap: seq<Timer>, task: Tid): seq<Timer> {
    if heap == [] then []
    else
      var n := |heap| - 1;
      Kept(heap[..n], task) + if heap[n].task == task then [] else [heap[n]]
  }

  lemma {:induction false} KeptExactly(heap: seq<Timer>, task: Tid, x: Timer)
    ensures multiset(Kept(heap, task))[x] == if x.task == task then 0 else multiset(heap)[x]
    decreases |heap|
  {
    if heap != [] {
      var n := |heap| - 1;
      KeptExactly(heap[..n], task, x);
      assert heap == heap[..n] + [heap[n]];
    }
  }

  // ---------- what a check guarantees ----------

  /** Of the tasks that have not ended, the one that the heap ranks highest is due. */
  ghost predicate Rouses(heap: seq<Timer>, now: nat, zombies: set<Tid>) {
    exists x :: x in heap && x.task !in zombies && Due(x, now) && HighestLive(heap, x, zombies)
  }

  ghost predicate HighestLive(heap: seq<Timer>, x: Timer, zombies: set<Tid>) {
    forall b :: b in heap && b.task !in zombies ==> Rank(b.expire) <= Rank(x.expire)
  }

  lemma {:induction false} WokenIff(popped: seq<Timer>, zombies: set<Tid>, t: Tid)
    ensures t in Woken(popped, zombies) <==> exists i :: 0 <= i < |popped| && popped[i].task == t && t !in zombies
    decreases |popped|
  {
    if popped != [] {
      var n := |popped| - 1;
      WokenIff(popped[..n], zombies, t);
      assert popped == popped[..n] + [popped[n]];
      if i :| 0 <= i < |popped| && popped[i].task == t && t !in zombies {
        assert i < n ==> popped[..n][i] == popped[i];
      }
    }
  }

  /** The first timer taken that is not of an ended task. */
  lemma {:induction false} FirstLive(popped: seq<Timer>, zombies: set<Tid>) returns (i: nat)
    requires Woken(popped, zombies) != []
    ensures i < |popped| && popped[i].task !in zombies && forall j :: 0 <= j < i ==> popped[j].task in zombies
    ensures Woken(popped, zombies)[0] == popped[i].task
    decreases |popped|
  {
    var n := |popped| - 1;
    if Woken(popped[..n], zombies) != [] {
      i := FirstLive(popped[..n], zombies);
    } else {
      i := n;
      forall j | 0 <= j < n ensures popped[j].task in zombies {
        if popped[j].task !in zombies {
          assert popped[..n][j] == popped[j];
          WokenIff(popped[..n], zombies, popped[j].task);
        }
      }
    }
  }

  /** The first one woken was due, and none that lives ranked higher. */
  lemma FirstWokenIsHighest(before: seq<Timer>, popped: seq<Timer>, left: seq<Timer>, now: nat, zombies: set<Tid>)
    returns (x: Timer)
    requires Checked(before, popped, left, now, zombies) && Woken(popped, zombies) != []
    ensures x in before && x.task == Woken(popped, zombies)[0] && x.task !in zombies && Due(x, now)
    ensures HighestLive(before, x, zombies)
  {
    var i := FirstLive(popped, zombies);
    x := popped[i];
    assert x in popped;
    SameMembers(before, popped, left, x);
    hide Rank, Woken;
    forall b | b in before && b.task !in zombies ensures Rank(b.expire) <= Rank(x.expire) {
      SameMembers(before, popped, left, b);
      if b in popped {
        var j :| 0 <= j < |popped| && popped[j] == b;
        assert i <= j;
      }
    }
  }

  lemma RanksTell(a: nat, b: nat)
    requires a < 2 * SIGN && b < 2 * SIGN && Rank(a) == Rank(b)
    ensures a == b
  {
  }

  /** A check wakes someone if and only if the highest timer of a task that has not ended is due. */
  lemma WakesIff(before: seq<Timer>, popped: seq<Timer>, left: seq<Timer>, now: nat, zombies: set<Tid>)
    requires Checked(before, popped, left, now, zombies) && forall x :: x in before ==> x.expire < 2 * SIGN
    ensures Woken(popped, zombies) != [] <==> Rouses(before, now, zombies)
  {
    hide Rank, Woken;
    if Woken(popped, zombies) != [] {
      var x := FirstWokenIsHighest(before, popped, left, now, zombies);
    }
    if Rouses(before, now, zombies) {
      var x :| x in before && x.task !in zombies && Due(x, now) && HighestLive(before, x, zombies);
      SameMembers(before, popped, left, x);
      if x in left {
        var i: nat :| IsTop(left, i) && left[i].task !in zombies && !Due(left[i], now);
        assert left[i] in left;
        SameMembers(before, popped, left, left[i]);
        RanksTell(left[i].expire, x.expire);
      }
      var i :| 0 <= i < |popped| && popped[i] == x;
      WokenIff(popped, zombies, x.task);
    }
  }

  /** With all expiries up to 2^63, that is so if and only if any task that has not ended is due. */
  lemma RousesNear(heap: seq<Timer>, now: nat, zombies: set<Tid>)
    requires forall x :: x in heap ==> x.expire <= SIGN
    ensures Rouses(heap, now, zombies) <==> exists x :: x in heap && x.task !in zombies && Due(x, now)
  {
    if x :| x in heap && x.task !in zombies && Due(x, now) {
      var i :| 0 <= i < |heap| && heap[i] == x;
      var y := Earliest(heap, zombies, i);
      assert HighestLive(heap, y, zombies);
    }
  }

  lemma {:induction false} Earliest(heap: seq<Timer>, zombies: set<Tid>, i: nat) returns (y: Timer)
    requires i < |heap| && heap[i].task !in zombies
    ensures y in heap && y.task !in zombies && forall b :: b in heap && b.task !in zombies ==> y.expire <= b.expire
    decreases |heap|
  {
    var n := |heap| - 1;
    var rest, last := heap[..n], heap[n];
    assert heap == rest + [last];
    if j :| 0 <= j < n && heap[j].task !in zombies {
      assert rest[j] == heap[j];
      y := Earliest(rest, zombies, j);
      if last.task !in zombies && last.expire < y.expire {
        y := last;
      }
    } else {
      y := last;
    }
  }

  /** Timer `b`, of a task that has not ended, is not due and ranks above `x`, which is. */
  predicate Hides(b: Timer, x: Timer, now: nat, zombies: set<Tid>) {
    b.task !in zombies && !Due(b, now) && Due(x, now) && Rank(b.expire) > Rank(x.expire)
  }

  /** A task still asleep, and not due, that the heap ranks above timers that are due. */
  ghost predicate Obstacle(heap: seq<Timer>, now: nat, zombies: set<Tid>) {
    exists b, x :: b in heap && x in heap && Hides(b, x, now, zombies)
  }

  lemma SameMembers(before: seq<Timer>, popped: seq<Timer>, left: seq<Timer>, x: Timer)
    requires multiset(before) == multiset(popped) + multiset(left)
    ensures x in before <==> x in popped || x in left
  {
    assert x in before <==> x in multiset(before);
  }

  /** An obstacle keeps a due timer in the heap. */
  lemma ObstacleHides(before: seq<Timer>, popped: seq<Timer>, left: seq<Timer>, now: nat, zombies: set<Tid>)
    requires Checked(before, popped, left, now, zombies) && Obstacle(before, now, zombies)
    ensures exists x :: x in left && Due(x, now)
  {
    hide Rank;
    var b, x :| b in before && x in before && Hides(b, x, now, zombies);
    SameMembers(before, popped, left, b);
    SameMembers(before, popped, left, x);
    assert b in left;
    assert forall i :: 0 <= i < |popped| ==> Rank(popped[i].expire) >= Rank(b.expire);
    assert x !in popped;
  }

  /** A due timer left in the heap is hidden by an obstacle. */
  lemma LeftIsHidden(before: seq<Timer>, popped: seq<Timer>, left: seq<Timer>, now: nat, zombies: set<Tid>, x: Timer)
    requires Checked(before, popped, left, now, zombies) && x in left && Due(x, now)
    requires forall y :: y in before ==> y.expire < 2 * SIGN
    ensures Obstacle(before, now, zombies)
  {
    hide Rank, Taken, AllDue;
    var i: nat :| IsTop(left, i) && left[i].task !in zombies && !Due(left[i], now);
    var j :| 0 <= j < |left| && left[j] == x;
    TakenMembers(before, popped, left, left[i]);
    TakenMembers(before, popped, left, x);
    RanksDiffer(left[i].expire, x.expire);
    assert Hides(left[i], x, now, zombies);
  }

  lemma RanksDiffer(a: nat, b: nat)
    requires a < 2 * SIGN && b < 2 * SIGN && a != b
    ensures Rank(a) != Rank(b)
  {
  }

  lemma TakenMembers(before: seq<Timer>, popped: seq<Timer>, left: seq<Timer>, x: Timer)
    requires Taken(before, popped, left) && x in left
    ensures x in before
  {
    hide Rank;
    SameMembers(before, popped, left, x);
  }

  /** A check leaves no timer that is due if and only if no obstacle stood in the heap. */
  lemma NoneDueLeft(before: seq<Timer>, popped: seq<Timer>, left: seq<Timer>, now: nat, zombies: set<Tid>)
    requires Checked(before, popped, left, now, zombies) && forall x :: x in before ==> x.expire < 2 * SIGN
    ensures (forall x :: x in left ==> x.expire > now) <==> !Obstacle(before, now, zombies)
  {
    hide Checked, Obstacle;
    if Obstacle(before, now, zombies) {
      ObstacleHides(before, popped, left, now, zombies);
    }
    if x :| x in left && Due(x, now) {
      LeftIsHidden(before, popped, left, now, zombies, x);
    }
  }

  /** An obstacle is a timer beyond 2^63 that is not due, beside one up to 2^63 that is. */
  lemma ObstacleIsFar(heap: seq<Timer>, now: nat, zombies: set<Tid>)
    requires forall x :: x in heap ==> x.expire < 2 * SIGN
    ensures Obstacle(heap, now, zombies) <==>
      exists b, x ::
        && b in heap && x in heap && b.task !in zombies && x.expire <= now < b.expire && x.expire <= SIGN < b.expire
  {
  }

  /** Somewhere in `q`, `t` comes before `u`. */
  ghost predicate InOrder(q: seq<Tid>, t: Tid, u: Tid) {
    exists i, j :: 0 <= i < j < |q| && q[i] == t && q[j] == u
  }

  lemma {:induction false} WokenInOrder(popped: seq<Timer>, zombies: set<Tid>, i: nat, j: nat)
    requires i < j < |popped| && popped[i].task !in zombies && popped[j].task !in zombies
    ensures InOrder(Woken(popped, zombies), popped[i].task, popped[j].task)
    decreases |popped|
  {
    var n := |popped| - 1;
    var front := Woken(popped[..n], zombies);
    var all := Woken(popped, zombies);
    if j < n {
      WokenInOrder(popped[..n], zombies, i, j);
      var a, b :| 0 <= a < b < |front| && front[a] == popped[i].task && front[b] == popped[j].task;
      assert all[a] == front[a] && all[b] == front[b];
    } else {
      assert popped[..n][i] == popped[i];
      WokenIff(popped[..n], zombies, popped[i].task);
      var a :| 0 <= a < |front| && front[a] == popped[i].task;
      assert all[a] == front[a] && all[|front|] == popped[j].task;
    }
  }

  lemma WokenAreDue(before: seq<Timer>, popped: seq<Timer>, left: seq<Timer>, now: nat, zombies: set<Tid>, t: Tid)
    requires Checked(before, popped, left, now, zombies) && forall x :: x in before ==> x.expire <= SIGN
    ensures t in Woken(popped, zombies) <==>
      t !in zombies && exists x :: x in before && x.task == t && x.expire <= now
  {
    WokenIff(popped, zombies, t);
    hide Woken;
    NoneDueLeft(before, popped, left, now, zombies);
    assert !Obstacle(before, now, zombies);
    if t in Woken(popped, zombies) {
      var i :| 0 <= i < |popped| && popped[i].task == t;
      assert popped[i] in popped;
      SameMembers(before, popped, left, popped[i]);
    }
    if x :| x in before && x.task == t && x.expire <= now {
      SameMembers(before, popped, left, x);
      var i :| 0 <= i < |popped| && popped[i] == x;
    }
  }

  lemma EarlierFirst(before: seq<Timer>, popped: seq<Timer>, left: seq<Timer>, now: nat, zombies: set<Tid>, x: Timer,
                     y: Timer)
    requires Checked(before, popped, left, now, zombies) && forall z :: z in before ==> z.expire <= SIGN
    requires x in before && y in before && x.task !in zombies && y.task !in zombies && x.expire < y.expire <= now
    ensures InOrder(Woken(popped, zombies), x.task, y.task)
  {
    NoneDueLeft(before, popped, left, now, zombies);
    assert !Obstacle(before, now, zombies);
    SameMembers(before, popped, left, x);
    SameMembers(before, popped, left, y);
    var i :| 0 <= i < |popped| && popped[i] == x;
    var j :| 0 <= j < |popped| && popped[j] == y;
    assert i < j;
    hide Checked, Woken, InOrder;
    WokenInOrder(popped, zombies, i, j);
  }

  /**
   With all expiries up to 2^63, a check wakes exactly the sleepers that are due, the earliest first, and keeps all
   others.
   */
  lemma ChecksExactly(before: seq<Timer>, popped: seq<Timer>, left: seq<Timer>, now: nat, zombies: set<Tid>)
    requires Checked(before, popped, left, now, zombies) && forall x :: x in before ==> x.expire <= SIGN
    ensures forall x :: x in left ==> x.expire > now
    ensures forall x :: x in before && x.task !in zombies ==> (x in popped <==> x.expire <= now)
    ensures forall x :: x in before && x.task !in zombies && x.expire > now ==> multiset(left)[x] == multiset(before)[x]
    ensures forall i, j :: 0 <= i < j < |popped| ==> popped[i].expire <= popped[j].expire
    ensures forall t :: t in Woken(popped, zombies) <==>
      t !in zombies && exists x :: x in before && x.task == t && x.expire <= now
    ensures forall x, y ::
      x in before && y in before && x.task !in zombies && y.task !in zombies && x.expire < y.expire <= now ==>
      InOrder(Woken(popped, zombies), x.task, y.task)
  {
    forall t: Tid ensures t in Woken(popped, zombies) <==>
      t !in zombies && exists x :: x in before && x.task == t && x.expire <= now
    {
      WokenAreDue(before, popped, left, now, zombies, t);
    }
    forall x, y
      | x in before && y in before && x.task !in zombies && y.task !in zombies && x.expire < y.expire <= now
      ensures InOrder(Woken(popped, zombies), x.task, y.task)
    {
      EarlierFirst(before, popped, left, now, zombies, x, y);
    }
    hide Woken;
    forall x ensures x in before <==> x in popped || x in left {
      SameMembers(before, popped, left, x);
    }
    NoneDueLeft(before, popped, left, now, zombies);
    assert !Obstacle(before, now, zombies);
  }

  /** A sleeper far in the future hides one that is due. */
  lemma FarTimerHides()
    ensures var heap := [Timer(SIGN + 5, 1), Timer(3, 2)];
      Obstacle(heap, 10, {}) && Checked(heap, [], heap, 10, {}) && Due(heap[1], 10)
  {
    var heap := [Timer(SIGN + 5, 1), Timer(3, 2)];
    assert heap[0] in heap && heap[1] in heap;
    assert IsTop(heap, 0);
  }
}
