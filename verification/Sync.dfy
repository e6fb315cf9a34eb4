/** Mutexes, semaphores and condition variables: what each call does to the object, and whom it wakes. */
module Sync {
  import opened Results

  /** A task, by the identity of its control block: never used again for another task. */
  type Tid = nat

  /** Drops dead tasks from the front of a queue until one is found that is still alive. */
  function PopAlive(q: seq<Tid>, alive: set<Tid>): (r: (Option<Tid>, seq<Tid>))
    decreases |q|
  {
    if q == [] then (None, [])
    else if q[0] in alive then (Some(q[0]), q[1..])
    else PopAlive(q[1..], alive)
  }

  lemma PopsFirst(q: seq<Tid>, alive: set<Tid>)
    requires forall t :: t in q ==> t in alive
    ensures PopAlive(q, alive) == if q == [] then (None, []) else (Some(q[0]), q[1..])
  {
  }

  /** The first task that is still alive is taken, and with it go all before it; with none alive, all go. */
  lemma {:induction false} PopsFirstAlive(q: seq<Tid>, alive: set<Tid>, n: nat)
    requires n <= |q| && (forall i :: 0 <= i < n ==> q[i] !in alive) && (n < |q| ==> q[n] in alive)
    ensures PopAlive(q, alive) == if n < |q| then (Some(q[n]), q[n + 1..]) else (None, [])
    decreases n
  {
    if n > 0 {
      PopsFirstAlive(q[1..], alive, n - 1);
    }
  }

  /** A remembered task that still exists. */
  predicate Alive(t: Option<Tid>, alive: set<Tid>) {
    t.Some? && t.value in alive
  }

  /** How an attempt to lock ends: with the lock, with an error, back in the ready queue, or blocked. */
  datatype Attempt = Acquired | Double | Spin | Blocked

  /** `MutexSpinInner` or `MutexBlockingInner`. */
  datatype Mutex =
    | SpinMutex(locked: Option<Tid>)
    | BlockingMutex(locked: Option<Tid>, next: Option<Tid>, waiting: seq<Tid>)
  {
    function Waiting(): seq<Tid> {
      if BlockingMutex? then waiting else []
    }

    /** One round of the loop in `lock`, by task `t`. */
    function Lock(t: Tid, alive: set<Tid>): (r: (Mutex, Attempt)) {
      if Alive(locked, alive) then
        if locked.value == t then (this, Double)
        else if SpinMutex? || (Alive(next, alive) && next.value == t) then (this, Spin)
        else (this.(waiting := waiting + [t]), Blocked)
      else if SpinMutex? then (SpinMutex(Some(t)), Acquired)
      else (BlockingMutex(Some(t), None, waiting), Acquired)
    }

    /** `unlock` by task `t`: refused while another live task is the owner; else the task woken, if any. */
    function Unlock(t: Tid, alive: set<Tid>): (r: (Mutex, Result<Option<Tid>>)) {
      if Alive(locked, alive) && locked.value != t then (this, Err(DoubleUnlockMutex))
      else if SpinMutex? then (SpinMutex(None), Ok(None))
      else if Alive(next, alive) then (BlockingMutex(None, next, waiting), Ok(None))
      else
        var p := PopAlive(waiting, alive);
        (BlockingMutex(None, if p.0.Some? then p.0 else next, p.1), Ok(p.0))
    }
  }

  /** `SemaphoreSpinInner` or `SemaphoreBlockingInner`. */
  datatype Semaphore =
    | SpinSemaphore(count: int)
    | BlockingSemaphore(count: int, waiting: seq<Tid>)
  {
    function Waiting(): seq<Tid> {
      if BlockingSemaphore? then waiting else []
    }

    function Up(alive: set<Tid>): (r: (Semaphore, Option<Tid>)) {
      if SpinSemaphore? then (SpinSemaphore(count + 1), None)
      else if count + 1 <= 0 then
        var p := PopAlive(waiting, alive);
        (BlockingSemaphore(count + 1, p.1), p.0)
      else (BlockingSemaphore(count + 1, waiting), None)
    }

    function Down(t: Tid): (r: (Semaphore, Attempt)) {
      if SpinSemaphore? then
        if count <= 0 then (this, Spin) else (SpinSemaphore(count - 1), Acquired)
      else if count - 1 < 0 then (BlockingSemaphore(count - 1, waiting + [t]), Blocked)
      else (BlockingSemaphore(count - 1, waiting), Acquired)
    }
  }

  /** The objects as they stand in the kernel, updated in place; what becomes of the caller is for the scheduler. */
  class MutexBlocking {
    var locked: Option<Tid>
    var next: Option<Tid>
    var waiting: seq<Tid>

    ghost function State(): Mutex
      reads this
    {
      BlockingMutex(locked, next, waiting)
    }

    constructor ()
      ensures State() == BlockingMutex(None, None, [])
    {
      locked := None;
      next := None;
      waiting := [];
    }

    method Lock(current: Tid, alive: set<Tid>) returns (r: Attempt)
      requires current in alive
      modifies this
      ensures (State(), r) == old(State()).Lock(current, alive)
      ensures r == Double <==> old(locked) == Some(current)
      ensures r == Acquired <==> old(locked).None? || old(locked).value !in alive
    {
      if locked.Some? && locked.value in alive {
        if locked.value == current {
          return Double;
        } else if next.Some? && next.value in alive && next.value == current {
          return Spin;
        }
        waiting := waiting + [current];
        return Blocked;
      }
      next := None;
      locked := Some(current);
      r := Acquired;
    }

    method Unlock(current: Tid, alive: set<Tid>) returns (r: Result<Option<Tid>>)
      modifies this
      ensures (State(), r) == old(State()).Unlock(current, alive)
      ensures r.Err? <==> old(locked).Some? && old(locked).value in alive && old(locked).value != current
      ensures r.Ok? ==> locked == None
    {
      if locked.Some? && locked.value in alive {
        if locked.value != current {
          return Err(DoubleUnlockMutex);
        }
      }
      r := Ok(None);
      if !(next.Some? && next.value in alive) {
        while waiting != []
          invariant PopAlive(waiting, alive) == PopAlive(old(waiting), alive)
          invariant locked == old(locked) && next == old(next) && r == Ok(None)
          decreases |waiting|
        {
          var other := waiting[0];
          waiting := waiting[1..];
          if other in alive {
            next := Some(other);
            r := Ok(Some(other));
            break;
          }
        }
      }
      locked := None;
    }
  }

  class MutexSpin {
    var locked: Option<Tid>

    constructor ()
      ensures locked == None
    {
      locked := None;
    }

    method Lock(current: Tid, alive: set<Tid>) returns (r: Attempt)
      requires current in alive
      modifies this
      ensures (SpinMutex(locked), r) == SpinMutex(old(locked)).Lock(current, alive)
      ensures r == Double <==> old(locked) == Some(current)
      ensures r == Acquired <==> old(locked).None? || old(locked).value !in alive
    {
      if locked.Some? && locked.value in alive {
        return if locked.value == current then Double else Spin;
      }
      locked := Some(current);
      r := Acquired;
    }

    method Unlock(current: Tid, alive: set<Tid>) returns (r: Result<Option<Tid>>)
      modifies this
      ensures (SpinMutex(locked), r) == SpinMutex(old(locked)).Unlock(current, alive)
      ensures r.Err? <==> old(locked).Some? && old(locked).value in alive && old(locked).value != current
      ensures r.Ok? ==> locked == None
    {
      if locked.Some? && locked.value in alive && locked.value != current {
        return Err(DoubleUnlockMutex);
      }
      locked := None;
      r := Ok(None);
    }
  }

  class SemaphoreBlocking {
    var count: int
    var waiting: seq<Tid>

    ghost function State(): Semaphore
      reads this
    {
      BlockingSemaphore(count, waiting)
    }

    constructor (count: int)
      ensures State() == BlockingSemaphore(count, [])
    {
      this.count := count;
      waiting := [];
    }

    /** `up`: the count that is returned, and the task woken. */
    method Up(alive: set<Tid>) returns (left: int, woken: Option<Tid>)
      modifies this
      ensures (State(), woken) == old(State()).Up(alive) && left == State().count
    {
      count := count + 1;
      left := count;
      woken := None;
      if count <= 0 {
        while waiting != []
          invariant PopAlive(waiting, alive) == PopAlive(old(waiting), alive) && left == count == old(count) + 1
          invariant woken == None
          decreases |waiting|
        {
          var other := waiting[0];
          waiting := waiting[1..];
          if other in alive {
            woken := Some(other);
            break;
          }
        }
      }
    }

    /** `down`: the count that is returned at once; a task that blocks reads it when it goes on. */
    method Down(current: Tid) returns (left: int, r: Attempt)
      modifies this
      ensures (State(), r) == old(State()).Down(current) && left == State().count
      ensures r == if old(count) > 0 then Acquired else Blocked
    {
      count := count - 1;
      left := count;
      if count < 0 {
        waiting := waiting + [current];
        return left, Blocked;
      }
      r := Acquired;
    }
  }

  class SemaphoreSpin {
    var count: int

    constructor (count: int)
      ensures this.count == count
    {
      this.count := count;
    }

    method Up() returns (left: int)
      modifies this
      ensures SpinSemaphore(count) == SpinSemaphore(old(count)).Up({}).0 && left == count
    {
      count := count + 1;
      left := count;
    }

    /** One round of the loop in `down`. */
    method Down(current: Tid) returns (left: int, r: Attempt)
      modifies this
      ensures (SpinSemaphore(count), r) == SpinSemaphore(old(count)).Down(current) && left == count
      ensures if old(count) > 0 then r == Acquired && count == old(count) - 1 else r == Spin && count == old(count)
    {
      if count <= 0 {
        return count, Spin;
      }
      count := count - 1;
      left, r := count, Acquired;
    }
  }

  class CondvarBlocking {
    var waiting: seq<Tid>

    constructor ()
      ensures waiting == []
    {
      waiting := [];
    }

    method Signal(alive: set<Tid>) returns (woken: Option<Tid>)
      modifies this
      ensures (woken, waiting) == PopAlive(old(waiting), alive)
    {
      woken := None;
      while waiting != []
        invariant PopAlive(waiting, alive) == PopAlive(old(waiting), alive) && woken == None
        decreases |waiting|
      {
        var other := waiting[0];
        waiting := waiting[1..];
        if other in alive {
          woken := Some(other);
          break;
        }
      }
    }
  }
}
