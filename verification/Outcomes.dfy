/**
 What becomes of the caller and of those who wait in each call on a mutex, semaphore or condition variable, told by who
 holds, who waits and what is left, in every state that a run can reach.
 */
module Outcomes {
  import opened Results
  import opened Sync
  import opened Tasks
  import opened TaskPlaces
  import opened MutexRuns
  import opened SemaphoreRuns

  /** Task `h` returned from `lock`, has not unlocked since, and still exists. */
  predicate Holds(s: State, m: nat, h: Tid) {
    m < |s.holders| && h in s.holders[m] && h in s.tasks
  }

  /** Holding a mutex and being its recorded owner are one thing, for tasks that exist. */
  lemma HolderIsOwner(s: State, m: nat, h: Tid)
    requires MutexesOk(s) && m < |s.mutexes|
    ensures Holds(s, m, h) <==> s.mutexes[m].locked == Some(h) && h in s.tasks
  {
    assert MutexOk(s, m);
  }

  /** Nobody moves, and the running task is in user code. */
  ghost predicate ReturnsToUser(s: State, s': State)
    requires Busy(s)
  {
    && s'.current == s.current && s'.tasks == s.tasks[s.current.value := Task(Status.Running, User)]
    && forall p :: SameQueue(s, s', p)
  }

  /** The running task, and nobody else, moves to the back of the line at `p`, to go on with `pc`. */
  ghost predicate Queues(s: State, s': State, p: Place, status: Status, pc: Pc)
    requires Busy(s)
  {
    && s'.current == None && s'.tasks == s.tasks[s.current.value := Task(status, pc)]
    && Queue(s', p) == Queue(s, p) + [s.current.value]
    && forall q :: q != p && q != OnCpu ==> SameQueue(s, s', q)
  }

  /** The first of those who wait at `p`, and nobody else, moves to the back of the ready queue, to go on with `pc`. */
  ghost predicate Wakes(s: State, s': State, p: Place, pc: Pc) {
    && Queue(s, p) != [] && s'.tasks == s.tasks[Queue(s, p)[0] := Task(Ready, pc)]
    && s'.ready == s.ready + [Queue(s, p)[0]] && Queue(s', p) == Queue(s, p)[1..]
    && forall q :: q != p && q != InReady ==> SameQueue(s, s', q)
  }

  ghost predicate WakesNobody(s: State, s': State) {
    s'.tasks == s.tasks && forall q :: SameQueue(s, s', q)
  }

  // ---------- mutexes ----------

  /** The other mutexes, and who holds them, are left alone; so is everything that is not a mutex. */
  ghost predicate OnlyMutex(s: State, s': State, m: nat) {
    && m < |s.mutexes| == |s'.mutexes| && |s.holders| == |s'.holders| == |s.mutexes|
    && (forall l :: 0 <= l < |s.mutexes| && l != m ==> s'.mutexes[l] == s.mutexes[l] && s'.holders[l] == s.holders[l])
    && s'.semaphores == s.semaphores && s'.records == s.records
  }

  /** With no holder, the caller gets the mutex, whoever waits. */
  lemma LockFree(s: State, m: nat)
    requires MutexesOk(s) && Busy(s) && m < |s.mutexes| && forall h :: !Holds(s, m, h)
    ensures var t, s' := s.current.value, LockStep(s, m);
      && s.mutexes[m].Lock(t, s.tasks.Keys).1 == Acquired && OnlyMutex(s, s', m) && ReturnsToUser(s, s')
      && s'.mutexes[m].locked == Some(t) && s'.holders[m] == s.holders[m] + {t}
  {
    if s.mutexes[m].locked.Some? {
      HolderIsOwner(s, m, s.mutexes[m].locked.value);
    }
    forall p ensures SameQueue(s, LockStep(s, m), p) {
    }
  }

  /** The holder is refused, and nothing changes. */
  lemma LockTwice(s: State, m: nat)
    requires MutexesOk(s) && Busy(s) && m < |s.mutexes| && Holds(s, m, s.current.value)
    ensures s.mutexes[m].Lock(s.current.value, s.tasks.Keys).1 == Double
    ensures LockStep(s, m) == Onward(s, User)
  {
    HolderIsOwner(s, m, s.current.value);
  }

  /** While another task holds the mutex the caller waits: at the mutex, or in the ready queue if the mutex spins. */
  lemma LockHeld(s: State, m: nat, h: Tid)
    requires MutexesOk(s) && Busy(s) && m < |s.mutexes| && Holds(s, m, h) && h != s.current.value
    ensures var t, s', spin := s.current.value, LockStep(s, m), s.mutexes[m].SpinMutex?;
      && s.mutexes[m].Lock(t, s.tasks.Keys).1 == (if spin then Spin else Attempt.Blocked) && OnlyMutex(s, s', m)
      && (if spin then Queues(s, s', InReady, Ready, Locking(m))
          else Queues(s, s', AtMutex(m), Status.Blocked, Locking(m)))
      && s'.mutexes[m].locked == Some(h) && s'.holders[m] == s.holders[m]
  {
    HolderIsOwner(s, m, h);
    if s.mutexes[m].BlockingMutex? {
      SpinBranchIsDead(s, m, s.current.value);
    }
    var s' := LockStep(s, m);
    var p := if s.mutexes[m].SpinMutex? then InReady else AtMutex(m);
    forall q | q != OnCpu && q != p ensures SameQueue(s, s', q) {
    }
  }

  /**
   Who gets the mutex, who waits and who is refused: the caller gets it exactly when nobody holds it, is refused exactly
   when it holds the mutex itself, and waits exactly when another task does.
   */
  lemma LockIff(s: State, m: nat)
    requires MutexesOk(s) && Busy(s) && m < |s.mutexes|
    ensures var a := s.mutexes[m].Lock(s.current.value, s.tasks.Keys).1;
      && (a == Acquired <==> forall h :: !Holds(s, m, h))
      && (a == Double <==> Holds(s, m, s.current.value))
      && (a == (if s.mutexes[m].SpinMutex? then Spin else Attempt.Blocked) <==>
          exists h :: h != s.current.value && Holds(s, m, h))
  {
    if h :| Holds(s, m, h) {
      if h == s.current.value {
        LockTwice(s, m);
        HolderIsOwner(s, m, h);
        forall g | g != h ensures !Holds(s, m, g) {
          HolderIsOwner(s, m, g);
        }
      } else {
        LockHeld(s, m, h);
        HolderIsOwner(s, m, h);
        HolderIsOwner(s, m, s.current.value);
      }
    } else {
      LockFree(s, m);
    }
  }

  /** Unlocking is refused exactly while another task holds the mutex, and then changes nothing. */
  lemma UnlockIff(s: State, m: nat)
    requires MutexesOk(s) && Busy(s) && m < |s.mutexes|
    ensures UnlockStep(s, m).1 <==> forall h :: Holds(s, m, h) ==> h == s.current.value
    ensures !UnlockStep(s, m).1 ==> UnlockStep(s, m).0 == s
  {
    hide PopAlive;
    if s.mutexes[m].locked.Some? {
      HolderIsOwner(s, m, s.mutexes[m].locked.value);
    }
    forall h: Tid | Holds(s, m, h) ensures s.mutexes[m].locked == Some(h) {
      HolderIsOwner(s, m, h);
    }
  }

  /** After it the mutex has no owner and the caller does not hold it; nothing else changes hands. */
  lemma UnlockReleases(s: State, m: nat)
    requires Busy(s) && m < |s.mutexes| == |s.holders| && UnlockStep(s, m).1
    ensures var s' := UnlockStep(s, m).0;
      && OnlyMutex(s, s', m) && s'.current == s.current
      && s'.mutexes[m].locked == None && s'.holders[m] == s.holders[m] - {s.current.value}
  {
    hide PopAlive;
  }

  /** Somebody waits, and no task that still exists has been named as the next one. */
  predicate HandsOver(s: State, m: nat) {
    && m < |s.mutexes| && s.mutexes[m].Waiting() != []
    && !(s.mutexes[m].next.Some? && s.mutexes[m].next.value in s.tasks)
  }

  /** Then the first of those who wait becomes the next one, ready to try the lock; else nobody is woken. */
  lemma UnlockWakes(s: State, m: nat)
    requires Placed(s) && Busy(s) && m < |s.mutexes| == |s.holders| && UnlockStep(s, m).1
    ensures var s' := UnlockStep(s, m).0;
      if HandsOver(s, m) then
        Wakes(s, s', AtMutex(m), Locking(m)) && s'.mutexes[m].BlockingMutex?
        && s'.mutexes[m].next == Some(s.mutexes[m].Waiting()[0])
      else WakesNobody(s, s') && (s.mutexes[m].BlockingMutex? ==> s'.mutexes[m] == s.mutexes[m].(locked := None))
  {
    FirstIsWoken(s, AtMutex(m));
    var s' := UnlockStep(s, m).0;
    assert PlacedAt(s, AtMutex(m));
    hide Placed;
    if HandsOver(s, m) {
      assert Queue(s, AtMutex(m))[0] in Queue(s, AtMutex(m));
      forall q | q != AtMutex(m) && q != InReady ensures SameQueue(s, s', q) {
      }
    } else {
      forall q ensures SameQueue(s, s', q) {
      }
    }
  }

  /** A holder's unlock succeeds, and hands over to the first of those who wait, if anyone does. */
  lemma HolderUnlocks(s: State, m: nat)
    requires Placed(s) && MutexesOk(s) && Busy(s) && m < |s.mutexes| && Holds(s, m, s.current.value)
    ensures UnlockStep(s, m).1
    ensures var s' := UnlockStep(s, m).0;
      && (forall h :: !Holds(s', m, h))
      && if s.mutexes[m].Waiting() == [] then WakesNobody(s, s')
         else Wakes(s, s', AtMutex(m), Locking(m)) && Trying(s', s.mutexes[m].Waiting()[0], m)
  {
    HolderIsOwner(s, m, s.current.value);
    assert MutexOk(s, m);
    forall h | Holds(s, m, h) ensures h == s.current.value {
      HolderIsOwner(s, m, h);
    }
    UnlockIff(s, m);
    UnlockReleases(s, m);
    UnlockWakes(s, m);
    hide UnlockStep, Placed, MutexesOk;
  }

  /** A new mutex is of the kind asked for, in the caller's table; nobody holds it, and nobody waits. */
  lemma NewMutex(s: State, spin: bool)
    requires Homed(s) && |s.mutexes| == |s.holders| == |s.mutexOf|
    ensures var s', m := MakeMutexStep(s, spin), |s.mutexes|;
      && |s'.mutexes| == |s'.holders| == |s'.mutexOf| == m + 1 && s'.mutexOf[m] == Here(s)
      && s'.mutexes[m].SpinMutex? == spin && s'.mutexes[m].locked == None && s'.mutexes[m].Waiting() == []
      && (forall h :: !Holds(s', m, h))
      && s'.mutexes[..m] == s.mutexes && WakesNobody(s, s')
  {
    forall q ensures SameQueue(s, MakeMutexStep(s, spin), q) {
    }
  }

  // ---------- condition variables ----------

  /** The mutex that the task at the head of the queue of `c` gave up. */
  function GaveUp(s: State, c: nat): nat
    requires c < |s.condvars| && s.condvars[c] != []
  {
    var w := s.condvars[c][0];
    if w in s.tasks && s.tasks[w].pc.Waiting? then s.tasks[w].pc.m else 0
  }

  /** A signal readies exactly the first of those who wait, which then has to lock the mutex it gave up. */
  lemma SignalWakes(s: State, c: nat)
    requires Placed(s) && c < |s.condvars|
    ensures SignalStep(s, c).mutexes == s.mutexes && SignalStep(s, c).holders == s.holders
    ensures s.condvars[c] == [] ==> SignalStep(s, c) == s
    ensures s.condvars[c] != [] ==>
      && Wakes(s, SignalStep(s, c), AtCondvar(c), Locking(GaveUp(s, c)))
      && s.condvars[c][0] in s.tasks && s.tasks[s.condvars[c][0]] == Task(Status.Blocked, Waiting(c, GaveUp(s, c)))
  {
    FirstIsWoken(s, AtCondvar(c));
    var s' := SignalStep(s, c);
    assert PlacedAt(s, AtCondvar(c));
    hide Placed;
    if s.condvars[c] != [] {
      assert s.condvars[c][0] in Queue(s, AtCondvar(c));
      forall q | q != AtCondvar(c) && q != InReady ensures SameQueue(s, s', q) {
      }
    }
  }

  /** `wait` is refused where unlocking is, and changes nothing then. */
  lemma WaitIff(s: State, c: nat, m: nat)
    requires MutexesOk(s) && Busy(s) && c < |s.condvars| && m < |s.mutexes|
    ensures (exists h :: h != s.current.value && Holds(s, m, h)) ==> WaitStep(s, c, m) == s
  {
    UnlockIff(s, m);
    hide UnlockStep;
  }

  /** Else the mutex is given up as by unlocking, and the caller waits at the back of the line. */
  lemma WaitReleases(s: State, c: nat, m: nat)
    requires Placed(s) && MutexesOk(s) && Busy(s) && c < |s.condvars| && m < |s.mutexes|
    requires forall h :: Holds(s, m, h) ==> h == s.current.value
    ensures var t, s' := s.current.value, WaitStep(s, c, m);
      && s'.current == None && s'.condvars == s.condvars[c := s.condvars[c] + [t]]
      && s'.tasks == UnlockStep(s, m).0.tasks[t := Task(Status.Blocked, Waiting(c, m))]
      && s'.ready == UnlockStep(s, m).0.ready && s'.mutexes == UnlockStep(s, m).0.mutexes
      && s'.mutexes[m].locked == None && s'.holders == s.holders[m := s.holders[m] - {t}]
  {
    UnlockIff(s, m);
    UnlockReleases(s, m);
    var s' := UnlockStep(s, m).0;
    assert s'.holders == s.holders[m := s.holders[m] - {s.current.value}];
    hide UnlockStep;
  }

  // ---------- semaphores ----------

  /** The other semaphores, and what happened at them, are left alone; so is every mutex. */
  ghost predicate OnlySemaphore(s: State, s': State, k: nat) {
    && k < |s.semaphores| == |s'.semaphores| && |s.records| == |s'.records| == |s.semaphores|
    && (forall l :: 0 <= l < |s.semaphores| && l != k ==>
          s'.semaphores[l] == s.semaphores[l] && s'.records[l] == s.records[l])
    && s'.mutexes == s.mutexes && s'.holders == s.holders
  }

  /** A new semaphore is of the kind asked for, with the count given; nobody waits, and nobody has been let through. */
  lemma NewSemaphore(s: State, spin: bool, count: int)
    requires Homed(s) && |s.semaphores| == |s.records| == |s.semaphoreOf|
    ensures var s', k := MakeSemaphoreStep(s, spin, count), |s.semaphores|;
      && |s'.semaphores| == |s'.records| == |s'.semaphoreOf| == k + 1 && s'.semaphoreOf[k] == Here(s)
      && s'.semaphores[k].SpinSemaphore? == spin && s'.semaphores[k].count == count
      && s'.semaphores[k].Waiting() == [] && s'.records[k] == Record(count, 0, 0, [], [])
      && s'.semaphores[..k] == s.semaphores && WakesNobody(s, s')
  {
    forall q ensures SameQueue(s, MakeSemaphoreStep(s, spin, count), q) {
    }
  }

  /** The call, or a round of it, lets the caller through exactly when the count is positive, and takes one from it. */
  lemma DownIff(s: State, k: nat)
    requires Busy(s) && k < |s.semaphores| == |s.records|
    ensures var s', count := DownStep(s, k), s.semaphores[k].count;
      && OnlySemaphore(s, s', k)
      && (count > 0 <==> s'.current == s.current)
      && (count > 0 ==>
            && ReturnsToUser(s, s') && s'.semaphores[k].count == count - 1
            && s'.records[k] == s.records[k].(granted := s.records[k].granted + 1))
      && (count <= 0 && s.semaphores[k].SpinSemaphore? ==>
            && Queues(s, s', InReady, Ready, Downing(k)) && s'.semaphores == s.semaphores && s'.records == s.records)
      && (count <= 0 && s.semaphores[k].BlockingSemaphore? ==>
            && Queues(s, s', AtSemaphore(k), Status.Blocked, Downing(k)) && s'.semaphores[k].count == count - 1
            && s'.records[k] == s.records[k].(blocked := s.records[k].blocked + [s.current.value]))
  {
    var s', count := DownStep(s, k), s.semaphores[k].count;
    if count > 0 {
      forall q ensures SameQueue(s, s', q) {
      }
    } else {
      var p := if s.semaphores[k].SpinSemaphore? then InReady else AtSemaphore(k);
      forall q | q != p && q != OnCpu ensures SameQueue(s, s', q) {
      }
    }
  }

  /** One more; and the first of those who wait, if the count shows that anyone does, is let through. */
  lemma UpWakes(s: State, k: nat)
    requires Placed(s) && SemaphoresOk(s) && k < |s.semaphores|
    ensures var s', sem, r := UpStep(s, k), s.semaphores[k], s.records[k];
      && OnlySemaphore(s, s', k) && s'.current == s.current && s'.semaphores[k].count == sem.count + 1
      && if sem.Waiting() != [] && sem.count < 0 then
           && Wakes(s, s', AtSemaphore(k), User)
           && s'.records[k] == Record(r.initial, r.ups + 1, r.granted + 1, r.blocked, r.woken + [sem.Waiting()[0]])
         else WakesNobody(s, s') && s'.records[k] == r.(ups := r.ups + 1)
    ensures s.records[k].initial >= 0 && s.semaphores[k].BlockingSemaphore? ==>
      (s.semaphores[k].Waiting() != [] <==> s.semaphores[k].count < 0)
  {
    FirstIsWoken(s, AtSemaphore(k));
    var s' := UpStep(s, k);
    assert PlacedAt(s, AtSemaphore(k)) && SemaphoreOk(s.semaphores[k], s.records[k]);
    hide Placed, SemaphoresOk;
    if s.semaphores[k].Waiting() != [] && s.semaphores[k].count < 0 {
      assert Queue(s, AtSemaphore(k))[0] in Queue(s, AtSemaphore(k));
      forall q | q != AtSemaphore(k) && q != InReady ensures SameQueue(s, s', q) {
      }
    } else {
      forall q ensures SameQueue(s, s', q) {
      }
    }
  }
}
