/** What holds of every mutex in every run. */
module MutexRuns {
  import opened Results
  import opened Sync
  import opened Processes
  import opened Tasks
  import opened TaskPlaces
  import opened TaskHomes

  /** Task `n` is about to try to lock mutex `m`, and nothing keeps it from doing so. */
  ghost predicate Trying(s: State, n: Tid, m: nat) {
    n in s.tasks && s.tasks[n].pc == Locking(m) && (s.tasks[n].status == Ready || s.tasks[n].status == Status.Running)
  }

  /**
   An owned mutex has no `next`; `next`, as long as its process stands, is about to try; whoever waits has an owner or a
   `next` to wait for; the recorded owner returned from `lock` and has not unlocked since; and a task that holds the
   mutex, as long as it exists, is the recorded owner.
   */
  ghost predicate MutexOk(s: State, m: nat)
    requires m < |s.mutexes| == |s.holders|
  {
    var mx := s.mutexes[m];
    && (mx.BlockingMutex? ==>
          && (mx.locked.Some? ==> mx.next.None?)
          && (mx.next.Some? && m < |s.mutexOf| && s.mutexOf[m] !in s.dead ==> Trying(s, mx.next.value, m))
          && (mx.waiting != [] ==> mx.locked.Some? || mx.next.Some?))
    && (mx.locked.Some? ==> mx.locked.value in s.holders[m])
    && (forall h :: h in s.holders[m] ==> h < s.limit && (h in s.tasks ==> mx.locked == Some(h)))
  }

  ghost predicate MutexesOk(s: State) {
    |s.mutexes| == |s.holders| && forall m :: 0 <= m < |s.mutexes| ==> MutexOk(s, m)
  }

  /** The step lets the running task return from `lock` of mutex `m`. */
  predicate Acquires(s: State, e: Event, m: nat)
    requires Enabled(s, e) && m < |s.mutexes|
  {
    && (e == Lock(m) || (e.GoOn? && s.tasks[s.current.value].pc == Locking(m)))
    && s.mutexes[m].Lock(s.current.value, s.tasks.Keys).1.Acquired?
  }

  /** The step lets the running task release mutex `m`. */
  predicate Releases(s: State, e: Event, m: nat)
    requires Enabled(s, e) && m < |s.mutexes|
  {
    (e == Unlock(m) || (e.Wait? && e.m == m)) && s.mutexes[m].Unlock(s.current.value, s.tasks.Keys).1.Ok?
  }

  /** A task holds a mutex from the step in which it returns from `lock` to the step in which it unlocks. */
  lemma HoldsUntilReleased(s: State, e: Event, m: nat, t: Tid)
    requires Enabled(s, e) && m < |s.mutexes| == |s.holders|
    ensures m < |Step(s, e).holders|
    ensures t in Step(s, e).holders[m] <==>
      (t in s.holders[m] && !(Releases(s, e, m) && s.current == Some(t))) || (Acquires(s, e, m) && s.current == Some(t))
  {
    if Apart(e) {
      ApartSame(s, e);
      hide Step, Enabled;
    } else {
      MutexCallHolds(s, e, m, t);
      hide ObjectStep, ObjectEnabled;
    }
  }

  lemma MutexCallHolds(s: State, e: Event, m: nat, t: Tid)
    requires OnObjects(e) && ObjectEnabled(s, e) && !Apart(e) && m < |s.mutexes| == |s.holders|
    ensures m < |ObjectStep(s, e).holders|
    ensures t in ObjectStep(s, e).holders[m] <==>
      (t in s.holders[m] && !(Releases(s, e, m) && s.current == Some(t))) || (Acquires(s, e, m) && s.current == Some(t))
  {
    hide LockStep, UnlockStep, WaitStep, DownStep;
    match e
    case Lock(l) => LockHolds(s, l, m, t);
    case Unlock(l) => UnlockHolds(s, l, m, t);
    case Wait(c, l) => WaitHolds(s, c, l, m, t);
    case GoOn => GoOnHolds(s, m, t);
    case MakeMutex(spin) =>
  }

  lemma LockHolds(s: State, l: nat, m: nat, t: Tid)
    requires Busy(s) && l < |s.mutexes| == |s.holders| && m < |s.mutexes|
    ensures |LockStep(s, l).holders| == |s.holders|
    ensures t in LockStep(s, l).holders[m] <==>
      || t in s.holders[m]
      || (l == m && s.mutexes[m].Lock(s.current.value, s.tasks.Keys).1.Acquired? && s.current == Some(t))
  {
  }

  lemma UnlockHolds(s: State, l: nat, m: nat, t: Tid)
    requires Busy(s) && l < |s.mutexes| == |s.holders| && m < |s.mutexes|
    ensures |UnlockStep(s, l).0.holders| == |s.holders|
    ensures t in UnlockStep(s, l).0.holders[m] <==>
      t in s.holders[m] && !(l == m && s.mutexes[m].Unlock(s.current.value, s.tasks.Keys).1.Ok? && s.current == Some(t))
  {
    hide PopAlive;
  }

  lemma WaitHolds(s: State, c: nat, l: nat, m: nat, t: Tid)
    requires Busy(s) && c < |s.condvars| && l < |s.mutexes| == |s.holders| && m < |s.mutexes|
    ensures |WaitStep(s, c, l).holders| == |s.holders|
    ensures t in WaitStep(s, c, l).holders[m] <==>
      t in s.holders[m] && !(l == m && s.mutexes[m].Unlock(s.current.value, s.tasks.Keys).1.Ok? && s.current == Some(t))
  {
    UnlockHolds(s, l, m, t);
    var s' := UnlockStep(s, l).0;
    hide UnlockStep;
  }

  lemma GoOnHolds(s: State, m: nat, t: Tid)
    requires ObjectEnabled(s, GoOn) && m < |s.mutexes| == |s.holders|
    ensures |ObjectStep(s, GoOn).holders| == |s.holders|
    ensures t in ObjectStep(s, GoOn).holders[m] <==>
      t in s.holders[m]
      || (s.tasks[s.current.value].pc == Locking(m) && s.current == Some(t)
        && s.mutexes[m].Lock(s.current.value, s.tasks.Keys).1.Acquired?)
  {
    var pc := s.tasks[s.current.value].pc;
    if pc.Locking? {
      LockHolds(s, pc.m, m, t);
    }
    hide LockStep;
  }

  /** At most one live task holds a mutex. */
  lemma MutualExclusion(s: State, m: nat, g: Tid, h: Tid)
    requires MutexesOk(s) && m < |s.mutexes| && g in s.holders[m] && h in s.holders[m] && g in s.tasks && h in s.tasks
    ensures g == h && s.mutexes[m].locked == Some(g)
  {
    assert MutexOk(s, m);
  }

  /** The branch of `lock` in which an owned mutex names the caller as `next` is never taken. */
  lemma SpinBranchIsDead(s: State, m: nat, t: Tid)
    requires MutexesOk(s) && m < |s.mutexes| && s.mutexes[m].BlockingMutex?
    ensures s.mutexes[m].Lock(t, s.tasks.Keys).1 != Spin
  {
    assert MutexOk(s, m);
  }

  /** The tasks that wait for a mutex are of the process that has it, and that process has not ended. */
  lemma WaitersAtHome(s: State, m: nat)
    requires Placed(s) && Housed(s) && m < |s.mutexes| && s.mutexes[m].Waiting() != []
    ensures s.mutexOf[m] !in s.dead
  {
    var w := s.mutexes[m].Waiting()[0];
    assert w in Queue(s, AtMutex(m)) && PlacedAt(s, AtMutex(m));
    assert HousedAt(s, w);
  }

  /**
   No wakeup is lost: while someone waits, the mutex has a holder, or a task that can run is about to try the lock.
   */
  lemma NoLostWakeup(s: State, m: nat)
    requires Placed(s) && Housed(s) && MutexesOk(s) && m < |s.mutexes| && s.mutexes[m].Waiting() != []
    ensures
      var mx := s.mutexes[m];
      if mx.locked.Some? then mx.locked.value in s.holders[m] else mx.next.Some? && Trying(s, mx.next.value, m)
  {
    WaitersAtHome(s, m);
    assert MutexOk(s, m);
  }

  /** No task that can still act holds the mutex, or is the one that is about to try. */
  ghost predicate Stranded(s: State, m: nat)
    requires m < |s.mutexes| == |s.holders|
  {
    forall t :: t in s.tasks && !Over(s, t) ==>
      !(t in s.holders[m] || (s.mutexes[m].BlockingMutex? && s.mutexes[m].next == Some(t) && Trying(s, t, m)))
  }

  /** Those who wait have nobody to wait for exactly when the recorded owner ended with the mutex locked. */
  lemma StrandedIff(s: State, m: nat)
    requires Placed(s) && Housed(s) && MutexesOk(s) && m < |s.mutexes| && s.mutexes[m].Waiting() != []
    ensures Stranded(s, m) <==> s.mutexes[m].locked.Some? && Over(s, s.mutexes[m].locked.value)
  {
    NoLostWakeup(s, m);
    assert MutexOk(s, m);
  }

  /** That comes about exactly when the owner exits, or a root task over it. */
  lemma OwnerEnds(s: State, e: Event, m: nat, h: Tid)
    requires Placed(s) && Enabled(s, e) && m < |s.mutexes| == |s.holders| && s.mutexes[m].locked == Some(h)
    requires !Over(s, h)
    ensures m < |Step(s, e).mutexes|
    ensures Step(s, e).mutexes[m].locked == Some(h) && Over(Step(s, e), h) <==> Ends(s, e, h)
  {
    EndsOnlyByExit(s, e, h);
    MutexesStay(s, e);
    if e.Exit? {
      ApartSame(s, e);
    }
    hide Step, Enabled;
  }

  /** Mutexes do not go away. */
  lemma MutexesStay(s: State, e: Event)
    requires Enabled(s, e) && |s.mutexes| == |s.holders|
    ensures |s.mutexes| <= |Step(s, e).mutexes|
  {
    hide LockStep, UnlockStep, WaitStep, DownStep, ExitStep, ExitPanics;
    match e
    case Lock(l) => LockSizes(s, l);
    case Unlock(l) => UnlockSizes(s, l);
    case Wait(c, l) => WaitSizes(s, c, l);
    case GoOn => GoOnSizes(s);
    case MakeMutex(spin) =>
    case _ => ApartSame(s, e);
  }

  lemma LockSizes(s: State, l: nat)
    requires Busy(s) && l < |s.mutexes| == |s.holders|
    ensures |LockStep(s, l).mutexes| == |s.mutexes|
  {
  }

  lemma UnlockSizes(s: State, l: nat)
    requires Busy(s) && l < |s.mutexes| == |s.holders|
    ensures |UnlockStep(s, l).0.mutexes| == |s.mutexes|
  {
    hide PopAlive;
  }

  lemma WaitSizes(s: State, c: nat, l: nat)
    requires Busy(s) && c < |s.condvars| && l < |s.mutexes| == |s.holders|
    ensures |WaitStep(s, c, l).mutexes| == |s.mutexes|
  {
    UnlockSizes(s, l);
    var s' := UnlockStep(s, l).0;
    hide UnlockStep;
  }

  lemma GoOnSizes(s: State)
    requires ObjectEnabled(s, GoOn)
    ensures |ObjectStep(s, GoOn).mutexes| == |s.mutexes|
  {
    var pc := s.tasks[s.current.value].pc;
    if pc.Locking? {
      LockSizes(s, pc.m);
    }
    hide LockStep;
  }

  /** While the control block of an owner that ended is there, nobody gets the mutex, or gives it back. */
  lemma EndedOwnerBlocks(s: State, m: nat, t: Tid)
    requires m < |s.mutexes| && s.mutexes[m].locked.Some? && EndedIn(s, s.mutexes[m].locked.value) && t in s.tasks
    requires !Over(s, t)
    ensures !s.mutexes[m].Lock(t, s.tasks.Keys).1.Acquired? && s.mutexes[m].Unlock(t, s.tasks.Keys).1.Err?
  {
  }

  /** Once that is released, the next task to try gets the mutex, however many wait. */
  lemma ReleasedOwnerLets(s: State, m: nat, t: Tid)
    requires m < |s.mutexes| && s.mutexes[m].locked.Some? && s.mutexes[m].locked.value !in s.tasks
    ensures s.mutexes[m].Lock(t, s.tasks.Keys).1.Acquired?
  {
  }

  // ---------- steps that leave a mutex alone ----------

  ghost predicate SameMutex(s: State, s': State, m: nat) {
    && m < |s.mutexes| == |s.holders| && |s'.mutexes| == |s.mutexes| && |s'.holders| == |s.holders|
    && s'.mutexes[m] == s.mutexes[m] && s'.holders[m] == s.holders[m]
  }

  /** Tasks only appear with numbers not used before. */
  ghost predicate NewAreNew(s: State, s': State) {
    s.limit <= s'.limit && forall h :: h in s'.tasks ==> h in s.tasks || h >= s.limit
  }

  lemma StaysOk(s: State, s': State, m: nat)
    requires SameMutex(s, s', m) && NewAreNew(s, s') && MutexOk(s, m)
    requires s'.mutexOf == s.mutexOf && s'.dead == s.dead
    requires s.mutexes[m].BlockingMutex? && s.mutexes[m].next.Some? && m < |s.mutexOf| && s.mutexOf[m] !in s.dead ==>
      Trying(s', s.mutexes[m].next.value, m)
    ensures MutexOk(s', m)
  {
  }

  /** Waking a task from the queue at `p` does not disturb a task that is trying. */
  lemma WakeKeepsTrying(s: State, s': State, p: Place, n: Tid, m: nat)
    requires Placed(s) && Trying(s, n, m) && p != OnCpu && p != InReady
    requires var w := PopAlive(Queue(s, p), s.tasks.Keys).0;
      s'.tasks == if w.Some? && w.value in s.tasks then s.tasks[w.value := Resumed(s.tasks[w.value])] else s.tasks
    ensures Trying(s', n, m)
  {
    assert PlacedAt(s, p);
    if p != Gone {
      FirstIsWoken(s, p);
    }
  }

  /** Steps that are not about mutexes. */
  predicate Apart(e: Event) {
    e.Up? || e.Down? || e.Signal? || e.MakeSemaphore? || e.MakeCondvar? || !OnObjects(e)
  }

  lemma ApartKeepsTrying(s: State, e: Event, n: Tid, m: nat)
    requires Placed(s) && Enabled(s, e) && Apart(e) && !e.Exit? && Trying(s, n, m)
    ensures Trying(Step(s, e), n, m)
  {
    assert n < s.limit;
    hide Placed, ObjectStep, TaskStep, IdleStep, ObjectEnabled, TaskEnabled, IdleEnabled;
    if OnObjects(e) {
      ObjectKeepsTrying(s, e, n, m);
    } else if OnTasks(e) {
      TaskKeepsTrying(s, e, n, m);
    } else {
      IdleKeepsTrying(s, e, n, m);
    }
  }

  lemma ObjectKeepsTrying(s: State, e: Event, n: Tid, m: nat)
    requires Placed(s) && OnObjects(e) && ObjectEnabled(s, e) && Apart(e) && Trying(s, n, m)
    ensures Trying(ObjectStep(s, e), n, m)
  {
    hide Placed, UpStep, SignalStep, DownStep;
    match e
    case Up(k) => UpKeepsTrying(s, k, n, m);
    case Signal(c) => SignalKeepsTrying(s, c, n, m);
    case Down(k) => DownKeepsTrying(s, k, n, m);
    case _ =>
  }

  lemma TaskKeepsTrying(s: State, e: Event, n: Tid, m: nat)
    requires OnTasks(e) && TaskEnabled(s, e) && !e.Exit? && Trying(s, n, m) && n < s.limit
    ensures Trying(TaskStep(s, e), n, m)
  {
  }

  lemma IdleKeepsTrying(s: State, e: Event, n: Tid, m: nat)
    requires Placed(s) && IdleEnabled(s, e) && Trying(s, n, m)
    ensures Trying(IdleStep(s, e), n, m)
  {
    hide Placed, ExpireStep, Without;
    match e
    case Expire(t) => ExpireKeepsTrying(s, t, n, m);
    case _ =>
  }

  lemma DownKeepsTrying(s: State, k: nat, n: Tid, m: nat)
    requires Busy(s) && k < |s.semaphores| == |s.records| && Trying(s, n, m) && !s.tasks[s.current.value].pc.Locking?
    ensures Trying(DownStep(s, k), n, m)
  {
  }

  lemma UpKeepsTrying(s: State, k: nat, n: Tid, m: nat)
    requires Placed(s) && k < |s.semaphores| == |s.records| && Trying(s, n, m)
    ensures Trying(UpStep(s, k), n, m)
  {
    var sem := s.semaphores[k];
    if sem.BlockingSemaphore? && sem.count + 1 <= 0 {
      WakeKeepsTrying(s, UpStep(s, k), AtSemaphore(k), n, m);
    }
  }

  lemma SignalKeepsTrying(s: State, c: nat, n: Tid, m: nat)
    requires Placed(s) && c < |s.condvars| && Trying(s, n, m)
    ensures Trying(SignalStep(s, c), n, m)
  {
    hide Placed;
    WakeKeepsTrying(s, SignalStep(s, c), AtCondvar(c), n, m);
  }

  lemma ExpireKeepsTrying(s: State, t: Tid, n: Tid, m: nat)
    requires Placed(s) && t in s.timers && Trying(s, n, m)
    ensures Trying(ExpireStep(s, t), n, m)
  {
    assert PlacedAt(s, InTimer) && t in Queue(s, InTimer);
  }

  lemma ApartKeepsMutexes(s: State, e: Event)
    requires Placed(s) && Enabled(s, e) && Apart(e) && !e.Exit? && MutexesOk(s)
    ensures MutexesOk(Step(s, e))
  {
    var s' := Step(s, e);
    ApartSame(s, e);
    hide Placed, Enabled, Step;
    forall m | 0 <= m < |s'.mutexes| ensures MutexOk(s', m) {
      assert MutexOk(s, m);
      var mx := s.mutexes[m];
      if mx.BlockingMutex? && mx.next.Some? && m < |s.mutexOf| && s.mutexOf[m] !in s.dead {
        ApartKeepsTrying(s, e, mx.next.value, m);
      }
      StaysOk(s, s', m);
    }
  }

  /** Mutexes, those who hold them and whose they are stay; no process comes back. */
  ghost predicate MutexesSame(s: State, s': State) {
    && s'.mutexes == s.mutexes && s'.holders == s.holders && s'.mutexOf == s.mutexOf && NewAreNew(s, s')
    && s.dead <= s'.dead
  }

  lemma ApartSame(s: State, e: Event)
    requires Enabled(s, e) && Apart(e)
    ensures MutexesSame(s, Step(s, e)) && (!e.Exit? ==> Step(s, e).dead == s.dead)
  {
    hide ObjectStep, TaskStep, IdleStep, ObjectEnabled, TaskEnabled, IdleEnabled;
    if OnObjects(e) {
      ObjectSame(s, e);
    } else if OnTasks(e) {
      TaskSame(s, e);
    } else {
      IdleSame(s, e);
    }
  }

  lemma ObjectSame(s: State, e: Event)
    requires OnObjects(e) && ObjectEnabled(s, e) && Apart(e)
    ensures MutexesSame(s, ObjectStep(s, e)) && ObjectStep(s, e).dead == s.dead
  {
    hide PopAlive;
  }

  lemma TaskSame(s: State, e: Event)
    requires OnTasks(e) && TaskEnabled(s, e)
    ensures MutexesSame(s, TaskStep(s, e)) && (!e.Exit? ==> TaskStep(s, e).dead == s.dead)
  {
    if e.Exit? {
      ExitSame(s);
    }
    hide ExitStep, ExitPanics;
  }

  lemma IdleSame(s: State, e: Event)
    requires IdleEnabled(s, e)
    ensures MutexesSame(s, IdleStep(s, e)) && IdleStep(s, e).dead == s.dead
  {
    hide Without;
  }

  // ---------- exit ----------

  /** The processes that stand keep their tasks. */
  lemma ExitKeepsTrying(s: State, n: Tid, m: nat)
    requires Placed(s) && Housed(s) && Homed(s) && Trying(s, n, m) && s.tasks[s.current.value].pc == User
    requires m < |s.mutexOf| && s.mutexOf[m] !in ExitStep(s).dead
    ensures Trying(ExitStep(s), n, m)
  {
    assert HousedAt(s, n);
    RunningStands(s);
    hide Placed, Under;
    assert s.homes[n].process < s.pids;
    assert s.homes[s.current.value].root ==> !Dies(s, n);
  }

  lemma ExitKeepsMutexes(s: State)
    requires Placed(s) && Housed(s) && Homed(s) && MutexesOk(s) && s.tasks[s.current.value].pc == User
    ensures MutexesOk(ExitStep(s))
  {
    var s' := ExitStep(s);
    ExitSame(s);
    hide Placed, Housed, ExitStep;
    forall m | 0 <= m < |s'.mutexes| ensures MutexOk(s', m) {
      assert MutexOk(s, m);
      var mx := s.mutexes[m];
      if mx.BlockingMutex? && mx.next.Some? && m < |s'.mutexOf| && s'.mutexOf[m] !in s'.dead {
        ExitKeepsTrying(s, mx.next.value, m);
      }
    }
  }

  lemma ExitSame(s: State)
    requires Homed(s)
    ensures MutexesSame(s, ExitStep(s))
  {
    hide Under;
  }

  // ---------- lock ----------

  lemma LockKeepsMutexes(s: State, m: nat)
    requires Placed(s) && Busy(s) && m < |s.mutexes| == |s.holders| && MutexesOk(s)
    requires s.tasks[s.current.value].pc == User || s.tasks[s.current.value].pc == Locking(m)
    ensures MutexesOk(LockStep(s, m))
  {
    var s' := LockStep(s, m);
    assert s.current.value < s.limit;
    hide Placed;
    LockedRest(s, m);
    LockedOk(s, m);
    hide LockStep;
    forall l | 0 <= l < |s'.mutexes| ensures MutexOk(s', l) {
      if l != m {
        assert MutexOk(s, l);
        LockKeepsTrying(s, m, l);
        StaysOk(s, s', l);
      }
    }
  }

  lemma LockedRest(s: State, m: nat)
    requires Busy(s) && m < |s.mutexes| == |s.holders|
    ensures var s' := LockStep(s, m);
      |s'.mutexes| == |s'.holders| == |s.mutexes| && s'.mutexOf == s.mutexOf && s'.dead == s.dead && NewAreNew(s, s')
    ensures forall l :: 0 <= l < |s.mutexes| && l != m ==> SameMutex(s, LockStep(s, m), l)
  {
  }

  lemma LockKeepsTrying(s: State, m: nat, l: nat)
    requires Busy(s) && m < |s.mutexes| == |s.holders| && l < |s.mutexes| && l != m
    requires s.tasks[s.current.value].pc == User || s.tasks[s.current.value].pc == Locking(m)
    ensures forall n :: Trying(s, n, l) ==> Trying(LockStep(s, m), n, l)
  {
  }

  lemma LockedOk(s: State, m: nat)
    requires Busy(s) && m < |s.mutexes| == |s.holders| && MutexOk(s, m) && s.current.value < s.limit
    ensures MutexOk(LockStep(s, m), m)
  {
  }

  // ---------- unlock ----------

  lemma UnlockedOk(s: State, m: nat)
    requires Placed(s) && Busy(s) && m < |s.mutexes| == |s.holders| && MutexOk(s, m)
    ensures MutexOk(UnlockStep(s, m).0, m)
  {
    FirstIsWoken(s, AtMutex(m));
    var mx := s.mutexes[m];
    if mx.Waiting() != [] {
      assert mx.waiting[0] in Queue(s, AtMutex(m)) && PlacedAt(s, AtMutex(m));
    }
  }

  lemma UnlockKeepsTrying(s: State, m: nat, n: Tid, l: nat)
    requires Placed(s) && Busy(s) && m < |s.mutexes| == |s.holders| && Trying(s, n, l)
    ensures Trying(UnlockStep(s, m).0, n, l)
  {
    var mx := s.mutexes[m];
    var s' := UnlockStep(s, m).0;
    if mx.Unlock(s.current.value, s.tasks.Keys).1.Ok? && mx.BlockingMutex? && !Alive(mx.next, s.tasks.Keys) {
      WakeKeepsTrying(s, s', AtMutex(m), n, l);
    }
  }

  lemma UnlockKeepsMutexes(s: State, m: nat)
    requires Placed(s) && Busy(s) && m < |s.mutexes| && MutexesOk(s)
    ensures MutexesOk(UnlockStep(s, m).0)
  {
    var s' := UnlockStep(s, m).0;
    assert MutexOk(s, m);
    UnlockedOk(s, m);
    assert NewAreNew(s, s');
    forall l | 0 <= l < |s'.mutexes| ensures MutexOk(s', l) {
      if l != m {
        assert MutexOk(s, l);
        var mx := s.mutexes[l];
        if mx.BlockingMutex? && mx.next.Some? && l < |s.mutexOf| && s.mutexOf[l] !in s.dead {
          UnlockKeepsTrying(s, m, mx.next.value, l);
        }
        StaysOk(s, s', l);
      }
    }
  }

  lemma WaitKeepsMutexes(s: State, c: nat, m: nat)
    requires Placed(s) && Busy(s) && c < |s.condvars| && m < |s.mutexes| && MutexesOk(s)
    requires s.tasks[s.current.value].pc == User
    ensures MutexesOk(WaitStep(s, c, m))
  {
    UnlockKeepsMutexes(s, m);
    UnlockKeeps(s, m);
    UserStays(s, m);
    var (s', ok) := UnlockStep(s, m);
    hide UnlockStep;
    if ok {
      var s'' := WaitStep(s, c, m);
      forall l | 0 <= l < |s''.mutexes| ensures MutexOk(s'', l) {
        assert MutexOk(s', l);
        StaysOk(s', s'', l);
      }
    }
  }

  /** The running task stays in user code while it unlocks. */
  lemma UserStays(s: State, m: nat)
    requires Placed(s) && Busy(s) && m < |s.mutexes| == |s.holders| && s.tasks[s.current.value].pc == User
    ensures UnlockStep(s, m).0.tasks[s.current.value].pc == User
  {
    FirstIsWoken(s, AtMutex(m));
    CurrentAlone(s, AtMutex(m));
  }

  /** Every step keeps what holds of mutexes. */
  lemma StepKeepsMutexes(s: State, e: Event)
    requires Placed(s) && Housed(s) && Enabled(s, e) && MutexesOk(s)
    ensures MutexesOk(Step(s, e))
  {
    hide Placed, Housed, MutexesOk, LockStep, UnlockStep, WaitStep, ExitStep, ExitPanics, MakeMutexStep;
    match e
    case Lock(m) => LockKeepsMutexes(s, m);
    case Unlock(m) => UnlockKeepsMutexes(s, m);
    case Wait(c, m) => WaitKeepsMutexes(s, c, m);
    case Exit => ExitKeepsMutexes(s);
    case GoOn => GoOnKeepsMutexes(s);
    case MakeMutex(spin) => MakeKeepsMutexes(s, spin);
    case _ => ApartKeepsMutexes(s, e);
  }

  lemma MakeKeepsMutexes(s: State, spin: bool)
    requires Housed(s) && MutexesOk(s) && Homed(s)
    ensures MutexesOk(MakeMutexStep(s, spin))
  {
    var s' := MakeMutexStep(s, spin);
    forall m | 0 <= m < |s'.mutexes| ensures MutexOk(s', m) {
      if m < |s.mutexes| {
        assert MutexOk(s, m);
      }
    }
  }

  lemma DownKeepsMutexes(s: State, k: nat)
    requires Placed(s) && Busy(s) && k < |s.semaphores| == |s.records| && MutexesOk(s)
    requires !s.tasks[s.current.value].pc.Locking?
    ensures MutexesOk(DownStep(s, k))
  {
    var s' := DownStep(s, k);
    forall m | 0 <= m < |s'.mutexes| ensures MutexOk(s', m) {
      assert MutexOk(s, m);
      StaysOk(s, s', m);
    }
  }

  lemma GoOnKeepsMutexes(s: State)
    requires Placed(s) && ObjectEnabled(s, GoOn) && MutexesOk(s)
    ensures MutexesOk(ObjectStep(s, GoOn))
  {
    hide Placed, MutexesOk, LockStep, DownStep;
    var pc := s.tasks[s.current.value].pc;
    if pc.Locking? {
      LockKeepsMutexes(s, pc.m);
    } else {
      DownKeepsMutexes(s, pc.k);
    }
  }
}
