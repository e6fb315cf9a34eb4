/** Every step keeps every task with its process: which tasks end together, and which objects a task is at. */
module TaskHomes {
  import opened Results
  import opened Sync
  import opened Processes
  import opened Tasks
  import opened TaskPlaces

  /** The mutex a task is on its way to is in the table of its process. */
  predicate AtHome(s: State, process: Pid, pc: Pc) {
    (pc.Locking? || pc.Waiting?) ==> pc.m < |s.mutexOf| && s.mutexOf[pc.m] == process
  }

  /** The tasks of a process that ended lie where they were ended; no other task lies anywhere. */
  ghost predicate HousedAt(s: State, t: Tid)
    requires t in s.tasks
  {
    && t in s.homes
    && (s.homes[t].process in s.dead <==> s.tasks[t].Lying())
    && (s.tasks[t].Lying() ==> s.tasks[t].status == Status.Zombie)
    && AtHome(s, s.homes[t].process, s.tasks[t].pc)
  }

  /** The root task of a process that has not ended has not ended either. */
  ghost predicate RootStands(s: State, t: Tid)
    requires t in s.homes
  {
    s.homes[t].root && s.homes[t].process !in s.dead ==> t in s.tasks && s.tasks[t].status != Status.Zombie
  }

  ghost predicate Rooted(s: State, q: Pid) {
    exists t :: t in s.homes && s.homes[t] == Home(q, true)
  }

  ghost predicate Housed(s: State) {
    && (forall t :: t in s.tasks ==> HousedAt(s, t))
    && (forall t :: t in s.homes ==> t < s.limit && s.homes[t].process < s.pids && RootStands(s, t))
    && Lineage(s.parents, s.pids)
    && (forall q :: q in s.dead ==> q < s.pids)
    && (forall q: Pid :: 0 <= q < s.pids ==> Rooted(s, q))
    && |s.mutexes| == |s.holders| == |s.mutexOf|
  }

  /** From `s` to `s'` a task goes on, in the same process, with what it does. */
  ghost predicate GoesOn(s: State, s': State, t: Tid)
    requires t in s'.tasks
  {
    && t in s.tasks
    && (s'.tasks[t] == s.tasks[t]
        || (!s.tasks[t].Lying() && !s'.tasks[t].Lying()
            && (s.tasks[t].status == Status.Zombie <==> s'.tasks[t].status == Status.Zombie)
            && (t in s.homes ==> AtHome(s', s.homes[t].process, s'.tasks[t].pc))))
  }

  /** Processes and homes stay as they are, and all tasks too. */
  lemma GoingOnKeeps(s: State, s': State)
    requires Housed(s) && s'.homes == s.homes && s'.dead == s.dead && s'.parents == s.parents && s'.pids == s.pids
    requires s'.limit == s.limit && s.mutexOf <= s'.mutexOf && |s'.mutexes| == |s'.holders| == |s'.mutexOf|
    requires s'.tasks.Keys == s.tasks.Keys && forall t :: t in s'.tasks ==> GoesOn(s, s', t)
    ensures Housed(s')
  {
    forall t | t in s'.tasks ensures HousedAt(s', t) {
      assert GoesOn(s, s', t) && HousedAt(s, t);
    }
    forall t | t in s'.homes ensures RootStands(s', t) {
      assert RootStands(s, t);
      if t in s'.tasks {
        assert GoesOn(s, s', t);
      }
    }
    forall q: Pid | 0 <= q < s'.pids ensures Rooted(s', q) {
      assert Rooted(s, q);
    }
  }

  /** Tasks that ended and are no root tasks of standing processes may vanish. */
  lemma VanishingKeeps(s: State, s': State, t: Tid)
    requires Housed(s) && EndedIn(s, t) && s'.tasks == s.tasks - {t}
    requires s'.homes == s.homes && s'.dead == s.dead && s'.parents == s.parents && s'.pids == s.pids
    requires s'.limit == s.limit && s'.mutexOf == s.mutexOf && s'.mutexes == s.mutexes && s'.holders == s.holders
    ensures Housed(s')
  {
    forall u | u in s'.tasks ensures HousedAt(s', u) {
      assert HousedAt(s, u);
    }
    forall u | u in s'.homes ensures RootStands(s', u) {
      assert RootStands(s, u);
    }
    forall q: Pid | 0 <= q < s'.pids ensures Rooted(s', q) {
      assert Rooted(s, q);
    }
  }

  /** The running task has not ended, and neither has its process. */
  lemma RunningStands(s: State)
    requires Placed(s) && Busy(s) && Housed(s)
    ensures Homed(s) && s.tasks[s.current.value].status == Status.Running && !s.tasks[s.current.value].Lying()
    ensures Here(s) !in s.dead && Here(s) < s.pids
  {
    assert PlacedAt(s, OnCpu) && s.current.value in Queue(s, OnCpu) && HousedAt(s, s.current.value);
  }

  /** A task in a wait queue is blocked there. */
  lemma WaiterStands(s: State, p: Place, w: Tid)
    requires Placed(s) && w in Queue(s, p) && (p.AtMutex? || p.AtSemaphore? || p.AtCondvar?)
    ensures w in s.tasks && s.tasks[w].status == Status.Blocked && !s.tasks[w].Lying()
  {
    assert PlacedAt(s, p);
  }

  /** A woken task goes on with a mutex it was on its way to. */
  lemma WokenGoesOn(s: State, s': State, w: Tid)
    requires Housed(s) && w in s.tasks && w in s'.tasks && s.tasks[w].status == Status.Blocked && !s.tasks[w].Lying()
    requires s'.tasks[w] == Resumed(s.tasks[w]) && s'.mutexOf == s.mutexOf
    ensures GoesOn(s, s', w)
  {
    assert HousedAt(s, w);
  }

  /** Waking the first of the queue at `p`, if any. */
  lemma WakingKeeps(s: State, s': State, p: Place)
    requires Placed(s) && Housed(s) && (p.AtMutex? || p.AtSemaphore? || p.AtCondvar?)
    requires var w := PopAlive(Queue(s, p), s.tasks.Keys).0;
      s'.tasks == if w.Some? && w.value in s.tasks then s.tasks[w.value := Resumed(s.tasks[w.value])] else s.tasks
    requires s'.homes == s.homes && s'.dead == s.dead && s'.parents == s.parents && s'.pids == s.pids
    requires s'.limit == s.limit && s'.mutexOf == s.mutexOf && |s'.mutexes| == |s'.holders| == |s'.mutexOf|
    ensures Housed(s')
  {
    FirstIsWoken(s, p);
    var q := Queue(s, p);
    if q != [] {
      assert q[0] in q;
      WaiterStands(s, p, q[0]);
      hide Placed;
      WokenGoesOn(s, s', q[0]);
    }
    GoingOnKeeps(s, s');
  }

  /** The running task goes on, or leaves the processor, with `r`. */
  lemma CurrentKeeps(s: State, s': State, r: Task)
    requires Placed(s) && Housed(s) && Busy(s) && s'.tasks == s.tasks[s.current.value := r] && !r.Lying()
    requires !r.status.Zombie?
    requires s.current.value in s.homes ==> AtHome(s', s.homes[s.current.value].process, r.pc)
    requires s'.homes == s.homes && s'.dead == s.dead && s'.parents == s.parents && s'.pids == s.pids
    requires s'.limit == s.limit && s'.mutexOf == s.mutexOf && |s'.mutexes| == |s'.holders| == |s'.mutexOf|
    ensures Housed(s')
  {
    RunningStands(s);
    hide Placed;
    assert s'.tasks.Keys == s.tasks.Keys;
    forall t | t in s'.tasks ensures GoesOn(s, s', t) {
    }
    GoingOnKeeps(s, s');
  }

  lemma LockHomes(s: State, m: nat)
    requires Placed(s) && Housed(s) && Busy(s) && m < |s.mutexes| && s.current.value in s.homes
    requires s.mutexOf[m] == Here(s)
    ensures Housed(LockStep(s, m))
  {
    var s' := LockStep(s, m);
    CurrentKeeps(s, s', s'.tasks[s.current.value]);
  }

  lemma UnlockHomes(s: State, m: nat)
    requires Placed(s) && Housed(s) && Busy(s) && m < |s.mutexes|
    ensures Housed(UnlockStep(s, m).0)
  {
    var s' := UnlockStep(s, m).0;
    var mx := s.mutexes[m];
    var (mx', w) := mx.Unlock(s.current.value, s.tasks.Keys);
    if w.Ok? && mx.BlockingMutex? && !Alive(mx.next, s.tasks.Keys) {
      WakingKeeps(s, s', AtMutex(m));
    } else {
      GoingOnKeeps(s, s');
    }
  }

  lemma UpHomes(s: State, k: nat)
    requires Placed(s) && Housed(s) && k < |s.semaphores| == |s.records|
    ensures Housed(UpStep(s, k))
  {
    var s' := UpStep(s, k);
    if s.semaphores[k].BlockingSemaphore? && s.semaphores[k].count + 1 <= 0 {
      WakingKeeps(s, s', AtSemaphore(k));
    } else {
      GoingOnKeeps(s, s');
    }
  }

  lemma DownHomes(s: State, k: nat)
    requires Placed(s) && Housed(s) && Busy(s) && k < |s.semaphores| == |s.records|
    ensures Housed(DownStep(s, k))
  {
    var s' := DownStep(s, k);
    CurrentKeeps(s, s', s'.tasks[s.current.value]);
  }

  lemma SignalHomes(s: State, c: nat)
    requires Placed(s) && Housed(s) && c < |s.condvars|
    ensures Housed(SignalStep(s, c))
  {
    WakingKeeps(s, SignalStep(s, c), AtCondvar(c));
  }

  lemma WaitHomes(s: State, c: nat, m: nat)
    requires Placed(s) && Housed(s) && Homed(s) && c < |s.condvars| && m < |s.mutexes| && s.mutexOf[m] == Here(s)
    ensures Housed(WaitStep(s, c, m))
  {
    UnlockHomes(s, m);
    UnlockKeeps(s, m);
    var (s', ok) := UnlockStep(s, m);
    UnlockSameHomes(s, m);
    hide UnlockStep, Placed;
    if ok {
      CurrentKeeps(s', WaitStep(s, c, m), Task(Status.Blocked, Waiting(c, m)));
    }
  }

  lemma UnlockSameHomes(s: State, m: nat)
    requires Busy(s) && m < |s.mutexes| == |s.holders|
    ensures UnlockStep(s, m).0.homes == s.homes && UnlockStep(s, m).0.mutexOf == s.mutexOf
  {
  }

  lemma LeavingHomes(s: State)
    requires Placed(s) && Housed(s) && Busy(s)
    ensures Housed(SleepStep(s)) && Housed(Suspend(s, User))
  {
    CurrentKeeps(s, SleepStep(s), Task(Status.Blocked, Sleeping));
    CurrentKeeps(s, Suspend(s, User), Task(Ready, User));
  }

  lemma SpawnHomes(s: State)
    requires Placed(s) && Housed(s) && Busy(s) && Homed(s)
    ensures Housed(SpawnStep(s, Home(Here(s), false)))
  {
    var s' := SpawnStep(s, Home(Here(s), false));
    RunningStands(s);
    forall t | t in s'.tasks ensures HousedAt(s', t) {
      if t != s.limit {
        assert HousedAt(s, t);
      }
    }
    forall t | t in s'.homes ensures t < s'.limit && s'.homes[t].process < s'.pids && RootStands(s', t) {
      if t != s.limit {
        assert RootStands(s, t);
      }
    }
    forall q: Pid | 0 <= q < s'.pids ensures Rooted(s', q) {
      assert Rooted(s, q);
      var t :| t in s.homes && s.homes[t] == Home(q, true);
      assert t in s'.homes && s'.homes[t] == Home(q, true);
    }
  }

  lemma ForkHomes(s: State)
    requires Placed(s) && Housed(s) && Busy(s) && Homed(s)
    ensures Housed(ForkStep(s))
  {
    var s' := ForkStep(s);
    RunningStands(s);
    forall t | t in s'.tasks ensures HousedAt(s', t) {
      if t != s.limit {
        assert HousedAt(s, t);
      }
    }
    forall t | t in s'.homes ensures t < s'.limit && s'.homes[t].process < s'.pids && RootStands(s', t) {
      if t != s.limit {
        assert RootStands(s, t);
      }
    }
    forall q: Pid | 0 <= q < s'.pids ensures Rooted(s', q) {
      if q < s.pids {
        assert Rooted(s, q);
        var t :| t in s.homes && s.homes[t] == Home(q, true);
        assert t in s'.homes && s'.homes[t] == Home(q, true);
      } else {
        assert s'.homes[s.limit] == Home(q, true);
      }
    }
  }

  lemma ExitThreadHomes(s: State)
    requires Placed(s) && Housed(s) && Homed(s) && !s.homes[s.current.value].root
    ensures Housed(ExitThread(s))
  {
    var s' := ExitThread(s);
    RunningStands(s);
    forall t | t in s'.tasks ensures HousedAt(s', t) {
      assert HousedAt(s, t);
    }
    forall t | t in s'.homes ensures RootStands(s', t) {
      assert RootStands(s, t);
    }
    forall q: Pid | 0 <= q < s'.pids ensures Rooted(s', q) {
      assert Rooted(s, q);
    }
  }

  lemma ExitProcessHomes(s: State)
    requires Placed(s) && Housed(s) && Homed(s)
    ensures Housed(ExitProcess(s))
  {
    var s' := ExitProcess(s);
    RunningStands(s);
    hide Under;
    forall t | t in s'.tasks ensures HousedAt(s', t) {
      assert HousedAt(s, t);
    }
    forall t | t in s'.homes ensures RootStands(s', t) {
      assert RootStands(s, t);
      if s.homes[t].root && s.homes[t].process !in s'.dead {
        assert !Dies(s, t);
      }
    }
    forall q: Pid | 0 <= q < s'.pids ensures Rooted(s', q) {
      assert Rooted(s, q);
    }
    forall q | q in s'.parents ensures s'.parents[q] < q < s'.pids {
      assert s.parents[q] < q < s.pids;
    }
  }

  lemma MakeMutexHomes(s: State, spin: bool)
    requires Housed(s) && Homed(s)
    ensures Housed(MakeMutexStep(s, spin))
  {
    var s' := MakeMutexStep(s, spin);
    forall t | t in s'.tasks ensures GoesOn(s, s', t) {
    }
    GoingOnKeeps(s, s');
  }

  lemma WaitPidHomes(s: State, q: Pid)
    requires Housed(s)
    ensures Housed(WaitPidStep(s, q))
  {
    var s' := WaitPidStep(s, q);
    forall t | t in s'.tasks ensures HousedAt(s', t) {
      assert HousedAt(s, t);
    }
    forall t | t in s'.homes ensures RootStands(s', t) {
      assert RootStands(s, t);
    }
    forall r: Pid | 0 <= r < s'.pids ensures Rooted(s', r) {
      assert Rooted(s, r);
    }
  }

  lemma ExpireHomes(s: State, t: Tid)
    requires Placed(s) && Housed(s) && t in s.timers && t in s.tasks && !EndedIn(s, t)
    ensures Housed(ExpireStep(s, t))
  {
    var s' := ExpireStep(s, t);
    assert PlacedAt(s, InTimer) && t in Queue(s, InTimer);
    assert HousedAt(s, t);
    WokenGoesOn(s, s', t);
    hide Placed;
    GoingOnKeeps(s, s');
  }

  lemma RunHomes(s: State)
    requires Placed(s) && Housed(s) && s.ready != [] && s.ready[0] in s.tasks && !EndedIn(s, s.ready[0])
    ensures Housed(RunStep(s))
  {
    var s' := RunStep(s);
    var t := s.ready[0];
    assert HousedAt(s, t);
    hide Placed;
    forall u | u in s'.tasks ensures GoesOn(s, s', u) {
    }
    GoingOnKeeps(s, s');
  }

  /** A task that someone of its own process asks for does not lie anywhere. */
  lemma ReapedIsNotLying(s: State, t: Tid)
    requires Placed(s) && Housed(s) && Homed(s) && t in s.tasks && t in s.homes && s.homes[t].process == Here(s)
    ensures !s.tasks[t].Lying()
  {
    RunningStands(s);
    assert HousedAt(s, t);
  }

  lemma GoOnHomes(s: State)
    requires Placed(s) && Housed(s) && ObjectEnabled(s, GoOn)
    ensures Housed(ObjectStep(s, GoOn))
  {
    var pc := s.tasks[s.current.value].pc;
    assert HousedAt(s, s.current.value);
    hide Placed, LockStep, DownStep;
    if pc.Locking? {
      LockHomes(s, pc.m);
    } else {
      DownHomes(s, pc.k);
    }
  }

  lemma MakeOthersHomes(s: State, spin: bool, count: int)
    requires Housed(s) && Homed(s)
    ensures Housed(MakeSemaphoreStep(s, spin, count)) && Housed(MakeCondvarStep(s))
  {
    GoingOnKeeps(s, MakeSemaphoreStep(s, spin, count));
    GoingOnKeeps(s, MakeCondvarStep(s));
  }

  lemma ExitHomes(s: State)
    requires Placed(s) && Housed(s) && Homed(s)
    ensures Housed(ExitStep(s))
  {
    hide Placed, Housed, ExitProcess, ExitThread;
    if s.homes[s.current.value].root {
      ExitProcessHomes(s);
    } else {
      ExitThreadHomes(s);
    }
  }

  lemma MutexStepHomes(s: State, e: Event)
    requires Placed(s) && Housed(s) && OnObjects(e) && ObjectEnabled(s, e)
    requires e.Lock? || e.Unlock? || e.Wait? || e.MakeMutex? || e.GoOn?
    ensures Housed(ObjectStep(s, e))
  {
    HousedSizes(s);
    hide Placed, Housed, LockStep, UnlockStep, DownStep, WaitStep, MakeMutexStep;
    match e
    case Lock(m) => LockHomes(s, m);
    case Unlock(m) => UnlockHomes(s, m);
    case Wait(c, m) => WaitHomes(s, c, m);
    case MakeMutex(spin) => MakeMutexHomes(s, spin);
    case GoOn => GoOnHomes(s);
  }

  lemma OtherObjectStepHomes(s: State, e: Event)
    requires Placed(s) && Housed(s) && OnObjects(e) && ObjectEnabled(s, e)
    requires e.Up? || e.Down? || e.Signal? || e.MakeSemaphore? || e.MakeCondvar?
    ensures Housed(ObjectStep(s, e))
  {
    HousedSizes(s);
    hide Placed, Housed, UpStep, DownStep, SignalStep, MakeSemaphoreStep, MakeCondvarStep;
    match e
    case Up(k) => UpHomes(s, k);
    case Down(k) => DownHomes(s, k);
    case Signal(c) => SignalHomes(s, c);
    case MakeSemaphore(spin, count) => MakeOthersHomes(s, spin, count);
    case MakeCondvar => MakeOthersHomes(s, false, 0);
  }

  lemma TaskStepHomes(s: State, e: Event)
    requires Placed(s) && Housed(s) && OnTasks(e) && TaskEnabled(s, e)
    ensures Housed(TaskStep(s, e))
  {
    hide Placed, Housed, SleepStep, Suspend, ExitStep, SpawnStep, ForkStep, WaitPidStep, ExitPanics;
    match e
    case Sleep => LeavingHomes(s);
    case Yield => LeavingHomes(s);
    case Exit => ExitHomes(s);
    case Spawn => SpawnHomes(s);
    case Fork => ForkHomes(s);
    case Reap(t) => VanishingKeeps(s, ReapStep(s, t), t);
    case WaitPid(q) => WaitPidHomes(s, q);
  }

  lemma IdleStepHomes(s: State, e: Event)
    requires Placed(s) && Housed(s) && IdleEnabled(s, e)
    ensures Housed(IdleStep(s, e))
  {
    hide Placed, Housed, ExpireStep, RunStep;
    match e
    case Expire(t) => ExpireHomes(s, t);
    case Forget(t) => VanishingKeeps(s, ForgetStep(s, t), t);
    case Discard => VanishingKeeps(s, DiscardStep(s), s.ready[0]);
    case Run => RunHomes(s);
  }

  /** Every step keeps every task with its process. */
  lemma StepKeepsHoused(s: State, e: Event)
    requires Placed(s) && Housed(s) && Enabled(s, e)
    ensures Housed(Step(s, e))
  {
    hide Placed, Housed, ObjectStep, TaskStep, IdleStep, ObjectEnabled, TaskEnabled, IdleEnabled;
    if e.Lock? || e.Unlock? || e.Wait? || e.MakeMutex? || e.GoOn? {
      MutexStepHomes(s, e);
    } else if OnObjects(e) {
      OtherObjectStepHomes(s, e);
    } else if OnTasks(e) {
      TaskStepHomes(s, e);
    } else {
      IdleStepHomes(s, e);
    }
  }

  lemma HousedSizes(s: State)
    requires Housed(s)
    ensures |s.mutexes| == |s.holders| == |s.mutexOf|
  {
  }

  /** The task ended, whether or not its control block is still there. */
  predicate Over(s: State, t: Tid) {
    t !in s.tasks || s.tasks[t].status == Status.Zombie
  }

  /** The step ends task `t`: it is the running one and exits, or the running one exits as the root over it. */
  predicate Ends(s: State, e: Event, t: Tid)
    requires Enabled(s, e)
  {
    e.Exit? && if s.homes[s.current.value].root then Dies(s, t) else s.current == Some(t)
  }

  lemma ExitEnds(s: State, t: Tid)
    requires Homed(s) && !Over(s, t)
    ensures Over(ExitStep(s), t) <==> if s.homes[s.current.value].root then Dies(s, t) else s.current == Some(t)
  {
    hide Under;
  }

  lemma MutexEndsNone(s: State, m: nat, t: Tid)
    requires Busy(s) && m < |s.mutexes| == |s.holders| && !Over(s, t)
    ensures !Over(LockStep(s, m), t) && !Over(UnlockStep(s, m).0, t)
  {
    hide PopAlive;
  }

  lemma SemaphoreEndsNone(s: State, k: nat, t: Tid)
    requires Busy(s) && k < |s.semaphores| == |s.records| && !Over(s, t)
    ensures !Over(UpStep(s, k), t) && !Over(DownStep(s, k), t)
  {
    hide PopAlive;
  }

  lemma CondvarEndsNone(s: State, c: nat, t: Tid)
    requires c < |s.condvars| && !Over(s, t)
    ensures !Over(SignalStep(s, c), t)
  {
    hide PopAlive;
  }

  lemma WaitEndsNone(s: State, c: nat, m: nat, t: Tid)
    requires Busy(s) && c < |s.condvars| && m < |s.mutexes| == |s.holders| && !Over(s, t)
    ensures !Over(WaitStep(s, c, m), t)
  {
    MutexEndsNone(s, m, t);
    var s' := UnlockStep(s, m).0;
    hide UnlockStep, LockStep;
  }

  lemma MakingEndsNone(s: State, e: Event, t: Tid)
    requires OnObjects(e) && ObjectEnabled(s, e) && !Over(s, t) && (e.MakeMutex? || e.MakeSemaphore? || e.MakeCondvar?)
    ensures !Over(ObjectStep(s, e), t)
  {
  }

  lemma ObjectStepEndsNone(s: State, e: Event, t: Tid)
    requires OnObjects(e) && ObjectEnabled(s, e) && !Over(s, t)
    ensures !Over(ObjectStep(s, e), t)
  {
    hide LockStep, UnlockStep, UpStep, DownStep, SignalStep, WaitStep, Over;
    match e
    case Lock(m) => MutexEndsNone(s, m, t);
    case Unlock(m) => MutexEndsNone(s, m, t);
    case Up(k) => SemaphoreEndsNone(s, k, t);
    case Down(k) => SemaphoreEndsNone(s, k, t);
    case Signal(c) => CondvarEndsNone(s, c, t);
    case Wait(c, m) => WaitEndsNone(s, c, m, t);
    case GoOn =>
      var pc := s.tasks[s.current.value].pc;
      if pc.Locking? {
        MutexEndsNone(s, pc.m, t);
      } else {
        SemaphoreEndsNone(s, pc.k, t);
      }
    case _ => MakingEndsNone(s, e, t);
  }

  lemma TaskStepEndsNone(s: State, e: Event, t: Tid)
    requires OnTasks(e) && TaskEnabled(s, e) && !Over(s, t) && !e.Exit? && t < s.limit
    ensures !Over(TaskStep(s, e), t)
  {
  }

  lemma IdleStepEndsNone(s: State, e: Event, t: Tid)
    requires IdleEnabled(s, e) && !Over(s, t)
    ensures !Over(IdleStep(s, e), t)
  {
    hide Without;
  }

  /** A task ends by its own exit or that of a root task over it, and in no other way. */
  lemma EndsOnlyByExit(s: State, e: Event, t: Tid)
    requires Placed(s) && Enabled(s, e) && !Over(s, t)
    ensures Over(Step(s, e), t) <==> Ends(s, e, t)
  {
    assert t < s.limit;
    if e.Exit? {
      ExitEnds(s, t);
      hide Placed, ExitStep, ExitPanics;
    } else {
      hide Placed, ObjectStep, TaskStep, IdleStep, ObjectEnabled, TaskEnabled, IdleEnabled;
      if OnObjects(e) {
        ObjectStepEndsNone(s, e, t);
      } else if OnTasks(e) {
        TaskStepEndsNone(s, e, t);
      } else {
        IdleStepEndsNone(s, e, t);
      }
    }
  }

  /** A process has ended exactly when all its tasks have: so says the test of `wait_pid`. */
  lemma EndedWithItsTasks(s: State, q: Pid)
    requires Housed(s) && q < s.pids
    ensures q in s.dead <==>
      forall t :: t in s.tasks && t in s.homes && s.homes[t].process == q ==> s.tasks[t].status.Zombie?
  {
    if q in s.dead {
      forall t | t in s.tasks && t in s.homes && s.homes[t].process == q ensures s.tasks[t].status.Zombie? {
        assert HousedAt(s, t);
      }
    } else {
      assert Rooted(s, q);
      var t :| t in s.homes && s.homes[t] == Home(q, true);
      assert RootStands(s, t);
    }
  }
}
