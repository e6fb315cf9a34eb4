/** Every step keeps every task in exactly one place. */
module TaskPlaces {
  import opened Results
  import opened Sync
  import opened Tasks
  import opened Processes

  /** The running task is nowhere else, and waits for nothing. */
  lemma CurrentAlone(s: State, p: Place)
    requires Placed(s) && Busy(s) && p != OnCpu
    ensures s.tasks[s.current.value].status == Status.Running && s.current.value !in Queue(s, p)
  {
    assert PlacedAt(s, OnCpu) && PlacedAt(s, p);
    assert s.current.value in Queue(s, OnCpu);
  }

  /** Nothing moves: the running task only changes what it does next. */
  lemma OnwardKeeps(s: State, s': State, pc: Pc)
    requires Placed(s) && Busy(s) && s'.tasks == s.tasks[s.current.value := Task(Status.Running, pc)]
    requires s'.limit == s.limit
    requires forall p :: SameQueue(s, s', p)
    ensures Placed(s')
  {
    var t := s.current.value;
    assert PlacedAt(s, OnCpu) && t in Queue(s, OnCpu);
    forall p ensures PlacedAt(s', p) {
      assert PlacedAt(s, p) && SameQueue(s, s', p);
    }
  }

  ghost predicate SameQueue(s: State, s': State, p: Place) {
    Queue(s', p) == Queue(s, p)
  }

  /** The running task leaves for another place. */
  lemma LeaveKeeps(s: State, s': State, r: Task)
    requires Placed(s) && Busy(s) && s'.current.None? && s'.limit == s.limit
    requires s'.tasks == s.tasks[s.current.value := r] && PlaceOf(r) != OnCpu
    requires (PlaceOf(r) == Gone ==> r.status.Zombie?)
    requires forall p :: p != OnCpu ==> Queue(s', p) == if p == PlaceOf(r)
      && p != Gone then Queue(s, p) + [s.current.value] else Queue(s, p)
    ensures Placed(s')
  {
    var t := s.current.value;
    CurrentAlone(s, Gone);
    forall p ensures MovesAt(s, s', t, PlaceOf(r), p) {
      if p != OnCpu {
        CurrentAlone(s, p);
        WithoutOther(Queue(s, p), t);
      }
    }
    MoveKeepsPlaced(s, s', t, r);
  }

  /** A task at the front of a wait queue, or a sleeping one, becomes ready. */
  lemma WakeKeeps(s: State, s': State, p: Place, t: Tid)
    requires Placed(s) && t in Queue(s, p) && t in s.tasks && p != OnCpu && p != InReady
    requires s'.tasks == s.tasks[t := Resumed(s.tasks[t])] && s'.limit == s.limit
    requires forall q :: q != p && q != InReady ==> Queue(s', q) == Queue(s, q)
    requires Queue(s', p) == Without(Queue(s, p), t) && Queue(s', InReady) == Queue(s, InReady) + [t]
    ensures Placed(s')
  {
    assert PlacedAt(s, p);
    forall q ensures MovesAt(s, s', t, InReady, q) {
      if q != p && q != InReady {
        assert PlacedAt(s, q);
        WithoutOther(Queue(s, q), t);
      }
    }
    MoveKeepsPlaced(s, s', t, Resumed(s.tasks[t]));
  }

  /** All tasks in a queue are alive, so the first one is the one that is woken. */
  lemma FirstIsWoken(s: State, p: Place)
    requires Placed(s) && p != Gone
    ensures PopAlive(Queue(s, p), s.tasks.Keys) == if Queue(s, p) == [] then (None, []) else (Some(Queue(s, p)[0]),
      Queue(s, p)[1..])
    ensures forall t :: t in Queue(s, p) ==> t in s.tasks
  {
    assert PlacedAt(s, p);
    PopsFirst(Queue(s, p), s.tasks.Keys);
  }

  /** Taking the first task out of the queue at `p`, if there is one, and waking it. */
  lemma PopKeeps(s: State, s': State, p: Place)
    requires Placed(s) && p != OnCpu && p != InReady && p != Gone && s'.limit == s.limit
    requires var w := PopAlive(Queue(s, p), s.tasks.Keys).0;
      s'.tasks == if w.Some? && w.value in s.tasks then s.tasks[w.value := Resumed(s.tasks[w.value])] else s.tasks
    requires forall q :: q != p && q != InReady ==> Queue(s', q) == Queue(s, q)
    requires Queue(s', p) == PopAlive(Queue(s, p), s.tasks.Keys).1
    requires var w := PopAlive(Queue(s, p), s.tasks.Keys).0;
      Queue(s', InReady) == Queue(s, InReady) + if w.Some? then [w.value] else []
    ensures Placed(s')
  {
    FirstIsWoken(s, p);
    if Queue(s, p) == [] {
      forall q ensures PlacedAt(s', q) {
        assert PlacedAt(s, q);
      }
    } else {
      assert Queue(s, p)[0] in Queue(s, p);
      WakeKeeps(s, s', p, Queue(s, p)[0]);
    }
  }

  lemma LockKeeps(s: State, m: nat)
    requires Placed(s) && Busy(s) && m < |s.mutexes| == |s.holders|
    ensures Placed(LockStep(s, m))
  {
    var s' := LockStep(s, m);
    var t := s.current.value;
    var a := s.mutexes[m].Lock(t, s.tasks.Keys).1;
    match a
    case Acquired =>
      forall p ensures SameQueue(s, s', p) {
      }
      OnwardKeeps(s, s', User);
    case Double => OnwardKeeps(s, s', User);
    case Spin => LeaveKeeps(s, s', Task(Ready, Locking(m)));
    case Blocked => LeaveKeeps(s, s', Task(Status.Blocked, Locking(m)));
  }

  /** Where `unlock` wakes a task, it is the first of the queue; else no queue changes. */
  lemma UnlockKeeps(s: State, m: nat)
    requires Placed(s) && Busy(s) && m < |s.mutexes| == |s.holders|
    ensures Placed(UnlockStep(s, m).0)
  {
    var s' := UnlockStep(s, m).0;
    var t := s.current.value;
    var mx := s.mutexes[m];
    var (mx', w) := mx.Unlock(t, s.tasks.Keys);
    if w.Ok? && mx.BlockingMutex? && !Alive(mx.next, s.tasks.Keys) {
      FirstIsWoken(s, AtMutex(m));
      PopKeeps(s, s', AtMutex(m));
    } else {
      forall p ensures PlacedAt(s', p) {
        assert PlacedAt(s, p);
      }
    }
  }

  lemma UpKeeps(s: State, k: nat)
    requires Placed(s) && k < |s.semaphores| == |s.records|
    ensures Placed(UpStep(s, k))
  {
    var s' := UpStep(s, k);
    var sem := s.semaphores[k];
    if sem.BlockingSemaphore? && sem.count + 1 <= 0 {
      FirstIsWoken(s, AtSemaphore(k));
      PopKeeps(s, s', AtSemaphore(k));
    } else {
      forall p ensures PlacedAt(s', p) {
        assert PlacedAt(s, p);
      }
    }
  }

  lemma DownKeeps(s: State, k: nat)
    requires Placed(s) && Busy(s) && k < |s.semaphores| == |s.records|
    ensures Placed(DownStep(s, k))
  {
    var s' := DownStep(s, k);
    var a := s.semaphores[k].Down(s.current.value).1;
    if a.Spin? {
      LeaveKeeps(s, s', Task(Ready, Downing(k)));
    } else if a.Blocked? {
      LeaveKeeps(s, s', Task(Status.Blocked, Downing(k)));
    } else {
      forall p ensures SameQueue(s, s', p) {
      }
      OnwardKeeps(s, s', User);
    }
  }

  lemma SignalKeeps(s: State, c: nat)
    requires Placed(s) && c < |s.condvars|
    ensures Placed(SignalStep(s, c))
  {
    FirstIsWoken(s, AtCondvar(c));
    PopKeeps(s, SignalStep(s, c), AtCondvar(c));
  }

  lemma WaitKeeps(s: State, c: nat, m: nat)
    requires Placed(s) && Busy(s) && c < |s.condvars| && m < |s.mutexes| == |s.holders|
    ensures Placed(WaitStep(s, c, m))
  {
    UnlockKeeps(s, m);
    var (s', ok) := UnlockStep(s, m);
    if ok {
      LeaveKeeps(s', WaitStep(s, c, m), Task(Status.Blocked, Waiting(c, m)));
    }
  }

  lemma SpawnKeeps(s: State, home: Home)
    requires Placed(s)
    ensures Placed(SpawnStep(s, home))
  {
    var s' := SpawnStep(s, home);
    forall p ensures PlacedAt(s', p) {
      assert PlacedAt(s, p);
      assert s.limit !in Queue(s, p);
    }
  }

  lemma ReapKeeps(s: State, t: Tid)
    requires Placed(s) && EndedIn(s, t) && !s.tasks[t].Lying()
    ensures Placed(ReapStep(s, t))
  {
    forall p ensures PlacedAt(ReapStep(s, t), p) {
      assert PlacedAt(s, p);
    }
  }

  /** A new object has an empty queue. */
  lemma MakeKeeps(s: State, s': State)
    requires Placed(s) && s'.tasks == s.tasks && s'.limit == s.limit && forall p :: SameQueue(s, s', p)
    ensures Placed(s')
  {
    forall p ensures PlacedAt(s', p) {
      assert PlacedAt(s, p) && SameQueue(s, s', p);
    }
  }

  lemma MakingKeeps(s: State, e: Event)
    requires Placed(s) && OnObjects(e) && ObjectEnabled(s, e) && (e.MakeMutex? || e.MakeSemaphore? || e.MakeCondvar?)
    ensures Placed(ObjectStep(s, e))
  {
    hide Placed;
    forall p ensures SameQueue(s, ObjectStep(s, e), p) {
    }
    MakeKeeps(s, ObjectStep(s, e));
  }

  lemma WaitPidKeeps(s: State, q: Pid)
    requires Placed(s)
    ensures Placed(WaitPidStep(s, q))
  {
    hide Placed;
    forall p ensures SameQueue(s, WaitPidStep(s, q), p) {
    }
    MakeKeeps(s, WaitPidStep(s, q));
  }

  lemma LeavingKeeps(s: State)
    requires Placed(s) && Busy(s)
    ensures Placed(SleepStep(s)) && Placed(Suspend(s, User)) && Placed(ExitThread(s))
  {
    hide Placed;
    LeaveKeeps(s, SleepStep(s), Task(Status.Blocked, Sleeping));
    LeaveKeeps(s, Suspend(s, User), Task(Ready, User));
    LeaveKeeps(s, ExitThread(s), Task(Status.Zombie, User));
  }

  lemma ExpireKeeps(s: State, t: Tid)
    requires Placed(s) && t in s.timers && t in s.tasks && !EndedIn(s, t)
    ensures Placed(ExpireStep(s, t))
  {
    FirstIsWoken(s, InTimer);
    assert t in Queue(s, InTimer);
    WakeKeeps(s, ExpireStep(s, t), InTimer, t);
  }

  /** A task leaves its queue and is gone. */
  lemma VanishKeeps(s: State, s': State, p: Place, t: Tid)
    requires Placed(s) && t in Queue(s, p) && s'.tasks == s.tasks - {t} && s'.limit == s.limit
    requires forall q :: Queue(s', q) == if q == p then Without(Queue(s, q), t) else Queue(s, q)
    ensures Placed(s')
  {
    assert PlacedAt(s, p);
    forall q ensures PlacedAt(s', q) {
      assert PlacedAt(s, q);
      WithoutOnce(Queue(s, q), t);
    }
  }

  lemma ForgetKeeps(s: State, t: Tid)
    requires Placed(s) && t in s.timers
    ensures Placed(ForgetStep(s, t))
  {
    assert t in Queue(s, InTimer);
    hide Placed;
    VanishKeeps(s, ForgetStep(s, t), InTimer, t);
  }

  lemma DiscardKeeps(s: State)
    requires Placed(s) && s.ready != []
    ensures Placed(DiscardStep(s))
  {
    assert s.ready[0] in Queue(s, InReady);
    hide Placed;
    VanishKeeps(s, DiscardStep(s), InReady, s.ready[0]);
  }

  /** Ended in place, a task in line or asleep stays where it is. */
  lemma FallenStays(t: Task)
    requires Shelved(t)
    ensures PlaceOf(Fallen(t)) == PlaceOf(t) && Fallen(t).Lying()
  {
  }

  /**
   With a process end all its tasks that are in line or asleep, where they are; no other task of it is in any queue.
   */
  lemma ExitProcessKeeps(s: State)
    requires Placed(s) && Homed(s) && !ExitPanics(s) && s.homes[s.current.value].root
    ensures Placed(ExitProcess(s))
  {
    var s' := ExitProcess(s);
    forall p ensures PlacedAt(s', p) {
      assert PlacedAt(s, p) && PlacedAt(s, OnCpu);
      if p != OnCpu {
        forall t ensures t in Queue(s', p) <==> t in s'.tasks && PlaceOf(s'.tasks[t]) == p && p != Gone {
          ExitProcessAt(s, p, t);
        }
      } else {
        forall t | t in s'.tasks ensures PlaceOf(s'.tasks[t]) != OnCpu {
          ExitProcessOff(s, t);
        }
      }
    }
  }

  lemma ExitProcessAt(s: State, p: Place, t: Tid)
    requires Placed(s) && Homed(s) && !ExitPanics(s) && s.homes[s.current.value].root && p != OnCpu
    ensures var s' := ExitProcess(s); t in Queue(s', p) <==> t in s'.tasks && PlaceOf(s'.tasks[t]) == p && p != Gone
  {
    assert PlacedAt(s, p);
    hide Under;
    if t in s.tasks && Shelved(s.tasks[t]) {
      FallenStays(s.tasks[t]);
    }
  }

  lemma ExitProcessOff(s: State, t: Tid)
    requires Placed(s) && Homed(s) && t in ExitProcess(s).tasks
    ensures PlaceOf(ExitProcess(s).tasks[t]) != OnCpu
  {
    assert PlacedAt(s, OnCpu);
    if PlaceOf(s.tasks[t]) == OnCpu {
      assert t in Queue(s, OnCpu) && t == s.current.value;
      assert Dies(s, t);
    }
  }

  lemma RunKeeps(s: State)
    requires Placed(s) && s.current.None? && s.ready != [] && s.ready[0] in s.tasks
    ensures Placed(RunStep(s))
  {
    var t := s.ready[0];
    var s' := RunStep(s);
    var r := Task(Status.Running, s.tasks[t].pc);
    assert PlacedAt(s, InReady) && t in Queue(s, InReady);
    forall p ensures MovesAt(s, s', t, OnCpu, p) {
      if p != InReady {
        assert PlacedAt(s, p);
        WithoutOther(Queue(s, p), t);
      }
    }
    MoveKeepsPlaced(s, s', t, r);
  }

  lemma ExitKeeps(s: State)
    requires Placed(s) && Homed(s) && !ExitPanics(s)
    ensures Placed(ExitStep(s))
  {
    hide Placed, ExitProcess, ExitThread, ExitPanics;
    if s.homes[s.current.value].root {
      ExitProcessKeeps(s);
    } else {
      LeavingKeeps(s);
    }
  }

  lemma ForkKeeps(s: State)
    requires Placed(s) && Homed(s)
    ensures Placed(ForkStep(s))
  {
    var s' := SpawnStep(s, Home(s.pids, true));
    SpawnKeeps(s, Home(s.pids, true));
    forall p ensures SameQueue(s', ForkStep(s), p) {
    }
    hide Placed;
    MakeKeeps(s', ForkStep(s));
  }

  lemma ObjectStepKeeps(s: State, e: Event)
    requires Placed(s) && OnObjects(e) && ObjectEnabled(s, e)
    ensures Placed(ObjectStep(s, e))
  {
    hide Placed, LockStep, UnlockStep, UpStep, DownStep, SignalStep, WaitStep, MakeMutexStep, MakeSemaphoreStep;
    hide MakeCondvarStep;
    match e
    case Lock(m) => LockKeeps(s, m);
    case Unlock(m) => UnlockKeeps(s, m);
    case Up(k) => UpKeeps(s, k);
    case Down(k) => DownKeeps(s, k);
    case Signal(c) => SignalKeeps(s, c);
    case Wait(c, m) => WaitKeeps(s, c, m);
    case GoOn =>
      var pc := s.tasks[s.current.value].pc;
      if pc.Locking? {
        LockKeeps(s, pc.m);
      } else {
        DownKeeps(s, pc.k);
      }
    case _ => MakingKeeps(s, e);
  }

  lemma TaskStepKeeps(s: State, e: Event)
    requires Placed(s) && OnTasks(e) && TaskEnabled(s, e) && (e.Reap? && e.t in s.tasks ==> !s.tasks[e.t].Lying())
    ensures Placed(TaskStep(s, e))
  {
    hide Placed, SleepStep, Suspend, ExitStep, SpawnStep, ForkStep, ReapStep, WaitPidStep, ExitPanics;
    match e
    case Sleep => LeavingKeeps(s);
    case Yield => LeavingKeeps(s);
    case Exit => ExitKeeps(s);
    case Spawn => SpawnKeeps(s, Home(Here(s), false));
    case Fork => ForkKeeps(s);
    case Reap(t) => ReapKeeps(s, t);
    case WaitPid(q) => WaitPidKeeps(s, q);
  }

  lemma IdleStepKeeps(s: State, e: Event)
    requires Placed(s) && IdleEnabled(s, e)
    ensures Placed(IdleStep(s, e))
  {
    hide Placed, ExpireStep, ForgetStep, DiscardStep, RunStep;
    match e
    case Expire(t) => ExpireKeeps(s, t);
    case Forget(t) => ForgetKeeps(s, t);
    case Discard => DiscardKeeps(s);
    case Run => RunKeeps(s);
  }

  /** Every step of every task, and of the idle loop, keeps every task in exactly one place. */
  lemma StepKeepsPlaced(s: State, e: Event)
    requires Placed(s) && Enabled(s, e) && (e.Reap? && e.t in s.tasks ==> !s.tasks[e.t].Lying())
    ensures Placed(Step(s, e))
  {
    hide Placed, ObjectStep, TaskStep, IdleStep, ObjectEnabled, TaskEnabled, IdleEnabled;
    if OnObjects(e) {
      ObjectStepKeeps(s, e);
    } else if OnTasks(e) {
      TaskStepKeeps(s, e);
    } else {
      IdleStepKeeps(s, e);
    }
  }
}
