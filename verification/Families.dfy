/** Parents and children: who waits for a process that ended. */
module Families {
  import opened Sync
  import opened Processes
  import opened Tasks
  import opened TaskPlaces
  import opened TaskHomes

  /** Every process in a table of children is in that of one that has not ended, and every other has none to be in. */
  ghost predicate Fostered(s: State) {
    && (forall q :: q in s.parents ==> s.parents[q] !in s.dead)
    && (forall q: Pid :: 0 <= q < s.pids && q !in s.dead && q != INIT ==> q in s.parents)
  }

  lemma {:induction false} UnderIsYounger(parents: map<Pid, Pid>, q: Pid, p: Pid)
    requires Under(parents, q, p)
    ensures p <= q
    decreases q
  {
    if q != p {
      UnderIsYounger(parents, parents[q], p);
    }
  }

  /** As long as any process stands, the first one does. */
  lemma {:induction false} FirstStands(s: State, q: Pid)
    requires Fostered(s) && Lineage(s.parents, s.pids) && q < s.pids && q !in s.dead
    ensures INIT !in s.dead
    decreases q
  {
    if q != INIT {
      FirstStands(s, s.parents[q]);
    }
  }

  /** A process that ends leaves its children, and theirs, to the first process, all of them ended. */
  ghost predicate Adopted(s: State, s': State, p: Pid) {
    && s'.parents.Keys == s.parents.Keys
    && (forall q: Pid :: q in s'.dead <==> q in s.dead || (q < s.pids && Under(s.parents, q, p)))
    && (forall q :: q in s.parents ==>
          s'.parents[q] == if q != p && Under(s.parents, q, p) then INIT else s.parents[q])
    && (forall q :: q in s'.parents ==> s'.parents[q] != p)
  }

  lemma ExitAdopts(s: State)
    requires Housed(s) && Homed(s) && s.homes[s.current.value].root && !ExitPanics(s)
    ensures Adopted(s, ExitStep(s), Here(s))
  {
    var s', p := ExitStep(s), Here(s);
    hide Under;
    forall q | q in s'.parents ensures s'.parents[q] != p {
      ChildIsUnder(s, q, p);
    }
  }

  /** The child of a process is under it; of the first process there is none when it exits. */
  lemma ChildIsUnder(s: State, q: Pid, p: Pid)
    requires Housed(s) && Homed(s) && p == Here(s) && s.homes[s.current.value].root && !ExitPanics(s) && q in s.parents
    ensures s.parents[q] < q < s.pids && (s.parents[q] == p ==> q != p && Under(s.parents, q, p) && p != INIT)
    ensures q != p && Under(s.parents, q, p) ==> p != INIT
  {
    if q != p && Under(s.parents, q, p) {
      var c := ByChild(s.parents, q, p);
    }
  }

  lemma ExitFosters(s: State)
    requires Placed(s) && Housed(s) && Homed(s) && Fostered(s) && !ExitPanics(s)
    ensures Fostered(ExitStep(s))
  {
    RunningStands(s);
    hide Placed;
    if s.homes[s.current.value].root {
      FirstStands(s, Here(s));
      ExitAdopts(s);
      var s', p := ExitStep(s), Here(s);
      forall q | q in s'.parents ensures s'.parents[q] !in s'.dead {
        ChildIsUnder(s, q, p);
        if Under(s.parents, s'.parents[q], p) {
          UnderIsYounger(s.parents, s'.parents[q], p);
        }
      }
    }
  }

  /** A task that is not a root leaves its control block when it exits, in no queue, for someone to wait for. */
  lemma ThreadExits(s: State)
    requires Placed(s) && Homed(s) && !s.homes[s.current.value].root
    ensures var s', t := ExitStep(s), s.current.value;
      && s'.current.None? && s'.tasks.Keys == s.tasks.Keys && s'.tasks[t].status == Status.Zombie
      && (forall p :: t !in Queue(s', p)) && (forall u :: u in s.tasks && u != t ==> s'.tasks[u] == s.tasks[u])
      && SameFamily(s, s')
  {
    var s', t := ExitStep(s), s.current.value;
    forall p ensures t !in Queue(s', p) {
      if p != OnCpu {
        CurrentAlone(s, p);
      }
    }
  }

  /** A process is waited for once, and no other process loses its parent. */
  lemma WaitedOnce(s: State, q: Pid)
    requires Enabled(s, WaitPid(q))
    ensures var s' := Step(s, WaitPid(q));
      && !Enabled(s', WaitPid(q)) && s'.dead == s.dead
      && forall p :: p != q ==>
           (p in s'.parents <==> p in s.parents) && (p in s.parents ==> s'.parents[p] == s.parents[p])
  {
  }

  /** A task that ended is reaped once, and no other task is. */
  lemma ReapedOnce(s: State, t: Tid)
    requires Enabled(s, Reap(t))
    ensures var s' := Step(s, Reap(t));
      && !Enabled(s', Reap(t))
      && forall u :: u != t ==> (u in s'.tasks <==> u in s.tasks) && (u in s.tasks ==> s'.tasks[u] == s.tasks[u])
  {
  }

  /** A new task belongs to the process it is made for, is not its root, and stands at the end of the line. */
  lemma SpawnMakesTask(s: State)
    requires Placed(s) && Housed(s) && Homed(s)
    ensures var s', t := SpawnStep(s, Home(Here(s), false)), s.limit;
      && t !in s.tasks && s'.tasks == s.tasks[t := Task(Ready, User)] && s'.ready == s.ready + [t]
      && s'.homes == s.homes[t := Home(Here(s), false)] && SameFamily(s, s')
  {
  }

  /** A fork makes one process, a child of the caller's, with one task, its root, at the end of the line. */
  lemma ForkMakesChild(s: State)
    requires Placed(s) && Housed(s) && Homed(s)
    ensures var s', q, t := ForkStep(s), s.pids, s.limit;
      && q !in s.parents && q !in s.dead && s'.parents == s.parents[q := Here(s)] && s'.dead == s.dead
      && (forall u :: u in s'.homes && s'.homes[u].process == q <==> u == t) && s'.homes[t].root
      && t !in s.tasks && s'.tasks == s.tasks[t := Task(Ready, User)] && s'.ready == s.ready + [t]
  {
    assert Lineage(s.parents, s.pids);
  }

  lemma ForkFosters(s: State)
    requires Placed(s) && Housed(s) && Homed(s) && Fostered(s)
    ensures Fostered(ForkStep(s))
  {
    RunningStands(s);
  }

  ghost predicate SameFamily(s: State, s': State) {
    s'.parents == s.parents && s'.dead == s.dead && s'.pids == s.pids
  }

  lemma MutexSameFamily(s: State, m: nat)
    requires Busy(s) && m < |s.mutexes| == |s.holders|
    ensures SameFamily(s, LockStep(s, m)) && SameFamily(s, UnlockStep(s, m).0)
  {
    hide PopAlive, Mutex.Lock, Mutex.Unlock;
  }

  lemma SemaphoreSameFamily(s: State, k: nat)
    requires Busy(s) && k < |s.semaphores| == |s.records|
    ensures SameFamily(s, UpStep(s, k)) && SameFamily(s, DownStep(s, k))
  {
    hide PopAlive, Semaphore.Up, Semaphore.Down;
  }

  lemma CondvarSameFamily(s: State, c: nat)
    requires c < |s.condvars|
    ensures SameFamily(s, SignalStep(s, c))
  {
    hide PopAlive;
  }

  lemma WaitSameFamily(s: State, c: nat, m: nat)
    requires Busy(s) && c < |s.condvars| && m < |s.mutexes| == |s.holders|
    ensures SameFamily(s, WaitStep(s, c, m))
  {
    MutexSameFamily(s, m);
    hide UnlockStep, LockStep;
  }

  lemma ObjectSameFamily(s: State, e: Event)
    requires OnObjects(e) && ObjectEnabled(s, e)
    ensures SameFamily(s, ObjectStep(s, e))
  {
    hide LockStep, UnlockStep, UpStep, DownStep, SignalStep, WaitStep;
    match e
    case Lock(m) => MutexSameFamily(s, m);
    case Unlock(m) => MutexSameFamily(s, m);
    case Signal(c) => CondvarSameFamily(s, c);
    case Wait(c, m) => WaitSameFamily(s, c, m);
    case Up(k) => SemaphoreSameFamily(s, k);
    case Down(k) => SemaphoreSameFamily(s, k);
    case GoOn =>
      var pc := s.tasks[s.current.value].pc;
      if pc.Locking? {
        MutexSameFamily(s, pc.m);
      } else {
        SemaphoreSameFamily(s, pc.k);
      }
    case _ =>
  }

  lemma TaskSameFamily(s: State, e: Event)
    requires OnTasks(e) && TaskEnabled(s, e) && !e.Exit? && !e.Fork? && !e.WaitPid?
    ensures SameFamily(s, TaskStep(s, e))
  {
  }

  lemma IdleSameFamily(s: State, e: Event)
    requires IdleEnabled(s, e)
    ensures SameFamily(s, IdleStep(s, e))
  {
    hide Without;
  }

  /** Only an exit, a fork and a wait for a process change families. */
  lemma StepSameFamily(s: State, e: Event)
    requires Enabled(s, e) && !e.Exit? && !e.Fork? && !e.WaitPid?
    ensures SameFamily(s, Step(s, e))
  {
    hide ObjectStep, TaskStep, IdleStep, ObjectEnabled, TaskEnabled, IdleEnabled;
    if OnObjects(e) {
      ObjectSameFamily(s, e);
    } else if OnTasks(e) {
      TaskSameFamily(s, e);
    } else {
      IdleSameFamily(s, e);
    }
  }

  /** Every step leaves every process with a parent that has not ended. */
  lemma StepKeepsFostered(s: State, e: Event)
    requires Placed(s) && Housed(s) && Fostered(s) && Enabled(s, e)
    ensures Fostered(Step(s, e))
  {
    hide Placed, Housed, ExitStep, ForkStep, ExitPanics;
    match e
    case Exit => ExitFosters(s);
    case Fork => ForkFosters(s);
    case WaitPid(q) =>
    case _ =>
      StepSameFamily(s, e);
      hide Step;
  }
}
