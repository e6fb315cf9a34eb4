/**
 The calls on mutexes, semaphores and condition variables, on the objects themselves: each is a step of the state
 machine.
 */
module Calls {
  import opened Results
  import opened Sync
  import opened Tasks
  import opened Processors

  /** `mark_suspended` and `put_read_task`. */
  method WakeUp(cpu: Processor, w: Option<Tid>, ghost s: State)
    requires cpu.Shows(s) && (w.Some? ==> w.value in cpu.blocks.tasks)
    modifies cpu.scheduler`ready, cpu.blocks`tasks
    ensures cpu.Shows(Wake(s, w))
  {
    if w.Some? {
      cpu.blocks.tasks := cpu.blocks.tasks[w.value := Resumed(cpu.blocks.tasks[w.value])];
      cpu.scheduler.ready := cpu.scheduler.ready + [w.value];
    }
  }

  /** What becomes of the task after one round of `lock` or `down`. */
  method Settle(cpu: Processor, a: Attempt, pc: Pc, ghost s: State)
    requires cpu.Shows(s) && Busy(s)
    modifies cpu, cpu.scheduler`ready, cpu.blocks`tasks
    ensures cpu.Shows(Settled(s, a, pc))
  {
    if a == Spin {
      var r := cpu.SuspendCurrent(pc, s);
    } else if a == Attempt.Blocked {
      var r := cpu.BlockCurrent(pc, s);
    } else {
      cpu.blocks.tasks := cpu.blocks.tasks[cpu.current.value := Task(Status.Running, User)];
    }
  }

  ghost function Settled(s: State, a: Attempt, pc: Pc): State
    requires Busy(s)
  {
    if a == Spin then Suspend(s, pc) else if a == Attempt.Blocked then Block(s, pc) else Onward(s, User)
  }

  /** The state with mutex `m` after a round of `lock` by the running task. */
  ghost function WithLocked(s: State, m: nat): State
    requires Busy(s) && m < |s.mutexes| == |s.holders|
  {
    var t := s.current.value;
    var (mx, a) := s.mutexes[m].Lock(t, s.tasks.Keys);
    s.(mutexes := s.mutexes[m := mx], holders := if a.Acquired? then s.holders[m := s.holders[m] + {t}] else s.holders)
  }

  lemma LockIsSettled(s: State, m: nat)
    requires Busy(s) && m < |s.mutexes| == |s.holders|
    ensures LockStep(s, m) == Settled(WithLocked(s, m), s.mutexes[m].Lock(s.current.value, s.tasks.Keys).1, Locking(m))
  {
    var a := s.mutexes[m].Lock(s.current.value, s.tasks.Keys).1;
    if a.Double? || a.Spin? {
      assert s.mutexes[m := s.mutexes[m]] == s.mutexes;
    }
  }

  /** One round of `lock`, of a blocking mutex. */
  method Lock(cpu: Processor, mutex: MutexBlocking, m: nat, ghost s: State) returns (a: Attempt)
    requires cpu.Shows(s) && Busy(s) && m < |s.mutexes| == |s.holders| && s.mutexes[m] == mutex.State()
    modifies cpu, cpu.scheduler`ready, cpu.blocks`tasks, mutex
    ensures a == s.mutexes[m].Lock(s.current.value, s.tasks.Keys).1
    ensures cpu.Shows(LockStep(s, m)) && LockStep(s, m).mutexes[m] == mutex.State()
  {
    LockIsSettled(s, m);
    a := mutex.Lock(cpu.current.value, cpu.blocks.tasks.Keys);
    Settle(cpu, a, Locking(m), WithLocked(s, m));
  }

  /** One round of `lock`, of a spinning mutex. */
  method LockSpin(cpu: Processor, mutex: MutexSpin, m: nat, ghost s: State) returns (a: Attempt)
    requires cpu.Shows(s) && Busy(s) && m < |s.mutexes| == |s.holders| && s.mutexes[m] == SpinMutex(mutex.locked)
    modifies cpu, cpu.scheduler`ready, cpu.blocks`tasks, mutex
    ensures a == s.mutexes[m].Lock(s.current.value, s.tasks.Keys).1
    ensures cpu.Shows(LockStep(s, m)) && LockStep(s, m).mutexes[m] == SpinMutex(mutex.locked)
  {
    LockIsSettled(s, m);
    a := mutex.Lock(cpu.current.value, cpu.blocks.tasks.Keys);
    Settle(cpu, a, Locking(m), WithLocked(s, m));
  }

  lemma {:induction false} PoppedIsAlive(q: seq<Tid>, alive: set<Tid>)
    ensures PopAlive(q, alive).0.Some? ==> PopAlive(q, alive).0.value in alive
    decreases |q|
  {
    if q != [] && q[0] !in alive {
      PoppedIsAlive(q[1..], alive);
    }
  }

  /** The state with mutex `m` unlocked by the running task, before anyone is woken. */
  ghost function WithUnlocked(s: State, m: nat): State
    requires Busy(s) && m < |s.mutexes| == |s.holders|
  {
    var mx := s.mutexes[m].Unlock(s.current.value, s.tasks.Keys).0;
    s.(mutexes := s.mutexes[m := mx], holders := s.holders[m := s.holders[m] - {s.current.value}])
  }

  method Unlock(cpu: Processor, mutex: MutexBlocking, ghost m: nat, ghost s: State) returns (r: Result<()>)
    requires cpu.Shows(s) && Busy(s) && m < |s.mutexes| == |s.holders| && s.mutexes[m] == mutex.State()
    modifies cpu.scheduler`ready, cpu.blocks`tasks, mutex
    ensures cpu.Shows(UnlockStep(s, m).0) && UnlockStep(s, m).0.mutexes[m] == mutex.State()
    ensures r == if UnlockStep(s, m).1 then Ok(()) else Err(DoubleUnlockMutex)
  {
    hide PopAlive;
    PoppedIsAlive(mutex.waiting, cpu.blocks.tasks.Keys);
    var w := mutex.Unlock(cpu.current.value, cpu.blocks.tasks.Keys);
    if w.Err? {
      return Err(DoubleUnlockMutex);
    }
    WakeUp(cpu, w.value, WithUnlocked(s, m));
    r := Ok(());
  }

  method UnlockSpin(cpu: Processor, mutex: MutexSpin, ghost m: nat, ghost s: State) returns (r: Result<()>)
    requires cpu.Shows(s) && Busy(s) && m < |s.mutexes| == |s.holders| && s.mutexes[m] == SpinMutex(mutex.locked)
    modifies mutex
    ensures cpu.Shows(UnlockStep(s, m).0) && UnlockStep(s, m).0.mutexes[m] == SpinMutex(mutex.locked)
    ensures r == if UnlockStep(s, m).1 then Ok(()) else Err(DoubleUnlockMutex)
  {
    var w := mutex.Unlock(cpu.current.value, cpu.blocks.tasks.Keys);
    r := if w.Ok? then Ok(()) else Err(DoubleUnlockMutex);
  }

  /** The state with semaphore `k` after a round of `down` by the running task. */
  ghost function WithDowned(s: State, k: nat): State
    requires Busy(s) && k < |s.semaphores| == |s.records|
  {
    var (sem, a) := s.semaphores[k].Down(s.current.value);
    s.(semaphores := s.semaphores[k := sem], records := s.records[k := s.records[k].Downed(a, s.current.value)])
  }

  method Down(cpu: Processor, semaphore: SemaphoreBlocking, k: nat, ghost s: State) returns (left: int, a: Attempt)
    requires cpu.Shows(s) && Busy(s) && k < |s.semaphores| == |s.records| && s.semaphores[k] == semaphore.State()
    modifies cpu, cpu.scheduler`ready, cpu.blocks`tasks, semaphore
    ensures a == s.semaphores[k].Down(s.current.value).1 && left == semaphore.State().count
    ensures cpu.Shows(DownStep(s, k)) && DownStep(s, k).semaphores[k] == semaphore.State()
  {
    left, a := semaphore.Down(cpu.current.value);
    Settle(cpu, a, Downing(k), WithDowned(s, k));
  }

  method DownSpin(cpu: Processor, semaphore: SemaphoreSpin, k: nat, ghost s: State) returns (left: int, a: Attempt)
    requires cpu.Shows(s) && Busy(s) && k < |s.semaphores| == |s.records|
    requires s.semaphores[k] == SpinSemaphore(semaphore.count)
    modifies cpu, cpu.scheduler`ready, cpu.blocks`tasks, semaphore
    ensures a == s.semaphores[k].Down(s.current.value).1 && left == semaphore.count
    ensures cpu.Shows(DownStep(s, k)) && DownStep(s, k).semaphores[k] == SpinSemaphore(semaphore.count)
  {
    left, a := semaphore.Down(cpu.current.value);
    Settle(cpu, a, Downing(k), WithDowned(s, k));
  }

  /** The state with semaphore `k` after `up`, before anyone is woken. */
  ghost function WithUpped(s: State, k: nat): State
    requires k < |s.semaphores| == |s.records|
  {
    var (sem, w) := s.semaphores[k].Up(s.tasks.Keys);
    s.(semaphores := s.semaphores[k := sem], records := s.records[k := s.records[k].Upped(w)])
  }

  method Up(cpu: Processor, semaphore: SemaphoreBlocking, ghost k: nat, ghost s: State) returns (left: int)
    requires cpu.Shows(s) && k < |s.semaphores| == |s.records| && s.semaphores[k] == semaphore.State()
    modifies cpu.scheduler`ready, cpu.blocks`tasks, semaphore
    ensures cpu.Shows(UpStep(s, k)) && UpStep(s, k).semaphores[k] == semaphore.State()
    ensures left == semaphore.State().count
  {
    hide PopAlive;
    PoppedIsAlive(semaphore.waiting, cpu.blocks.tasks.Keys);
    var w;
    left, w := semaphore.Up(cpu.blocks.tasks.Keys);
    WakeUp(cpu, w, WithUpped(s, k));
  }

  method UpSpin(cpu: Processor, semaphore: SemaphoreSpin, ghost k: nat, ghost s: State) returns (left: int)
    requires cpu.Shows(s) && k < |s.semaphores| == |s.records| && s.semaphores[k] == SpinSemaphore(semaphore.count)
    modifies semaphore
    ensures cpu.Shows(UpStep(s, k)) && UpStep(s, k).semaphores[k] == SpinSemaphore(semaphore.count)
    ensures left == semaphore.count
  {
    left := semaphore.Up();
  }

  method Signal(cpu: Processor, condvar: CondvarBlocking, ghost c: nat, ghost s: State)
    requires cpu.Shows(s) && c < |s.condvars| && s.condvars[c] == condvar.waiting
    modifies cpu.scheduler`ready, cpu.blocks`tasks, condvar
    ensures cpu.Shows(SignalStep(s, c)) && SignalStep(s, c).condvars[c] == condvar.waiting
  {
    hide PopAlive;
    PoppedIsAlive(condvar.waiting, cpu.blocks.tasks.Keys);
    var w := condvar.Signal(cpu.blocks.tasks.Keys);
    WakeUp(cpu, w, s.(condvars := s.condvars[c := condvar.waiting]));
  }

  /** `wait`, up to the switch: the mutex is unlocked and the task queued before any other task runs. */
  method Wait(cpu: Processor, condvar: CondvarBlocking, mutex: MutexBlocking, c: nat, m: nat, ghost s: State)
    returns (r: Result<()>)
    requires cpu.Shows(s) && Busy(s) && c < |s.condvars| && s.condvars[c] == condvar.waiting
    requires m < |s.mutexes| == |s.holders| && s.mutexes[m] == mutex.State()
    modifies cpu, cpu.scheduler`ready, cpu.blocks`tasks, condvar, mutex
    ensures cpu.Shows(WaitStep(s, c, m)) && r == if UnlockStep(s, m).1 then Ok(()) else Err(DoubleUnlockMutex)
    ensures WaitStep(s, c, m).condvars[c] == condvar.waiting && WaitStep(s, c, m).mutexes[m] == mutex.State()
  {
    ghost var s' := UnlockStep(s, m).0;
    r := Unlock(cpu, mutex, m, s);
    hide UnlockStep;
    if r.Err? {
      return;
    }
    condvar.waiting := condvar.waiting + [cpu.current.value];
    r := cpu.BlockCurrent(Waiting(c, m), s'.(condvars := s'.condvars[c := condvar.waiting]));
  }

  /** The same with a spinning mutex. */
  method WaitSpin(cpu: Processor, condvar: CondvarBlocking, mutex: MutexSpin, c: nat, m: nat, ghost s: State)
    returns (r: Result<()>)
    requires cpu.Shows(s) && Busy(s) && c < |s.condvars| && s.condvars[c] == condvar.waiting
    requires m < |s.mutexes| == |s.holders| && s.mutexes[m] == SpinMutex(mutex.locked)
    modifies cpu, cpu.blocks`tasks, condvar, mutex
    ensures cpu.Shows(WaitStep(s, c, m)) && r == if UnlockStep(s, m).1 then Ok(()) else Err(DoubleUnlockMutex)
    ensures WaitStep(s, c, m).condvars[c] == condvar.waiting
    ensures WaitStep(s, c, m).mutexes[m] == SpinMutex(mutex.locked)
  {
    ghost var s' := UnlockStep(s, m).0;
    r := UnlockSpin(cpu, mutex, m, s);
    hide UnlockStep;
    if r.Err? {
      return;
    }
    condvar.waiting := condvar.waiting + [cpu.current.value];
    r := cpu.BlockCurrent(Waiting(c, m), s'.(condvars := s'.condvars[c := condvar.waiting]));
  }
}
