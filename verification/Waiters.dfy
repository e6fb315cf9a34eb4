/** Tasks on their way to a mutex, inside `lock` or inside `wait`: in every run they do not hold it. */
module Waiters {
  import opened Sync
  import opened Processes
  import opened Tasks
  import opened MutexRuns

  /** The task is on its way to mutex `m`: `lock` is what it does next, or what `wait` ends with. */
  predicate Wants(pc: Pc, m: nat) {
    (pc.Locking? || pc.Waiting?) && pc.m == m
  }

  /** Whoever is on its way to a mutex does not hold it. */
  ghost predicate EmptyHanded(s: State) {
    forall t, m :: t in s.tasks && 0 <= m < |s.holders| && Wants(s.tasks[t].pc, m) ==> t !in s.holders[m]
  }

  /** Whoever is on its way to a mutex in `s'` was so in `s`. */
  ghost predicate NoNewWants(s: State, s': State) {
    forall t, m: nat :: t in s'.tasks && Wants(s'.tasks[t].pc, m) ==> t in s.tasks && Wants(s.tasks[t].pc, m)
  }

  /** Where nobody sets out for a mutex and nobody gets one, all stay empty-handed. */
  lemma StayEmptyHanded(s: State, s': State)
    requires EmptyHanded(s) && NoNewWants(s, s') && |s'.holders| == |s.holders|
    requires forall m :: 0 <= m < |s.holders| ==> s'.holders[m] <= s.holders[m]
    ensures EmptyHanded(s')
  {
  }

  lemma ObjectWants(s: State, e: Event)
    requires OnObjects(e) && ObjectEnabled(s, e) && Apart(e)
    ensures NoNewWants(s, ObjectStep(s, e))
  {
    hide PopAlive;
  }

  lemma TaskWants(s: State, e: Event)
    requires OnTasks(e) && TaskEnabled(s, e)
    ensures NoNewWants(s, TaskStep(s, e))
  {
    hide Under, ExitPanics;
  }

  lemma IdleWants(s: State, e: Event)
    requires IdleEnabled(s, e)
    ensures NoNewWants(s, IdleStep(s, e))
  {
    hide Without;
  }

  lemma ApartKeepsEmptyHanded(s: State, e: Event)
    requires Enabled(s, e) && Apart(e) && EmptyHanded(s)
    ensures EmptyHanded(Step(s, e))
  {
    ApartSame(s, e);
    hide ObjectStep, TaskStep, IdleStep, ObjectEnabled, TaskEnabled, IdleEnabled;
    if OnObjects(e) {
      ObjectWants(s, e);
    } else if OnTasks(e) {
      TaskWants(s, e);
    } else {
      IdleWants(s, e);
    }
    StayEmptyHanded(s, Step(s, e));
  }

  /** A task that has to wait for a mutex does not hold it: if it did, it would have been refused. */
  lemma LockKeepsEmptyHanded(s: State, m: nat)
    requires Busy(s) && MutexesOk(s) && m < |s.mutexes| && EmptyHanded(s)
    ensures EmptyHanded(LockStep(s, m))
  {
    assert MutexOk(s, m);
  }

  lemma UnlockWants(s: State, m: nat)
    requires Busy(s) && m < |s.mutexes| == |s.holders|
    ensures var s' := UnlockStep(s, m).0;
      && NoNewWants(s, s') && |s'.holders| == |s.holders|
      && (forall l :: 0 <= l < |s.holders| ==> s'.holders[l] <= s.holders[l])
      && (UnlockStep(s, m).1 ==> s.current.value !in s'.holders[m])
  {
    hide PopAlive;
  }

  lemma UnlockKeepsEmptyHanded(s: State, m: nat)
    requires Busy(s) && m < |s.mutexes| == |s.holders| && EmptyHanded(s)
    ensures EmptyHanded(UnlockStep(s, m).0)
  {
    UnlockWants(s, m);
    var s' := UnlockStep(s, m).0;
    hide UnlockStep;
    StayEmptyHanded(s, s');
  }

  lemma WaitKeepsEmptyHanded(s: State, c: nat, m: nat)
    requires Busy(s) && c < |s.condvars| && m < |s.mutexes| == |s.holders| && EmptyHanded(s)
    ensures EmptyHanded(WaitStep(s, c, m))
  {
    UnlockKeepsEmptyHanded(s, m);
    UnlockWants(s, m);
    var s' := UnlockStep(s, m).0;
    hide UnlockStep;
  }

  lemma DownKeepsEmptyHanded(s: State, k: nat)
    requires Busy(s) && k < |s.semaphores| == |s.records| && EmptyHanded(s)
    ensures EmptyHanded(DownStep(s, k))
  {
  }

  lemma GoOnKeepsEmptyHanded(s: State)
    requires ObjectEnabled(s, GoOn) && MutexesOk(s) && EmptyHanded(s)
    ensures EmptyHanded(ObjectStep(s, GoOn))
  {
    var pc := s.tasks[s.current.value].pc;
    hide LockStep, DownStep, MutexesOk, EmptyHanded;
    if pc.Locking? {
      LockKeepsEmptyHanded(s, pc.m);
    } else {
      DownKeepsEmptyHanded(s, pc.k);
    }
  }

  /** A new mutex is wanted by nobody, since nobody knows it. */
  lemma MakeKeepsEmptyHanded(s: State, spin: bool)
    requires Homed(s) && EmptyHanded(s)
    ensures EmptyHanded(MakeMutexStep(s, spin))
  {
  }

  /** Every step leaves those who are on their way to a mutex without it. */
  lemma StepKeepsEmptyHanded(s: State, e: Event)
    requires MutexesOk(s) && Enabled(s, e) && EmptyHanded(s)
    ensures EmptyHanded(Step(s, e))
  {
    hide LockStep, UnlockStep, WaitStep, MakeMutexStep, EmptyHanded, MutexesOk;
    match e
    case Lock(m) => LockKeepsEmptyHanded(s, m);
    case Unlock(m) => UnlockKeepsEmptyHanded(s, m);
    case Wait(c, m) => WaitKeepsEmptyHanded(s, c, m);
    case GoOn => GoOnKeepsEmptyHanded(s);
    case MakeMutex(spin) => MakeKeepsEmptyHanded(s, spin);
    case _ => ApartKeepsEmptyHanded(s, e);
  }
}
