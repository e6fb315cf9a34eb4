/** What holds of every semaphore in every run. */
module SemaphoreRuns {
  import opened Results
  import opened Sync
  import opened Tasks
  import opened TaskPlaces

  function Positive(n: int): nat {
    if n > 0 then n else 0
  }

  /**
   Tasks are woken in the order in which they blocked; and, from a first count that is not negative, the waiting tasks
   are the debt and the calls let through are the supply less what is left of it.
   */
  ghost predicate SemaphoreOk(sem: Semaphore, r: Record) {
    && (sem.BlockingSemaphore? ==> r.blocked == r.woken + sem.waiting)
    && (r.initial >= 0 ==> |sem.Waiting()| == (if sem.BlockingSemaphore? then Positive(-sem.count) else 0))
    && (r.initial >= 0 ==> r.granted == r.initial + r.ups - Positive(sem.count))
    && (r.initial >= 0 && sem.SpinSemaphore? ==> sem.count >= 0)
  }

  ghost predicate SemaphoresOk(s: State) {
    |s.semaphores| == |s.records| && forall k :: 0 <= k < |s.semaphores| ==> SemaphoreOk(s.semaphores[k], s.records[k])
  }

  lemma NewIsOk(n: int)
    ensures SemaphoreOk(BlockingSemaphore(n, []), Record(n, 0, 0, [], []))
      && SemaphoreOk(SpinSemaphore(n), Record(n, 0, 0, [], []))
  {
  }

  lemma UpIsOk(sem: Semaphore, r: Record, alive: set<Tid>)
    requires SemaphoreOk(sem, r) && forall t :: t in sem.Waiting() ==> t in alive
    ensures SemaphoreOk(sem.Up(alive).0, r.Upped(sem.Up(alive).1))
  {
    PopsFirst(sem.Waiting(), alive);
    if sem.Waiting() != [] {
      assert sem.waiting == [sem.waiting[0]] + sem.waiting[1..];
      assert r.woken + sem.waiting == (r.woken + [sem.waiting[0]]) + sem.waiting[1..];
    }
  }

  lemma DownIsOk(sem: Semaphore, r: Record, t: Tid)
    requires SemaphoreOk(sem, r)
    ensures SemaphoreOk(sem.Down(t).0, r.Downed(sem.Down(t).1, t))
  {
  }

  /** Supply bounds the calls let through, whichever kind of semaphore it is. */
  lemma NeverOvergranted(s: State, k: nat)
    requires SemaphoresOk(s) && k < |s.semaphores| && s.records[k].initial >= 0
    ensures s.records[k].granted <= s.records[k].initial + s.records[k].ups
  {
    assert SemaphoreOk(s.semaphores[k], s.records[k]);
  }

  /** A negative first count breaks the bound in two steps: the task that blocks is let through by the next `up`. */
  lemma NegativeOvergrants(n: int, t: Tid, alive: set<Tid>)
    requires n < 0 && t in alive
    ensures
      var sem, r := BlockingSemaphore(n, []), Record(n, 0, 0, [], []);
      var (sem1, a) := sem.Down(t);
      var (sem2, w) := sem1.Up(alive);
      var r2 := r.Downed(a, t).Upped(w);
      w == Some(t) && r2.granted > r2.initial + r2.ups
  {
  }

  lemma UpKeepsSemaphores(s: State, k: nat)
    requires Placed(s) && k < |s.semaphores| && SemaphoresOk(s)
    ensures SemaphoresOk(UpStep(s, k))
  {
    FirstIsWoken(s, AtSemaphore(k));
    hide Placed, SemaphoreOk;
    UpIsOk(s.semaphores[k], s.records[k], s.tasks.Keys);
  }

  lemma DownKeepsSemaphores(s: State, k: nat)
    requires Busy(s) && k < |s.semaphores| && SemaphoresOk(s)
    ensures SemaphoresOk(DownStep(s, k))
  {
    hide SemaphoreOk;
    DownIsOk(s.semaphores[k], s.records[k], s.current.value);
  }

  lemma MakeKeepsSemaphores(s: State, spin: bool, count: int)
    requires SemaphoresOk(s) && Homed(s)
    ensures SemaphoresOk(MakeSemaphoreStep(s, spin, count))
  {
    hide SemaphoreOk;
    NewIsOk(count);
  }

  /** Every step keeps what holds of semaphores. */
  lemma StepKeepsSemaphores(s: State, e: Event)
    requires Placed(s) && Enabled(s, e) && SemaphoresOk(s)
    ensures SemaphoresOk(Step(s, e))
  {
    hide Placed, SemaphoreOk;
    if e.Up? {
      UpKeepsSemaphores(s, e.k);
    } else if e.Down? {
      DownKeepsSemaphores(s, e.k);
    } else if e.GoOn? && s.tasks[s.current.value].pc.Downing? {
      DownKeepsSemaphores(s, s.tasks[s.current.value].pc.k);
    } else if e.MakeSemaphore? {
      MakeKeepsSemaphores(s, e.spin, e.count);
    } else {
      OtherKeepsSemaphores(s, e);
    }
  }

  lemma OtherKeepsSemaphores(s: State, e: Event)
    requires Enabled(s, e) && !e.Up? && !e.Down? && !e.MakeSemaphore?
    requires (e.GoOn? ==> s.tasks[s.current.value].pc.Locking?)
    ensures Step(s, e).semaphores == s.semaphores && Step(s, e).records == s.records
  {
    hide ObjectStep, TaskStep, IdleStep, ObjectEnabled, TaskEnabled, IdleEnabled;
    if OnObjects(e) {
      ObjectKeepsSemaphores(s, e);
    } else if OnTasks(e) {
      TaskKeepsSemaphores(s, e);
    } else {
      IdleKeepsSemaphores(s, e);
    }
  }

  lemma MutexKeepsSemaphores(s: State, m: nat)
    requires Busy(s) && m < |s.mutexes| == |s.holders|
    ensures LockStep(s, m).semaphores == s.semaphores && LockStep(s, m).records == s.records
    ensures UnlockStep(s, m).0.semaphores == s.semaphores && UnlockStep(s, m).0.records == s.records
  {
    hide PopAlive;
  }

  lemma ObjectKeepsSemaphores(s: State, e: Event)
    requires OnObjects(e) && ObjectEnabled(s, e) && !e.Up? && !e.Down? && !e.MakeSemaphore?
    requires e.GoOn? ==> s.tasks[s.current.value].pc.Locking?
    ensures ObjectStep(s, e).semaphores == s.semaphores && ObjectStep(s, e).records == s.records
  {
    hide LockStep, UnlockStep, PopAlive;
    match e
    case Lock(m) => MutexKeepsSemaphores(s, m);
    case Unlock(m) => MutexKeepsSemaphores(s, m);
    case Wait(c, m) => MutexKeepsSemaphores(s, m);
    case GoOn => MutexKeepsSemaphores(s, s.tasks[s.current.value].pc.m);
    case _ =>
  }

  lemma TaskKeepsSemaphores(s: State, e: Event)
    requires OnTasks(e) && TaskEnabled(s, e)
    ensures TaskStep(s, e).semaphores == s.semaphores && TaskStep(s, e).records == s.records
  {
  }

  lemma IdleKeepsSemaphores(s: State, e: Event)
    requires IdleEnabled(s, e)
    ensures IdleStep(s, e).semaphores == s.semaphores && IdleStep(s, e).records == s.records
  {
    hide Without;
  }
}
