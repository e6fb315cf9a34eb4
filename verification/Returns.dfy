/**
 How a task gets out of a kernel call: over all runs, it comes back to user code with what it went in for, and in no
 other way.
 */
module Returns {
  import opened Results
  import opened Sync
  import opened Processes
  import opened Tasks
  import opened TaskPlaces
  import opened MutexRuns
  import opened SemaphoreRuns
  import opened Waiters
  import opened Outcomes
  import opened TaskRuns

  /** What a task is in the kernel for: a mutex, in `lock` or to end `wait`; a semaphore; the end of its sleep. */
  datatype Aim = ForMutex(m: nat) | ForSemaphore(k: nat) | ForTime

  predicate Inside(pc: Pc, aim: Aim) {
    match aim
    case ForMutex(m) => Wants(pc, m)
    case ForSemaphore(k) => pc == Downing(k)
    case ForTime => pc == Sleeping
  }

  /** The task is gone, or lies where it was ended. */
  predicate Fell(s: State, t: Tid) {
    t < s.limit && (t in s.tasks ==> s.tasks[t].Lying() && s.tasks[t].status == Status.Zombie)
  }

  /** The task is in its call in state `s`, or has ended there. */
  predicate StillInside(s: State, t: Tid, aim: Aim) {
    Fell(s, t) || (t < s.limit && t in s.tasks && Inside(s.tasks[t].pc, aim))
  }

  /**
   The step gives task `t` what it is in the kernel for: the mutex, which nobody held, and which it holds from now on;
   one from the count of the semaphore, or its turn as the first of those who wait there; the end of its time.
   */
  ghost predicate Gets(s: State, e: Event, t: Tid, aim: Aim)
    requires Enabled(s, e)
  {
    match aim
    case ForMutex(m) =>
      && e == GoOn && s.current == Some(t) && (forall h :: !Holds(s, m, h))
      && Holds(Step(s, e), m, t) && m < |Step(s, e).mutexes| && Step(s, e).mutexes[m].locked == Some(t)
    case ForSemaphore(k) =>
      && k < |s.records| && k < |s.semaphores|
      && (if e == GoOn then s.current == Some(t) && s.semaphores[k].count > 0
          else e == Up(k) && s.semaphores[k].count < 0 && Queue(s, AtSemaphore(k)) != []
               && Queue(s, AtSemaphore(k))[0] == t)
      && k < |Step(s, e).records| && Step(s, e).records[k].granted == s.records[k].granted + 1
    case ForTime => e == Expire(t)
  }

  /** In user code. */
  predicate Back(s: State, t: Tid) {
    t in s.tasks && s.tasks[t].pc == User && (s.tasks[t].status == Ready || s.tasks[t].status == Status.Running)
  }

  /** Task `t` stays in its call, unless the step gives it what it wants, and then it is back in user code. */
  ghost predicate LeavesWell(s: State, e: Event, s': State, t: Tid, aim: Aim)
    requires Enabled(s, e)
  {
    if Gets(s, e, t, aim) then Back(s', t) else StillInside(s', t, aim)
  }

  // ---------- tasks that are woken ----------

  /** Where a task is woken from says what it is in the kernel for. */
  lemma WokenFor(s: State, p: Place, aim: Aim)
    requires Placed(s) && Queue(s, p) != [] && (p.AtMutex? || p.AtCondvar? || p.AtSemaphore?)
    requires Queue(s, p)[0] in s.tasks && Inside(s.tasks[Queue(s, p)[0]].pc, aim)
    ensures p.AtMutex? ==> aim == ForMutex(p.m)
    ensures p.AtCondvar? ==> aim.ForMutex?
    ensures p.AtSemaphore? ==> aim == ForSemaphore(p.k)
  {
    assert PlacedAt(s, p) && Queue(s, p)[0] in Queue(s, p);
  }

  /** In a call a task does not run in user code. */
  lemma InsideIsNotCalling(s: State, t: Tid, aim: Aim)
    requires t in s.tasks && Inside(s.tasks[t].pc, aim) && Calling(s)
    ensures s.current != Some(t)
  {
  }

  lemma UnlockLeaves(s: State, m: nat, t: Tid, aim: Aim)
    requires Placed(s) && MutexesOk(s) && Busy(s) && m < |s.mutexes| && t in s.tasks && Inside(s.tasks[t].pc, aim)
    requires t < s.limit
    ensures StillInside(UnlockStep(s, m).0, t, aim) && t in UnlockStep(s, m).0.tasks
      && Inside(UnlockStep(s, m).0.tasks[t].pc, aim)
  {
    UnlockIff(s, m);
    UnlockLimit(s, m);
    if UnlockStep(s, m).1 {
      UnlockWakes(s, m);
      hide UnlockStep;
      if HandsOver(s, m) && Queue(s, AtMutex(m))[0] == t {
        WokenFor(s, AtMutex(m), aim);
      }
    }
  }

  lemma UnlockLimit(s: State, m: nat)
    requires Busy(s) && m < |s.mutexes| == |s.holders|
    ensures UnlockStep(s, m).0.limit == s.limit
  {
    hide PopAlive;
  }

  lemma WaitLeaves(s: State, c: nat, m: nat, t: Tid, aim: Aim)
    requires Placed(s) && MutexesOk(s) && Busy(s) && m < |s.mutexes| && t in s.tasks && Inside(s.tasks[t].pc, aim)
    requires t < s.limit && c < |s.condvars| && s.current != Some(t)
    ensures StillInside(WaitStep(s, c, m), t, aim)
  {
    UnlockLeaves(s, m, t, aim);
    var s' := UnlockStep(s, m).0;
    hide UnlockStep;
  }

  lemma SignalLeaves(s: State, c: nat, t: Tid, aim: Aim)
    requires Placed(s) && c < |s.condvars| && t in s.tasks && Inside(s.tasks[t].pc, aim) && t < s.limit
    ensures StillInside(SignalStep(s, c), t, aim)
  {
    SignalWakes(s, c);
    if s.condvars[c] != [] && s.condvars[c][0] == t {
      WokenFor(s, AtCondvar(c), aim);
    }
    assert SignalStep(s, c).limit == s.limit by {
      hide PopAlive;
    }
    hide SignalStep;
  }

  lemma UpLeaves(s: State, k: nat, t: Tid, aim: Aim)
    requires Placed(s) && SemaphoresOk(s) && ObjectEnabled(s, Up(k)) && t in s.tasks && Inside(s.tasks[t].pc, aim)
    requires t < s.limit
    ensures LeavesWell(s, Up(k), UpStep(s, k), t, aim)
  {
    UpWakes(s, k);
    if Queue(s, AtSemaphore(k)) != [] && Queue(s, AtSemaphore(k))[0] == t {
      WokenFor(s, AtSemaphore(k), aim);
    }
    assert UpStep(s, k).limit == s.limit by {
      hide PopAlive;
    }
    hide UpStep, Placed, SemaphoresOk;
  }

  // ---------- a retry ----------

  lemma LockLeaves(s: State, t: Tid, m: nat)
    requires MutexesOk(s) && EmptyHanded(s) && ObjectEnabled(s, GoOn) && s.current == Some(t)
    requires s.tasks[t].pc == Locking(m) && t < s.limit
    ensures LeavesWell(s, GoOn, LockStep(s, m), t, ForMutex(m))
  {
    assert !Holds(s, m, t);
    assert LockStep(s, m).limit == s.limit;
    if h :| Holds(s, m, h) {
      LockHeld(s, m, h);
    } else {
      LockFree(s, m);
    }
    hide LockStep, MutexesOk, EmptyHanded;
  }

  lemma DownLeaves(s: State, t: Tid, k: nat)
    requires ObjectEnabled(s, GoOn) && s.current == Some(t) && s.tasks[t].pc == Downing(k) && t < s.limit
    ensures LeavesWell(s, GoOn, DownStep(s, k), t, ForSemaphore(k))
  {
    DownIff(s, k);
    assert DownStep(s, k).limit == s.limit;
    hide DownStep;
  }

  /** What another task does in its retry does not touch `t`. */
  lemma GoOnBystander(s: State, t: Tid, aim: Aim)
    requires ObjectEnabled(s, GoOn) && s.current != Some(t) && t in s.tasks && Inside(s.tasks[t].pc, aim)
    requires t < s.limit
    ensures StillInside(ObjectStep(s, GoOn), t, aim)
  {
    hide Mutex.Lock, Semaphore.Down;
  }

  lemma GoOnLeaves(s: State, t: Tid, aim: Aim)
    requires MutexesOk(s) && EmptyHanded(s) && ObjectEnabled(s, GoOn) && t in s.tasks && Inside(s.tasks[t].pc, aim)
    requires t < s.limit
    ensures LeavesWell(s, GoOn, ObjectStep(s, GoOn), t, aim)
  {
    hide MutexesOk, EmptyHanded, LockStep, DownStep, StillInside, Back;
    if s.current == Some(t) {
      var pc := s.tasks[t].pc;
      if pc.Locking? {
        LockLeaves(s, t, pc.m);
      } else {
        DownLeaves(s, t, pc.k);
      }
    } else {
      GoOnBystander(s, t, aim);
    }
  }

  // ---------- one step ----------

  /** Calls that put the caller somewhere, and make objects, do not touch `t`. */
  lemma CallBystander(s: State, e: Event, t: Tid, aim: Aim)
    requires OnObjects(e) && ObjectEnabled(s, e) && s.current != Some(t) && t in s.tasks && Inside(s.tasks[t].pc, aim)
    requires t < s.limit && (e.Lock? || e.Down? || e.MakeMutex? || e.MakeSemaphore? || e.MakeCondvar?)
    ensures StillInside(ObjectStep(s, e), t, aim)
  {
    hide Mutex.Lock, Semaphore.Down;
  }

  lemma ObjectLeaves(s: State, e: Event, t: Tid, aim: Aim)
    requires Placed(s) && MutexesOk(s) && SemaphoresOk(s) && EmptyHanded(s) && OnObjects(e) && ObjectEnabled(s, e)
    requires t in s.tasks && Inside(s.tasks[t].pc, aim) && t < s.limit
    ensures LeavesWell(s, e, ObjectStep(s, e), t, aim)
  {
    if !e.GoOn? {
      InsideIsNotCalling(s, t, aim);
    }
    MutexSizes(s);
    hide Placed, MutexesOk, SemaphoresOk, EmptyHanded, UnlockStep, WaitStep, SignalStep, UpStep, StillInside, Back;
    hide LockStep, DownStep, Inside;
    match e
    case Unlock(m) => UnlockLeaves(s, m, t, aim);
    case Wait(c, m) => WaitLeaves(s, c, m, t, aim);
    case Signal(c) => SignalLeaves(s, c, t, aim);
    case Up(k) => UpLeaves(s, k, t, aim);
    case GoOn => GoOnLeaves(s, t, aim);
    case _ => CallBystander(s, e, t, aim);
  }

  lemma MutexSizes(s: State)
    requires MutexesOk(s)
    ensures |s.mutexes| == |s.holders|
  {
  }

  lemma TaskLeaves(s: State, e: Event, t: Tid, aim: Aim)
    requires OnTasks(e) && TaskEnabled(s, e) && t in s.tasks && Inside(s.tasks[t].pc, aim) && t < s.limit
    ensures StillInside(TaskStep(s, e), t, aim)
  {
    InsideIsNotCalling(s, t, aim);
    hide ExitPanics, Under;
  }

  lemma IdleLeaves(s: State, e: Event, t: Tid, aim: Aim)
    requires Placed(s) && IdleEnabled(s, e) && t in s.tasks && Inside(s.tasks[t].pc, aim) && t < s.limit
    ensures LeavesWell(s, e, IdleStep(s, e), t, aim)
  {
    if e.Expire? {
      assert PlacedAt(s, InTimer) && e.t in Queue(s, InTimer);
    }
    hide Without, Placed;
  }

  // ---------- tasks that ended ----------

  /** The step has nothing to do with task `t`. */
  predicate Spares(s: State, s': State, t: Tid) {
    && s'.limit == s.limit && (t in s'.tasks <==> t in s.tasks) && (t in s.tasks ==> s'.tasks[t] == s.tasks[t])
  }

  /** Those who wait have not ended. */
  lemma WaiterIsUp(s: State, p: Place)
    requires Placed(s) && Queue(s, p) != [] && (p.AtMutex? || p.AtCondvar? || p.AtSemaphore?)
    ensures !Fell(s, Queue(s, p)[0])
  {
    assert PlacedAt(s, p) && Queue(s, p)[0] in Queue(s, p);
  }

  lemma UnlockSpares(s: State, m: nat, t: Tid)
    requires Placed(s) && MutexesOk(s) && Busy(s) && m < |s.mutexes| && Fell(s, t)
    ensures Spares(s, UnlockStep(s, m).0, t)
  {
    UnlockIff(s, m);
    UnlockLimit(s, m);
    if UnlockStep(s, m).1 {
      UnlockWakes(s, m);
      hide UnlockStep;
      if HandsOver(s, m) {
        WaiterIsUp(s, AtMutex(m));
        FirstIsWoken(s, AtMutex(m));
      }
    }
  }

  lemma WaitSpares(s: State, c: nat, m: nat, t: Tid)
    requires Placed(s) && MutexesOk(s) && Busy(s) && m < |s.mutexes| && c < |s.condvars| && Fell(s, t)
    ensures Spares(s, WaitStep(s, c, m), t)
  {
    UnlockSpares(s, m, t);
    CurrentAlone(s, Gone);
    var s' := UnlockStep(s, m).0;
    hide UnlockStep, Placed;
  }

  lemma SignalSpares(s: State, c: nat, t: Tid)
    requires Placed(s) && c < |s.condvars| && Fell(s, t)
    ensures Spares(s, SignalStep(s, c), t)
  {
    SignalWakes(s, c);
    if s.condvars[c] != [] {
      WaiterIsUp(s, AtCondvar(c));
    }
    assert SignalStep(s, c).limit == s.limit by {
      hide PopAlive;
    }
    hide SignalStep, Placed;
  }

  lemma UpSpares(s: State, k: nat, t: Tid)
    requires Placed(s) && SemaphoresOk(s) && k < |s.semaphores| && Fell(s, t)
    ensures Spares(s, UpStep(s, k), t)
  {
    UpWakes(s, k);
    if Queue(s, AtSemaphore(k)) != [] {
      WaiterIsUp(s, AtSemaphore(k));
      FirstIsWoken(s, AtSemaphore(k));
    }
    assert UpStep(s, k).limit == s.limit by {
      hide PopAlive;
    }
    hide UpStep, Placed, SemaphoresOk;
  }

  /** Steps in which only the running task changes. */
  lemma OwnSpares(s: State, e: Event, t: Tid)
    requires OnObjects(e) && ObjectEnabled(s, e) && s.current != Some(t)
    requires e.GoOn? || e.Lock? || e.Down? || e.MakeMutex? || e.MakeSemaphore? || e.MakeCondvar?
    ensures Spares(s, ObjectStep(s, e), t)
  {
    hide Mutex.Lock, Semaphore.Down;
  }

  lemma ObjectSpares(s: State, e: Event, t: Tid)
    requires Placed(s) && MutexesOk(s) && SemaphoresOk(s) && OnObjects(e) && ObjectEnabled(s, e) && Fell(s, t)
    ensures Spares(s, ObjectStep(s, e), t)
  {
    CurrentAlone(s, Gone);
    MutexSizes(s);
    assert s.current != Some(t);
    hide Placed, MutexesOk, SemaphoresOk, UnlockStep, WaitStep, SignalStep, UpStep, LockStep, DownStep, Spares, Fell;
    match e
    case Unlock(m) => UnlockSpares(s, m, t);
    case Wait(c, m) => WaitSpares(s, c, m, t);
    case Signal(c) => SignalSpares(s, c, t);
    case Up(k) => UpSpares(s, k, t);
    case _ => OwnSpares(s, e, t);
  }

  lemma TaskFells(s: State, e: Event, t: Tid)
    requires Placed(s) && OnTasks(e) && TaskEnabled(s, e) && Fell(s, t)
    ensures Fell(TaskStep(s, e), t)
  {
    CurrentAlone(s, Gone);
    assert s.current != Some(t);
    hide ExitPanics, Under, Placed;
  }

  lemma IdleFells(s: State, e: Event, t: Tid)
    requires IdleEnabled(s, e) && Fell(s, t)
    ensures Fell(IdleStep(s, e), t)
  {
    hide Without;
  }

  /** A task that has ended in its call, or is gone, does not come back. */
  lemma FellStays(s: State, e: Event, t: Tid)
    requires Good(s) && Enabled(s, e) && Fell(s, t)
    ensures Fell(Step(s, e), t)
  {
    hide Placed, MutexesOk, SemaphoresOk, EmptyHanded, ObjectStep, TaskStep, IdleStep, ObjectEnabled, TaskEnabled;
    hide IdleEnabled;
    if OnObjects(e) {
      ObjectSpares(s, e, t);
    } else if OnTasks(e) {
      TaskFells(s, e, t);
    } else {
      IdleFells(s, e, t);
    }
  }

  // ---------- runs ----------

  /** Every step of every task leaves `t` in its call, or gives it what it wants and lets it go. */
  lemma StepLeaves(s: State, e: Event, t: Tid, aim: Aim)
    requires Good(s) && Enabled(s, e) && t in s.tasks && Inside(s.tasks[t].pc, aim)
    ensures LeavesWell(s, e, Step(s, e), t, aim)
  {
    assert t < s.limit;
    hide Placed, MutexesOk, SemaphoresOk, EmptyHanded, ObjectStep, TaskStep, IdleStep, ObjectEnabled, TaskEnabled;
    hide IdleEnabled, StillInside, Back, Inside;
    if OnObjects(e) {
      ObjectLeaves(s, e, t, aim);
    } else if OnTasks(e) {
      TaskLeaves(s, e, t, aim);
    } else {
      IdleLeaves(s, e, t, aim);
    }
  }

  /** Event `i` of the run finds task `t` in its call, and lets it go back to user code with what it wants. */
  ghost predicate LetGoAt(s: State, events: seq<Event>, i: nat, t: Tid, aim: Aim)
    requires i < |events|
  {
    exists x ::
      && Reaches(s, events[..i], x) && Enabled(x, events[i]) && StillInside(x, t, aim) && Gets(x, events[i], t, aim)
      && Back(Step(x, events[i]), t)
  }

  /** Some event of the run lets task `t` go with what it wants. */
  ghost predicate LetGo(s: State, events: seq<Event>, t: Tid, aim: Aim) {
    exists i :: 0 <= i < |events| && LetGoAt(s, events, i, t, aim)
  }

  lemma LetGoLater(s: State, events: seq<Event>, t: Tid, aim: Aim)
    requires events != [] && LetGo(s, events[..|events| - 1], t, aim)
    ensures LetGo(s, events, t, aim)
  {
    hide Reaches, Enabled, Step, StillInside, Gets, Back;
    var n := |events| - 1;
    var i :| 0 <= i < n && LetGoAt(s, events[..n], i, t, aim);
    assert events[..n][..i] == events[..i] && events[..n][i] == events[i];
    assert LetGoAt(s, events, i, t, aim);
  }

  /**
   Over every run: a task that is in a kernel call comes out of it only by an event that gives it what it is there for,
   or never.
   */
  lemma {:induction false} OutOnlyWithIt(s: State, events: seq<Event>, s': State, t: Tid, aim: Aim)
    requires Good(s) && t in s.tasks && Inside(s.tasks[t].pc, aim) && Reaches(s, events, s')
    ensures StillInside(s', t, aim) || LetGo(s, events, t, aim)
    decreases |events|
  {
    if events == [] {
      assert t < s.limit;
    } else {
      hide Good, Enabled, Step, Inside, Gets, Back, LetGo;
      var n := |events| - 1;
      var x :| Reaches(s, events[..n], x) && Enabled(x, events[n]) && s' == Step(x, events[n]);
      OutOnlyWithIt(s, events[..n], x, t, aim);
      if LetGo(s, events[..n], t, aim) {
        LetGoLater(s, events, t, aim);
      } else {
        RunKeepsGood(s, events[..n], x);
        OneMoreStep(s, events, x, t, aim);
      }
    }
  }

  lemma OneMoreStep(s: State, events: seq<Event>, x: State, t: Tid, aim: Aim)
    requires events != [] && Reaches(s, events[..|events| - 1], x) && Enabled(x, events[|events| - 1]) && Good(x)
    requires StillInside(x, t, aim)
    ensures StillInside(Step(x, events[|events| - 1]), t, aim) || LetGo(s, events, t, aim)
  {
    var n := |events| - 1;
    hide Good, Reaches, Enabled, Step, Inside, Gets, Back;
    if Fell(x, t) {
      FellStays(x, events[n], t);
    } else {
      StepLeaves(x, events[n], t, aim);
      if Gets(x, events[n], t, aim) {
        assert LetGoAt(s, events, n, t, aim);
      }
    }
  }

  /**
   `wait` takes the mutex again before it returns: whoever gave up a mutex in `wait` and is back in user code was given
   the mutex since, by an event at which nobody held it.
   */
  lemma WaitReturnsHolding(s: State, c: nat, m: nat, t: Tid, events: seq<Event>, s': State)
    requires Good(s) && t in s.tasks && s.tasks[t].pc == Waiting(c, m) && Reaches(s, events, s') && Back(s', t)
    ensures LetGo(s, events, t, ForMutex(m))
  {
    hide Good, Reaches, LetGo;
    OutOnlyWithIt(s, events, s', t, ForMutex(m));
  }
}
