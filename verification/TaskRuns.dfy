/** Runs of the whole: from the first task on, whatever the tasks do. */
module TaskRuns {
  import opened Results
  import opened Sync
  import opened Processes
  import opened Tasks
  import opened TaskPlaces
  import opened TaskHomes
  import opened MutexRuns
  import opened SemaphoreRuns
  import opened Waiters
  import opened Families

  /** The root task of the first process is ready, and there is nothing else. */
  function Boot(): State {
    State(None, [0], [], [], [], [], map[0 := Task(Ready, User)], 1, map[0 := Home(INIT, true)], map[], 1,
          [], [], [], {}, [], [])
  }

  ghost predicate Good(s: State) {
    Placed(s) && Housed(s) && MutexesOk(s) && SemaphoresOk(s) && EmptyHanded(s) && Fostered(s)
  }

  lemma BootIsGood()
    ensures Good(Boot())
  {
    var s := Boot();
    forall p ensures PlacedAt(s, p) {
    }
    assert s.homes[0] == Home(0, true);
    assert HousedAt(s, 0) && Rooted(s, 0);
  }

  lemma StepKeepsGood(s: State, e: Event)
    requires Good(s) && Enabled(s, e)
    ensures Good(Step(s, e))
  {
    if e.Reap? {
      ReapedIsNotLying(s, e.t);
    }
    hide Placed, Housed, MutexesOk, SemaphoresOk, EmptyHanded, Fostered, Enabled, Step;
    StepKeepsPlaced(s, e);
    StepKeepsHoused(s, e);
    StepKeepsMutexes(s, e);
    StepKeepsSemaphores(s, e);
    StepKeepsEmptyHanded(s, e);
    StepKeepsFostered(s, e);
  }

  /** The events can happen in this order from `s` on, and lead to `s'`. */
  ghost predicate Reaches(s: State, events: seq<Event>, s': State)
    decreases |events|
  {
    if events == [] then s' == s
    else
      var n := |events| - 1;
      exists between ::
        Reaches(s, events[..n], between) && Enabled(between, events[n]) && s' == Step(between, events[n])
  }

  lemma ReachesNext(s: State, events: seq<Event>, between: State, e: Event)
    requires Reaches(s, events, between) && Enabled(between, e)
    ensures Reaches(s, events + [e], Step(between, e))
  {
    hide Enabled, Step;
    assert (events + [e])[..|events|] == events;
  }

  lemma {:induction false} ReachesChain(a: State, first: seq<Event>, b: State, second: seq<Event>, c: State)
    requires Reaches(a, first, b) && Reaches(b, second, c)
    ensures Reaches(a, first + second, c)
    decreases |second|
  {
    hide Enabled, Step;
    if second == [] {
      assert first + second == first;
    } else {
      var n := |second| - 1;
      var x :| Reaches(b, second[..n], x) && Enabled(x, second[n]) && c == Step(x, second[n]);
      ReachesChain(a, first, b, second[..n], x);
      ReachesNext(a, first + second[..n], x, second[n]);
      assert first + second == (first + second[..n]) + [second[n]];
    }
  }

  /**
   Each task in its one place and with its process, every mutex and every semaphore as promised, nobody on the way to a
   mutex it holds, every process with a parent that stands: every run keeps it.
   */
  lemma {:induction false} RunKeepsGood(s: State, events: seq<Event>, s': State)
    requires Good(s) && Reaches(s, events, s')
    ensures Good(s')
    decreases |events|
  {
    hide Good, Enabled, Step;
    if events != [] {
      var n := |events| - 1;
      var x :| Reaches(s, events[..n], x) && Enabled(x, events[n]) && s' == Step(x, events[n]);
      RunKeepsGood(s, events[..n], x);
      StepKeepsGood(x, events[n]);
    }
  }

  /** The state can be reached from the first one. */
  ghost predicate Reachable(s: State) {
    exists events :: Reaches(Boot(), events, s)
  }

  lemma AlwaysGood(s: State)
    requires Reachable(s)
    ensures Good(s)
  {
    hide Good;
    var events :| Reaches(Boot(), events, s);
    BootIsGood();
    RunKeepsGood(Boot(), events, s);
  }

  /** A task is never in two places, nor twice in one. */
  lemma OnePlace(s: State, t: Tid, p: Place, q: Place)
    requires Reachable(s) && t in Queue(s, p) && t in Queue(s, q)
    ensures p == q && NoRepeat(Queue(s, p)) && t in s.tasks && PlaceOf(s.tasks[t]) == p
  {
    AlwaysGood(s);
    assert PlacedAt(s, p) && PlacedAt(s, q);
  }

  /** A task that has not ended is somewhere. */
  lemma SomePlace(s: State, t: Tid)
    requires Reachable(s) && !Over(s, t)
    ensures t in Queue(s, PlaceOf(s.tasks[t]))
  {
    AlwaysGood(s);
    assert PlacedAt(s, PlaceOf(s.tasks[t]));
  }

  /** The idle loop's test for an ended task succeeds exactly on the tasks of processes that ended. */
  lemma EndedInLineIff(s: State, t: Tid)
    requires Reachable(s) && t in s.ready
    ensures t in s.tasks && t in s.homes && (s.tasks[t].status == Status.Zombie <==> s.homes[t].process in s.dead)
  {
    AlwaysGood(s);
    assert PlacedAt(s, InReady) && t in Queue(s, InReady);
    assert HousedAt(s, t);
  }

  /** And so does the test of the timer check. */
  lemma EndedAsleepIff(s: State, t: Tid)
    requires Reachable(s) && t in s.timers
    ensures t in s.tasks && t in s.homes && (s.tasks[t].status == Status.Zombie <==> s.homes[t].process in s.dead)
  {
    AlwaysGood(s);
    assert PlacedAt(s, InTimer) && t in Queue(s, InTimer);
    assert HousedAt(s, t);
  }

  /** A process that has a parent has one that has not ended; only the first process, or one that ended, has none. */
  lemma ParentStands(s: State, q: Pid)
    requires Reachable(s) && q < s.pids
    ensures if q in s.parents then s.parents[q] < s.pids && s.parents[q] !in s.dead else q == INIT || q in s.dead
  {
    AlwaysGood(s);
    hide Placed, MutexesOk, SemaphoresOk, EmptyHanded;
  }

  /** The first root task has run, and has made another task. */
  function Two(): State {
    State(Some(0), [1], [], [], [], [], map[0 := Task(Status.Running, User), 1 := Task(Ready, User)], 2,
          map[0 := Home(INIT, true), 1 := Home(INIT, false)], map[], 1, [], [], [], {}, [], [])
  }

  lemma TwoIsReached()
    ensures Reaches(Boot(), [] + [Run] + [Spawn], Two())
  {
    assert Reaches(Boot(), [], Boot());
    assert Enabled(Boot(), Run);
    var a := Step(Boot(), Run);
    assert Enabled(a, Spawn) && Step(a, Spawn) == Two();
    hide Enabled, Step, Boot, Reaches;
    ReachesNext(Boot(), [], Boot(), Run);
    ReachesNext(Boot(), [] + [Run], a, Spawn);
  }

  lemma TwoCanExit()
    ensures Enabled(Two(), Exit)
    ensures Step(Two(), Exit).ready == [1] && EndedIn(Step(Two(), Exit), 1)
  {
    var s := Two();
    forall u | u in s.tasks ensures s.tasks[u].status != Status.Blocked {
    }
    assert !ExitPanics(s) && Dies(s, 1);
  }

  /** Such a task is found in the line in one run: a root task makes another task and exits before that one ran. */
  lemma EndedInLineHappens()
    ensures exists s :: Reachable(s) && s.ready == [1] && EndedIn(s, 1)
  {
    TwoIsReached();
    TwoCanExit();
    hide Enabled, Step, Two, Boot, Reaches;
    ReachesNext(Boot(), [] + [Run] + [Spawn], Two(), Exit);
    assert Reachable(Step(Two(), Exit));
  }
}
