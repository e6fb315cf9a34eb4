/** The ready queue and the timer heap, updated in place, step by step as the state machine of all runs has it. */
module Schedulers {
  import opened Results
  import opened Sync
  import opened Processes
  import opened Tasks
  import opened TaskPlaces
  import opened TaskRuns
  import opened Timers

  function Zombies(tasks: map<Tid, Task>): set<Tid> {
    set t | t in tasks && tasks[t].status == Status.Zombie
  }

  /** The tasks that have a timer. */
  function Sleepers(heap: seq<Timer>): seq<Tid> {
    seq(|heap|, i requires 0 <= i < |heap| => heap[i].task)
  }

  /** No task came or ended; some tasks that had ended may be gone. */
  ghost predicate SameEnded(s: State, s': State) {
    s'.tasks.Keys <= s.tasks.Keys && forall t :: t in s'.tasks ==> (EndedIn(s', t) <==> EndedIn(s, t))
  }

  /** All that the steps of the idle loop and of the timer check leave alone. */
  ghost predicate SameRest(s: State, s': State) {
    && s'.homes == s.homes && s'.parents == s.parents && s'.pids == s.pids && s'.dead == s.dead && s'.limit == s.limit
    && s'.mutexes == s.mutexes && s'.semaphores == s.semaphores && s'.condvars == s.condvars
    && s'.mutexOf == s.mutexOf && s'.semaphoreOf == s.semaphoreOf && s'.condvarOf == s.condvarOf
    && s'.holders == s.holders && s'.records == s.records
  }

  /** The control blocks that exist, with the status of each task, what it does next, its process, and the processes. */
  class ControlBlocks {
    var tasks: map<Tid, Task>
    var homes: map<Tid, Home>
    var parents: map<Pid, Pid>

    ghost predicate Shows(s: State)
      reads this
    {
      tasks == s.tasks && homes == s.homes && parents == s.parents
    }

    constructor ()
      ensures tasks == map[] && homes == map[] && parents == map[]
    {
      tasks := map[];
      homes := map[];
      parents := map[];
    }
  }

  lemma {:induction false} SleepersWithout(heap: seq<Timer>, i: nat)
    requires i < |heap| && NoRepeat(Sleepers(heap))
    ensures Sleepers(RemoveAt(heap, i)) == Without(Sleepers(heap), heap[i].task)
    decreases i
  {
    var line := Sleepers(heap);
    var rest := RemoveAt(heap, i);
    if i == 0 {
      assert Sleepers(rest) == line[1..];
    } else {
      var tail := heap[1..];
      assert Sleepers(tail) == line[1..];
      assert line[0] != line[i];
      SleepersWithout(tail, i - 1);
      assert rest == [heap[0]] + RemoveAt(tail, i - 1);
      assert Sleepers(rest) == [line[0]] + Sleepers(RemoveAt(tail, i - 1));
    }
  }

  /** The event in which the timer of task `t` is taken from the heap. */
  function Pops(s: State, t: Tid): Event {
    if EndedIn(s, t) then Forget(t) else Expire(t)
  }

  lemma SleeperExists(s: State, heap: seq<Timer>, i: nat)
    requires Good(s) && Sleepers(heap) == s.timers && i < |heap|
    ensures heap[i].task in s.tasks && heap[i].task in s.timers && NoRepeat(s.timers)
    ensures Busy(s) ==> s.tasks[s.current.value].status == Status.Running && s.current != Some(heap[i].task)
  {
    assert s.timers[i] == heap[i].task;
    assert heap[i].task in Queue(s, InTimer) && PlacedAt(s, InTimer);
    if Busy(s) {
      CurrentAlone(s, InTimer);
    }
  }

  /** What taking the timer at `i` does to the state. */
  ghost predicate Popped(s: State, s': State, heap: seq<Timer>, i: nat)
    requires i < |heap|
  {
    var t := heap[i].task;
    && t in s.tasks && s'.timers == Sleepers(RemoveAt(heap, i)) && s'.current == s.current && Interruptible(s')
    && s'.ready == s.ready + (if EndedIn(s, t) then [] else [t])
    && s'.tasks == (if EndedIn(s, t) then s.tasks - {t} else s.tasks[t := Resumed(s.tasks[t])])
    && SameEnded(s, s') && SameRest(s, s')
  }

  lemma ForgetPops(s: State, heap: seq<Timer>, i: nat)
    requires Interruptible(s) && i < |heap| && EndedIn(s, heap[i].task)
    requires Busy(s) ==> s.tasks[s.current.value].status == Status.Running
    requires Sleepers(RemoveAt(heap, i)) == Without(s.timers, heap[i].task)
    ensures Popped(s, ForgetStep(s, heap[i].task), heap, i)
  {
    hide Without, Sleepers;
  }

  lemma ExpirePops(s: State, heap: seq<Timer>, i: nat)
    requires Interruptible(s) && i < |heap| && heap[i].task in s.tasks && !EndedIn(s, heap[i].task)
    requires heap[i].task in s.timers
    requires Busy(s) ==> s.current != Some(heap[i].task)
    requires Sleepers(RemoveAt(heap, i)) == Without(s.timers, heap[i].task)
    ensures Popped(s, ExpireStep(s, heap[i].task), heap, i)
  {
    hide Without, Sleepers;
  }

  /** Taking one timer from the heap is one step. */
  lemma PopIsStep(s: State, heap: seq<Timer>, i: nat)
    requires Good(s) && Interruptible(s) && Sleepers(heap) == s.timers && i < |heap|
    ensures var t := heap[i].task; Enabled(s, Pops(s, t)) && Good(Step(s, Pops(s, t)))
    ensures Popped(s, Step(s, Pops(s, heap[i].task)), heap, i)
  {
    var t := heap[i].task;
    SleeperExists(s, heap, i);
    SleepersWithout(heap, i);
    hide Good, Sleepers, Without, Popped, ForgetStep, ExpireStep;
    if EndedIn(s, t) {
      ForgetPops(s, heap, i);
    } else {
      ExpirePops(s, heap, i);
    }
    StepKeepsGood(s, Pops(s, t));
  }

  /** Of the tasks that exist, those in `zombies` have ended. */
  ghost predicate Tells(zombies: set<Tid>, s: State) {
    forall t :: t in s.tasks ==> (EndedIn(s, t) <==> t in zombies)
  }

  lemma TellsLater(s: State, s': State)
    requires SameEnded(s, s')
    ensures Tells(Zombies(s.tasks), s')
  {
  }

  lemma ZombieIff(s: State, s': State, zombies: set<Tid>, t: Tid)
    requires Tells(zombies, s) && SameEnded(s, s') && t in s'.tasks
    ensures s'.tasks[t].status == Status.Zombie <==> t in zombies
    ensures EndedIn(s', t) <==> t in zombies
  {
  }

  lemma SameEndedChain(a: State, b: State, c: State)
    requires SameEnded(a, b) && SameEnded(b, c)
    ensures SameEnded(a, c)
  {
  }

  /** The queue and the heap of `TaskScheduler`. */
  class TaskScheduler {
    var ready: seq<Tid>
    var timer: seq<Timer>

    ghost predicate Shows(s: State)
      reads this
    {
      ready == s.ready && Sleepers(timer) == s.timers
    }

    constructor ()
      ensures ready == [] && timer == []
    {
      ready := [];
      timer := [];
    }

    /** `check_timers`: it wakes, and forgets, as one check of the heap does, in steps of the state machine. */
    method CheckTimers(now: nat, blocks: ControlBlocks, ghost s: State, ghost zombies: set<Tid>)
      returns (ghost popped: seq<Timer>, ghost events: seq<Event>, ghost s': State)
      requires Shows(s) && blocks.Shows(s) && Good(s) && Interruptible(s) && Tells(zombies, s)
      modifies this, blocks`tasks
      ensures Checked(old(timer), popped, timer, now, zombies)
      ensures ready == old(ready) + Woken(popped, zombies)
      ensures Shows(s') && blocks.Shows(s') && Reaches(s, events, s') && Good(s')
      ensures s'.current == s.current && Interruptible(s') && SameEnded(s, s') && SameRest(s, s')
    {
      hide IsTop, Taken, Woken, Checked, Good, Reaches, Enabled, Step, EndedIn, Tells, SameEnded, Sleepers;
      popped, events, s' := [], [], s;
      TakenNone(timer);
      WokenNone(zombies);
      NoEvents(s);
      while timer != []
        invariant Taken(old(timer), popped, timer) && AllDue(popped, now, zombies)
        invariant ready == old(ready) + Woken(popped, zombies)
        invariant Shows(s') && blocks.Shows(s') && Reaches(s, events, s') && Good(s')
        invariant s'.current == s.current && SameEnded(s, s') && SameRest(s, s') && Interruptible(s')
        decreases |timer|
      {
        TopExists(timer);
        var i: nat :| IsTop(timer, i);
        TopInside(timer, i);
        var cv := timer[i];
        TakenNext(old(timer), popped, timer, i);
        WokenMore(popped, cv, zombies);
        SleeperExists(s', timer, i);
        ZombieIff(s, s', zombies, cv.task);
        PopIsStep(s', timer, i);
        if blocks.tasks[cv.task].status == Status.Zombie {
          timer := RemoveAt(timer, i);
          blocks.tasks := blocks.tasks - {cv.task};
        } else if cv.expire <= now {
          ready := ready + [cv.task];
          timer := RemoveAt(timer, i);
          blocks.tasks := blocks.tasks[cv.task := Resumed(blocks.tasks[cv.task])];
        } else {
          CheckedStops(old(timer), popped, timer, i, now, zombies);
          return;
        }
        ReachesNext(s, events, s', Pops(s', cv.task));
        SameEndedChain(s, s', Step(s', Pops(s', cv.task)));
        popped, events, s' := popped + [cv], events + [Pops(s', cv.task)], Step(s', Pops(s', cv.task));
      }
      CheckedEnds(old(timer), popped, now, zombies);
    }

    /** `remove_timer`: the heap is drained, and all but the timers of `task` are put back. */
    method RemoveTimer(task: Tid)
      modifies this`timer
      ensures timer == Kept(old(timer), task)
      ensures forall x :: multiset(timer)[x] == if x.task == task then 0 else old(multiset(timer)[x])
    {
      var drained: seq<Timer>, kept: seq<Timer> := timer, [];
      var k := 0;
      while k < |drained|
        invariant 0 <= k <= |drained| && kept == Kept(drained[..k], task)
      {
        assert drained[..k + 1][..k] == drained[..k];
        if drained[k].task != task {
          kept := kept + [drained[k]];
        }
        k := k + 1;
      }
      assert drained[..k] == drained;
      timer := kept;
      forall x ensures multiset(timer)[x] == if x.task == task then 0 else multiset(drained)[x] {
        KeptExactly(drained, task, x);
      }
    }
  }

  lemma NoEvents(s: State)
    ensures Reaches(s, [], s) && SameEnded(s, s)
  {
  }
}
