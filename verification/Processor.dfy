/** The processor: which task runs, and how it is taken off and replaced; each call is a step of the state machine. */
module Processors {
  import opened Results
  import opened Sync
  import opened Processes
  import opened Tasks
  import opened TaskPlaces
  import opened TaskHomes
  import opened TaskRuns
  import opened Timers
  import opened IdleLoop
  import opened Schedulers

  class Processor {
    const scheduler: TaskScheduler
    const blocks: ControlBlocks
    var current: Option<Tid>

    /** The objects stand as the state machine does in state `s`. */
    ghost predicate Shows(s: State)
      reads this, scheduler, blocks
    {
      current == s.current && scheduler.Shows(s) && blocks.Shows(s)
    }

    constructor (scheduler: TaskScheduler, blocks: ControlBlocks)
      ensures this.scheduler == scheduler && this.blocks == blocks && current == None
    {
      this.scheduler := scheduler;
      this.blocks := blocks;
      this.current := None;
    }

    /** `suspend_current_and_run_other_task`, up to the switch, by a task that goes on with `pc` afterwards. */
    method SuspendCurrent(pc: Pc, ghost s: State) returns (r: Result<()>)
      requires Shows(s) && (current.Some? ==> current.value in blocks.tasks)
      modifies this, scheduler`ready, blocks`tasks
      ensures r == if s.current.Some? then Ok(()) else Err(ProcessHaveNotTask)
      ensures r.Ok? ==> Shows(Suspend(s, pc)) && (Placed(s) ==> Placed(Suspend(s, pc)))
      ensures r.Err? ==> Shows(s)
    {
      if current.None? {
        return Err(ProcessHaveNotTask);
      }
      blocks.tasks := blocks.tasks[current.value := Task(Ready, pc)];
      scheduler.ready := scheduler.ready + [current.value];
      current := None;
      r := Ok(());
      SuspendKeeps(s, pc);
    }

    /** `block_current_and_run_other_task`, for a task that waits in a queue already. */
    method BlockCurrent(pc: Pc, ghost s: State) returns (r: Result<()>)
      requires Shows(s) && (current.Some? ==> current.value in blocks.tasks)
      modifies this, blocks`tasks
      ensures r == if s.current.Some? then Ok(()) else Err(ProcessHaveNotTask)
      ensures r.Ok? ==> Shows(Block(s, pc))
      ensures r.Err? ==> Shows(s)
    {
      if current.None? {
        return Err(ProcessHaveNotTask);
      }
      blocks.tasks := blocks.tasks[current.value := Task(Status.Blocked, pc)];
      current := None;
      r := Ok(());
    }

    /** `sleep_current_and_run_other_task`: blocked, with a timer in the heap. */
    method SleepCurrent(expire: nat, ghost s: State) returns (r: Result<()>)
      requires Shows(s) && (current.Some? ==> current.value in blocks.tasks)
      modifies this, scheduler`timer, blocks`tasks
      ensures r == if s.current.Some? then Ok(()) else Err(ProcessHaveNotTask)
      ensures r.Ok? ==> Shows(SleepStep(s)) && (Placed(s) ==> Placed(SleepStep(s)))
      ensures r.Ok? ==> scheduler.timer == old(scheduler.timer) + [Timer(expire, s.current.value)]
      ensures r.Err? ==> Shows(s) && scheduler.timer == old(scheduler.timer)
    {
      if current.None? {
        return Err(ProcessHaveNotTask);
      }
      blocks.tasks := blocks.tasks[current.value := Task(Status.Blocked, Sleeping)];
      scheduler.timer := scheduler.timer + [Timer(expire, current.value)];
      current := None;
      r := Ok(());
      SleepKeeps(s);
    }

    /** The timer interrupt, in user code: sleepers that are due wake, and the running one joins the line. */
    method Interrupt(now: nat, ghost s: State)
      returns (r: Result<()>, ghost popped: seq<Timer>, ghost events: seq<Event>, ghost s': State)
      requires Shows(s) && Good(s) && Calling(s)
      modifies this, scheduler, blocks`tasks
      ensures r == Ok(()) && Reaches(s, events, s') && Good(s') && Shows(s')
      ensures s'.current == None && events != [] && events[|events| - 1] == Yield
      ensures Checked(old(scheduler.timer), popped, scheduler.timer, now, Zombies(s.tasks))
      ensures scheduler.ready == s.ready + Woken(popped, Zombies(s.tasks)) + [s.current.value]
    {
      hide Good, Placed, Housed, Reaches, Checked, Woken, SameEnded, Zombies, Tells, PlaceOf, Queue, Sleepers;
      ghost var next;
      NoEvents(s);
      TellsLater(s, s);
      popped, events, next := scheduler.CheckTimers(now, blocks, s, Zombies(s.tasks));
      r := SuspendCurrent(User, next);
      s' := Suspend(next, User);
      StepKeepsGood(next, Yield);
      ReachesNext(s, events, next, Yield);
      events := events + [Yield];
    }

    /**
     The references to a task: in its process's table, in hand, from the exit in progress, in the queue, in the heap.
     */
    function References(u: Tid, exiting: Tid): nat
      reads scheduler
    {
      2 + (if u == exiting then 1 else 0) + multiset(scheduler.ready)[u] + multiset(Sleepers(scheduler.timer))[u]
    }

    /** No timer of the exiting task is left; it had none, and besides the exit only its process refers to it. */
    method DropTimer(task: Tid, ghost s: State)
      requires scheduler.Shows(s) && Good(s) && Busy(s) && s.current == Some(task)
      modifies scheduler`timer
      ensures scheduler.timer == old(scheduler.timer) && References(task, task) == 3
    {
      ExitingIsNowhere(s, scheduler.timer, task);
      hide Good, Sleepers, Kept;
      scheduler.RemoveTimer(task);
    }

    /** `exit_current_and_run_other_task`, with `mark_zombie` of the task, or of its process and those under it. */
    method ExitCurrent(ghost s: State) returns (r: Outcome<()>)
      requires Shows(s) && Good(s) && (current.Some? ==> Busy(s))
      modifies this, scheduler`timer, blocks
      ensures s.current.None? ==> r == Done(Err(ProcessHaveNotTask)) && Shows(s)
      ensures s.current.Some? ==> Homed(s) && r == if ExitPanics(s) then Panic else Done(Ok(()))
      ensures s.current.Some? && r.Done? ==> Shows(ExitStep(s))
    {
      if current.None? {
        return Done(Err(ProcessHaveNotTask));
      }
      RunningStands(s);
      hide Good, Placed, Housed, Under, Sleepers, ExitPanics, ExitProcess, PlaceOf, Queue;
      var task := current.value;
      DropTimer(task, s);
      if blocks.homes[task].root {
        r := MarkZombie(task, s);
      } else {
        ThreadNeverPanics(s);
        blocks.tasks := blocks.tasks[task := Task(Status.Zombie, User)];
        r := Done(Ok(()));
      }
      current := None;
    }

    /** Ends the tasks of a process one by one; a task with another number of references than three stops the kernel. */
    method MarkTasks(todo: set<Tid>, task: Tid, ghost s: State) returns (stops: bool)
      requires scheduler.Shows(s) && blocks.Shows(s) && todo <= s.tasks.Keys
      modifies blocks`tasks
      ensures stops <==> exists u :: u in todo && References(u, task) != 3
      ensures !stops ==> blocks.tasks == Marking(s, todo)
    {
      hide Sleepers;
      var left := todo;
      stops := false;
      MarkingNone(s);
      while left != {}
        invariant left <= todo && blocks.tasks == Marking(s, todo - left)
        invariant forall u :: u in todo - left ==> References(u, task) == 3
        decreases |left|
      {
        var u :| u in left;
        MarkingNext(s, todo - left, u);
        assert (todo - left) + {u} == todo - (left - {u});
        blocks.tasks := blocks.tasks[u := Task(Status.Zombie, LiesAt(u, scheduler.ready, Sleepers(scheduler.timer)))];
        if References(u, task) != 3 {
          return true;
        }
        left := left - {u};
      }
      assert todo - left == todo;
    }

    /** `ProcessControlBlock::mark_zombie`, for the process of `task` and all processes under it. */
    method MarkZombie(task: Tid, ghost s: State) returns (r: Outcome<()>)
      requires Good(s) && Homed(s) && s.current == Some(task) && s.homes[task].root
      requires scheduler.Shows(s) && blocks.Shows(s)
      modifies blocks
      ensures r == if ExitPanics(s) then Panic else Done(Ok(()))
      ensures r.Done? ==>
        ExitProcess(s).current == None && scheduler.Shows(ExitProcess(s)) && blocks.Shows(ExitProcess(s))
    {
      hide Good, Under, Sleepers, ExitPanics, ExitProcess, PlaceOf, Marking, Cleared, Orphaned;
      var p := blocks.homes[task].process;
      var todo := Doomed(blocks.tasks, blocks.homes, blocks.parents, p);
      var children := Children(blocks.parents, p);
      PanicsIff(s, todo, children);
      ClearedIsExit(s, todo);
      var stops := MarkTasks(todo, task, s);
      if stops || (p == INIT && children != {}) {
        return Panic;
      }
      var sleepers := Sleepers(scheduler.timer);
      blocks.tasks := Cleared(blocks.tasks, blocks.homes, blocks.parents, p, scheduler.ready, sleepers);
      blocks.parents := Orphaned(blocks.parents, p);
      r := Done(Ok(()));
    }

    /** One turn of the idle loop: the timers are checked, and the head of the line is taken out, if there is one. */
    method TakeTurn(now: nat, ghost s: State, ghost zombies: set<Tid>)
      returns (head: Option<Tid>, ended: bool, ghost popped: seq<Timer>, ghost events: seq<Event>, ghost s': State)
      requires Shows(s) && Good(s) && current.None? && Tells(zombies, s)
      modifies this, scheduler, blocks`tasks
      ensures Checked(old(scheduler.timer), popped, scheduler.timer, now, zombies)
      ensures s.ready + Woken(popped, zombies) == AsLine(head) + scheduler.ready
      ensures Reaches(s, events, s') && Good(s') && Shows(s')
      ensures head.None? ==> scheduler.ready == [] && s'.current == None && !ended
      ensures head.Some? ==> (ended <==> head.value in zombies)
      ensures head.Some? && ended ==> s'.current == None && SameEnded(s, s')
      ensures head.Some? && !ended ==> s'.current == head && events != [] && events[|events| - 1] == Run
    {
      hide Checked, Woken, Good, Reaches, Enabled, Step, Sleepers, EndedIn, SameEnded, Tells, PlaceOf, Queue;
      popped, events, s' := scheduler.CheckTimers(now, blocks, s, zombies);
      head, ended := None, false;
      if scheduler.ready == [] {
        return;
      }
      var task := scheduler.ready[0];
      head := Some(task);
      HeadExists(s, s', zombies);
      assert scheduler.ready == [task] + scheduler.ready[1..];
      scheduler.ready := scheduler.ready[1..];
      ended := blocks.tasks[task].status == Status.Zombie;
      if ended {
        blocks.tasks := blocks.tasks - {task};
        ReachesNext(s, events, s', Discard);
        SameEndedChain(s, s', Step(s', Discard));
        events, s' := events + [Discard], Step(s', Discard);
      } else {
        blocks.tasks := blocks.tasks[task := Task(Status.Running, blocks.tasks[task].pc)];
        current := head;
        ReachesNext(s, events, s', Run);
        events, s' := events + [Run], Step(s', Run);
      }
    }

    /**
     `schedule`: the search of the idle loop, in steps of the state machine that end with the one in which the task
     found gets the processor; and the exact condition for the kernel to stop.
     */
    method Schedule(clock: nat -> nat, ghost s: State)
      returns (r: Outcome<Tid>, ghost turns: seq<Turn>, ghost skipped: seq<Tid>, ghost events: seq<Event>,
               ghost s': State)
      requires Shows(s) && Good(s) && current.None?
      modifies this, scheduler, blocks`tasks
      ensures r.Panic? || r.result.Ok?
      ensures Searched(s.ready, old(scheduler.timer), Zombies(s.tasks), clock, turns, skipped,
                       if r.Done? then Some(r.result.value) else None, scheduler.ready, scheduler.timer)
      ensures Reaches(s, events, s') && Good(s') && Shows(s')
      ensures r.Done? ==> s'.current == Some(r.result.value) && events != [] && events[|events| - 1] == Run
      ensures r.Panic? ==> s'.current == None && s'.ready == []
      ensures (forall x :: x in old(scheduler.timer) ==> x.expire < 2 * SIGN) ==>
        (r.Panic? <==> GivesUp(s.ready, old(scheduler.timer), Zombies(s.tasks), clock))
    {
      hide Checked, Woken, Searching, Searched, GivesUp, Good, Reaches, Zombies, Tells, SameEnded, Sleepers;
      ghost var line, heap, zombies := s.ready, scheduler.timer, Zombies(s.tasks);
      turns, skipped, events, s' := [], [], [], s;
      NoEvents(s);
      NoTurns(line, heap, zombies, clock);
      var turn := 0;
      while true
        invariant Shows(s') && Good(s') && Reaches(s, events, s') && s'.current == None && SameEnded(s, s')
        invariant Searching(line, heap, zombies, clock, turns, skipped, scheduler.ready, scheduler.timer)
        invariant turn == |turns|
        decreases |scheduler.ready| + |scheduler.timer|
      {
        ghost var ready, timer := scheduler.ready, scheduler.timer;
        TellsLater(s, s');
        var head, ended;
        ghost var popped, more, next;
        head, ended, popped, more, next := TakeTurn(clock(turn), s', zombies);
        ReachesChain(s, events, s', more, next);
        FewerSleepers(timer, popped, scheduler.timer, clock(turn), zombies);
        SearchTurn(line, heap, zombies, clock, turns, skipped, ready, timer, popped, scheduler.timer, head,
                   scheduler.ready);
        turns, events := turns + [Turn(popped, scheduler.timer)], events + more;
        if head.None? || !ended {
          s' := next;
          StopsIff(line, heap, zombies, clock, turns, skipped, head, scheduler.ready, scheduler.timer);
          r := if head.None? then Panic else Done(Ok(head.value));
          return;
        }
        SameEndedChain(s, s', next);
        s', skipped, turn := next, skipped + [head.value], turn + 1;
      }
    }
  }

  // ---------- leaving the processor ----------

  lemma SuspendKeeps(s: State, pc: Pc)
    requires Busy(s)
    ensures Placed(s) ==> Placed(Suspend(s, pc))
  {
    if Placed(s) {
      LeaveKeeps(s, Suspend(s, pc), Task(Ready, pc));
    }
  }

  lemma SleepKeeps(s: State)
    requires Busy(s)
    ensures Placed(s) ==> Placed(SleepStep(s))
  {
    if Placed(s) {
      LeavingKeeps(s);
    }
  }

  // ---------- exit ----------

  lemma {:induction false} KeptAll(heap: seq<Timer>, task: Tid)
    requires task !in Sleepers(heap)
    ensures Kept(heap, task) == heap
    decreases |heap|
  {
    if heap != [] {
      var n := |heap| - 1;
      assert Sleepers(heap)[n] == heap[n].task;
      assert Sleepers(heap[..n]) == Sleepers(heap)[..n];
      KeptAll(heap[..n], task);
      assert heap == heap[..n] + [heap[n]];
    }
  }

  /** The task that exits has no timer and is not in line. */
  lemma ExitingIsNowhere(s: State, heap: seq<Timer>, task: Tid)
    requires Good(s) && Busy(s) && s.current == Some(task) && Sleepers(heap) == s.timers
    ensures Kept(heap, task) == heap && multiset(s.ready)[task] == 0 && multiset(Sleepers(heap))[task] == 0
  {
    CurrentAlone(s, InTimer);
    CurrentAlone(s, InReady);
    KeptAll(heap, task);
  }

  lemma ThreadNeverPanics(s: State)
    requires Homed(s) && !s.homes[s.current.value].root
    ensures !ExitPanics(s)
  {
  }

  /** Where a task that is ended lies. */
  function LiesAt(u: Tid, ready: seq<Tid>, sleepers: seq<Tid>): Pc {
    if u in ready then EndedInLine else if u in sleepers then EndedAsleep else User
  }

  /** The control blocks when the tasks of `done` are marked. */
  ghost function Marking(s: State, done: set<Tid>): map<Tid, Task> {
    map u | u in s.tasks :: if u in done then Task(Status.Zombie, LiesAt(u, s.ready, s.timers)) else s.tasks[u]
  }

  lemma MarkingNext(s: State, done: set<Tid>, u: Tid)
    requires u in s.tasks
    ensures Marking(s, done)[u := Task(Status.Zombie, LiesAt(u, s.ready, s.timers))] == Marking(s, done + {u})
  {
  }

  lemma MarkingNone(s: State)
    ensures forall x: set<Tid> :: Marking(s, x - x) == s.tasks
  {
  }

  /** The tasks of a process and of those under it that have not ended. */
  function Doomed(tasks: map<Tid, Task>, homes: map<Tid, Home>, parents: map<Pid, Pid>, p: Pid): set<Tid> {
    set u | u in tasks && u in homes && Under(parents, homes[u].process, p) && tasks[u].status != Status.Zombie
  }

  /** How often a task is in a queue that has no task twice. */
  lemma {:induction false} OnceOrNever(q: seq<Tid>, t: Tid)
    requires NoRepeat(q)
    ensures multiset(q)[t] == if t in q then 1 else 0
    decreases |q|
  {
    if q != [] {
      assert q == [q[0]] + q[1..];
      assert q[0] !in q[1..];
      OnceOrNever(q[1..], t);
    }
  }

  /** Besides those of its process's table and of the caller, there is one reference to the task. */
  ghost predicate Thrice(s: State, u: Tid) {
    2 + (if s.current == Some(u) then 1 else 0) + multiset(s.ready)[u] + multiset(s.timers)[u] == 3
  }

  /** Besides the exiting task, exactly those in line or asleep have a third reference. */
  lemma ThirdReference(s: State, u: Tid)
    requires Good(s) && Busy(s) && u in s.tasks && s.tasks[u].status != Status.Zombie
    ensures Thrice(s, u) <==> !(s.tasks[u].status == Status.Blocked && s.tasks[u].pc != Sleeping)
  {
    assert PlacedAt(s, InReady) && PlacedAt(s, InTimer) && PlacedAt(s, OnCpu);
    OnceOrNever(s.ready, u);
    OnceOrNever(s.timers, u);
    assert u in s.ready <==> u in Queue(s, InReady);
    assert u in s.timers <==> u in Queue(s, InTimer);
    assert s.current == Some(u) <==> u in Queue(s, OnCpu);
  }

  /** The exit stops the kernel for a task with too few references, or for children of the first process. */
  lemma PanicsIff(s: State, all: set<Tid>, children: set<Pid>)
    requires Good(s) && Homed(s) && s.homes[s.current.value].root && children == Children(s.parents, Here(s))
    requires all == Doomed(s.tasks, s.homes, s.parents, Here(s))
    ensures ExitPanics(s) <==> (Here(s) == INIT && children != {}) || exists u :: u in all && !Thrice(s, u)
  {
    hide Under;
    if q :| q in s.parents && s.parents[q] == Here(s) {
      assert q in children;
    }
    forall u ensures u in all && !Thrice(s, u) <==>
      u in s.tasks && Dies(s, u) && s.tasks[u].status == Status.Blocked && s.tasks[u].pc != Sleeping
    {
      if u in all {
        ThirdReference(s, u);
      }
    }
    hide Good;
  }

  /** The table of each process that ends is cleared: what is in no queue and no heap is gone. */
  function Cleared(tasks: map<Tid, Task>, homes: map<Tid, Home>, parents: map<Pid, Pid>, p: Pid, ready: seq<Tid>,
                   sleepers: seq<Tid>): map<Tid, Task> {
    map u | u in tasks && (u in homes && Under(parents, homes[u].process, p) ==> u in ready || u in sleepers)
      :: tasks[u]
  }

  /** The processes under `p` are adopted by the first process. */
  function Orphaned(parents: map<Pid, Pid>, p: Pid): map<Pid, Pid> {
    map q | q in parents :: if q != p && Under(parents, q, p) then INIT else parents[q]
  }

  lemma ClearedIsExit(s: State, all: set<Tid>)
    requires Good(s) && Homed(s) && s.homes[s.current.value].root
    requires all == Doomed(s.tasks, s.homes, s.parents, Here(s))
    ensures Cleared(Marking(s, all), s.homes, s.parents, Here(s), s.ready, s.timers) == ExitProcess(s).tasks
    ensures ExitProcess(s).ready == s.ready && ExitProcess(s).timers == s.timers && ExitProcess(s).homes == s.homes
    ensures ExitProcess(s).current == None && ExitProcess(s).parents == Orphaned(s.parents, Here(s))
  {
    var a, b := Cleared(Marking(s, all), s.homes, s.parents, Here(s), s.ready, s.timers), ExitProcess(s).tasks;
    forall u ensures u in a <==> u in b {
      if u in s.tasks {
        ShelvedIff(s, u);
      }
      hide Good, Under;
    }
    forall u | u in a && u in b ensures a[u] == b[u] {
      ShelvedIff(s, u);
      hide Good, Under;
    }
  }

  /** A task is in line or asleep as its record says; and if it ended there, the record says so. */
  lemma ShelvedIff(s: State, u: Tid)
    requires Good(s) && u in s.tasks
    ensures Shelved(s.tasks[u]) <==> u in s.ready || u in s.timers
    ensures Shelved(s.tasks[u]) ==> Fallen(s.tasks[u]) == Task(Status.Zombie, LiesAt(u, s.ready, s.timers))
    ensures Shelved(s.tasks[u]) && s.tasks[u].status == Status.Zombie ==> Fallen(s.tasks[u]) == s.tasks[u]
  {
    assert PlacedAt(s, InReady) && PlacedAt(s, InTimer);
    assert u in s.ready <==> u in Queue(s, InReady);
    assert u in s.timers <==> u in Queue(s, InTimer);
  }

  // ---------- the search ----------

  /** The search so far: one turn per task dropped. */
  ghost predicate Searching(line: seq<Tid>, heap: seq<Timer>, zombies: set<Tid>, clock: nat -> nat, turns: seq<Turn>,
                            skipped: seq<Tid>, line': seq<Tid>, heap': seq<Timer>) {
    && Turned(heap, turns, clock, zombies) && |turns| == |skipped| && heap' == HeapAt(heap, turns, |turns|)
    && line + Roused(turns, zombies) == skipped + line'
    && (forall i :: 0 <= i < |skipped| ==> skipped[i] in zombies)
  }

  lemma NoTurns(line: seq<Tid>, heap: seq<Timer>, zombies: set<Tid>, clock: nat -> nat)
    ensures Searching(line, heap, zombies, clock, [], [], line, heap)
  {
    assert line + [] == line == [] + line;
  }

  /** After a turn that took `head` from the line. */
  ghost predicate Stands(line: seq<Tid>, heap: seq<Timer>, zombies: set<Tid>, clock: nat -> nat, turns: seq<Turn>,
                         skipped: seq<Tid>, head: Option<Tid>, line': seq<Tid>, heap': seq<Timer>) {
    && Turned(heap, turns, clock, zombies) && |turns| == |skipped| + 1 && heap' == HeapAt(heap, turns, |turns|)
    && line + Roused(turns, zombies) == skipped + AsLine(head) + line'
    && (forall i :: 0 <= i < |skipped| ==> skipped[i] in zombies)
  }

  lemma SearchTurn(line: seq<Tid>, heap: seq<Timer>, zombies: set<Tid>, clock: nat -> nat, turns: seq<Turn>,
                   skipped: seq<Tid>, ready: seq<Tid>, timer: seq<Timer>, popped: seq<Timer>, left: seq<Timer>,
                   head: Option<Tid>, line': seq<Tid>)
    requires Searching(line, heap, zombies, clock, turns, skipped, ready, timer)
    requires Checked(timer, popped, left, clock(|turns|), zombies)
    requires ready + Woken(popped, zombies) == AsLine(head) + line'
    ensures Stands(line, heap, zombies, clock, turns + [Turn(popped, left)], skipped, head, line', left)
    ensures head.Some? && head.value in zombies ==>
      Searching(line, heap, zombies, clock, turns + [Turn(popped, left)], skipped + [head.value], line', left)
  {
    hide Checked, Woken, Roused, Turned;
    TurnedMore(heap, turns, clock, zombies, popped, left);
    RousedMore(turns, Turn(popped, left), zombies);
    LineGrows(line, Roused(turns, zombies), skipped, ready, Woken(popped, zombies));
    assert skipped + (AsLine(head) + line') == skipped + AsLine(head) + line';
  }

  lemma LineGrows<T>(a: seq<T>, b: seq<T>, c: seq<T>, d: seq<T>, e: seq<T>)
    requires a + b == c + d
    ensures a + (b + e) == c + (d + e)
  {
    assert a + (b + e) == (a + b) + e;
    assert c + (d + e) == (c + d) + e;
  }

  lemma StopsIff(line: seq<Tid>, heap: seq<Timer>, zombies: set<Tid>, clock: nat -> nat, turns: seq<Turn>,
                 skipped: seq<Tid>, head: Option<Tid>, line': seq<Tid>, heap': seq<Timer>)
    requires Stands(line, heap, zombies, clock, turns, skipped, head, line', heap')
    requires if head.Some? then head.value !in zombies else line' == []
    ensures Searched(line, heap, zombies, clock, turns, skipped, head, line', heap')
    ensures (forall x :: x in heap ==> x.expire < 2 * SIGN) ==> (head.None? <==> GivesUp(line, heap, zombies, clock))
  {
    hide Turned, Roused, GivesUp;
    if forall x :: x in heap ==> x.expire < 2 * SIGN {
      GivesUpIff(line, heap, zombies, clock, turns, skipped, head, line', heap');
    }
  }

  lemma FewerSleepers(heap: seq<Timer>, popped: seq<Timer>, left: seq<Timer>, now: nat, zombies: set<Tid>)
    requires Checked(heap, popped, left, now, zombies)
    ensures |heap| == |popped| + |left| && |Woken(popped, zombies)| <= |popped|
  {
    assert |multiset(heap)| == |heap| && |multiset(popped)| == |popped| && |multiset(left)| == |left|;
    WokenShort(popped, zombies);
  }

  lemma {:induction false} WokenShort(popped: seq<Timer>, zombies: set<Tid>)
    ensures |Woken(popped, zombies)| <= |popped|
    decreases |popped|
  {
    if popped != [] {
      WokenShort(popped[..|popped| - 1], zombies);
    }
  }

  /** The head of the line exists; taking it out, or running it, is a step. */
  lemma HeadExists(s: State, s': State, zombies: set<Tid>)
    requires Good(s') && Tells(zombies, s) && SameEnded(s, s') && s'.ready != [] && s'.current.None?
    ensures var t := s'.ready[0];
      && t in s'.tasks && (s'.tasks[t].status == Status.Zombie <==> t in zombies)
      && (if s'.tasks[t].status == Status.Zombie then Enabled(s', Discard) && Step(s', Discard) == DiscardStep(s')
            && Good(Step(s', Discard)) && SameEnded(s', Step(s', Discard))
          else Enabled(s', Run) && Step(s', Run) == RunStep(s') && Good(Step(s', Run)))
  {
    var t := s'.ready[0];
    assert t in Queue(s', InReady) && PlacedAt(s', InReady);
    StepKeepsGood(s', if s'.tasks[t].status == Status.Zombie then Discard else Run);
    hide Good, Placed;
  }
}
