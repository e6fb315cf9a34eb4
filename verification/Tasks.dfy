/** The scheduler as a state machine: one step is the kernel code between two points where tasks are switched. */
module Tasks {
  import opened Results
  import opened Sync
  import opened Processes

  datatype Status = Ready | Running | Blocked | Zombie

  /**
   Where a task will go on when it runs next: in user code, or inside a kernel call. A task that is ended together with
   its process while it is in line, or asleep, goes on nowhere, but stays where it is until it is found there.
   */
  datatype Pc =
    | User
    | Locking(m: nat)
    | Downing(k: nat)
    | Waiting(c: nat, m: nat)
    | Sleeping
    | EndedInLine
    | EndedAsleep

  datatype Task = Task(status: Status, pc: Pc) {
    /** Ended in place. */
    predicate Lying() {
      pc.EndedInLine? || pc.EndedAsleep?
    }
  }

  /** The process of a task, and whether it is the root task of that process. */
  datatype Home = Home(process: Pid, root: bool)

  /** The places a task can be in. */
  datatype Place = OnCpu | InReady | InTimer | AtMutex(m: nat) | AtSemaphore(k: nat) | AtCondvar(c: nat) | Gone

  /** The one place where a task with this status and this position belongs. */
  function PlaceOf(t: Task): Place {
    match t.status
    case Running => OnCpu
    case Ready => InReady
    case Zombie => if t.pc.EndedInLine? then InReady else if t.pc.EndedAsleep? then InTimer else Gone
    case Blocked =>
      match t.pc
      case Locking(m) => AtMutex(m)
      case Downing(k) => AtSemaphore(k)
      case Waiting(c, _) => AtCondvar(c)
      case Sleeping => InTimer
      case _ => Gone
  }

  datatype State = State(
    current: Option<Tid>,
    ready: seq<Tid>,
    timers: seq<Tid>,
    mutexes: seq<Mutex>,
    semaphores: seq<Semaphore>,
    condvars: seq<seq<Tid>>,
    tasks: map<Tid, Task>,
    limit: Tid,
    homes: map<Tid, Home>,
    /** The parent of each process that is in the table of children of another. */
    parents: map<Pid, Pid>,
    pids: Pid,
    /** The process whose table each mutex, semaphore and condition variable is in. */
    mutexOf: seq<Pid>,
    semaphoreOf: seq<Pid>,
    condvarOf: seq<Pid>,
    /** History: the processes that have ended. */
    dead: set<Pid>,
    /** History: who returned from `lock` of each mutex and has not unlocked it since. */
    holders: seq<set<Tid>>,
    /** History: what happened at each semaphore. */
    records: seq<Record>)

  /**
   The first count of a semaphore, the `up` calls, the `down` calls let through, and who blocked and was woken, in
   order.
   */
  datatype Record = Record(initial: int, ups: nat, granted: nat, blocked: seq<Tid>, woken: seq<Tid>) {
    function Upped(w: Option<Tid>): Record {
      if w.Some? then this.(ups := ups + 1, granted := granted + 1, woken := woken + [w.value])
      else this.(ups := ups + 1)
    }

    /** After a round of `down`: whoever neither blocks nor tries again has been let through. */
    function Downed(a: Attempt, t: Tid): Record {
      if a.Blocked? then this.(blocked := blocked + [t]) else if a.Spin? then this else this.(granted := granted + 1)
    }
  }

  /** The tasks in a place, in order. */
  function Queue(s: State, p: Place): seq<Tid> {
    match p
    case OnCpu => if s.current.Some? then [s.current.value] else []
    case InReady => s.ready
    case InTimer => s.timers
    case AtMutex(m) => if m < |s.mutexes| then s.mutexes[m].Waiting() else []
    case AtSemaphore(k) => if k < |s.semaphores| then s.semaphores[k].Waiting() else []
    case AtCondvar(c) => if c < |s.condvars| then s.condvars[c] else []
    case Gone => []
  }

  predicate NoRepeat(q: seq<Tid>) {
    forall i, j :: 0 <= i < j < |q| ==> q[i] != q[j]
  }

  /** The tasks in place `p` are those that belong there, each once. */
  ghost predicate PlacedAt(s: State, p: Place) {
    && NoRepeat(Queue(s, p))
    && forall t :: t in Queue(s, p) <==> t in s.tasks && PlaceOf(s.tasks[t]) == p && p != Gone
  }

  /** Every task is in exactly one place, the one its status and position call for; tasks that ended are in none. */
  ghost predicate Placed(s: State) {
    && (forall p :: PlacedAt(s, p))
    && (forall t :: t in s.tasks ==> t < s.limit && (PlaceOf(s.tasks[t]) == Gone ==> s.tasks[t].status.Zombie?))
  }

  // ---------- moving one task ----------

  function Without(q: seq<Tid>, t: Tid): seq<Tid> {
    if q == [] then [] else if q[0] == t then q[1..] else [q[0]] + Without(q[1..], t)
  }

  lemma {:induction false} WithoutOnce(q: seq<Tid>, t: Tid)
    requires NoRepeat(q)
    ensures NoRepeat(Without(q, t)) && forall u :: u in Without(q, t) <==> u in q && u != t
    decreases |q|
  {
    if q != [] {
      assert q == [q[0]] + q[1..];
      assert q[0] !in q[1..] && NoRepeat(q[1..]);
      if q[0] != t {
        WithoutOnce(q[1..], t);
        FrontNew(q[0], Without(q[1..], t));
      }
    }
  }

  lemma FrontNew(x: Tid, q: seq<Tid>)
    requires x !in q && NoRepeat(q)
    ensures NoRepeat([x] + q)
  {
  }

  /** From `s` to `s'` task `t` goes to place `to`, behind those that are there, with record `r`; nothing else moves. */
  ghost predicate Moves(s: State, s': State, t: Tid, r: Task) {
    && t in s.tasks && s'.tasks == s.tasks[t := r] && s'.limit == s.limit
    && PlaceOf(r) != PlaceOf(s.tasks[t]) && (PlaceOf(r) == Gone ==> r.status.Zombie?)
    && (forall p :: MovesAt(s, s', t, PlaceOf(r), p))
  }

  ghost predicate MovesAt(s: State, s': State, t: Tid, to: Place, p: Place) {
    Queue(s', p) == if p == to && to != Gone then Queue(s, p) + [t] else Without(Queue(s, p), t)
  }

  lemma WithoutOther(q: seq<Tid>, t: Tid)
    requires t !in q
    ensures Without(q, t) == q
  {
  }

  lemma MoveKeepsPlaced(s: State, s': State, t: Tid, r: Task)
    requires Placed(s) && Moves(s, s', t, r)
    ensures Placed(s')
  {
    forall p ensures PlacedAt(s', p) {
      assert PlacedAt(s, p) && MovesAt(s, s', t, PlaceOf(r), p);
      WithoutOnce(Queue(s, p), t);
    }
  }

  // ---------- the steps ----------

  /** How a blocked task goes on once it is woken. */
  function Resumed(t: Task): Task {
    Task(Ready, match t.pc case Locking(m) => Locking(m) case Waiting(_, m) => Locking(m) case _ => User)
  }

  /** `mark_suspended` and `put_read_task` for a task just taken from a wait queue. */
  function Wake(s: State, w: Option<Tid>): State {
    if w.Some? && w.value in s.tasks then
      s.(ready := s.ready + [w.value], tasks := s.tasks[w.value := Resumed(s.tasks[w.value])])
    else s
  }

  predicate Busy(s: State) {
    s.current.Some? && s.current.value in s.tasks
  }

  /** The running task, and its process, are known. */
  predicate Homed(s: State) {
    Busy(s) && s.current.value in s.homes
  }

  /** The process of the running task. */
  function Here(s: State): Pid
    requires Homed(s)
  {
    s.homes[s.current.value].process
  }

  /** The current task goes on with `pc`. */
  function Onward(s: State, pc: Pc): State
    requires Busy(s)
  {
    s.(tasks := s.tasks[s.current.value := Task(Status.Running, pc)])
  }

  function Suspend(s: State, pc: Pc): State
    requires Busy(s)
  {
    s.(current := None, ready := s.ready + [s.current.value], tasks := s.tasks[s.current.value := Task(Ready, pc)])
  }

  /** The current task leaves the processor, blocked; the queue it waits in has it already. */
  function Block(s: State, pc: Pc): State
    requires Busy(s)
  {
    s.(current := None, tasks := s.tasks[s.current.value := Task(Status.Blocked, pc)])
  }

  function LockStep(s: State, m: nat): State
    requires Busy(s) && m < |s.mutexes| == |s.holders|
  {
    var t := s.current.value;
    var (mx, a) := s.mutexes[m].Lock(t, s.tasks.Keys);
    match a
    case Acquired => Onward(s.(mutexes := s.mutexes[m := mx], holders := s.holders[m := s.holders[m] + {t}]), User)
    case Double => Onward(s, User)
    case Spin => Suspend(s, Locking(m))
    case Blocked => Block(s.(mutexes := s.mutexes[m := mx]), Locking(m))
  }

  /** `unlock`, and whether it was refused. */
  function UnlockStep(s: State, m: nat): (r: (State, bool))
    requires Busy(s) && m < |s.mutexes| == |s.holders|
    ensures r.0.current == s.current && Busy(r.0) && r.0.condvars == s.condvars
  {
    var t := s.current.value;
    var (mx, w) := s.mutexes[m].Unlock(t, s.tasks.Keys);
    if w.Err? then (s, false)
    else (Wake(s.(mutexes := s.mutexes[m := mx], holders := s.holders[m := s.holders[m] - {t}]), w.value), true)
  }

  function UpStep(s: State, k: nat): State
    requires k < |s.semaphores| == |s.records|
  {
    var (sem, w) := s.semaphores[k].Up(s.tasks.Keys);
    Wake(s.(semaphores := s.semaphores[k := sem], records := s.records[k := s.records[k].Upped(w)]), w)
  }

  function DownStep(s: State, k: nat): State
    requires Busy(s) && k < |s.semaphores| == |s.records|
  {
    var t := s.current.value;
    var (sem, a) := s.semaphores[k].Down(t);
    var s' := s.(semaphores := s.semaphores[k := sem], records := s.records[k := s.records[k].Downed(a, t)]);
    if a.Spin? then Suspend(s', Downing(k)) else if a.Blocked? then Block(s', Downing(k)) else Onward(s', User)
  }

  function SignalStep(s: State, c: nat): State
    requires c < |s.condvars|
  {
    var (w, q) := PopAlive(s.condvars[c], s.tasks.Keys);
    Wake(s.(condvars := s.condvars[c := q]), w)
  }

  /** `wait`: unlock the mutex, and if that is not refused, block until signalled; then lock it again. */
  function WaitStep(s: State, c: nat, m: nat): State
    requires Busy(s) && c < |s.condvars| && m < |s.mutexes| == |s.holders|
  {
    var (s', ok) := UnlockStep(s, m);
    if !ok then s' else Block(s'.(condvars := s'.condvars[c := s'.condvars[c] + [s'.current.value]]), Waiting(c, m))
  }

  function SleepStep(s: State): State
    requires Busy(s)
  {
    Block(s.(timers := s.timers + [s.current.value]), Sleeping)
  }

  /** A task that is not the root of its process ends: it is in no queue, and waits for someone to ask for its code. */
  function ExitThread(s: State): State
    requires Busy(s)
  {
    s.(current := None, tasks := s.tasks[s.current.value := Task(Status.Zombie, User)])
  }

  /** The task is ended when the root task of the running one's process exits. */
  predicate Dies(s: State, u: Tid)
    requires Homed(s)
  {
    u in s.homes && Under(s.parents, s.homes[u].process, Here(s))
  }

  /** A task in line or asleep, ended where it is. */
  function Fallen(t: Task): Task {
    Task(Status.Zombie, if PlaceOf(t) == InReady then EndedInLine else EndedAsleep)
  }

  predicate Shelved(t: Task) {
    PlaceOf(t) == InReady || PlaceOf(t) == InTimer
  }

  /** The root task ends, and with it all tasks of its process and of the processes under it. */
  function ExitProcess(s: State): State
    requires Homed(s)
  {
    var p := Here(s);
    s.(current := None,
       tasks := map u | u in s.tasks && (Dies(s, u) ==> Shelved(s.tasks[u])) ::
                  if Dies(s, u) then Fallen(s.tasks[u]) else s.tasks[u],
       parents := map q | q in s.parents :: if q != p && Under(s.parents, q, p) then INIT else s.parents[q],
       dead := s.dead + set q: Pid | 0 <= q < s.pids && Under(s.parents, q, p))
  }

  /**
   The exit of a root task stops the kernel: one of the tasks to end waits at a mutex, a semaphore or a condition
   variable, which does not count as a reference; or the first process still has children, which it cannot adopt.
   */
  predicate ExitPanics(s: State)
    requires Homed(s)
  {
    s.homes[s.current.value].root
    && ((Here(s) == INIT && exists q :: q in s.parents && s.parents[q] == INIT)
        || exists u :: u in s.tasks && Dies(s, u) && s.tasks[u].status == Status.Blocked && s.tasks[u].pc != Sleeping)
  }

  function ExitStep(s: State): State
    requires Homed(s)
  {
    if s.homes[s.current.value].root then ExitProcess(s) else ExitThread(s)
  }

  /** A new task of process `home`, ready to run. */
  function SpawnStep(s: State, home: Home): State {
    s.(ready := s.ready + [s.limit], tasks := s.tasks[s.limit := Task(Ready, User)],
       homes := s.homes[s.limit := home], limit := s.limit + 1)
  }

  /** A new process with its root task. */
  function ForkStep(s: State): State
    requires Homed(s)
  {
    SpawnStep(s, Home(s.pids, true)).(parents := s.parents[s.pids := Here(s)], pids := s.pids + 1)
  }

  /** The control block of a task that ended is released. */
  function ReapStep(s: State, t: Tid): State {
    s.(tasks := s.tasks - {t})
  }

  /** `wait_pid`: the control block of a process that ended is released. */
  function WaitPidStep(s: State, q: Pid): State {
    s.(parents := s.parents - {q})
  }

  function MakeMutexStep(s: State, spin: bool): State
    requires Homed(s)
  {
    s.(mutexes := s.mutexes + [if spin then SpinMutex(None) else BlockingMutex(None, None, [])],
       holders := s.holders + [{}], mutexOf := s.mutexOf + [Here(s)])
  }

  function MakeSemaphoreStep(s: State, spin: bool, count: int): State
    requires Homed(s)
  {
    s.(semaphores := s.semaphores + [if spin then SpinSemaphore(count) else BlockingSemaphore(count, [])],
       records := s.records + [Record(count, 0, 0, [], [])], semaphoreOf := s.semaphoreOf + [Here(s)])
  }

  function MakeCondvarStep(s: State): State
    requires Homed(s)
  {
    s.(condvars := s.condvars + [[]], condvarOf := s.condvarOf + [Here(s)])
  }

  /** A timer that ran out. */
  function ExpireStep(s: State, t: Tid): State {
    if t in s.timers then Wake(s.(timers := Without(s.timers, t)), Some(t)) else s
  }

  /** The timer of a task that was ended in its sleep goes, and with it the last reference to the task. */
  function ForgetStep(s: State, t: Tid): State {
    s.(timers := Without(s.timers, t), tasks := s.tasks - {t})
  }

  /** A task that was ended in line is taken out of it, and with that goes the last reference to the task. */
  function DiscardStep(s: State): State
    requires s.ready != []
  {
    s.(ready := s.ready[1..], tasks := s.tasks - {s.ready[0]})
  }

  /** The head of the ready queue gets the processor. */
  function RunStep(s: State): State
    requires s.ready != [] && s.ready[0] in s.tasks
  {
    var t := s.ready[0];
    s.(current := Some(t), ready := s.ready[1..], tasks := s.tasks[t := Task(Status.Running, s.tasks[t].pc)])
  }

  /** What the running task does next, or what the timer interrupt or the idle loop does. */
  datatype Event =
    | Lock(m: nat) | Unlock(m: nat)
    | Up(k: nat) | Down(k: nat)
    | Signal(c: nat) | Wait(c: nat, m: nat)
    | Sleep | Yield | Exit | Spawn | Fork
    | MakeMutex(spin: bool) | MakeSemaphore(spin: bool, count: int) | MakeCondvar
    | Reap(t: Tid) | WaitPid(q: Pid)
    | GoOn
    | Expire(t: Tid) | Forget(t: Tid)
    | Discard
    | Run

  /** Calls on mutexes, semaphores and condition variables. */
  predicate OnObjects(e: Event) {
    || e.Lock? || e.Unlock? || e.Up? || e.Down? || e.Signal? || e.Wait? || e.MakeMutex? || e.MakeSemaphore?
    || e.MakeCondvar?
    || e.GoOn?
  }

  /** Calls that end, make or wait for tasks, or give the processor away. */
  predicate OnTasks(e: Event) {
    e.Sleep? || e.Yield? || e.Exit? || e.Spawn? || e.Fork? || e.Reap? || e.WaitPid?
  }

  predicate EndedIn(s: State, t: Tid) {
    t in s.tasks && s.tasks[t].status == Status.Zombie
  }

  /** The running task is in user code, and so is its call. */
  predicate Calling(s: State) {
    Homed(s) && s.tasks[s.current.value].pc == User
  }

  /** No task runs, or it does so in user code. */
  predicate Interruptible(s: State) {
    s.current.None? || (Busy(s) && s.tasks[s.current.value].pc == User)
  }

  /** The objects named are in the tables of the caller's process; a retry is one inside its call. */
  predicate ObjectEnabled(s: State, e: Event) {
    if e.GoOn? then
      && Busy(s)
      && var pc := s.tasks[s.current.value].pc;
         (pc.Locking? && pc.m < |s.mutexes| == |s.holders|) || (pc.Downing? && pc.k < |s.semaphores| == |s.records|)
    else
      && Calling(s)
      && ((e.Lock? || e.Unlock? || e.Wait?) ==>
            e.m < |s.mutexes| == |s.holders| == |s.mutexOf| && s.mutexOf[e.m] == Here(s))
      && ((e.Up? || e.Down?) ==>
            e.k < |s.semaphores| == |s.records| == |s.semaphoreOf| && s.semaphoreOf[e.k] == Here(s))
      && ((e.Signal? || e.Wait?) ==> e.c < |s.condvars| == |s.condvarOf| && s.condvarOf[e.c] == Here(s))
  }

  /**
   Only a root task makes tasks; a task that is reaped has ended and is of the caller's process, and a process that is
   waited for has ended and is its child.
   */
  predicate TaskEnabled(s: State, e: Event) {
    && Calling(s)
    && ((e.Spawn? || e.Fork?) ==> s.homes[s.current.value].root)
    && (e.Reap? ==> EndedIn(s, e.t) && e.t in s.homes && s.homes[e.t].process == Here(s))
    && (e.WaitPid? ==> e.q in s.parents && s.parents[e.q] == Here(s) && e.q in s.dead)
    && (e.Exit? ==> !ExitPanics(s))
  }

  /** The timers are checked in an interrupt or in the idle loop; the other events are of the idle loop. */
  predicate IdleEnabled(s: State, e: Event) {
    match e
    case Expire(t) => Interruptible(s) && t in s.timers && t in s.tasks && !EndedIn(s, t)
    case Forget(t) => Interruptible(s) && t in s.timers && EndedIn(s, t)
    case Discard => s.current.None? && s.ready != [] && EndedIn(s, s.ready[0])
    case Run => s.current.None? && s.ready != [] && s.ready[0] in s.tasks && !EndedIn(s, s.ready[0])
    case _ => false
  }

  /** The event can happen. */
  predicate Enabled(s: State, e: Event) {
    if OnObjects(e) then ObjectEnabled(s, e) else if OnTasks(e) then TaskEnabled(s, e) else IdleEnabled(s, e)
  }

  function ObjectStep(s: State, e: Event): State
    requires OnObjects(e) && ObjectEnabled(s, e)
  {
    match e
    case Lock(m) => LockStep(s, m)
    case Unlock(m) => UnlockStep(s, m).0
    case Up(k) => UpStep(s, k)
    case Down(k) => DownStep(s, k)
    case Signal(c) => SignalStep(s, c)
    case Wait(c, m) => WaitStep(s, c, m)
    case MakeMutex(spin) => MakeMutexStep(s, spin)
    case MakeSemaphore(spin, count) => MakeSemaphoreStep(s, spin, count)
    case MakeCondvar => MakeCondvarStep(s)
    case GoOn =>
      var pc := s.tasks[s.current.value].pc;
      if pc.Locking? then LockStep(s, pc.m) else DownStep(s, pc.k)
  }

  function TaskStep(s: State, e: Event): State
    requires OnTasks(e) && TaskEnabled(s, e)
  {
    match e
    case Sleep => SleepStep(s)
    case Yield => Suspend(s, User)
    case Exit => ExitStep(s)
    case Spawn => SpawnStep(s, Home(Here(s), false))
    case Fork => ForkStep(s)
    case Reap(t) => ReapStep(s, t)
    case WaitPid(q) => WaitPidStep(s, q)
  }

  function IdleStep(s: State, e: Event): State
    requires IdleEnabled(s, e)
  {
    match e
    case Expire(t) => ExpireStep(s, t)
    case Forget(t) => ForgetStep(s, t)
    case Discard => DiscardStep(s)
    case Run => RunStep(s)
  }

  function Step(s: State, e: Event): State
    requires Enabled(s, e)
  {
    if OnObjects(e) then ObjectStep(s, e) else if OnTasks(e) then TaskStep(s, e) else IdleStep(s, e)
  }
}
