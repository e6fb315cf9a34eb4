/** The search of the idle loop for a task to run, turn by turn: when it finds one, which one, and when it gives up. */
module IdleLoop {
  import opened Results
  import opened Sync
  import opened Timers

  /** What the check of timers at one turn takes from the heap, and what it leaves. */
  datatype Turn = Turn(popped: seq<Timer>, left: seq<Timer>)

  function HeapAt(heap: seq<Timer>, turns: seq<Turn>, k: nat): seq<Timer>
    requires k <= |turns|
  {
    if k == 0 then heap else turns[k - 1].left
  }

  /** At every turn the timers are checked against the clock of that turn. */
  ghost predicate Turned(heap: seq<Timer>, turns: seq<Turn>, clock: nat -> nat, zombies: set<Tid>) {
    forall k :: 0 <= k < |turns| ==> TurnedAt(heap, turns, clock, zombies, k)
  }

  ghost predicate TurnedAt(heap: seq<Timer>, turns: seq<Turn>, clock: nat -> nat, zombies: set<Tid>, k: nat)
    requires k < |turns|
  {
    Checked(HeapAt(heap, turns, k), turns[k].popped, turns[k].left, clock(k), zombies)
  }

  /** The tasks woken in all turns, in order. */
  function Roused(turns: seq<Turn>, zombies: set<Tid>): seq<Tid> {
    if turns == [] then []
    else
      var n := |turns| - 1;
      Roused(turns[..n], zombies) + Woken(turns[n].popped, zombies)
  }

  function AsLine(found: Option<Tid>): seq<Tid> {
    if found.Some? then [found.value] else []
  }

  /**
   One turn per task dropped, and one more: of the line and the tasks woken, in order, those at the front that have
   ended are dropped, the first other one is found, and all behind it stay in line; with none left nothing is found.
   */
  ghost predicate Searched(line: seq<Tid>, heap: seq<Timer>, zombies: set<Tid>, clock: nat -> nat, turns: seq<Turn>,
                           skipped: seq<Tid>, found: Option<Tid>, line': seq<Tid>, heap': seq<Timer>) {
    && Turned(heap, turns, clock, zombies) && |turns| == |skipped| + 1 && heap' == HeapAt(heap, turns, |turns|)
    && line + Roused(turns, zombies) == skipped + AsLine(found) + line'
    && (forall i :: 0 <= i < |skipped| ==> skipped[i] in zombies)
    && (if found.Some? then found.value !in zombies else line' == [])
  }

  // ---------- one turn ----------

  lemma TurnedMore(heap: seq<Timer>, turns: seq<Turn>, clock: nat -> nat, zombies: set<Tid>, popped: seq<Timer>,
                   left: seq<Timer>)
    requires Turned(heap, turns, clock, zombies)
    requires Checked(HeapAt(heap, turns, |turns|), popped, left, clock(|turns|), zombies)
    ensures var turns' := turns + [Turn(popped, left)];
      Turned(heap, turns', clock, zombies) && HeapAt(heap, turns', |turns'|) == left
  {
    hide Checked;
    var turns' := turns + [Turn(popped, left)];
    forall k | 0 <= k < |turns'| ensures TurnedAt(heap, turns', clock, zombies, k) {
      assert HeapAt(heap, turns', k) == HeapAt(heap, turns, k);
      if k < |turns| {
        assert TurnedAt(heap, turns, clock, zombies, k);
      }
    }
  }

  lemma RousedMore(turns: seq<Turn>, turn: Turn, zombies: set<Tid>)
    ensures Roused(turns + [turn], zombies) == Roused(turns, zombies) + Woken(turn.popped, zombies)
  {
    assert (turns + [turn])[..|turns|] == turns;
  }

  // ---------- when the search gives up ----------

  lemma {:induction false} RousedIn(turns: seq<Turn>, zombies: set<Tid>)
    ensures forall t :: t in Roused(turns, zombies) ==> t !in zombies
    ensures Roused(turns, zombies) == [] <==> forall k :: 0 <= k < |turns| ==> Woken(turns[k].popped, zombies) == []
    decreases |turns|
  {
    if turns != [] {
      var n := |turns| - 1;
      var front := turns[..n];
      RousedIn(front, zombies);
      forall t | t in Woken(turns[n].popped, zombies) ensures t !in zombies {
        WokenIff(turns[n].popped, zombies, t);
      }
      assert forall k :: 0 <= k < n ==> front[k] == turns[k];
    }
  }

  /** The two heaps hold the same timers of tasks that have not ended. */
  ghost predicate SameLive(a: seq<Timer>, b: seq<Timer>, zombies: set<Tid>) {
    forall x: Timer :: x.task !in zombies ==> (x in a <==> x in b)
  }

  lemma SameLiveRouses(a: seq<Timer>, b: seq<Timer>, zombies: set<Tid>, now: nat)
    requires SameLive(a, b, zombies)
    ensures Rouses(a, now, zombies) <==> Rouses(b, now, zombies)
  {
    if Rouses(a, now, zombies) {
      var x :| x in a && x.task !in zombies && Due(x, now) && HighestLive(a, x, zombies);
      assert HighestLive(b, x, zombies);
    }
    if Rouses(b, now, zombies) {
      var x :| x in b && x.task !in zombies && Due(x, now) && HighestLive(b, x, zombies);
      assert HighestLive(a, x, zombies);
    }
  }

  /** As long as nobody is woken, the heap loses timers of ended tasks only. */
  lemma {:induction false} QuietTurns(heap: seq<Timer>, turns: seq<Turn>, clock: nat -> nat, zombies: set<Tid>, k: nat)
    requires Turned(heap, turns, clock, zombies) && k <= |turns|
    requires forall j :: 0 <= j < k ==> Woken(turns[j].popped, zombies) == []
    ensures SameLive(heap, HeapAt(heap, turns, k), zombies)
    ensures forall x :: x in HeapAt(heap, turns, k) ==> x in heap
    decreases k
  {
    if k > 0 {
      QuietTurns(heap, turns, clock, zombies, k - 1);
      assert TurnedAt(heap, turns, clock, zombies, k - 1);
      var before, turn := HeapAt(heap, turns, k - 1), turns[k - 1];
      QuietTurn(before, turn, clock(k - 1), zombies);
    }
  }

  lemma QuietTurn(before: seq<Timer>, turn: Turn, now: nat, zombies: set<Tid>)
    requires Checked(before, turn.popped, turn.left, now, zombies) && Woken(turn.popped, zombies) == []
    ensures SameLive(before, turn.left, zombies) && forall x :: x in turn.left ==> x in before
  {
    hide Woken;
    forall x: Timer
      ensures (x.task !in zombies ==> (x in before <==> x in turn.left)) && (x in turn.left ==> x in before)
    {
      SameMembers(before, turn.popped, turn.left, x);
      if x in turn.popped && x.task !in zombies {
        WokenIff(turn.popped, zombies, x.task);
      }
    }
  }

  /** At a turn before which nobody was woken, someone is woken if and only if the heap at the start says so. */
  lemma QuietTurnWakes(heap: seq<Timer>, turns: seq<Turn>, clock: nat -> nat, zombies: set<Tid>, k: nat)
    requires Turned(heap, turns, clock, zombies) && k < |turns| && forall x :: x in heap ==> x.expire < 2 * SIGN
    requires forall j :: 0 <= j < k ==> Woken(turns[j].popped, zombies) == []
    ensures Woken(turns[k].popped, zombies) != [] <==> Rouses(heap, clock(k), zombies)
  {
    QuietTurns(heap, turns, clock, zombies, k);
    assert TurnedAt(heap, turns, clock, zombies, k);
    var at := HeapAt(heap, turns, k);
    hide Turned, Checked, Rouses, SameLive, Woken;
    SameLiveRouses(heap, at, zombies, clock(k));
    WakesIff(at, turns[k].popped, turns[k].left, clock(k), zombies);
  }

  lemma TurnedFront(heap: seq<Timer>, turns: seq<Turn>, clock: nat -> nat, zombies: set<Tid>)
    requires Turned(heap, turns, clock, zombies) && turns != []
    ensures Turned(heap, turns[..|turns| - 1], clock, zombies)
  {
    hide Checked;
    var front := turns[..|turns| - 1];
    forall k | 0 <= k < |front| ensures TurnedAt(heap, front, clock, zombies, k) {
      assert TurnedAt(heap, turns, clock, zombies, k) && HeapAt(heap, front, k) == HeapAt(heap, turns, k);
    }
  }

  /** At none of the first `n` readings of the clock the heap would wake anyone. */
  ghost predicate Quiet(heap: seq<Timer>, clock: nat -> nat, zombies: set<Tid>, n: nat) {
    forall k :: 0 <= k < n ==> !Rouses(heap, clock(k), zombies)
  }

  /** Nobody is woken in any turn if and only if at no turn's clock the heap at the start would wake anyone. */
  lemma {:induction false} NobodyRoused(heap: seq<Timer>, turns: seq<Turn>, clock: nat -> nat, zombies: set<Tid>)
    requires Turned(heap, turns, clock, zombies) && forall x :: x in heap ==> x.expire < 2 * SIGN
    ensures Roused(turns, zombies) == [] <==> Quiet(heap, clock, zombies, |turns|)
    decreases |turns|
  {
    hide Rouses, Turned, Woken;
    if turns != [] {
      var n := |turns| - 1;
      TurnedFront(heap, turns, clock, zombies);
      NobodyRoused(heap, turns[..n], clock, zombies);
      if Roused(turns[..n], zombies) == [] {
        LastTurn(heap, turns, clock, zombies);
      }
    }
  }

  lemma LastTurn(heap: seq<Timer>, turns: seq<Turn>, clock: nat -> nat, zombies: set<Tid>)
    requires Turned(heap, turns, clock, zombies) && turns != [] && forall x :: x in heap ==> x.expire < 2 * SIGN
    requires Roused(turns[..|turns| - 1], zombies) == []
    ensures Woken(turns[|turns| - 1].popped, zombies) != [] <==> Rouses(heap, clock(|turns| - 1), zombies)
  {
    hide Rouses, Turned, Woken;
    var n := |turns| - 1;
    var front := turns[..n];
    RousedIn(front, zombies);
    assert forall j :: 0 <= j < n ==> front[j] == turns[j];
    QuietTurnWakes(heap, turns, clock, zombies, n);
  }

  /** What was dropped is the front of the line. */
  lemma FrontWasDropped(line: seq<Tid>, roused: seq<Tid>, skipped: seq<Tid>, rest: seq<Tid>, zombies: set<Tid>)
    requires line + roused == skipped + rest
    requires (forall t :: t in roused ==> t !in zombies) && forall i :: 0 <= i < |skipped| ==> skipped[i] in zombies
    ensures |skipped| <= |line| && line == skipped + line[|skipped|..] && rest == line[|skipped|..] + roused
  {
    var all, n := line + roused, |skipped|;
    assert all[..n] == skipped && all[n..] == rest;
    assert forall i :: |line| <= i < |all| ==> all[i] == roused[i - |line|] && roused[i - |line|] in roused;
    assert forall i :: 0 <= i < n ==> all[i] == skipped[i];
    assert |line| < |all| ==> all[|line|] in roused;
    assert all[n..] == line[n..] + roused;
    assert all[..n] == line[..n];
  }

  /** Those dropped were in the line: as many as stood in front of the first that has not ended. */
  lemma SkippedWereInLine(line: seq<Tid>, heap: seq<Timer>, zombies: set<Tid>, clock: nat -> nat, turns: seq<Turn>,
                          skipped: seq<Tid>, found: Option<Tid>, line': seq<Tid>, heap': seq<Timer>)
    requires Searched(line, heap, zombies, clock, turns, skipped, found, line', heap')
    ensures |skipped| <= |line| && skipped == line[..|skipped|]
    ensures found.None? <==> (forall t :: t in line ==> t in zombies) && Roused(turns, zombies) == []
    ensures found.None? ==> |turns| == |line| + 1
    ensures found.Some? && |skipped| < |line| ==> found.value == line[|skipped|]
    ensures found.Some? && |skipped| == |line| ==>
      Roused(turns, zombies) != [] && found.value == Roused(turns, zombies)[0]
  {
    RousedIn(turns, zombies);
    var roused, rest := Roused(turns, zombies), AsLine(found) + line';
    assert skipped + AsLine(found) + line' == skipped + rest;
    hide Turned, Roused;
    FrontWasDropped(line, roused, skipped, rest, zombies);
    if found.Some? {
      assert rest[0] == found.value;
      assert |skipped| < |line| ==> line[|skipped|] == found.value && found.value in line;
    } else {
      assert rest == [];
    }
  }

  /**
   The search gives up, and the kernel stops, if and only if every task in line has ended and at none of the clock's
   readings, one for each task in line and one more, the highest timer of a task that has not ended is due.
   */
  lemma GivesUpIff(line: seq<Tid>, heap: seq<Timer>, zombies: set<Tid>, clock: nat -> nat, turns: seq<Turn>,
                   skipped: seq<Tid>, found: Option<Tid>, line': seq<Tid>, heap': seq<Timer>)
    requires Searched(line, heap, zombies, clock, turns, skipped, found, line', heap')
    requires forall x :: x in heap ==> x.expire < 2 * SIGN
    ensures found.None? <==> GivesUp(line, heap, zombies, clock)
  {
    SkippedWereInLine(line, heap, zombies, clock, turns, skipped, found, line', heap');
    NobodyRoused(heap, turns, clock, zombies);
    hide Quiet, Turned;
  }

  ghost predicate GivesUp(line: seq<Tid>, heap: seq<Timer>, zombies: set<Tid>, clock: nat -> nat) {
    && (forall t :: t in line ==> t in zombies)
    && Quiet(heap, clock, zombies, |line| + 1)
  }

  /** With all expiries up to 2^63: every task in line has ended, and nobody else is due at any of these times. */
  lemma GivesUpNear(line: seq<Tid>, heap: seq<Timer>, zombies: set<Tid>, clock: nat -> nat)
    requires forall x :: x in heap ==> x.expire <= SIGN
    ensures GivesUp(line, heap, zombies, clock) <==>
      && (forall t :: t in line ==> t in zombies)
      && (forall k, x :: 0 <= k <= |line| && x in heap && x.task !in zombies ==> x.expire > clock(k))
  {
    forall k | 0 <= k <= |line|
      ensures Rouses(heap, clock(k), zombies) <==> exists x :: x in heap && x.task !in zombies && Due(x, clock(k)) {
      RousesNear(heap, clock(k), zombies);
    }
  }

  /** The first turn in which someone is woken. */
  lemma {:induction false} FirstRoused(turns: seq<Turn>, zombies: set<Tid>) returns (k: nat)
    requires Roused(turns, zombies) != []
    ensures k < |turns| && Woken(turns[k].popped, zombies) != []
    ensures Roused(turns, zombies)[0] == Woken(turns[k].popped, zombies)[0]
    ensures forall j :: 0 <= j < k ==> Woken(turns[j].popped, zombies) == []
    decreases |turns|
  {
    var n := |turns| - 1;
    var front := turns[..n];
    assert forall j :: 0 <= j < n ==> front[j] == turns[j];
    if Roused(front, zombies) != [] {
      k := FirstRoused(front, zombies);
    } else {
      RousedIn(front, zombies);
      k := n;
    }
  }

  /**
   With no other task in line, the task found is that of the highest timer, at the first reading of the clock at which
   that timer is due.
   */
  lemma FoundWasHighest(line: seq<Tid>, heap: seq<Timer>, zombies: set<Tid>, clock: nat -> nat, turns: seq<Turn>,
                        skipped: seq<Tid>, found: Option<Tid>, line': seq<Tid>, heap': seq<Timer>)
    returns (k: nat, x: Timer)
    requires Searched(line, heap, zombies, clock, turns, skipped, found, line', heap')
    requires found.Some? && (forall t :: t in line ==> t in zombies) && forall x :: x in heap ==> x.expire < 2 * SIGN
    ensures k <= |line| && forall j :: 0 <= j < k ==> !Rouses(heap, clock(j), zombies)
    ensures x in heap && x.task == found.value && x.task !in zombies && Due(x, clock(k))
    ensures HighestLive(heap, x, zombies)
  {
    SkippedWereInLine(line, heap, zombies, clock, turns, skipped, found, line', heap');
    k := FirstRoused(turns, zombies);
    forall j | 0 <= j < k ensures !Rouses(heap, clock(j), zombies) {
      QuietTurnWakes(heap, turns, clock, zombies, j);
    }
    QuietTurns(heap, turns, clock, zombies, k);
    assert TurnedAt(heap, turns, clock, zombies, k);
    hide Turned, Checked, Rouses, Woken, Roused;
    x := FirstWokenIsHighest(HeapAt(heap, turns, k), turns[k].popped, turns[k].left, clock(k), zombies);
  }

  /** Beyond 2^63 it may give up while someone is due. */
  lemma GivesUpOnDue()
    ensures var heap := [Timer(SIGN + 5, 1), Timer(3, 2)];
      GivesUp([], heap, {}, (k: nat) => 10) && Due(heap[1], 10)
  {
    var heap := [Timer(SIGN + 5, 1), Timer(3, 2)];
    forall x | x in heap && Due(x, 10) ensures !HighestLive(heap, x, {}) {
      assert heap[0] in heap;
    }
  }
}
