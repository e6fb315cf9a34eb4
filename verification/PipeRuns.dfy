/** Any interleaving of readers and writers on one pipe. */
module PipeRuns {
  import opened Bytes
  import opened Pipes

  /** Which call moved which byte, in order. */
  type Log = seq<(nat, Byte)>

  function BytesIn(log: Log): (s: seq<Byte>)
    ensures |s| == |log|
  {
    seq(|log|, i requires 0 <= i < |log| => log[i].1)
  }

  /** The bytes that call `who` moved. */
  function MovedBy(log: Log, who: nat): seq<Byte> {
    if log == [] then []
    else MovedBy(log[..|log| - 1], who) + if log[|log| - 1].0 == who then [log[|log| - 1].1] else []
  }

  function Tagged(who: nat, bytes: seq<Byte>): (log: Log)
    ensures |log| == |bytes|
  {
    seq(|bytes|, i requires 0 <= i < |bytes| => (who, bytes[i]))
  }

  lemma BytesMore(log: Log, who: nat, bytes: seq<Byte>)
    ensures BytesIn(log + Tagged(who, bytes)) == BytesIn(log) + bytes
  {
  }

  lemma TaggedNext(log: Log, who: nat, bytes: seq<Byte>)
    requires bytes != []
    ensures var n := |bytes| - 1;
      log + Tagged(who, bytes) == (log + Tagged(who, bytes[..n])) + [(who, bytes[n])]
  {
  }

  lemma MovedNext(log: Log, x: (nat, Byte), i: nat)
    ensures MovedBy(log + [x], i) == MovedBy(log, i) + if x.0 == i then [x.1] else []
  {
    assert (log + [x])[..|log|] == log;
  }

  lemma {:induction false} MovedMore(log: Log, who: nat, bytes: seq<Byte>, i: nat)
    ensures MovedBy(log + Tagged(who, bytes), i) == MovedBy(log, i) + if i == who then bytes else []
    decreases |bytes|
  {
    if bytes == [] {
      assert log + Tagged(who, bytes) == log;
    } else {
      var n := |bytes| - 1;
      var all := log + Tagged(who, bytes);
      var front := log + Tagged(who, bytes[..n]);
      MovedMore(log, who, bytes[..n], i);
      TaggedNext(log, who, bytes);
      MovedNext(front, (who, bytes[n]), i);
      hide MovedBy, Tagged;
      if i == who {
        assert bytes == bytes[..n] + [bytes[n]];
        assert MovedBy(log, i) + bytes == (MovedBy(log, i) + bytes[..n]) + [bytes[n]];
      }
    }
  }

  /** A call in progress, as far as the others can tell. */
  datatype Call = Call(size: nat, already: nat)

  /** A pipe, the calls on it, and what they moved so far. */
  datatype World = World(
    capacity: nat, contents: seq<Byte>, readers: seq<Call>, writers: seq<Call>, readLog: Log, writeLog: Log)

  /** One pass of one call; a writer finds `rest` in its buffers, from where it stands on. */
  datatype Event = ReadBy(who: nat, writersClosed: bool) | WriteBy(who: nat, readersOpen: bool, rest: seq<Byte>)

  predicate Fits(w: World, e: Event) {
    match e
    case ReadBy(who, _) => who < |w.readers|
    case WriteBy(who, _, rest) => who < |w.writers| && |rest| == w.writers[who].size - w.writers[who].already
  }

  function Moved(c: Call, n: nat): Call {
    c.(already := c.already + n)
  }

  ghost predicate Intact(w: World) {
    && |w.contents| <= w.capacity
    && BytesIn(w.writeLog) == BytesIn(w.readLog) + w.contents
    && (forall i :: 0 <= i < |w.readers| ==> |MovedBy(w.readLog, i)| == w.readers[i].already <= w.readers[i].size)
    && (forall i :: 0 <= i < |w.writers| ==> |MovedBy(w.writeLog, i)| == w.writers[i].already <= w.writers[i].size)
  }

  function Step(w: World, e: Event): (r: (World, Turn))
    requires |w.contents| <= w.capacity && Fits(w, e)
  {
    match e
    case ReadBy(who, closed) =>
      var c := w.readers[who];
      var n := Share(|w.contents|, c.size, c.already);
      (w.(contents := w.contents[n..], readers := w.readers[who := Moved(c, n)], readLog := w.readLog + Tagged(who,
        w.contents[..n])),
       ReadAnswer(|w.contents|, c.size, c.already, closed))
    case WriteBy(who, open, rest) =>
      var c := w.writers[who];
      var n := if open then Share(w.capacity - |w.contents|, c.size, c.already) else 0;
      (w.(contents := w.contents + rest[..n], writers := w.writers[who := Moved(c, n)],
        writeLog := w.writeLog + Tagged(who, rest[..n])),
       WriteAnswer(c.size, c.already, open))
  }

  lemma ReadKeeps(w: World, e: Event)
    requires Intact(w) && Fits(w, e) && e.ReadBy?
    ensures Intact(Step(w, e).0)
  {
    var who, c := e.who, w.readers[e.who];
    var n := Share(|w.contents|, c.size, c.already);
    var w' := Step(w, e).0;
    BytesMore(w.readLog, who, w.contents[..n]);
    assert w.contents == w.contents[..n] + w.contents[n..];
    assert BytesIn(w'.writeLog) == BytesIn(w'.readLog) + w'.contents;
    forall i | 0 <= i < |w'.readers| ensures |MovedBy(w'.readLog, i)| == w'.readers[i].already <= w'.readers[i].size {
      MovedMore(w.readLog, who, w.contents[..n], i);
    }
  }

  lemma WriteKeeps(w: World, e: Event)
    requires Intact(w) && Fits(w, e) && e.WriteBy?
    ensures Intact(Step(w, e).0)
  {
    var who, c := e.who, w.writers[e.who];
    var n := if e.readersOpen then Share(w.capacity - |w.contents|, c.size, c.already) else 0;
    var w' := Step(w, e).0;
    BytesMore(w.writeLog, who, e.rest[..n]);
    assert BytesIn(w'.writeLog) == BytesIn(w'.readLog) + w'.contents;
    forall i | 0 <= i < |w'.writers| ensures |MovedBy(w'.writeLog, i)| == w'.writers[i].already <= w'.writers[i].size {
      MovedMore(w.writeLog, who, e.rest[..n], i);
    }
  }

  /** A sequence of passes, each of a call that exists. */
  ghost predicate IsRun(trace: seq<World>, events: seq<Event>) {
    && |trace| == |events| + 1
    && forall i :: 0 <= i < |events| ==> Follows(trace, events, i)
  }

  ghost predicate Follows(trace: seq<World>, events: seq<Event>, i: nat)
    requires i < |events| && |trace| == |events| + 1
  {
    |trace[i].contents| <= trace[i].capacity && Fits(trace[i], events[i]) && trace[i + 1] == Step(trace[i], events[i]).0
  }

  /** At every point of every run, what was written is what was read followed by what the ring holds. */
  lemma {:induction false} NothingLost(trace: seq<World>, events: seq<Event>, i: nat)
    requires IsRun(trace, events) && Intact(trace[0]) && i < |trace|
    ensures Intact(trace[i])
    decreases i
  {
    if i > 0 {
      NothingLost(trace, events, i - 1);
      assert Follows(trace, events, i - 1);
      if events[i - 1].ReadBy? {
        ReadKeeps(trace[i - 1], events[i - 1]);
      } else {
        WriteKeeps(trace[i - 1], events[i - 1]);
      }
    }
  }

  /** A read returns fewer bytes than asked for only from an empty ring with no write end left,
    and a write only with no read end left. */
  lemma ShortOnlyWhenClosed(w: World, e: Event)
    requires Intact(w) && Fits(w, e) && Step(w, e).1.Return?
    ensures Step(w, e).0 == w
    ensures e.ReadBy? ==> Step(w, e).1.count == |MovedBy(w.readLog, e.who)|
    ensures e.ReadBy? && Step(w, e).1.count < w.readers[e.who].size ==> w.contents == [] && e.writersClosed
    ensures e.WriteBy? ==> Step(w, e).1.count == |MovedBy(w.writeLog, e.who)|
    ensures e.WriteBy? && Step(w, e).1.count < w.writers[e.who].size ==> !e.readersOpen
  {
    var c := if e.ReadBy? then w.readers[e.who] else w.writers[e.who];
    assert Moved(c, 0) == c;
    assert Tagged(e.who, []) == [];
  }

  /**
   A read returns exactly when it has all its bytes, or the ring is empty and no write end is left; a write exactly when
   it has put all its bytes, or no read end is left.
   */
  lemma ReturnsIff(w: World, e: Event)
    requires Intact(w) && Fits(w, e)
    ensures e.ReadBy? ==>
      (Step(w, e).1.Return? <==>
       |MovedBy(w.readLog, e.who)| == w.readers[e.who].size || (w.contents == [] && e.writersClosed))
    ensures e.WriteBy? ==>
      (Step(w, e).1.Return? <==> |MovedBy(w.writeLog, e.who)| == w.writers[e.who].size || !e.readersOpen)
  {
    hide MovedBy, BytesIn;
    if e.ReadBy? {
      assert |MovedBy(w.readLog, e.who)| == w.readers[e.who].already;
    } else {
      assert |MovedBy(w.writeLog, e.who)| == w.writers[e.who].already;
    }
  }

  /** A read that returns short has left nothing behind: every byte ever written has been read by someone. */
  lemma EndOfStream(w: World, e: Event)
    requires Intact(w) && Fits(w, e) && e.ReadBy? && Step(w, e).1.Return?
    requires Step(w, e).1.count < w.readers[e.who].size
    ensures e.writersClosed && BytesIn(w.readLog) == BytesIn(w.writeLog)
  {
    ShortOnlyWhenClosed(w, e);
    hide Step;
    assert BytesIn(w.readLog) + [] == BytesIn(w.readLog);
  }

  /** A pass that does not return moves all it can: it ends with all its bytes moved, or the ring drained, or full. */
  lemma Progress(w: World, e: Event)
    requires Intact(w) && Fits(w, e) && Step(w, e).1.Suspend?
    ensures e.ReadBy? ==>
      var w' := Step(w, e).0;
      w'.contents == [] || |MovedBy(w'.readLog, e.who)| == w.readers[e.who].size
    ensures e.WriteBy? ==>
      var w' := Step(w, e).0;
      |w'.contents| == w.capacity || |MovedBy(w'.writeLog, e.who)| == w.writers[e.who].size
    ensures e.ReadBy? && w.contents != [] ==> |Step(w, e).0.contents| < |w.contents|
    ensures e.WriteBy? && |w.contents| < w.capacity ==> |Step(w, e).0.contents| > |w.contents|
  {
    if e.ReadBy? {
      ReadKeeps(w, e);
    } else {
      WriteKeeps(w, e);
    }
    hide MovedBy, BytesIn;
    var w' := Step(w, e).0;
    if e.ReadBy? {
      assert |MovedBy(w'.readLog, e.who)| == w'.readers[e.who].already;
    } else {
      assert |MovedBy(w'.writeLog, e.who)| == w'.writers[e.who].already;
    }
  }
}
