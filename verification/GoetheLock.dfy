/** The recursive reader/writer lock of goethe_lock_impl.go as a step system. Each step is what
    one thread does while it holds the mutex: a call up to its return or its cond.Wait, a woken
    waiter going round its loop once, or a broadcast by the timer of a timed wait. */
module GoetheLock {

  /** A thread inside one of the two wait loops, with the duration it was given and whether a timer is set for it. */
  datatype Wait = Wait(write: bool, d: int, asleep: bool, armed: bool)

  datatype State = State(
    readerCounts: map<int, int>,
    holdingWriter: int,
    writerCount: int,
    writersWaiting: int,
    waiting: map<int, Wait>)

  const NO_WRITER := -2

  function Init(): State { State(map[], NO_WRITER, 0, 0, map[]) }

  /** The sleeper sets no timer for less than this: two milliseconds, in nanoseconds. */
  const FUDGE_FACTOR := 2_000_000

  /** What may happen next. `left` is how much of its time a waiter finds left, if it was given one. */
  datatype Event =
    | TryRead(t: int, d: int)
    | TryWrite(t: int, d: int)
    | ReadUnlock(t: int)
    | WriteUnlock(t: int)
    | Recheck(t: int, left: int)
    | TimerRings(t: int)

  datatype Reply =
    | ReadGranted | WriteGranted | Refused | Sleeps
    | ReadReleased | WriteReleased | Nothing
    | ErrTryLockDurationIllegal | ErrNotGoetheThread | ErrReadLockHeld | ErrWriteLockNotHeld

  // ---- The guards of the two loops

  predicate ReadBlocked(s: State) {
    s.holdingWriter >= 0 || s.writersWaiting > 0
  }

  predicate OthersRead(counts: map<int, int>, t: int) {
    exists u :: u in counts && u != t && counts[u] > 0
  }

  predicate WriteBlocked(s: State, t: int) {
    s.holdingWriter >= 0 || OthersRead(s.readerCounts, t)
  }

  /** The sum that the writer's guard is made of; -1 excludes nobody. */
  method GetAllOtherReadCount(counts: map<int, int>, localTid: int) returns (result: int)
    requires forall u :: u in counts ==> counts[u] > 0
    ensures result >= 0
    ensures localTid != -1 ==> (result > 0 <==> OthersRead(counts, localTid))
    ensures localTid == -1 ==> (result > 0 <==> counts != map[])
  {
    result := 0;
    var rest := counts.Keys;
    while rest != {}
      invariant rest <= counts.Keys && result >= 0
      invariant result > 0 <==> SomeOther(counts.Keys - rest, localTid)
      decreases |rest|
    {
      NonEmpty(rest);
      var tid :| tid in rest;
      ghost var before := counts.Keys - rest;
      rest := rest - {tid};
      assert counts.Keys - rest == before + {tid};
      if localTid == -1 || tid != localTid { result := result + counts[tid]; }
    }
    assert counts.Keys - rest == counts.Keys;
    if counts != map[] {
      assert counts.Keys != {};
      NonEmpty(counts.Keys);
    }
  }

  lemma {:induction false} NonEmpty(tids: set<int>)
    ensures tids == {} || exists u :: u in tids
  {
    if forall u :: u !in tids { assert tids <= {}; }
  }

  ghost predicate SomeOther(tids: set<int>, t: int) {
    exists u :: u in tids && (t == -1 || u != t)
  }

  // ---- The steps

  function Broadcast(waiting: map<int, Wait>): map<int, Wait> {
    map t | t in waiting :: waiting[t].(asleep := false)
  }

  function Count(counts: map<int, int>, t: int): int {
    if t in counts then counts[t] else 0
  }

  function GrantRead(s: State, t: int): State {
    s.(readerCounts := s.readerCounts[t := Count(s.readerCounts, t) + 1])
  }

  function Leave(s: State, t: int): State {
    s.(waiting := s.waiting - {t})
  }

  /** The sleeper is asked for a broadcast in `left`, if the wait is timed, and then the thread sleeps. For a
      short time the sleeper broadcasts at once, before the thread is asleep, and sets no timer. */
  function Sleep(s: State, t: int, write: bool, d: int, left: int): State {
    var others := if d > 0 && left < FUDGE_FACTOR then Broadcast(s.waiting) else s.waiting;
    s.(waiting := others[t := Wait(write, d, true, d > 0 && left >= FUDGE_FACTOR)])
  }

  /** A wait for no time at all, or for a time that is over. */
  predicate Expired(d: int, left: int) {
    d >= 0 && left <= 0
  }

  /** The loop of TryReadLock from its guard to its exit or its next Wait. */
  function ReadLoop(s: State, t: int, d: int, left: int): (State, Reply) {
    if !ReadBlocked(s) then (Leave(GrantRead(s, t), t), ReadGranted)
    else if Expired(d, left) then (Leave(s, t), Refused)
    else (Sleep(s, t, false, d, left), Sleeps)
  }

  /** The loop of TryWriteLock, entered with the thread already counted in writersWaiting. */
  function WriteLoop(s: State, t: int, d: int, left: int): (State, Reply) {
    if !WriteBlocked(s, t) then
      (Leave(s.(holdingWriter := t, writerCount := 1, writersWaiting := s.writersWaiting - 1), t), WriteGranted)
    else if Expired(d, left) then (Leave(s.(writersWaiting := s.writersWaiting - 1), t), Refused)
    else (Sleep(s, t, true, d, left), Sleeps)
  }

  function Next(s: State, e: Event): (State, Reply) {
    match e
    case TimerRings(t) =>
      if t !in s.waiting || !s.waiting[t].armed then (s, Nothing)
      else (s.(waiting := Broadcast(s.waiting[t := s.waiting[t].(armed := false)])), Nothing)
    case Recheck(t, left) =>
      if t !in s.waiting || s.waiting[t].asleep then (s, Nothing)
      else
        var w := s.waiting[t];
        if w.write then WriteLoop(s, t, w.d, left) else ReadLoop(s, t, w.d, left)
    case TryRead(t, d) =>
      if t in s.waiting then (s, Nothing)
      else if d < -1 then (s, ErrTryLockDurationIllegal)
      else if t < 0 then (s, ErrNotGoetheThread)
      else if s.holdingWriter == t then (GrantRead(s, t), ReadGranted)
      else ReadLoop(s, t, d, d)
    case TryWrite(t, d) =>
      if t in s.waiting then (s, Nothing)
      else if d < -1 then (s, ErrTryLockDurationIllegal)
      else if t < 0 then (s, ErrNotGoetheThread)
      else if Count(s.readerCounts, t) != 0 then (s, ErrReadLockHeld)
      else if s.holdingWriter == t then (s.(writerCount := s.writerCount + 1), WriteGranted)
      else WriteLoop(s.(writersWaiting := s.writersWaiting + 1), t, d, d)
    case ReadUnlock(t) =>
      if t in s.waiting then (s, Nothing)
      else if t < 0 then (s, ErrNotGoetheThread)
      else if t !in s.readerCounts then (s, Nothing)
      else if s.readerCounts[t] - 1 <= 0 then
        (s.(readerCounts := s.readerCounts - {t},
            waiting := if s.writersWaiting > 0 then Broadcast(s.waiting) else s.waiting), ReadReleased)
      else (s.(readerCounts := s.readerCounts[t := s.readerCounts[t] - 1]), ReadReleased)
    case WriteUnlock(t) =>
      if t in s.waiting then (s, Nothing)
      else if t < 0 then (s, ErrNotGoetheThread)
      else if t != s.holdingWriter then (s, ErrWriteLockNotHeld)
      else if s.writerCount - 1 <= 0 then
        (s.(writerCount := 0, holdingWriter := NO_WRITER, waiting := Broadcast(s.waiting)), WriteReleased)
      else (s.(writerCount := s.writerCount - 1), WriteReleased)
  }

  function Run(s: State, events: seq<Event>): State
    decreases |events|
  {
    if events == [] then s else Run(Next(s, events[0]).0, events[1..])
  }

  // ---- Mutual exclusion and accounting, timeouts included

  ghost function Writers(waiting: map<int, Wait>): set<int> {
    set t | t in waiting && waiting[t].write
  }

  /** Nobody else reads while a writer holds the lock. */
  ghost predicate Exclusive(s: State) {
    && (forall t :: t in s.readerCounts ==> t >= 0 && s.readerCounts[t] > 0)
    && (if s.holdingWriter >= 0 then s.writerCount >= 1 else s.holdingWriter == NO_WRITER && s.writerCount == 0)
    && (s.holdingWriter >= 0 ==> forall t :: t in s.readerCounts ==> t == s.holdingWriter)
  }

  /** Who waits does not hold the write lock, and waits to write only without a read lock. */
  ghost predicate Waiters(s: State) {
    && s.holdingWriter !in s.waiting
    && (forall t :: t in s.waiting ==> t >= 0 && (s.waiting[t].d == -1 || s.waiting[t].d > 0))
    && (forall t :: t in s.waiting && s.waiting[t].write ==> t !in s.readerCounts)
  }

  /** writersWaiting counts the threads in the write loop. */
  ghost predicate Inv(s: State) {
    Exclusive(s) && Waiters(s) && s.writersWaiting == |Writers(s.waiting)|
  }

  lemma {:induction false} WritersChange(waiting: map<int, Wait>, t: int, w: Wait)
    ensures Writers(waiting - {t}) == Writers(waiting) - {t}
    ensures Writers(waiting[t := w]) == if w.write then Writers(waiting) + {t} else Writers(waiting) - {t}
    ensures Writers(Broadcast(waiting)) == Writers(waiting)
  {
  }

  lemma {:induction false} SleepWriters(s: State, t: int, write: bool, d: int, left: int)
    ensures Writers(Sleep(s, t, write, d, left).waiting) == if write then Writers(s.waiting) + {t}
      else Writers(s.waiting) - {t}
  {
    WritersChange(s.waiting, t, Sleep(s, t, write, d, left).waiting[t]);
    WritersChange(Broadcast(s.waiting), t, Sleep(s, t, write, d, left).waiting[t]);
  }

  /** A call that may wait: with no time, with all its time, or for ever. */
  predicate MayWait(d: int, left: int) {
    d >= -1 && (d == 0 ==> left <= 0)
  }

  lemma {:induction false} SleepInv(s: State, t: int, write: bool, d: int, left: int)
    requires Exclusive(s) && Waiters(s) && t >= 0 && t != s.holdingWriter && (d == -1 || d > 0) &&
      (write ==> t !in s.readerCounts)
    requires s.writersWaiting == if write then |Writers(s.waiting) + {t}| else |Writers(s.waiting) - {t}|
    ensures Inv(Sleep(s, t, write, d, left))
  {
    SleepWriters(s, t, write, d, left);
    hide Writers;
  }

  lemma {:induction false} OneLess(tids: set<int>, t: int)
    ensures |tids - {t}| == |tids + {t}| - 1
  {
    assert tids - {t} == (tids + {t}) - {t};
  }

  lemma {:induction false} GrantReadExclusive(s: State, t: int)
    requires Exclusive(s) && Waiters(s) && t >= 0 && s.holdingWriter < 0 && (t in s.waiting ==> !s.waiting[t].write)
    ensures Exclusive(Leave(GrantRead(s, t), t)) && Waiters(Leave(GrantRead(s, t), t))
  {
  }

  lemma {:induction false} LeaveInv(s: State, t: int, writersWaiting: int)
    requires Exclusive(s) && Waiters(s) && writersWaiting == |Writers(s.waiting) - {t}|
    ensures Inv(Leave(s.(writersWaiting := writersWaiting), t))
  {
    WritersChange(s.waiting, t, Wait(false, -1, true, false));
  }

  lemma {:induction false} ReadLoopInv(s: State, t: int, d: int, left: int)
    requires t >= 0 && MayWait(d, left) && t != s.holdingWriter
    requires Inv(s) && (t in s.waiting ==> !s.waiting[t].write)
    ensures Inv(ReadLoop(s, t, d, left).0)
  {
    assert Writers(s.waiting) - {t} == Writers(s.waiting);
    if !ReadBlocked(s) {
      WritersChange(s.waiting, t, Wait(false, d, true, false));
      GrantReadExclusive(s, t);
    } else if Expired(d, left) {
      LeaveInv(s, t, s.writersWaiting);
    } else {
      SleepInv(s, t, false, d, left);
    }
    hide Exclusive, Waiters, Broadcast, Writers;
  }

  /** The state of a writer between its writersWaiting++ and the end of its loop. */
  ghost predicate Entering(s: State, t: int) {
    && t >= 0 && t != s.holdingWriter && t !in s.readerCounts && Exclusive(s) && Waiters(s)
    && s.writersWaiting == |Writers(s.waiting) + {t}|
    && (t in s.waiting ==> s.waiting[t].write)
  }

  lemma {:induction false} GrantWriteInv(s: State, t: int, writersWaiting: int)
    requires Exclusive(s) && Waiters(s) && t >= 0 && t !in s.readerCounts && !WriteBlocked(s, t)
    requires writersWaiting == |Writers(s.waiting) - {t}|
    ensures Inv(Leave(s.(holdingWriter := t, writerCount := 1, writersWaiting := writersWaiting), t))
  {
    WritersChange(s.waiting, t, Wait(false, -1, true, false));
  }

  lemma {:induction false} WriteLoopInv(s: State, t: int, d: int, left: int)
    requires Entering(s, t) && MayWait(d, left)
    ensures Inv(WriteLoop(s, t, d, left).0)
  {
    OneLess(Writers(s.waiting), t);
    if !WriteBlocked(s, t) {
      GrantWriteInv(s, t, s.writersWaiting - 1);
    } else if Expired(d, left) {
      LeaveInv(s, t, s.writersWaiting - 1);
    } else {
      SleepInv(s, t, true, d, left);
    }
    hide *;
  }

  lemma {:induction false} TryInv(s: State, t: int, d: int)
    requires Inv(s)
    ensures Inv(Next(s, TryRead(t, d)).0) && Inv(Next(s, TryWrite(t, d)).0)
  {
    if t !in s.waiting && d >= -1 && t >= 0 && s.holdingWriter != t {
      ReadLoopInv(s, t, d, d);
      if Count(s.readerCounts, t) == 0 {
        assert t !in Writers(s.waiting);
        WriteLoopInv(s.(writersWaiting := s.writersWaiting + 1), t, d, d);
      }
    }
  }

  lemma {:induction false} RecheckInv(s: State, t: int, left: int)
    requires Inv(s)
    ensures Inv(Next(s, Recheck(t, left)).0)
  {
    if t in s.waiting && !s.waiting[t].asleep {
      var w := s.waiting[t];
      if w.write {
        assert Writers(s.waiting) + {t} == Writers(s.waiting);
        WriteLoopInv(s, t, w.d, left);
      } else {
        ReadLoopInv(s, t, w.d, left);
      }
    }
  }

  lemma {:induction false} BroadcastInv(s: State)
    requires Inv(s)
    ensures Inv(s.(waiting := Broadcast(s.waiting)))
  {
    WritersChange(s.waiting, 0, Wait(false, -1, true, false));
  }

  lemma {:induction false} DisarmInv(s: State, t: int)
    requires Inv(s) && t in s.waiting
    ensures Inv(s.(waiting := s.waiting[t := s.waiting[t].(armed := false)]))
  {
    assert Writers(s.waiting[t := s.waiting[t].(armed := false)]) == Writers(s.waiting);
  }

  lemma {:induction false} RingInv(s: State, t: int)
    requires Inv(s)
    ensures Inv(Next(s, TimerRings(t)).0)
  {
    if t in s.waiting && s.waiting[t].armed {
      DisarmInv(s, t);
      BroadcastInv(s.(waiting := s.waiting[t := s.waiting[t].(armed := false)]));
    }
    hide Inv, Broadcast;
  }

  lemma {:induction false} ReadUnlockInv(s: State, t: int)
    requires Inv(s)
    ensures Inv(Next(s, ReadUnlock(t)).0)
  {
    WritersChange(s.waiting, t, Wait(false, -1, true, false));
  }

  lemma {:induction false} WriteUnlockInv(s: State, t: int)
    requires Inv(s)
    ensures Inv(Next(s, WriteUnlock(t)).0)
  {
    WritersChange(s.waiting, t, Wait(false, -1, true, false));
  }

  /** Every step keeps mutual exclusion. */
  lemma {:induction false} NextInv(s: State, e: Event)
    requires Inv(s)
    ensures Inv(Next(s, e).0)
  {
    match e
    case TryRead(t, d) => TryInv(s, t, d);
    case TryWrite(t, d) => TryInv(s, t, d);
    case Recheck(t, left) => RecheckInv(s, t, left);
    case ReadUnlock(t) => ReadUnlockInv(s, t);
    case WriteUnlock(t) => WriteUnlockInv(s, t);
    case TimerRings(t) => RingInv(s, t);
  }

  lemma {:induction false} RunInv(s: State, events: seq<Event>)
    requires Inv(s)
    ensures Inv(Run(s, events))
    decreases |events|
  {
    if events != [] {
      NextInv(s, events[0]);
      RunInv(Next(s, events[0]).0, events[1..]);
    }
  }

  /** The lock a thread has taken and not yet given back, over the steps of a run. */
  function Taken(s: State, events: seq<Event>, t: int, write: bool): int
    decreases |events|
  {
    if events == [] then 0 else
    var (s', r) := Next(s, events[0]);
    var mine := events[0].t == t;
    (if !mine then 0
     else if r == (if write then WriteGranted else ReadGranted) then 1
     else if r == (if write then WriteReleased else ReadReleased) then -1 else 0)
    + Taken(s', events[1..], t, write)
  }

  function WriteCount(s: State, t: int): int {
    if s.holdingWriter == t then s.writerCount else 0
  }

  lemma {:induction false} StepAccounts(s: State, e: Event, t: int)
    requires Inv(s) && t >= 0
    ensures var (s', r) := Next(s, e); var mine := e.t == t;
      && Count(s'.readerCounts, t) - Count(s.readerCounts, t) ==
         (if mine && r == ReadGranted then 1 else if mine && r == ReadReleased then -1 else 0)
      && WriteCount(s', t) - WriteCount(s, t) ==
         (if mine && r == WriteGranted then 1 else if mine && r == WriteReleased then -1 else 0)
  {
  }

  /** Read counts and the writer's count are acquires minus releases, in every run. */
  lemma {:induction false} RunAccounts(s: State, events: seq<Event>, t: int)
    requires Inv(s) && t >= 0
    ensures Count(Run(s, events).readerCounts, t) == Count(s.readerCounts, t) + Taken(s, events, t, false)
    ensures WriteCount(Run(s, events), t) == WriteCount(s, t) + Taken(s, events, t, true)
    decreases |events|
  {
    if events != [] {
      NextInv(s, events[0]);
      StepAccounts(s, events[0], t);
      RunAccounts(Next(s, events[0]).0, events[1..], t);
    }
  }

  /** In every run of a new lock, whatever times out: while a thread holds the write lock no other has a read
      lock, every count is acquires minus releases, and writersWaiting is the number of threads in the write loop. */
  lemma {:induction false} MutualExclusion(events: seq<Event>, t: int)
    requires t >= 0
    ensures var s := Run(Init(), events);
      && (s.holdingWriter >= 0 && Count(s.readerCounts, t) > 0 ==> t == s.holdingWriter)
      && Count(s.readerCounts, t) == Taken(Init(), events, t, false)
      && WriteCount(s, t) == Taken(Init(), events, t, true)
      && s.writersWaiting == |set u | u in s.waiting && s.waiting[u].write|
  {
    RunInv(Init(), events);
    RunAccounts(Init(), events, t);
  }

  /** While a writer waits no thread gets a read lock, except the one that already holds the write lock. */
  lemma {:induction false} WaitingWriterBarsReaders(s: State, e: Event, writer: int)
    requires Inv(s) && writer in s.waiting && s.waiting[writer].write
    ensures Next(s, e).1 == ReadGranted ==> e.TryRead? && e.t == s.holdingWriter
  {
    assert writer in Writers(s.waiting);
  }

  /** In every run of a new lock its holder is never kept waiting: it may read, and write again unless it reads. */
  lemma {:induction false} HolderReenters(events: seq<Event>, t: int, d: int)
    requires t == Run(Init(), events).holdingWriter && t >= 0 && d >= -1
    ensures var s := Run(Init(), events);
      && t !in s.waiting && Next(s, TryRead(t, d)).1 == ReadGranted
      && Next(s, TryWrite(t, d)).1 == if t in s.readerCounts then ErrReadLockHeld else WriteGranted
  {
    RunInv(Init(), events);
  }

  // ---- Who gets the lock

  /** Nobody holds the write lock, and no writer waits for it. */
  ghost predicate FreeToRead(s: State) {
    s.holdingWriter < 0 && forall u :: u in s.waiting ==> !s.waiting[u].write
  }

  /** Nobody holds the write lock, and nobody else reads. */
  ghost predicate FreeToWrite(s: State, t: int) {
    s.holdingWriter < 0 && forall u :: u in s.readerCounts ==> u == t
  }

  lemma {:induction false} FreeMeansUnblocked(s: State, t: int)
    requires Inv(s)
    ensures FreeToRead(s) <==> !ReadBlocked(s)
    ensures FreeToWrite(s, t) <==> !WriteBlocked(s, t)
  {
    NonEmpty(Writers(s.waiting));
    if !ReadBlocked(s) {
      assert Writers(s.waiting) == {};
      forall u | u in s.waiting ensures !s.waiting[u].write { assert u !in Writers(s.waiting); }
    }
    if !WriteBlocked(s, t) {
      forall u | u in s.readerCounts ensures u == t { assert s.readerCounts[u] > 0; }
    }
  }

  /** What a call that finds the lock free or not comes to: granted when free, else refused at once without a
      duration, else asleep. */
  function Verdict(free: bool, granted: Reply, d: int): Reply {
    if free then granted else if d == 0 then Refused else Sleeps
  }

  /** In every run of a new lock a thread that asks to read gets the lock exactly when it holds the write lock, or
      nobody does and no writer waits; one that asks to write and does not read gets it exactly when it holds it, or
      nobody holds it and nobody else reads; and a thread that looks again while it waits gets the lock whenever it is
      free, however late it is, and is refused only if it is not free and its time is up. */
  lemma {:induction false} GrantedIff(events: seq<Event>, t: int, d: int, left: int)
    requires t >= 0 && d >= -1
    ensures var s := Run(Init(), events);
      && (t !in s.waiting ==>
            Next(s, TryRead(t, d)).1 == Verdict(s.holdingWriter == t || FreeToRead(s), ReadGranted, d))
      && (t !in s.waiting && t !in s.readerCounts ==>
            Next(s, TryWrite(t, d)).1 == Verdict(s.holdingWriter == t || FreeToWrite(s, t), WriteGranted, d))
      && (t !in s.waiting && t in s.readerCounts ==> Next(s, TryWrite(t, d)) == (s, ErrReadLockHeld))
      && (t in s.waiting && !s.waiting[t].asleep ==>
            var w, r := s.waiting[t], Next(s, Recheck(t, left)).1;
            if (if w.write then FreeToWrite(s, t) else FreeToRead(s))
            then r == (if w.write then WriteGranted else ReadGranted)
            else r == if w.d > 0 && left <= 0 then Refused else Sleeps)
  {
    RunInv(Init(), events);
    FreeMeansUnblocked(Run(Init(), events), t);
    hide FreeToRead, FreeToWrite, ReadBlocked, WriteBlocked, Writers;
  }

  /** An illegal call gets its error and changes nothing; a thread without a read lock gives none back, silently; and
      the write lock is given back by its holder alone. */
  lemma {:induction false} IllegalCallsChangeNothing(events: seq<Event>, t: int, d: int)
    ensures var s := Run(Init(), events);
      && (d < -1 && t !in s.waiting ==>
            Next(s, TryRead(t, d)) == Next(s, TryWrite(t, d)) == (s, ErrTryLockDurationIllegal))
      && (d >= -1 && t < 0 ==> Next(s, TryRead(t, d)) == Next(s, TryWrite(t, d)) == (s, ErrNotGoetheThread))
      && (t < 0 ==> Next(s, ReadUnlock(t)) == Next(s, WriteUnlock(t)) == (s, ErrNotGoetheThread))
      && (t >= 0 && t !in s.waiting ==>
            && (t !in s.readerCounts ==> Next(s, ReadUnlock(t)) == (s, Nothing))
            && (t in s.readerCounts ==> Next(s, ReadUnlock(t)).1 == ReadReleased)
            && (t != s.holdingWriter ==> Next(s, WriteUnlock(t)) == (s, ErrWriteLockNotHeld))
            && (t == s.holdingWriter ==> Next(s, WriteUnlock(t)).1 == WriteReleased))
  {
    RunInv(Init(), events);
    hide Exclusive, Broadcast, ReadBlocked, WriteBlocked;
  }

  /** A thread that goes to sleep with the fudge factor or more of its time left has a timer, and when that rings
      nobody sleeps on. */
  lemma {:induction false} TimedSleepersWake(s: State, e: Event, u: int)
    requires Next(s, e).1 == Sleeps
    requires if e.Recheck? then s.waiting[e.t].d > 0 && e.left >= FUDGE_FACTOR
             else (e.TryRead? || e.TryWrite?) && e.d >= FUDGE_FACTOR
    ensures var s' := Next(s, e).0; Asleep(s', e.t) && !Asleep(Next(s', TimerRings(e.t)).0, u)
  {
  }

  // ---- Lost wake-ups

  ghost predicate Asleep(s: State, t: int) {
    t in s.waiting && s.waiting[t].asleep
  }

  ghost predicate Blocked(s: State, t: int)
    requires t in s.waiting
  {
    if s.waiting[t].write then WriteBlocked(s, t) else ReadBlocked(s)
  }

  /** Whoever sleeps has a reason to. */
  ghost predicate NoLostWakeup(s: State) {
    forall t :: Asleep(s, t) ==> Blocked(s, t)
  }

  ghost predicate Untimed(s: State) {
    forall t :: t in s.waiting && s.waiting[t].write ==> s.waiting[t].d <= 0
  }

  /** The durations writers ask for are all among those allowed. */
  ghost predicate WriteDurations(events: seq<Event>, allowed: int -> bool) {
    forall i :: 0 <= i < |events| && events[i].TryWrite? ==> allowed(events[i].d)
  }

  /** Any duration but a positive one. */
  function NotTimed(): int -> bool { d => d <= 0 }

  lemma {:induction false} NextNoLost(s: State, e: Event)
    requires Inv(s) && NoLostWakeup(s) && Untimed(s) && (e.TryWrite? ==> e.d <= 0)
    ensures NoLostWakeup(Next(s, e).0) && Untimed(Next(s, e).0)
  {
    var (s', r) := Next(s, e);
    forall u | Asleep(s', u) ensures Blocked(s', u) {
      if Asleep(s, u) && s.waiting[u].write {
        assert Blocked(s, u) && u in Writers(s.waiting);
        if s.holdingWriter < 0 {
          var v :| v in s.readerCounts && v != u && s.readerCounts[v] > 0;
          assert v in s'.readerCounts;
        }
      } else if Asleep(s, u) {
        assert Blocked(s, u);
      }
    }
  }

  lemma {:induction false} RunNoLost(s: State, events: seq<Event>)
    requires Inv(s) && NoLostWakeup(s) && Untimed(s) && WriteDurations(events, NotTimed())
    ensures NoLostWakeup(Run(s, events))
    decreases |events|
  {
    if events != [] {
      NextInv(s, events[0]);
      NextNoLost(s, events[0]);
      RunNoLost(Next(s, events[0]).0, events[1..]);
    }
  }

  /** A run in which a writer with a positive duration times out and leaves a reader asleep for nothing: the
      short wait of a third reader wakes both, the reader looks first and goes back to sleep, the writer gives up
      silently. */
  function TimedOutWriter(d: int): seq<Event> {
    [TryRead(1, -1), TryWrite(2, d), TryRead(3, -1), TryRead(4, 1), Recheck(3, 0), Recheck(2, 0)]
  }

  lemma {:induction false} TimedOutWriterLoses(d: int)
    requires d > 0
    ensures !NoLostWakeup(Run(Init(), TimedOutWriter(d)))
  {
    var es := TimedOutWriter(d);
    var s3 := WriterAndReaderWait(d);
    var s6 := WriterGivesUp(d, s3);
    RunSix(Init(), es);
    assert Asleep(s6, 3) && !Blocked(s6, 3);
  }

  lemma {:induction false} WriterAndReaderWait(d: int) returns (s3: State)
    requires d > 0
    ensures s3 == State(map[1 := 1], NO_WRITER, 0, 1,
                        map[2 := Wait(true, d, true, d >= FUDGE_FACTOR), 3 := Wait(false, -1, true, false)])
    ensures s3 == Next(Next(Next(Init(), TryRead(1, -1)).0, TryWrite(2, d)).0, TryRead(3, -1)).0
  {
    var s1 := State(map[1 := 1], NO_WRITER, 0, 0, map[]);
    var s2 := State(map[1 := 1], NO_WRITER, 0, 1, map[2 := Wait(true, d, true, d >= FUDGE_FACTOR)]);
    assert 1 in s1.readerCounts && s1.readerCounts[1] > 0;
    assert Next(Init(), TryRead(1, -1)).0 == s1;
    assert Next(s1, TryWrite(2, d)).0 == s2;
    s3 := Next(s2, TryRead(3, -1)).0;
  }

  lemma {:induction false} WriterGivesUp(d: int, s3: State) returns (s6: State)
    requires d > 0
    requires s3 == State(map[1 := 1], NO_WRITER, 0, 1,
                         map[2 := Wait(true, d, true, d >= FUDGE_FACTOR), 3 := Wait(false, -1, true, false)])
    ensures s6 == Next(Next(Next(s3, TryRead(4, 1)).0, Recheck(3, 0)).0, Recheck(2, 0)).0
    ensures s6 == State(map[1 := 1], NO_WRITER, 0, 0,
      map[3 := Wait(false, -1, true, false), 4 := Wait(false, 1, true, false)])
  {
    var w2, w3 := Wait(true, d, false, d >= FUDGE_FACTOR), Wait(false, -1, true, false);
    var w4 := Wait(false, 1, true, false);
    var s4 := s3.(waiting := map[2 := w2, 3 := w3.(asleep := false), 4 := w4]);
    var s5 := s3.(waiting := map[2 := w2, 3 := w3, 4 := w4]);
    assert 1 in s3.readerCounts && s3.readerCounts[1] > 0;
    assert Next(s3, TryRead(4, 1)).0 == s4;
    assert Next(s4, Recheck(3, 0)).0 == s5;
    s6 := Next(s5, Recheck(2, 0)).0;
  }

  lemma {:induction false} RunSix(s: State, es: seq<Event>)
    requires |es| == 6
    ensures Run(s, es) ==
      Next(Next(Next(Next(Next(Next(s, es[0]).0, es[1]).0, es[2]).0, es[3]).0, es[4]).0, es[5]).0
  {
    hide Next;
    RunThree(s, es);
    var s3 := Next(Next(Next(s, es[0]).0, es[1]).0, es[2]).0;
    RunThree(s3, es[3..]);
    assert es[3..][3..] == [];
  }

  lemma {:induction false} RunThree(s: State, es: seq<Event>)
    requires |es| >= 3
    ensures Run(s, es) == Run(Next(Next(Next(s, es[0]).0, es[1]).0, es[2]).0, es[3..])
  {
    hide Next;
    var s1 := Next(s, es[0]).0;
    var s2 := Next(s1, es[1]).0;
    assert es[1..][1..] == es[2..] && es[2..][1..] == es[3..];
    assert Run(s1, es[1..]) == Run(s2, es[2..]);
  }

  /** No run loses a wake-up exactly when no writer may ask for a positive duration. */
  lemma {:induction false} NoLostWakeupIff(allowed: int -> bool)
    ensures (forall events :: WriteDurations(events, allowed) ==> NoLostWakeup(Run(Init(), events)))
       <==> (forall d :: allowed(d) ==> d <= 0)
  {
    if forall d :: allowed(d) ==> d <= 0 {
      forall events | WriteDurations(events, allowed) ensures NoLostWakeup(Run(Init(), events)) {
        RunNoLost(Init(), events);
      }
    } else {
      var d :| allowed(d) && d > 0;
      TimedOutWriterLoses(d);
      assert WriteDurations(TimedOutWriter(d), allowed);
    }
  }

  // ---- Deadlock

  ghost predicate Holds(s: State, t: int) {
    t == s.holdingWriter || t in s.readerCounts
  }

  /** Some thread that is not asleep holds the lock or is about to look at its guard again. */
  ghost predicate SomeoneActs(s: State) {
    exists t :: !Asleep(s, t) && t >= 0 && (Holds(s, t) || t in s.waiting)
  }

  /** With no lost wake-up, and no sleeper that itself holds a read lock, a sleeper always has someone to wait for. */
  lemma {:induction false} SleepersAreWaitedFor(s: State, t: int)
    requires Inv(s) && NoLostWakeup(s) && Asleep(s, t)
    requires forall u :: Asleep(s, u) ==> u !in s.readerCounts
    ensures SomeoneActs(s)
  {
    if s.holdingWriter >= 0 {
      assert !Asleep(s, s.holdingWriter) && Holds(s, s.holdingWriter);
    } else {
      assert Blocked(s, t);
      var w := t;
      if !s.waiting[t].write {
        NonEmpty(Writers(s.waiting));
        w :| w in Writers(s.waiting);
      }
      if Asleep(s, w) {
        assert Blocked(s, w);
        var v :| v in s.readerCounts && v != w && s.readerCounts[v] > 0;
        assert !Asleep(s, v) && Holds(s, v);
      }
    }
  }

  /** A read that waits behind a writer although its thread already reads. A caller can check for it. */
  predicate Careless(s: State, e: Event) {
    && e.TryRead? && e.d != 0 && e.d >= -1 && e.t !in s.waiting
    && e.t in s.readerCounts && s.holdingWriter != e.t && s.writersWaiting > 0
  }

  predicate CarefulRun(s: State, events: seq<Event>)
    decreases |events|
  {
    events != [] ==> !Careless(s, events[0]) && CarefulRun(Next(s, events[0]).0, events[1..])
  }

  ghost predicate WaitersHoldNothing(s: State) {
    forall t :: t in s.waiting ==> t !in s.readerCounts
  }

  lemma {:induction false} NextHoldsNothing(s: State, e: Event)
    requires Inv(s) && WaitersHoldNothing(s) && !Careless(s, e)
    ensures WaitersHoldNothing(Next(s, e).0)
  {
  }

  lemma {:induction false} CarefulHoldsNothing(s: State, events: seq<Event>)
    requires Inv(s) && WaitersHoldNothing(s) && CarefulRun(s, events)
    ensures WaitersHoldNothing(Run(s, events))
    decreases |events|
  {
    if events != [] {
      NextInv(s, events[0]);
      NextHoldsNothing(s, events[0]);
      CarefulHoldsNothing(Next(s, events[0]).0, events[1..]);
    }
  }

  /** No run of a new lock without timed writes and careless reads ends in a deadlock, however often its threads
      read again. */
  lemma {:induction false} NewLockNeverDeadlocks(events: seq<Event>, t: int)
    requires WriteDurations(events, NotTimed()) && CarefulRun(Init(), events) && Asleep(Run(Init(), events), t)
    ensures SomeoneActs(Run(Init(), events))
  {
    RunInv(Init(), events);
    RunNoLost(Init(), events);
    CarefulHoldsNothing(Init(), events);
    SleepersAreWaitedFor(Run(Init(), events), t);
  }

  /** A reader waits to read again while it holds a read lock, behind a writer that waits for it. */
  ghost predicate Entangled(s: State, reader: int, writer: int) {
    && Inv(s) && reader != writer && reader in s.readerCounts
    && reader in s.waiting && !s.waiting[reader].write && s.waiting[reader].d == -1
    && writer in s.waiting && s.waiting[writer].write && s.waiting[writer].d == -1
  }

  lemma {:induction false} NextEntangled(s: State, e: Event, reader: int, writer: int)
    requires Entangled(s, reader, writer)
    ensures Entangled(Next(s, e).0, reader, writer)
  {
    NextInv(s, e);
    assert writer in Writers(s.waiting);
    assert s.readerCounts[reader] > 0 && s.holdingWriter < 0;
  }

  /** Nothing anyone does ever frees the two. */
  lemma {:induction false} EntangledForever(s: State, events: seq<Event>, reader: int, writer: int)
    requires Entangled(s, reader, writer)
    ensures Entangled(Run(s, events), reader, writer)
    decreases |events|
  {
    if events != [] {
      NextEntangled(s, events[0], reader, writer);
      EntangledForever(Next(s, events[0]).0, events[1..], reader, writer);
    }
  }

  /** A careless read that waits for ever entangles its thread with every writer that does. */
  lemma {:induction false} CarelessReadEntangles(s: State, reader: int, writer: int)
    requires Inv(s) && Careless(s, TryRead(reader, -1))
    requires writer in s.waiting && s.waiting[writer].write && s.waiting[writer].d == -1
    ensures Entangled(Next(s, TryRead(reader, -1)).0, reader, writer)
  {
    NextInv(s, TryRead(reader, -1));
  }

  /** No call is given a positive duration. */
  ghost predicate UntimedRun(events: seq<Event>) {
    forall i :: 0 <= i < |events| && (events[i].TryRead? || events[i].TryWrite?) ==> events[i].d <= 0
  }

  ghost predicate WaitsForEver(s: State) {
    forall t :: t in s.waiting ==> s.waiting[t].d == -1
  }

  ghost predicate SomePairEntangled(s: State) {
    exists reader, writer :: Entangled(s, reader, writer)
  }

  lemma {:induction false} CarelessRunEntangles(s: State, events: seq<Event>)
    requires Inv(s) && WaitsForEver(s) && UntimedRun(events) && !CarefulRun(s, events)
    ensures SomePairEntangled(Run(s, events))
    decreases |events|
  {
    var e, s' := events[0], Next(s, events[0]).0;
    NextInv(s, e);
    if Careless(s, e) {
      NonEmpty(Writers(s.waiting));
      var writer :| writer in Writers(s.waiting);
      CarelessReadEntangles(s, e.t, writer);
      EntangledForever(s', events[1..], e.t, writer);
    } else {
      CarelessRunEntangles(s', events[1..]);
    }
  }

  /** In runs of a new lock without durations, some thread blocks itself and a writer for ever if and only if
      some read was careless. */
  lemma {:induction false} EntangledIff(events: seq<Event>)
    requires UntimedRun(events)
    ensures SomePairEntangled(Run(Init(), events)) <==> !CarefulRun(Init(), events)
  {
    if CarefulRun(Init(), events) {
      CarefulHoldsNothing(Init(), events);
    } else {
      CarelessRunEntangles(Init(), events);
    }
  }
}
