/** The thread accounting of pool_impl.go. A step is one turn under the pool's mutex, or the exit of a
    thread; the queue and the waiting threads enter only through what a step finds there. */
module Pool {
  import opened Basics

  datatype State = State(
    minThreads: int,
    maxThreads: int,
    started: bool,
    closed: bool,
    currentThreads: int,
    /** Threads that run threadRunner, and threads that have left it over arguments that do not fit. */
    live: nat,
    badExits: nat)

  datatype Event =
    | Start
    | MonitorOnce(queueSize: int, numWaiting: nat)
    | FindsEmptyQueue
    | FindsBadArguments
    | FindsQueueBroken
    | FindsClosed
    | Close

  /** newThreadPool refuses a negative minimum, a maximum below one, and a minimum above the maximum. */
  function NewPool(min: int, max: int): Option<State> {
    if min < 0 || max < 1 || min > max then None else Some(State(min, max, false, false, 0, 0, 0))
  }

  /** How many threads monitorOnce starts: as many as the maximum and the queue allow, and no fewer. */
  function Growth(s: State, queueSize: int, numWaiting: nat): (n: nat)
    ensures n > 0 ==> s.currentThreads + n <= s.maxThreads && numWaiting + n <= queueSize
    ensures s.currentThreads + n >= s.maxThreads || numWaiting + n >= queueSize
  {
    if s.currentThreads >= s.maxThreads || queueSize <= 0 || numWaiting >= queueSize then 0
    else Min(queueSize - numWaiting, s.maxThreads - s.currentThreads)
  }

  function Started(s: State, n: int): State {
    if n <= 0 then s else s.(currentThreads := s.currentThreads + n, live := s.live + n)
  }

  /** The loops of Start and monitorOnce start threads one by one. */
  method StartThreads(s: State, n: int) returns (s': State)
    ensures s' == Started(s, n)
  {
    s' := s;
    var lcv := 0;
    while lcv < n
      invariant 0 <= lcv && (lcv <= n || (n < 0 && lcv == 0))
      invariant s' == s.(currentThreads := s.currentThreads + lcv, live := s.live + lcv)
    {
      s' := s'.(currentThreads := s'.currentThreads + 1, live := s'.live + 1);
      lcv := lcv + 1;
    }
  }

  function Next(s: State, e: Event): State {
    match e
    case Start => if s.closed || s.started then s else Started(s, s.minThreads).(started := true)
    case MonitorOnce(queueSize, numWaiting) => if s.started then Started(s, Growth(s, queueSize, numWaiting)) else s
    case FindsEmptyQueue =>
      if s.live > 0 && s.currentThreads > s.minThreads
      then s.(currentThreads := s.currentThreads - 1, live := s.live - 1) else s
    case FindsBadArguments => if s.live > 0 then s.(live := s.live - 1, badExits := s.badExits + 1) else s
    case FindsQueueBroken => if s.live > 0 then s.(currentThreads := s.currentThreads - 1, live := s.live - 1) else s
    case FindsClosed => if s.closed && s.live > 0 then s.(currentThreads := s.currentThreads - 1, live := s.live - 1)
      else s
    case Close => s.(closed := true)
  }

  function Run(s: State, events: seq<Event>): State
    decreases |events|
  {
    if events == [] then s else Run(Next(s, events[0]), events[1..])
  }

  /** currentThreads counts the live threads and, for ever, those that left over bad arguments. */
  ghost predicate Accounts(s: State) {
    && 0 <= s.minThreads <= s.maxThreads && 1 <= s.maxThreads
    && s.currentThreads == s.live + s.badExits <= s.maxThreads
    && (!s.started ==> s.currentThreads == 0)
  }

  ghost predicate AboveMinimum(s: State) {
    s.started && !s.closed ==> s.minThreads <= s.currentThreads
  }

  lemma {:induction false} NextAccounts(s: State, e: Event)
    requires Accounts(s)
    ensures Accounts(Next(s, e)) && s.badExits <= Next(s, e).badExits
    ensures Next(s, e).minThreads == s.minThreads && Next(s, e).maxThreads == s.maxThreads
    ensures AboveMinimum(s) ==> (AboveMinimum(Next(s, e)) <==> !BreaksAtMinimum(s, e))
  {
  }

  lemma {:induction false} RunAccounts(s: State, events: seq<Event>)
    requires Accounts(s)
    ensures var s' := Run(s, events); Accounts(s') && s.badExits <= s'.badExits && s'.maxThreads == s.maxThreads
    decreases |events|
  {
    if events != [] {
      NextAccounts(s, events[0]);
      RunAccounts(Next(s, events[0]), events[1..]);
    }
  }

  // ---- The minimum

  /** A thread leaves an open pool over a queue that fails other than by being empty, and no thread is to spare. */
  predicate BreaksAtMinimum(s: State, e: Event) {
    e.FindsQueueBroken? && s.live > 0 && s.started && !s.closed && s.currentThreads == s.minThreads
  }

  predicate NeverBreaks(s: State, events: seq<Event>)
    decreases |events|
  {
    events != [] ==> !BreaksAtMinimum(s, events[0]) && NeverBreaks(Next(s, events[0]), events[1..])
  }

  /** Above the minimum now and after every further step. */
  ghost predicate AlwaysAbove(s: State, events: seq<Event>)
    decreases |events|
  {
    AboveMinimum(s) && (events != [] ==> AlwaysAbove(Next(s, events[0]), events[1..]))
  }

  lemma {:induction false} AlwaysAboveIff(s: State, events: seq<Event>)
    requires Accounts(s) && AboveMinimum(s)
    ensures AlwaysAbove(s, events) <==> NeverBreaks(s, events)
    decreases |events|
  {
    if events != [] {
      NextAccounts(s, events[0]);
      if !BreaksAtMinimum(s, events[0]) { AlwaysAboveIff(Next(s, events[0]), events[1..]); }
    }
  }

  lemma {:induction false} NoBrokenQueue(s: State, events: seq<Event>)
    requires forall i :: 0 <= i < |events| ==> !events[i].FindsQueueBroken?
    ensures NeverBreaks(s, events)
    decreases |events|
  {
    if events != [] { NoBrokenQueue(Next(s, events[0]), events[1..]); }
  }

  /** Every run of every pool that newThreadPool makes: currentThreads is live threads plus bad-argument exits and
      stays within the maximum, and an open pool stays at or above the minimum after every step if and only if no
      thread leaves over a broken queue when the pool is at the minimum; so it does with a queue that fails only by
      being empty. */
  lemma {:induction false} NewPoolAccounts(min: int, max: int, events: seq<Event>)
    requires NewPool(min, max).Some?
    ensures var s := NewPool(min, max).value; var s' := Run(s, events);
      && Next(s, Start).live == min
      && s'.currentThreads == s'.live + s'.badExits <= max
      && (AlwaysAbove(s, events) <==> NeverBreaks(s, events))
      && ((forall i :: 0 <= i < |events| ==> !events[i].FindsQueueBroken?) ==> AlwaysAbove(s, events))
  {
    var s := NewPool(min, max).value;
    RunAccounts(s, events);
    AlwaysAboveIff(s, events);
    if forall i :: 0 <= i < |events| ==> !events[i].FindsQueueBroken? { NoBrokenQueue(s, events); }
  }

  // ---- Wearing out

  /** Once as many threads as the maximum have left over bad arguments, the pool never has a thread again. */
  lemma {:induction false} WornOut(s: State, events: seq<Event>)
    requires Accounts(s) && s.badExits == s.maxThreads
    ensures Run(s, events).live == 0 && Run(s, events).currentThreads == s.maxThreads
  {
    RunAccounts(s, events);
  }

  /** A started, open pool can have a thread again if and only if fewer have left that way. */
  lemma {:induction false} CanRunIff(s: State)
    requires Accounts(s) && s.started && !s.closed
    ensures (exists events :: Run(s, events).live > 0) <==> s.badExits < s.maxThreads
  {
    if s.badExits < s.maxThreads {
      var grow := MonitorOnce(1, 0);
      assert Run(Next(s, grow), [grow][1..]) == Next(s, grow);
      assert Run(s, []).live > 0 || Run(s, [grow]).live > 0;
    } else {
      forall events ensures Run(s, events).live == 0 { WornOut(s, events); }
    }
  }

  function BadCalls(n: nat): seq<Event> {
    if n == 0 then [] else [FindsBadArguments] + BadCalls(n - 1)
  }

  lemma {:induction false} BadCallsExit(s: State, n: nat)
    requires n <= s.live
    ensures Run(s, BadCalls(n)) == s.(live := s.live - n, badExits := s.badExits + n)
    decreases n
  {
    if n > 0 {
      assert BadCalls(n)[1..] == BadCalls(n - 1);
      BadCallsExit(Next(s, FindsBadArguments), n - 1);
    }
  }

  /** And every pool has a run that wears it out: it starts, grows to its maximum, and its calls do not fit. */
  lemma {:induction false} EveryPoolCanWearOut(min: int, max: int)
    requires NewPool(min, max).Some?
    ensures var s := Run(NewPool(min, max).value, [Start, MonitorOnce(max, 0)] + BadCalls(max));
      s.started && !s.closed && s.badExits == max
  {
    var s, calls := NewPool(min, max).value, [Start, MonitorOnce(max, 0)] + BadCalls(max);
    var s1 := Next(s, Start);
    var s2 := Next(s1, MonitorOnce(max, 0));
    assert calls[1..][1..] == BadCalls(max) && calls[1..][0] == MonitorOnce(max, 0);
    assert Run(s, calls) == Run(s1, calls[1..]);
    assert s2.live == max;
    BadCallsExit(s2, max);
  }

  // ---- Shrinking and closing

  function Repeated(e: Event, n: nat): seq<Event> {
    if n == 0 then [] else [e] + Repeated(e, n - 1)
  }

  lemma {:induction false} RepeatedRun(s: State, e: Event, n: nat)
    requires n > 0
    ensures Run(s, Repeated(e, n)) == Run(Next(s, e), Repeated(e, n - 1))
  {
    assert Repeated(e, n)[1..] == Repeated(e, n - 1);
  }

  /** A pool whose threads find nothing to do shrinks to its minimum, or to what bad arguments have left of it. */
  lemma {:induction false} IdlePoolShrinks(s: State, n: nat)
    requires Accounts(s) && s.currentThreads >= s.minThreads && n >= Min(s.live, s.currentThreads - s.minThreads)
    ensures Run(s, Repeated(FindsEmptyQueue, n)) ==
      s.(currentThreads := Max(s.minThreads, s.badExits), live := Max(s.minThreads, s.badExits) - s.badExits)
    decreases n
  {
    if n > 0 {
      RepeatedRun(s, FindsEmptyQueue, n);
      NextAccounts(s, FindsEmptyQueue);
      IdlePoolShrinks(Next(s, FindsEmptyQueue), n - 1);
    }
  }

  /** A closed pool lets all its threads go. */
  lemma {:induction false} ClosedPoolDrains(s: State, n: nat)
    requires Accounts(s) && n >= s.live
    ensures Run(Next(s, Close), Repeated(FindsClosed, n)) == s.(closed := true, live := 0, currentThreads := s.badExits)
  {
    Drains(Next(s, Close), n);
  }

  lemma {:induction false} Drains(s: State, n: nat)
    requires Accounts(s) && s.closed && n >= s.live
    ensures Run(s, Repeated(FindsClosed, n)) == s.(live := 0, currentThreads := s.badExits)
    decreases n
  {
    if n > 0 {
      RepeatedRun(s, FindsClosed, n);
      Drains(Next(s, FindsClosed), n - 1);
    }
  }

  /** A pool that is closed before it is started never has a thread. */
  lemma {:induction false} ClosedNeverStarts(s: State, events: seq<Event>)
    requires Accounts(s) && s.closed && !s.started
    ensures Run(s, events) == s
    decreases |events|
  {
    if events != [] { ClosedNeverStarts(Next(s, events[0]), events[1..]); }
  }
}
