/** The periodic scheduler of timer_impl.go: fixed-rate jobs are put back on the heap before they run,
    fixed-delay jobs after. Each step is one turn under the scheduler's lock; calls to scheduleNext
    and runs that have been started in their own threads are kept per job until they get their turn. */
module Scheduler {

  /** The scheduler looks this far ahead of the clock: two milliseconds, in nanoseconds. */
  const FUDGE_FACTOR := 2_000_000

  /** Division as Go does it, towards zero. */
  function GoDiv(a: int, b: int): int
    requires b > 0
  {
    if a >= 0 then a / b else -(-a / b)
  }

  /** The next ring time of a fixed-rate job that comes up at `now`. */
  function NextRing(initial: int, delay: int, now: int): int
    requires delay > 0
  {
    initial + (GoDiv(now - initial, delay) + 1) * delay
  }

  ghost predicate OnGrid(initial: int, delay: int, ring: int) {
    exists n: nat :: ring == initial + n * delay
  }

  /** It is the one point of the grid in (now, now + delay]. */
  lemma {:induction false} NextRingOnGrid(initial: int, delay: int, now: int)
    requires delay > 0 && now >= initial
    ensures now < NextRing(initial, delay, now) <= now + delay
    ensures OnGrid(initial, delay, NextRing(initial, delay, now))
  {
    var a := now - initial;
    var n: nat := a / delay + 1;
    assert a == a / delay * delay + a % delay;
    assert n * delay == a / delay * delay + delay;
    assert NextRing(initial, delay, now) == initial + n * delay;
  }

  datatype Job = Job(
    initialTime: int,
    delay: int,
    fixed: bool,
    cancelled: bool,
    /** Ring times of its heap nodes, of scheduleNext calls that have not had the lock yet. */
    heap: seq<int>,
    pending: seq<int>,
    /** Runs in flight. */
    running: nat,
    /** Ring time and clock of every run so far, and the clock at the end of the fixed-delay ones. */
    rings: seq<int>,
    starts: seq<int>,
    ends: seq<int>)

  datatype State = State(now: int, jobs: seq<Job>)

  datatype Event =
    | Tick(dt: nat)
    | AddJob(initialDelay: int, period: int, fixed: bool)
    | Cancel(job: nat)
    | ScheduleNext(job: nat)
    | RunOne(job: nat)
    | RunEnds(job: nat)
    | RunAbandoned(job: nat)

  /** A turn of runOne on this job's first node takes place only if the node is due and nothing precedes it. */
  ghost predicate Rings(s: State, j: nat)
    requires j < |s.jobs|
  {
    && s.jobs[j].heap != []
    && s.jobs[j].heap[0] - (s.now + FUDGE_FACTOR) < 0
    && forall k, i :: 0 <= k < |s.jobs| && 0 <= i < |s.jobs[k].heap| ==> s.jobs[j].heap[0] <= s.jobs[k].heap[i]
  }

  /** What runOne does with the node it has taken. */
  function RunJob(job: Job, clock: int): Job
    requires job.heap != [] && (job.fixed ==> job.delay > 0)
  {
    var popped := job.(heap := job.heap[1..]);
    if job.cancelled then popped else
    var again := if job.fixed then popped.heap + [NextRing(job.initialTime, job.delay, clock + FUDGE_FACTOR)]
      else popped.heap;
    popped.(heap := again, running := job.running + 1, rings := job.rings + [job.heap[0]],
      starts := job.starts + [clock])
  }

  /** The end of invoke: a fixed-delay job asks for its next node. */
  function EndRun(job: Job, clock: int): Job
    requires job.running > 0
  {
    var done := job.(running := job.running - 1, ends := job.ends + [clock]);
    if job.fixed then done else done.(pending := job.pending + [clock + job.delay])
  }

  ghost function Next(s: State, e: Event): State {
    match e
    case Tick(dt) => s.(now := s.now + dt)
    case AddJob(initialDelay, period, fixed) =>
      if period < (if fixed then 1 else 0) then s
      else
        var added := s.now + initialDelay;
        s.(jobs := s.jobs + [Job(added, period, fixed, false, [], [added], 0, [], [], [])])
    case Cancel(j) => if j < |s.jobs| then s.(jobs := s.jobs[j := s.jobs[j].(cancelled := true)]) else s
    case ScheduleNext(j) =>
      if j < |s.jobs| && s.jobs[j].pending != [] then
        var job := s.jobs[j];
        s.(jobs := s.jobs[j := job.(pending := job.pending[1..], heap := job.heap + [job.pending[0]])])
      else s
    case RunOne(j) =>
      if j < |s.jobs| && (s.jobs[j].fixed ==> s.jobs[j].delay > 0) && Rings(s, j)
      then s.(jobs := s.jobs[j := RunJob(s.jobs[j], s.now)]) else s
    case RunEnds(j) =>
      if j < |s.jobs| && s.jobs[j].running > 0 then s.(jobs := s.jobs[j := EndRun(s.jobs[j], s.now)]) else s
    case RunAbandoned(j) =>
      if j < |s.jobs| && s.jobs[j].running > 0
      then s.(jobs := s.jobs[j := s.jobs[j].(running := s.jobs[j].running - 1)]) else s
  }

  ghost function Run(s: State, events: seq<Event>): State
    decreases |events|
  {
    if events == [] then s else Run(Next(s, events[0]), events[1..])
  }

  /** Heap nodes, pending scheduleNext calls and, for a fixed-delay job, runs in flight. */
  function Tokens(job: Job): nat {
    |job.heap| + |job.pending| + if job.fixed then 0 else job.running
  }

  ghost predicate Increasing(s: seq<int>) {
    forall i, k :: 0 <= i < k < |s| ==> s[i] < s[k]
  }

  function NextNode(job: Job): int
    requires job.heap != [] || job.pending != []
  {
    if job.heap != [] then job.heap[0] else job.pending[0]
  }

  /** A fixed-rate job rings on its grid, later every time, and never before its ring time less the fudge. */
  ghost predicate FixedRateOk(job: Job) {
    && job.delay > 0 && Increasing(job.rings)
    && AllOnGrid(job.initialTime, job.delay, job.rings)
    && (job.heap != [] || job.pending != [] ==>
          && OnGrid(job.initialTime, job.delay, NextNode(job)) && NextNode(job) >= job.initialTime
          && forall i :: 0 <= i < |job.rings| ==> job.rings[i] < NextNode(job))
  }

  /** A fixed-delay job starts a run only after the one before has ended, and its delay less the fudge later. */
  ghost predicate FixedDelayOk(job: Job) {
    && job.delay >= 0 && |job.ends| <= |job.rings|
    && (job.heap != [] || job.pending != [] ==>
          |job.ends| == |job.rings| && (job.ends != [] ==> NextNode(job) == job.ends[|job.ends| - 1] + job.delay))
    && (job.running > 0 ==> |job.ends| + 1 == |job.rings|)
    && Spaced(job.starts, job.ends, job.delay)
  }

  /** Each run starts after the one before has ended, and its delay less the fudge later. */
  ghost predicate Spaced(starts: seq<int>, ends: seq<int>, delay: int) {
    forall i {:trigger starts[i]} :: 0 < i < |starts| ==>
      i <= |ends| && ends[i - 1] <= starts[i] && ends[i - 1] + delay < starts[i] + FUDGE_FACTOR
  }

  ghost predicate AllOnGrid(initial: int, delay: int, rings: seq<int>) {
    forall i {:trigger rings[i]} :: 0 <= i < |rings| ==> OnGrid(initial, delay, rings[i])
  }

  ghost predicate JobOk(job: Job, now: int) {
    && Tokens(job) <= 1 && |job.rings| == |job.starts|
    && (forall i :: 0 <= i < |job.starts| ==> job.rings[i] < job.starts[i] + FUDGE_FACTOR && job.starts[i] <= now)
    && (forall i :: 0 <= i < |job.ends| ==> job.ends[i] <= now)
    && if job.fixed then FixedRateOk(job) else FixedDelayOk(job)
  }

  ghost predicate Ok(s: State) {
    forall j :: 0 <= j < |s.jobs| ==> JobOk(s.jobs[j], s.now)
  }

  lemma {:induction false} RunJobOk(job: Job, now: int)
    requires JobOk(job, now) && job.heap != [] && job.heap[0] - (now + FUDGE_FACTOR) < 0
    ensures JobOk(RunJob(job, now), now)
    ensures job.cancelled ==> RunJob(job, now) == job.(heap := [])
    ensures !job.cancelled ==> RunJob(job, now).starts == job.starts + [now]
    ensures !job.cancelled ==> RunJob(job, now).running == job.running + 1
    ensures !job.cancelled && job.fixed ==>
      exists r :: RunJob(job, now).heap == [r] && now + FUDGE_FACTOR < r <= now + FUDGE_FACTOR + job.delay
  {
    if job.cancelled {
      PoppedOk(job, now);
    } else if job.fixed {
      RunFixedRateOk(job, now);
    } else {
      RunFixedDelayOk(job, now);
    }
    hide JobOk;
  }

  lemma {:induction false} PoppedOk(job: Job, now: int)
    requires JobOk(job, now) && job.heap != []
    ensures JobOk(job.(heap := []), now) && job.heap[1..] == []
  {
    hide OnGrid;
  }

  lemma {:induction false} RunFixedRateOk(job: Job, now: int)
    requires JobOk(job, now) && job.heap != [] && job.heap[0] - (now + FUDGE_FACTOR) < 0
    requires job.fixed && !job.cancelled
    ensures JobOk(RunJob(job, now), now)
    ensures exists r :: RunJob(job, now).heap == [r] && now + FUDGE_FACTOR < r <= now + FUDGE_FACTOR + job.delay
  {
    var r := NextRing(job.initialTime, job.delay, now + FUDGE_FACTOR);
    NextRingOnGrid(job.initialTime, job.delay, now + FUDGE_FACTOR);
    hide OnGrid, NextRing;
    assert RunJob(job, now).heap == [r];
  }

  lemma {:induction false} RunFixedDelayOk(job: Job, now: int)
    requires JobOk(job, now) && job.heap != [] && job.heap[0] - (now + FUDGE_FACTOR) < 0
    requires !job.fixed && !job.cancelled
    ensures JobOk(RunJob(job, now), now)
  {
    hide OnGrid, NextRing;
  }

  lemma {:induction false} LaterOk(job: Job, now: int, later: int)
    requires JobOk(job, now) && now <= later
    ensures JobOk(job, later)
  {
  }

  lemma {:induction false} CancelOk(job: Job, now: int)
    requires JobOk(job, now)
    ensures JobOk(job.(cancelled := true), now)
  {
    hide OnGrid;
  }

  lemma {:induction false} ScheduledOk(job: Job, now: int)
    requires JobOk(job, now) && job.pending != []
    ensures JobOk(job.(pending := job.pending[1..], heap := job.heap + [job.pending[0]]), now)
  {
    hide OnGrid;
  }

  lemma {:induction false} AbandonedOk(job: Job, now: int)
    requires JobOk(job, now) && job.running > 0
    ensures JobOk(job.(running := job.running - 1), now)
  {
    hide OnGrid;
  }

  lemma {:induction false} EndRunOk(job: Job, now: int)
    requires JobOk(job, now) && job.running > 0
    ensures JobOk(EndRun(job, now), now)
  {
  }

  lemma {:induction false} NewJobOk(added: int, period: int, fixed: bool, now: int)
    requires period >= if fixed then 1 else 0
    ensures JobOk(Job(added, period, fixed, false, [], [added], 0, [], [], []), now)
  {
    if fixed { assert OnGrid(added, period, added + 0 * period); }
  }

  lemma {:induction false} NextOk(s: State, e: Event)
    requires Ok(s)
    ensures Ok(Next(s, e))
  {
    hide JobOk;
    match e
    case Tick(dt) =>
      forall j | 0 <= j < |s.jobs| ensures JobOk(s.jobs[j], s.now + dt) { LaterOk(s.jobs[j], s.now, s.now + dt); }
    case AddJob(initialDelay, period, fixed) =>
      if period >= if fixed then 1 else 0 { NewJobOk(s.now + initialDelay, period, fixed, s.now); }
    case Cancel(j) => if j < |s.jobs| { CancelOk(s.jobs[j], s.now); }
    case ScheduleNext(j) => if j < |s.jobs| && s.jobs[j].pending != [] { ScheduledOk(s.jobs[j], s.now); }
    case RunOne(j) => if j < |s.jobs| && Rings(s, j) { RunJobOk(s.jobs[j], s.now); }
    case RunEnds(j) => if j < |s.jobs| && s.jobs[j].running > 0 { EndRunOk(s.jobs[j], s.now); }
    case RunAbandoned(j) => if j < |s.jobs| && s.jobs[j].running > 0 { AbandonedOk(s.jobs[j], s.now); }
  }

  /** In every run each job has at most one token, a fixed-delay job never overlaps itself, and the ring times
      of a fixed-rate job strictly increase along its grid. */
  lemma {:induction false} RunOk(s: State, events: seq<Event>)
    requires Ok(s)
    ensures Ok(Run(s, events))
    decreases |events|
  {
    if events != [] {
      NextOk(s, events[0]);
      RunOk(Next(s, events[0]), events[1..]);
    }
  }

  /** Read off for a scheduler from its start. Every job has at most one token and never runs before its ring time
      less the fudge; a fixed-rate job rings later every time and on its grid; a fixed-delay job has at most one run
      in flight, and starts the next one its delay after the end of the last, less the fudge; and a job that was
      cancelled at any point of the run has not started since. */
  lemma {:induction false} NewSchedulerBehaves(now: int, events: seq<Event>, j: nat, n: nat)
    requires j < |Run(State(now, []), events).jobs| && n <= |events|
    ensures var job := Run(State(now, []), events).jobs[j];
      && Tokens(job) <= 1
      && (forall i :: 0 <= i < |job.starts| ==> i < |job.rings| && job.rings[i] < job.starts[i] + FUDGE_FACTOR)
      && (job.fixed ==> Increasing(job.rings) && AllOnGrid(job.initialTime, job.delay, job.rings))
      && (!job.fixed ==> job.running <= 1 && Spaced(job.starts, job.ends, job.delay))
      && (var mid := Run(State(now, []), events[..n]);
          j < |mid.jobs| && mid.jobs[j].cancelled ==> job.starts == mid.jobs[j].starts)
  {
    RunOk(State(now, []), events);
    assert JobOk(Run(State(now, []), events).jobs[j], Run(State(now, []), events).now);
    RunSplit(State(now, []), events, n);
    var mid := Run(State(now, []), events[..n]);
    if j < |mid.jobs| && mid.jobs[j].cancelled { CancelledStaysStopped(mid, events[n..], j); }
    hide Next, FixedRateOk, FixedDelayOk;
  }

  lemma {:induction false} RunSplit(s: State, events: seq<Event>, n: nat)
    requires n <= |events|
    ensures Run(s, events) == Run(Run(s, events[..n]), events[n..])
    decreases n
  {
    hide Next;
    if n == 0 {
      assert events[..0] == [] && events[0..] == events;
    } else {
      RunSplit(Next(s, events[0]), events[1..], n - 1);
      assert events[..n][1..] == events[1..][..n - 1] && events[1..][n - 1..] == events[n..];
    }
  }

  // ---- Cancelled jobs stop, and no other job does

  lemma {:induction false} NextKeepsJob(s: State, e: Event, j: nat)
    requires j < |s.jobs|
    ensures j < |Next(s, e).jobs|
    ensures s.jobs[j].cancelled ==> Next(s, e).jobs[j].cancelled && Next(s, e).jobs[j].starts == s.jobs[j].starts
  {
  }

  /** Once a job is cancelled it never starts again, in any run. */
  lemma {:induction false} CancelledStops(s: State, events: seq<Event>, j: nat)
    requires j < |s.jobs|
    ensures var s' := Run(Next(s, Cancel(j)), events); j < |s'.jobs| && s'.jobs[j].starts == s.jobs[j].starts
  {
    CancelledStaysStopped(Next(s, Cancel(j)), events, j);
  }

  lemma {:induction false} CancelledStaysStopped(s: State, events: seq<Event>, j: nat)
    requires j < |s.jobs| && s.jobs[j].cancelled
    ensures var s' := Run(s, events); j < |s'.jobs| && s'.jobs[j].starts == s.jobs[j].starts
    decreases |events|
  {
    if events != [] {
      NextKeepsJob(s, events[0], j);
      CancelledStaysStopped(Next(s, events[0]), events[1..], j);
    }
  }

  /** A fixed-delay job whose run is abandoned never starts again, in any run, cancelled or not. */
  lemma {:induction false} AbandonedStops(s: State, j: nat, events: seq<Event>)
    requires Ok(s) && j < |s.jobs| && !s.jobs[j].fixed && s.jobs[j].running > 0
    ensures var s' := Run(Next(s, RunAbandoned(j)), events); j < |s'.jobs| && s'.jobs[j].starts == s.jobs[j].starts
  {
    assert JobOk(s.jobs[j], s.now);
    NoTokenStops(Next(s, RunAbandoned(j)), events, j);
  }

  lemma {:induction false} NoTokenStops(s: State, events: seq<Event>, j: nat)
    requires j < |s.jobs| && !s.jobs[j].fixed && Tokens(s.jobs[j]) == 0
    ensures var s' := Run(s, events); j < |s'.jobs| && s'.jobs[j].starts == s.jobs[j].starts
    decreases |events|
  {
    if events != [] { NoTokenStops(Next(s, events[0]), events[1..], j); }
  }

  /** Nobody cancels job `j`, and none of its runs is abandoned. */
  ghost predicate LeavesAlone(events: seq<Event>, j: nat) {
    forall i :: 0 <= i < |events| ==> events[i] != Cancel(j) && events[i] != RunAbandoned(j)
  }

  /** A job that comes back: exactly one token, every start ended or in flight, and its first ring at its first time. */
  ghost predicate ComesBack(job: Job) {
    && !job.cancelled && Tokens(job) == 1 && job.running + |job.ends| == |job.starts| == |job.rings|
    && (if job.rings == [] then NextNodeIs(job, job.initialTime) else job.rings[0] == job.initialTime)
  }

  ghost predicate NextNodeIs(job: Job, ring: int) {
    job.heap + job.pending == [ring]
  }

  lemma {:induction false} MovedComesBack(job: Job, now: int)
    requires JobOk(job, now) && ComesBack(job)
    ensures job.pending != [] ==> ComesBack(job.(pending := job.pending[1..], heap := job.heap + [job.pending[0]]))
    ensures job.heap != [] ==> ComesBack(RunJob(job, now))
    ensures job.running > 0 ==> ComesBack(EndRun(job, now))
  {
    assert job.heap != [] ==> (job.heap + job.pending)[0] == job.heap[0];
  }

  lemma {:induction false} NextComesBack(s: State, e: Event, j: nat)
    requires Ok(s) && j < |s.jobs| && ComesBack(s.jobs[j]) && e != Cancel(j) && e != RunAbandoned(j)
    ensures j < |Next(s, e).jobs| && ComesBack(Next(s, e).jobs[j])
  {
    MovedComesBack(s.jobs[j], s.now);
    hide ComesBack, JobOk;
  }

  /** In every run, a job that nobody cancels and whose runs are not abandoned always comes back. */
  lemma {:induction false} AlwaysComesBack(s: State, events: seq<Event>, j: nat)
    requires Ok(s) && j < |s.jobs| && ComesBack(s.jobs[j]) && LeavesAlone(events, j)
    ensures var s' := Run(s, events); j < |s'.jobs| && ComesBack(s'.jobs[j])
    decreases |events|
  {
    if events != [] {
      NextOk(s, events[0]);
      NextComesBack(s, events[0], j);
      AlwaysComesBack(Next(s, events[0]), events[1..], j);
    }
  }

  /** And so from the moment it is added, with its first ring `initialDelay` later; a fixed rate needs a positive
      period, and a fixed delay one that is not negative. */
  lemma {:induction false} AddedComesBack(s: State, initialDelay: int, period: int, fixed: bool, events: seq<Event>)
    requires Ok(s) && LeavesAlone(events, |s.jobs|)
    ensures var s1 := Next(s, AddJob(initialDelay, period, fixed)); var s' := Run(s1, events); var j := |s.jobs|;
      if period < (if fixed then 1 else 0) then s1 == s
      else
        && j < |s'.jobs| && ComesBack(s'.jobs[j]) && s'.jobs[j].initialTime == s.now + initialDelay
        && s'.jobs[j].delay == period && s'.jobs[j].fixed == fixed
  {
    var e := AddJob(initialDelay, period, fixed);
    if period >= if fixed then 1 else 0 {
      NextOk(s, e);
      AlwaysComesBack(Next(s, e), events, |s.jobs|);
      StaysTheSame(Next(s, e), events, |s.jobs|);
    }
  }

  lemma {:induction false} StaysTheSame(s: State, events: seq<Event>, j: nat)
    requires j < |s.jobs|
    ensures var s' := Run(s, events);
      && j < |s'.jobs| && s'.jobs[j].initialTime == s.jobs[j].initialTime
      && s'.jobs[j].delay == s.jobs[j].delay && s'.jobs[j].fixed == s.jobs[j].fixed
    decreases |events|
  {
    if events != [] { StaysTheSame(Next(s, events[0]), events[1..], j); }
  }

  /** A turn on a job that is due and not cancelled starts a run for the ring that was due, and leaves a fixed-rate job
      with the point of its grid in (now, now + period], now including the fudge factor. */
  lemma {:induction false} TurnStartsRun(s: State, j: nat)
    requires Ok(s) && j < |s.jobs| && Rings(s, j) && !s.jobs[j].cancelled
    ensures var job, job', now := s.jobs[j], Next(s, RunOne(j)).jobs[j], s.now + FUDGE_FACTOR;
      && job'.starts == job.starts + [s.now] && job'.rings == job.rings + [job.heap[0]]
      && job'.running == job.running + 1
      && (job.fixed ==> |job'.heap| == 1 && now < job'.heap[0] <= now + job.delay)
      && (job.fixed ==> OnGrid(job.initialTime, job.delay, job'.heap[0]))
      && (!job.fixed ==> job'.heap == [] && job'.pending == [])
  {
    var job := s.jobs[j];
    assert JobOk(job, s.now);
    if job.fixed { NextRingOnGrid(job.initialTime, job.delay, s.now + FUDGE_FACTOR); }
  }

  /** A turn takes a node that is due and that none held precedes; and while any node is due, some job has a turn. */
  lemma {:induction false} TurnsTakeEarliest(s: State, j: nat)
    requires Ok(s) && j < |s.jobs|
    ensures Next(s, RunOne(j)) != s ==> s.jobs[j].heap != [] && s.jobs[j].heap[0] < s.now + FUDGE_FACTOR
    ensures Next(s, RunOne(j)) != s ==>
      forall k, i :: 0 <= k < |s.jobs| && 0 <= i < |s.jobs[k].heap| ==> s.jobs[j].heap[0] <= s.jobs[k].heap[i]
    ensures s.jobs[j].heap != [] && s.jobs[j].heap[0] < s.now + FUDGE_FACTOR ==>
      exists k :: 0 <= k < |s.jobs| && Rings(s, k)
  {
    if s.jobs[j].heap != [] && s.jobs[j].heap[0] < s.now + FUDGE_FACTOR {
      var k := Earliest(s, |s.jobs|, j);
      forall x, i | 0 <= x < |s.jobs| && 0 <= i < |s.jobs[x].heap| ensures s.jobs[k].heap[0] <= s.jobs[x].heap[i] {
        assert JobOk(s.jobs[x], s.now);
      }
      assert Rings(s, k);
    }
  }

  /** Among the first `n` jobs and job `j`, one whose node is as early as any. */
  lemma {:induction false} Earliest(s: State, n: nat, j: nat) returns (k: nat)
    requires n <= |s.jobs| && j < |s.jobs| && s.jobs[j].heap != []
    ensures k < |s.jobs| && s.jobs[k].heap != [] && s.jobs[k].heap[0] <= s.jobs[j].heap[0]
    ensures forall x :: 0 <= x < n && s.jobs[x].heap != [] ==> s.jobs[k].heap[0] <= s.jobs[x].heap[0]
  {
    k := j;
    if n > 0 {
      k := Earliest(s, n - 1, j);
      if s.jobs[n - 1].heap != [] && s.jobs[n - 1].heap[0] < s.jobs[k].heap[0] { k := n - 1; }
    }
  }

  /** The end of a run of a fixed-delay job brings the job back: once its delay has passed, and no node is earlier, the
      next two steps start its next run. */
  lemma {:induction false} EndedRunRunsAgain(s: State, j: nat, dt: nat)
    requires Ok(s) && j < |s.jobs| && ComesBack(s.jobs[j]) && s.jobs[j].running > 0 && !s.jobs[j].fixed
    requires dt + FUDGE_FACTOR > s.jobs[j].delay
    requires forall k, i :: 0 <= k < |s.jobs| && 0 <= i < |s.jobs[k].heap| ==>
      s.now + s.jobs[j].delay <= s.jobs[k].heap[i]
    ensures var ended := Next(s, RunEnds(j)); var s' := Run(ended, [ScheduleNext(j), Tick(dt), RunOne(j)]);
      && ended.jobs[j].running == s.jobs[j].running - 1 && ended.jobs[j].ends == s.jobs[j].ends + [s.now]
      && j < |s'.jobs| && s'.jobs[j].starts == s.jobs[j].starts + [s.now + dt]
      && s'.jobs[j].rings == s.jobs[j].rings + [s.now + s.jobs[j].delay]
  {
    var e0, e1, e2, e3 := RunEnds(j), ScheduleNext(j), Tick(dt), RunOne(j);
    assert JobOk(s.jobs[j], s.now);
    var s1 := Next(s, e0);
    var s2 := Next(s1, e1);
    var s3 := Next(s2, e2);
    assert s1.jobs[j].pending == [s.now + s.jobs[j].delay] && s1.jobs[j].heap == [];
    assert s2.jobs[j].heap == [s.now + s.jobs[j].delay];
    assert forall k :: 0 <= k < |s.jobs| && k != j ==> s3.jobs[k] == s.jobs[k];
    assert Rings(s3, j);
    RunThree(s1, e1, e2, e3);
  }

  lemma {:induction false} RunThree(s: State, a: Event, b: Event, c: Event)
    ensures Run(s, [a, b, c]) == Next(Next(Next(s, a), b), c)
  {
    hide Next;
    assert [a, b, c][1..] == [b, c] && [b, c][1..] == [c] && [c][1..] == [];
    assert Run(Next(s, a), [b, c]) == Run(Next(Next(s, a), b), [c]);
  }

  /** And the first run of a job follows its addition in the same way, whatever its kind. */
  lemma {:induction false} AddedJobRuns(s: State, initialDelay: int, period: int, fixed: bool, dt: nat)
    requires Ok(s) && period >= (if fixed then 1 else 0) && dt + FUDGE_FACTOR > initialDelay
    requires forall k, i :: 0 <= k < |s.jobs| && 0 <= i < |s.jobs[k].heap| ==> s.now + initialDelay <= s.jobs[k].heap[i]
    ensures var j := |s.jobs|;
      var s' := Run(Next(s, AddJob(initialDelay, period, fixed)), [ScheduleNext(j), Tick(dt), RunOne(j)]);
      j < |s'.jobs| && s'.jobs[j].starts == [s.now + dt] && s'.jobs[j].rings == [s.now + initialDelay]
  {
    var j, e0 := |s.jobs|, AddJob(initialDelay, period, fixed);
    var e1, e2, e3 := ScheduleNext(j), Tick(dt), RunOne(j);
    var s1 := Next(s, e0);
    var s2 := Next(s1, e1);
    var s3 := Next(s2, e2);
    assert s2.jobs[j].heap == [s.now + initialDelay];
    assert forall k :: 0 <= k < j ==> s3.jobs[k] == s.jobs[k];
    assert Rings(s3, j);
    RunThree(s1, e1, e2, e3);
  }
}
