/** The timer heap of timers/timers.go as a step system: jobs are added without the lock, arm steps
    (scheduleNextTimer) and run passes (doAllCurrentJobs) take turns under it, and the one timer
    rings at its time. A pass is split wherever an unlocked AddJobByTime can come in between. */
module TimerHeap {
  import opened Basics
  import Heap

  datatype Job = Job(time: int, cancelled: bool)

  /** tInfo: the job the timer was set for, when it rings, and whether it is still going to. */
  datatype Timer = NoTimer | Timer(job: nat, ring: int, live: bool)

  /** Where the pass that holds the lock is. */
  datatype Pass =
    | Idle
    | Looking
    | Peeked(job: nat)
    | Dropping(job: nat)
    | Due(job: nat)
    | Invoking(job: nat)
    | Invoked(job: nat)
    | Finishing

  datatype State = State(
    now: int,
    closed: bool,
    jobs: map<nat, Job>,
    heap: set<nat>,
    /** What Peek shows. */
    head: Option<nat>,
    timer: Timer,
    pendingArms: nat,
    pendingPasses: nat,
    pass: Pass,
    nextId: nat,
    /** The runs so far with their times, the jobs some pass has found cancelled, and the jobs Get has removed. */
    ran: seq<(nat, int)>,
    seenCancelled: set<nat>,
    removed: set<nat>)

  function New(now: int): State {
    State(now, false, map[], {}, None, NoTimer, 0, 0, Idle, 1, [], {}, {})
  }

  /** `newHead` is what the heap shows once its head is gone. */
  datatype Event =
    | Tick(dt: nat)
    | AddJob(time: int)
    | CancelJob(id: nat)
    | CancelHeap
    | Arm
    | Rings
    | PassStarts
    | PassPeeks
    | PassDecides
    | PassGets(newHead: Option<nat>)
    | PassInvokes
    | PassCancels
    | PassFinishes

  /** A heap shows a job that none of the others precedes. */
  ghost predicate Shows(jobs: map<nat, Job>, heap: set<nat>, head: Option<nat>) {
    && heap <= jobs.Keys
    && (head.None? ==> heap == {})
    && (head.Some? ==> head.value in heap && forall j :: j in heap ==> jobs[head.value].time <= jobs[j].time)
  }

  function TimeOf(jobs: map<nat, Job>, id: nat): int {
    if id in jobs then jobs[id].time else 0
  }

  /** jobComparator: earlier jobs come first. */
  function JobComparator(jobs: map<nat, Job>): Heap.Comparator<nat> {
    (a: nat, b: nat) =>
      if TimeOf(jobs, a) > TimeOf(jobs, b) then -1 else if TimeOf(jobs, a) < TimeOf(jobs, b) then 1 else 0
  }

  lemma {:induction false} JobsArePreordered(jobs: map<nat, Job>)
    ensures Heap.IsTotalPreorder(JobComparator(jobs))
  {
    var cmp := JobComparator(jobs);
    forall a, b ensures Heap.Consistent(cmp, a, b) {}
    forall a, b, c ensures Heap.Transitive(cmp, a, b, c) {}
  }

  function HeadOf(q: seq<nat>): Option<nat> {
    if q == [] then None else Some(q[0])
  }

  /** The queue of queues/heap.go under that comparator shows what this model says a heap shows. */
  lemma {:induction false} OrderedQueueShows(jobs: map<nat, Job>, q: seq<nat>)
    requires (forall j :: j in q ==> j in jobs) && Heap.Ordered(JobComparator(jobs), q)
    ensures Shows(jobs, (set j | j in q), HeadOf(q))
  {
    JobsArePreordered(jobs);
    forall i | 0 <= i < |q| ensures jobs[q[0]].time <= jobs[q[i]].time { Heap.RootPrecedes(JobComparator(jobs), q, i); }
  }

  /** What the heap shows once a job for `time` is added: that job if it is earlier than the head. */
  function AddedHead(jobs: map<nat, Job>, head: Option<nat>, id: nat, time: int): Option<nat> {
    if head.None? || time < TimeOf(jobs, head.value) then Some(id) else head
  }

  /** And so does Add on that queue. */
  lemma {:induction false} AddedQueueShows(jobs: map<nat, Job>, q: seq<nat>, id: nat, job: Job, q': seq<nat>)
    requires id !in q && Heap.Ordered(JobComparator(jobs), q)
    requires Heap.AddStep(JobComparator(jobs[id := job]), q, id, q')
    ensures HeadOf(q') == AddedHead(jobs, HeadOf(q), id, job.time)
  {
    var cmp' := JobComparator(jobs[id := job]);
    JobsArePreordered(jobs[id := job]);
    forall j | 0 < j < |q| ensures Heap.LinkOk(cmp', q, j) {
      assert Heap.LinkOk(JobComparator(jobs), q, j);
      assert q[j] in q && q[Heap.Parent(j)] in q;
    }
  }

  /** newTimerData: a job that is due needs a pass, not a timer. */
  function SetTimer(s: State, id: nat): State
    requires id in s.jobs
  {
    if s.jobs[id].time - s.now <= 0 then s.(timer := NoTimer, pendingPasses := s.pendingPasses + 1)
    else s.(timer := Timer(id, s.jobs[id].time, true))
  }

  function ScheduleNextTimer(s: State): State {
    if s.head.None? || s.head.value !in s.jobs then s
    else if s.timer.Timer? && s.timer.job == s.head.value then s
    else SetTimer(s, s.head.value)
  }

  function Cancelled(s: State, id: nat): State {
    if id in s.jobs then s.(jobs := s.jobs[id := s.jobs[id].(cancelled := true)]) else s
  }

  /** Get: whatever the heap shows at that moment is removed. */
  function Got(s: State, newHead: Option<nat>): State {
    if s.head.None? then s
    else s.(heap := s.heap - {s.head.value}, head := newHead, removed := s.removed + {s.head.value})
  }

  ghost predicate Enabled(s: State, e: Event) {
    match e
    case Tick(_) => true
    case AddJob(_) => true
    case CancelJob(_) => true
    case CancelHeap => s.pass.Idle? || s.pass.Invoked?
    case Arm => s.pendingArms > 0 && s.pass.Idle?
    case Rings => s.timer.Timer? && s.timer.live && s.now >= s.timer.ring
    case PassStarts => s.pendingPasses > 0 && s.pass.Idle?
    case PassPeeks => s.pass.Looking?
    case PassDecides => s.pass.Peeked? && s.pass.job in s.jobs
    case PassGets(newHead) =>
      && (s.pass.Dropping? || s.pass.Due?)
      && (s.head.Some? ==> Shows(s.jobs, s.heap - {s.head.value}, newHead))
    case PassInvokes => s.pass.Invoking?
    case PassCancels => s.pass.Invoked?
    case PassFinishes => s.pass.Finishing?
  }

  ghost function Next(s: State, e: Event): State {
    if !Enabled(s, e) then s else
    match e
    case Tick(dt) => s.(now := s.now + dt)
    case AddJob(time) =>
      s.(jobs := s.jobs[s.nextId := Job(time, false)], heap := s.heap + {s.nextId},
         head := AddedHead(s.jobs, s.head, s.nextId, time), nextId := s.nextId + 1, pendingArms := s.pendingArms + 1)
    case CancelJob(id) => Cancelled(s, id)
    case CancelHeap => s.(closed := true, timer := NoTimer)
    case Arm => ScheduleNextTimer(s.(pendingArms := s.pendingArms - 1))
    case Rings => s.(timer := s.timer.(live := false), pendingPasses := s.pendingPasses + 1)
    case PassStarts => s.(pendingPasses := s.pendingPasses - 1, pass := if s.closed then Idle else Looking)
    case PassPeeks => s.(pass := if s.head.None? then Finishing else Peeked(s.head.value))
    case PassDecides =>
      var j := s.pass.job;
      if s.jobs[j].cancelled then s.(pass := Dropping(j), seenCancelled := s.seenCancelled + {j})
      else if s.now < s.jobs[j].time then s.(pass := Finishing)
      else s.(pass := Due(j))
    case PassGets(newHead) =>
      Got(s, newHead).(pass := if s.pass.Dropping? then Looking else Invoking(s.pass.job))
    case PassInvokes => s.(ran := s.ran + [(s.pass.job, s.now)], pass := Invoked(s.pass.job))
    case PassCancels => Cancelled(s, s.pass.job).(pass := Looking)
    case PassFinishes => ScheduleNextTimer(s).(pass := Idle)
  }

  ghost function Run(s: State, events: seq<Event>): State
    decreases |events|
  {
    if events == [] then s else Run(Next(s, events[0]), events[1..])
  }

  // ---- The alarm

  /** The timer was set for a job at its time, and the pass deals with a job that exists. */
  ghost predicate Consistent(s: State) {
    && (forall j :: j in s.jobs ==> j < s.nextId)
    && (s.timer.Timer? ==> s.timer.job in s.jobs && s.jobs[s.timer.job].time == s.timer.ring)
    && (s.timer.Timer? && !s.timer.live ==> s.timer.ring <= s.now)
    && (forall j :: j in s.removed ==> j in s.jobs && j !in s.heap)
    && (HasJob(s.pass) ==> s.pass.job in s.jobs)
  }

  predicate HasJob(pass: Pass) {
    pass.Peeked? || pass.Dropping? || pass.Due? || pass.Invoking? || pass.Invoked?
  }

  ghost predicate WellFormed(s: State) {
    Shows(s.jobs, s.heap, s.head) && Consistent(s)
  }

  /** A timer that has rung for a job still in the heap has a pass coming that will not stop short of that job. */
  ghost predicate RungIsServed(s: State) {
    !s.closed && s.timer.Timer? && !s.timer.live && s.timer.job in s.heap ==>
      || s.pendingPasses > 0
      || s.pass.Looking? || s.pass.Dropping? || s.pass.Due? || s.pass.Invoking? || s.pass.Invoked?
      || (s.pass.Peeked? && s.pass.job in s.jobs && s.jobs[s.pass.job].time <= s.timer.ring)
  }

  /** While the heap is open and holds a job, something is on its way to it. */
  ghost predicate HasAlarm(s: State) {
    !s.closed && s.heap != {} ==>
      || s.pendingArms > 0 || s.pendingPasses > 0 || !s.pass.Idle?
      || (s.timer.Timer? && s.timer.live && s.head == Some(s.timer.job))
  }

  ghost predicate Alarmed(s: State) {
    WellFormed(s) && RungIsServed(s) && HasAlarm(s)
  }

  lemma {:induction false} CancelledShows(s: State, id: nat)
    requires Shows(s.jobs, s.heap, s.head)
    ensures Shows(Cancelled(s, id).jobs, s.heap, s.head)
  {
  }

  lemma {:induction false} AddedShows(s: State, time: int)
    requires WellFormed(s)
    ensures Shows(s.jobs[s.nextId := Job(time, false)], s.heap + {s.nextId}, AddedHead(s.jobs, s.head, s.nextId, time))
  {
  }

  lemma {:induction false} NextShows(s: State, e: Event)
    requires WellFormed(s)
    ensures Shows(Next(s, e).jobs, Next(s, e).heap, Next(s, e).head)
  {
    match e
    case AddJob(time) => AddedShows(s, time);
    case CancelJob(id) => CancelledShows(s, id);
    case PassCancels => if s.pass.Invoked? { CancelledShows(s, s.pass.job); }
    case _ =>
    hide Shows;
  }

  lemma {:induction false} NextConsistent(s: State, e: Event)
    requires WellFormed(s)
    ensures Consistent(Next(s, e))
  {
    assert s.head.Some? ==> s.head.value in s.heap && s.head.value in s.jobs;
    assert s.heap <= s.jobs.Keys;
    hide Shows;
  }

  lemma {:induction false} NextWellFormed(s: State, e: Event)
    requires WellFormed(s)
    ensures WellFormed(Next(s, e))
  {
    NextShows(s, e);
    NextConsistent(s, e);
  }

  lemma {:induction false} NextAlarmed(s: State, e: Event)
    requires Alarmed(s)
    ensures Alarmed(Next(s, e))
  {
    NextWellFormed(s, e);
  }

  /** In every run an open, nonempty heap has an arm step or a pass pending, or a live timer for its head. */
  lemma {:induction false} RunAlarmed(s: State, events: seq<Event>)
    requires Alarmed(s)
    ensures Alarmed(Run(s, events))
    decreases |events|
  {
    if events != [] {
      NextAlarmed(s, events[0]);
      RunAlarmed(Next(s, events[0]), events[1..]);
    }
  }

  // ---- Each job at most once, at its time or later, and not after it was found cancelled

  predicate HasRun(s: State, j: nat) {
    exists i :: 0 <= i < |s.ran| && s.ran[i].0 == j
  }

  /** No job twice, none before its time, and what has run counts as cancelled once its pass goes on. */
  ghost predicate RanProperly(s: State) {
    && (forall i, k :: 0 <= i < k < |s.ran| ==> s.ran[i].0 != s.ran[k].0)
    && (forall i :: 0 <= i < |s.ran| ==> s.ran[i].0 in s.jobs && s.jobs[s.ran[i].0].time <= s.ran[i].1)
    && (forall i :: 0 <= i < |s.ran| ==> s.jobs[s.ran[i].0].cancelled || s.pass == Invoked(s.ran[i].0))
  }

  /** A job that a pass is about to run is due, has not run, and has never been found cancelled. */
  ghost predicate AboutToRun(s: State) {
    && (forall j :: j in s.seenCancelled ==> j in s.jobs && s.jobs[j].cancelled)
    && (s.pass.Due? || s.pass.Invoking? ==>
          && !HasRun(s, s.pass.job) && s.pass.job !in s.seenCancelled
          && s.pass.job in s.jobs && s.jobs[s.pass.job].time <= s.now)
  }

  ghost predicate RunsProperly(s: State) {
    RanProperly(s) && AboutToRun(s)
  }

  /** Jobs keep their times and stay cancelled. */
  ghost predicate JobsGoOn(s: State, s': State) {
    forall j :: j in s.jobs ==>
      j in s'.jobs && s'.jobs[j].time == s.jobs[j].time && (s.jobs[j].cancelled ==> s'.jobs[j].cancelled)
  }

  lemma {:induction false} RanStaysProper(s: State, s': State)
    requires RanProperly(s) && s'.ran == s.ran && JobsGoOn(s, s')
    requires s.pass.Invoked? ==> s.pass.job in s.jobs && (s'.pass == s.pass || s'.jobs[s.pass.job].cancelled)
    ensures RanProperly(s')
  {
  }

  lemma {:induction false} InvokesProperly(s: State)
    requires RunsProperly(s) && s.pass.Invoking?
    ensures RanProperly(Next(s, PassInvokes))
  {
    var ran' := Next(s, PassInvokes).ran;
    forall i | 0 <= i < |s.ran| ensures ran'[i].0 != s.pass.job { assert s.ran[i].0 == ran'[i].0; }
  }

  lemma {:induction false} NextRanProperly(s: State, e: Event)
    requires WellFormed(s) && RunsProperly(s)
    ensures RanProperly(Next(s, e))
  {
    if e.PassInvokes? {
      if s.pass.Invoking? { InvokesProperly(s); }
    } else {
      hide Shows, RanProperly, AboutToRun;
      RanStaysProper(s, Next(s, e));
    }
  }

  lemma {:induction false} NextAboutToRun(s: State, e: Event)
    requires WellFormed(s) && RunsProperly(s)
    ensures AboutToRun(Next(s, e))
  {
    hide Shows;
  }

  lemma {:induction false} NextRunsProperly(s: State, e: Event)
    requires WellFormed(s) && RunsProperly(s)
    ensures RunsProperly(Next(s, e))
  {
    NextRanProperly(s, e);
    NextAboutToRun(s, e);
  }

  /** In every run no job runs twice or before its time, and a job that a pass has found cancelled is never
      run again. */
  lemma {:induction false} RunRunsProperly(s: State, events: seq<Event>)
    requires WellFormed(s) && RunsProperly(s)
    ensures var s' := Run(s, events);
      && RunsProperly(s') && s.ran <= s'.ran
      && (forall i :: |s.ran| <= i < |s'.ran| ==> s'.ran[i].0 !in s.seenCancelled)
    decreases |events|
  {
    if events != [] {
      NextWellFormed(s, events[0]);
      NextRunsProperly(s, events[0]);
      NextExtends(s, events[0]);
      RunRunsProperly(Next(s, events[0]), events[1..]);
    }
  }

  lemma {:induction false} NextExtends(s: State, e: Event)
    requires WellFormed(s) && RunsProperly(s)
    ensures var s' := Next(s, e);
      && s.ran <= s'.ran && s.seenCancelled <= s'.seenCancelled
      && (forall i :: |s.ran| <= i < |s'.ran| ==> s'.ran[i].0 !in s.seenCancelled)
  {
    hide Shows;
  }

  // ---- Cancelled jobs and closed heaps

  /** No pass is past its decision to run the job and still has to run it. */
  predicate Undecided(s: State, id: nat) {
    s.pass != Due(id) && s.pass != Invoking(id)
  }

  /** The job is cancelled, and no pass has decided to run it. */
  ghost predicate CalledOff(s: State, id: nat) {
    id in s.jobs && s.jobs[id].cancelled && Undecided(s, id)
  }

  ghost predicate RanSince(s: State, s': State, id: nat) {
    exists i :: |s.ran| <= i < |s'.ran| && s'.ran[i].0 == id
  }

  lemma {:induction false} NextCalledOff(s: State, e: Event, id: nat)
    requires WellFormed(s) && CalledOff(s, id)
    ensures CalledOff(Next(s, e), id) && s.ran <= Next(s, e).ran && !RanSince(s, Next(s, e), id)
  {
    hide Shows;
  }

  lemma {:induction false} CalledOffStays(s: State, events: seq<Event>, id: nat)
    requires WellFormed(s) && CalledOff(s, id)
    ensures s.ran <= Run(s, events).ran && !RanSince(s, Run(s, events), id)
    decreases |events|
  {
    if events != [] {
      NextWellFormed(s, events[0]);
      NextCalledOff(s, events[0], id);
      CalledOffStays(Next(s, events[0]), events[1..], id);
    }
  }

  /** A job on which Cancel is called while no pass is past its decision to run it never runs again, in any run. */
  lemma {:induction false} CancelledNeverRuns(s: State, id: nat, events: seq<Event>)
    requires WellFormed(s) && id in s.jobs && Undecided(s, id)
    ensures !RanSince(s, Run(Next(s, CancelJob(id)), events), id)
  {
    NextWellFormed(s, CancelJob(id));
    CalledOffStays(Next(s, CancelJob(id)), events, id);
  }

  /** Once a heap is closed while no pass is under way, no job ever runs. */
  lemma {:induction false} ClosedNeverRuns(s: State, events: seq<Event>)
    requires s.pass.Idle?
    ensures Next(s, CancelHeap).timer == NoTimer && Run(Next(s, CancelHeap), events).ran == s.ran
  {
    ClosedStaysClosed(Next(s, CancelHeap), events);
  }

  lemma {:induction false} ClosedStaysClosed(s: State, events: seq<Event>)
    requires s.closed && s.pass.Idle?
    ensures Run(s, events).ran == s.ran
    decreases |events|
  {
    hide Shows;
    if events != [] { ClosedStaysClosed(Next(s, events[0]), events[1..]); }
  }

  ghost predicate WasCancelled(events: seq<Event>, id: nat) {
    exists i :: 0 <= i < |events| && events[i] == CancelJob(id)
  }

  /** Nothing else cancels a job but its own run: what counts as cancelled was cancelled in the run, or has run. */
  lemma {:induction false} OnlyCancelledByRequest(s: State, events: seq<Event>, id: nat)
    requires WellFormed(s) && RunsProperly(s) && CancelledOrRan(s, id)
    ensures WasCancelled(events, id) || CancelledOrRan(Run(s, events), id)
    decreases |events|
  {
    if events != [] && !WasCancelled(events, id) {
      assert events[0] != CancelJob(id);
      NextWellFormed(s, events[0]);
      NextRunsProperly(s, events[0]);
      NextCancelledOrRan(s, events[0], id);
      OnlyCancelledByRequest(Next(s, events[0]), events[1..], id);
    }
  }

  /** A job counts as cancelled only once it has run, and the pass that is done with it has run it. */
  ghost predicate CancelledOrRan(s: State, id: nat) {
    && (id in s.jobs && s.jobs[id].cancelled ==> HasRun(s, id))
    && (id in s.seenCancelled ==> HasRun(s, id))
    && (s.pass == Invoked(id) ==> HasRun(s, id))
  }

  lemma {:induction false} NextCancelledOrRan(s: State, e: Event, id: nat)
    requires WellFormed(s) && CancelledOrRan(s, id) && e != CancelJob(id)
    ensures CancelledOrRan(Next(s, e), id)
  {
    RunsAccumulate(s, e, id);
    hide Shows, HasRun, Consistent;
  }

  lemma {:induction false} RunsAccumulate(s: State, e: Event, id: nat)
    ensures HasRun(s, id) ==> HasRun(Next(s, e), id)
    ensures e.PassInvokes? && s.pass == Invoking(id) ==> HasRun(Next(s, e), id)
  {
    hide Shows;
    var s' := Next(s, e);
    if HasRun(s, id) {
      var i :| 0 <= i < |s.ran| && s.ran[i].0 == id;
      assert s'.ran[i].0 == id;
    } else if e.PassInvokes? && s.pass == Invoking(id) {
      assert s'.ran[|s.ran|].0 == id;
    }
  }

  /** A cancelled job that a pass peeks leaves the heap without running, due or not, if it is still the head. */
  lemma {:induction false} CancelledHeadIsDropped(s: State, newHead: Option<nat>)
    requires s.pass.Peeked? && s.head == Some(s.pass.job) && s.pass.job in s.jobs && s.jobs[s.pass.job].cancelled
    requires Shows(s.jobs, s.heap - {s.pass.job}, newHead)
    ensures var s' := Next(Next(s, PassDecides), PassGets(newHead));
      s'.heap == s.heap - {s.pass.job} && s'.head == newHead && s'.ran == s.ran && s'.pass == Looking
  {
  }

  /** One timer for a head: setting it again changes nothing, even once it has rung. */
  lemma {:induction false} HeadIsArmedOnce(s: State)
    requires s.pendingArms > 0 && s.pass.Idle? && s.timer.Timer? && s.head == Some(s.timer.job)
    ensures Next(s, Arm) == s.(pendingArms := s.pendingArms - 1)
  {
  }

  // ---- Lost jobs

  /** Every job that left the heap ran, is about to run, or was found cancelled. */
  ghost predicate NoneLost(s: State) {
    forall j :: j in s.removed ==> HasRun(s, j) || j in s.seenCancelled || s.pass == Invoking(j)
  }

  /** Get removes the job that was peeked. */
  ghost predicate GetsPeeked(s: State, e: Event) {
    e.PassGets? && Enabled(s, e) ==> s.head == Some(s.pass.job)
  }

  ghost predicate AllGetPeeked(s: State, events: seq<Event>)
    decreases |events|
  {
    events != [] ==> GetsPeeked(s, events[0]) && AllGetPeeked(Next(s, events[0]), events[1..])
  }

  /** As long as that is so: nothing in the heap has run, only the job being dropped has been found cancelled, and
      every job that left the heap ran, is about to run, or was found cancelled. */
  ghost predicate Untouched(s: State) {
    && (forall j :: j in s.heap ==> !HasRun(s, j) && (j in s.seenCancelled ==> s.pass == Dropping(j)))
    && (s.pass.Peeked? || s.pass.Dropping? || s.pass.Due? ==> s.pass.job in s.heap)
    && (s.pass.Invoking? || s.pass.Invoked? ==> s.pass.job !in s.heap)
    && (s.pass.Dropping? ==> s.pass.job in s.seenCancelled)
  }

  lemma {:induction false} NextUntouched(s: State, e: Event)
    requires WellFormed(s) && RunsProperly(s) && Untouched(s) && GetsPeeked(s, e)
    ensures Untouched(Next(s, e))
  {
    assert s.head.Some? ==> s.head.value in s.heap;
    hide Shows;
  }

  lemma {:induction false} NextNoneLost(s: State, e: Event)
    requires NoneLost(s) && Untouched(s) && GetsPeeked(s, e)
    ensures NoneLost(Next(s, e))
  {
    hide Shows;
    var s' := Next(s, e);
    forall j | j in s'.removed
      ensures HasRun(s', j) || j in s'.seenCancelled || s'.pass == Invoking(j)
    {
      if HasRun(s, j) {
        var i :| 0 <= i < |s.ran| && s.ran[i].0 == j;
        assert s'.ran[i].0 == j;
      } else if s.pass == Invoking(j) && e.PassInvokes? {
        assert s'.ran[|s.ran|].0 == j;
      }
    }
  }

  /** The job was removed without having run or been found cancelled, and no pass has it in hand. */
  ghost predicate Lost(s: State, j: nat) {
    && j in s.removed && !HasRun(s, j) && j !in s.seenCancelled && !(HasJob(s.pass) && s.pass.job == j)
  }

  lemma {:induction false} NextLost(s: State, e: Event, j: nat)
    requires WellFormed(s) && Lost(s, j)
    ensures Lost(Next(s, e), j)
  {
    assert s.head.Some? ==> s.head.value in s.heap;
    hide Shows;
  }

  lemma {:induction false} LostForGood(s: State, events: seq<Event>, j: nat)
    requires WellFormed(s) && Lost(s, j)
    ensures Lost(Run(s, events), j)
    decreases |events|
  {
    if events != [] {
      NextWellFormed(s, events[0]);
      NextLost(s, events[0], j);
      LostForGood(Next(s, events[0]), events[1..], j);
    }
  }

  /** A Get that takes another job than the one that was peeked loses it. */
  lemma {:induction false} OtherGetLoses(s: State, e: Event)
    requires WellFormed(s) && Untouched(s) && !GetsPeeked(s, e)
    ensures s.head.Some? && Lost(Next(s, e), s.head.value)
  {
    assert s.heap != {};
    assert s.head.Some? ==> s.head.value in s.heap;
    hide Shows;
  }

  lemma {:induction false} LosesNoneIff(s: State, events: seq<Event>)
    requires WellFormed(s) && RunsProperly(s) && Untouched(s) && NoneLost(s)
    ensures NoneLost(Run(s, events)) <==> AllGetPeeked(s, events)
    decreases |events|
  {
    if events != [] {
      var e, s' := events[0], Next(s, events[0]);
      NextWellFormed(s, e);
      if GetsPeeked(s, e) {
        NextRunsProperly(s, e);
        NextUntouched(s, e);
        NextNoneLost(s, e);
        LosesNoneIff(s', events[1..]);
      } else {
        OtherGetLoses(s, e);
        LostForGood(s', events[1..], s.head.value);
      }
    }
  }

  // ---- Which additions lose a job

  /** Between the Peek and the Get of a pass. */
  predicate MidPass(pass: Pass) {
    pass.Peeked? || pass.Dropping? || pass.Due?
  }

  /** An addition between Peek and Get that is earlier than whatever the heap shows. */
  predicate Displaces(s: State, e: Event) {
    e.AddJob? && MidPass(s.pass) && s.head.Some? && e.time < TimeOf(s.jobs, s.head.value)
  }

  /** No Get comes after such an addition in the same pass. `displaced` says that one has come since the Peek. */
  ghost predicate NoGetAfterDisplacing(s: State, events: seq<Event>, displaced: bool)
    decreases |events|
  {
    events != [] ==>
      var e := events[0];
      && (e.PassGets? && Enabled(s, e) ==> !displaced)
      && NoGetAfterDisplacing(Next(s, e), events[1..],
                              (displaced || Displaces(s, e)) && !(e.PassPeeks? && Enabled(s, e)))
  }

  ghost predicate Tracks(s: State, displaced: bool) {
    MidPass(s.pass) ==> (displaced <==> s.head != Some(s.pass.job))
  }

  lemma {:induction false} NextTracks(s: State, e: Event, displaced: bool)
    requires WellFormed(s) && Untouched(s) && Tracks(s, displaced)
    ensures Tracks(Next(s, e), (displaced || Displaces(s, e)) && !(e.PassPeeks? && Enabled(s, e)))
    ensures GetsPeeked(s, e) <==> (e.PassGets? && Enabled(s, e) ==> !displaced)
  {
    assert s.heap != {} ==> s.head.Some? && s.head.value in s.jobs;
    hide Shows;
  }

  lemma {:induction false} DisplacingIff(s: State, events: seq<Event>, displaced: bool)
    requires WellFormed(s) && RunsProperly(s) && Untouched(s) && Tracks(s, displaced)
    ensures AllGetPeeked(s, events) <==> NoGetAfterDisplacing(s, events, displaced)
    decreases |events|
  {
    if events != [] {
      var e := events[0];
      NextTracks(s, e, displaced);
      if GetsPeeked(s, e) {
        NextWellFormed(s, e);
        NextRunsProperly(s, e);
        NextUntouched(s, e);
        DisplacingIff(Next(s, e), events[1..], (displaced || Displaces(s, e)) && !(e.PassPeeks? && Enabled(s, e)));
      }
    }
  }

  lemma {:induction false} NewIsFine(now: int)
    ensures WellFormed(New(now)) && RunsProperly(New(now)) && Untouched(New(now)) && NoneLost(New(now)) &&
      Alarmed(New(now))
  {
  }

  /** In a run of a new heap every job that leaves it runs, is about to run or was found cancelled, if and only if
      every Get removes the job that was peeked; and that is so if and only if no Get comes after an addition,
      since the Peek of its pass, of a job earlier than the head. */
  lemma {:induction false} NoneLostIff(now: int, events: seq<Event>)
    ensures NoneLost(Run(New(now), events)) <==> AllGetPeeked(New(now), events)
    ensures NoneLost(Run(New(now), events)) <==> NoGetAfterDisplacing(New(now), events, false)
    ensures forall j :: j in Run(New(now), events).seenCancelled ==>
      WasCancelled(events, j) || HasRun(Run(New(now), events), j)
  {
    NewIsFine(now);
    forall j | j in Run(New(now), events).seenCancelled
      ensures WasCancelled(events, j) || HasRun(Run(New(now), events), j)
    {
      OnlyCancelledByRequest(New(now), events, j);
    }
    LosesNoneIff(New(now), events);
    DisplacingIff(New(now), events, false);
  }

  /** An earlier job that lands between the Peek and the Get of a pass is removed in place of the job that
      was peeked, uncancelled, and whatever happens afterwards it never runs. */
  lemma {:induction false} RaceLosesEarlierJob(s: State, time: int, newHead: Option<nat>, events: seq<Event>)
    requires WellFormed(s) && RunsProperly(s) && s.pass.Due? && s.head == Some(s.pass.job) && newHead == s.head
    requires time < s.jobs[s.pass.job].time
    ensures var id := s.nextId; var s' := Next(Next(s, AddJob(time)), PassGets(newHead));
      id in s'.removed && !s'.jobs[id].cancelled && !HasRun(Run(s', events), id)
  {
    var id, e, e' := s.nextId, AddJob(time), PassGets(newHead);
    var s1 := Next(s, e);
    var s' := Next(s1, e');
    NextWellFormed(s, e);
    assert s1.heap - {id} == s.heap && Shows(s1.jobs, s.heap, newHead);
    assert Enabled(s1, e');
    NextWellFormed(s1, e');
    hide Shows;
    assert Lost(s', id);
    LostForGood(s', events, id);
  }

  // ---- Left alone, the heap catches up

  /** What the heap does by itself while the clock stands still. */
  predicate Internal(e: Event) {
    !e.Tick? && !e.AddJob? && !e.CancelJob? && !e.CancelHeap?
  }

  /** The job between a Peek and its Get is still in the heap, whatever lands in between. */
  ghost predicate InHand(s: State) {
    MidPass(s.pass) ==> s.pass.job in s.heap
  }

  lemma {:induction false} NextInHand(s: State, e: Event)
    requires WellFormed(s) && InHand(s)
    ensures InHand(Next(s, e))
  {
    assert s.head.Some? ==> s.head.value in s.heap;
    hide Shows;
  }

  predicate HeadDue(s: State) {
    s.head.Some? && TimeOf(s.jobs, s.head.value) <= s.now
  }

  /** The steps a pass has left, and the pass that its end may start because the head was displaced. */
  function PassCost(s: State): nat {
    match s.pass
    case Idle => 0
    case Finishing => if HeadDue(s) then 6 else 1
    case Dropping(_) => 2
    case Due(_) => 2
    case Peeked(j) => if s.head == Some(j) then 3 else 8
    case Looking => 4
    case Invoked(_) => 5
    case Invoking(_) => 6
  }

  predicate TimerDue(s: State) {
    s.timer.Timer? && s.timer.live && s.timer.ring <= s.now
  }

  /** How many steps are left at most. */
  function Measure(s: State): nat {
    5 * |s.heap| + 6 * s.pendingArms + 5 * s.pendingPasses + (if TimerDue(s) then 6 else 0) + PassCost(s)
  }

  lemma {:induction false} GetShrinks(s: State)
    requires s.head.Some? && s.head.value in s.heap
    ensures |s.heap - {s.head.value}| == |s.heap| - 1
  {
  }

  lemma {:induction false} InternalDecreases(s: State, e: Event)
    requires WellFormed(s) && InHand(s) && Internal(e) && Enabled(s, e)
    ensures Measure(Next(s, e)) < Measure(s)
  {
    assert s.heap != {} ==> s.head.Some?;
    assert s.head.Some? ==> s.head.value in s.heap && s.head.value in s.jobs;
    hide Shows, Consistent;
    match e
    case Arm => SchedulingCosts(s.(pendingArms := s.pendingArms - 1));
    case PassFinishes => SchedulingCosts(s);
    case PassGets(_) => GetShrinks(s);
    case _ => PassDecreases(s, e);
  }

  /** Setting the timer starts a pass only for a head that is due. */
  lemma {:induction false} SchedulingCosts(s: State)
    ensures var s' := ScheduleNextTimer(s);
      && s'.pendingPasses <= s.pendingPasses + (if HeadDue(s) then 1 else 0) && (TimerDue(s') ==> TimerDue(s))
      && s' == s.(timer := s'.timer, pendingPasses := s'.pendingPasses)
  {
  }

  lemma {:induction false} PassDecreases(s: State, e: Event)
    requires Internal(e) && Enabled(s, e) && !e.Arm? && !e.PassFinishes? && !e.PassGets?
    ensures Measure(Next(s, e)) < Measure(s)
  {
    hide Shows;
  }

  /** Every event is an enabled internal step of its state. */
  ghost predicate Undisturbed(s: State, events: seq<Event>)
    decreases |events|
  {
    events != [] ==> Internal(events[0]) && Enabled(s, events[0]) && Undisturbed(Next(s, events[0]), events[1..])
  }

  ghost predicate AtRest(s: State) {
    forall e :: Internal(e) ==> !Enabled(s, e)
  }

  /** Some job of every heap is preceded by none. */
  lemma {:induction false} SomeHead(jobs: map<nat, Job>, heap: set<nat>) returns (head: Option<nat>)
    requires heap <= jobs.Keys
    ensures Shows(jobs, heap, head)
    decreases |heap|
  {
    if heap == {} { return None; }
    var j :| j in heap;
    var rest := SomeHead(jobs, heap - {j});
    head := if rest.None? || jobs[j].time <= jobs[rest.value].time then Some(j) else rest;
  }

  /** At rest no pass is under way. */
  lemma {:induction false} RestIsIdle(s: State)
    requires WellFormed(s) && InHand(s) && AtRest(s)
    ensures s.pass.Idle? && s.pendingArms == 0 && s.pendingPasses == 0 && !TimerDue(s)
  {
    assert Internal(Arm) && Internal(Rings) && Internal(PassStarts) && Internal(PassPeeks) && Internal(PassDecides);
    assert Internal(PassInvokes) && Internal(PassCancels) && Internal(PassFinishes);
    if s.pass.Dropping? || s.pass.Due? {
      var newHead := SomeHead(s.jobs, s.heap - {s.head.value});
      assert Internal(PassGets(newHead)) && Enabled(s, PassGets(newHead));
    }
  }

  /** While the clock stands still and nothing is added, a heap comes to rest after boundedly many steps, and then,
      while it is open, every job it still holds lies in the future. */
  lemma {:induction false} CatchesUp(s: State, events: seq<Event>)
    requires Alarmed(s) && InHand(s) && Undisturbed(s, events)
    ensures |events| <= Measure(s)
    ensures var s' := Run(s, events);
      AtRest(s') && !s'.closed ==> forall j :: j in s'.heap ==> j in s'.jobs && s'.now < s'.jobs[j].time
    decreases |events|
  {
    if events == [] {
      if AtRest(s) { RestIsIdle(s); }
    } else {
      InternalDecreases(s, events[0]);
      NextAlarmed(s, events[0]);
      NextInHand(s, events[0]);
      CatchesUp(Next(s, events[0]), events[1..]);
    }
  }

  lemma {:induction false} RunInHand(s: State, events: seq<Event>)
    requires WellFormed(s) && InHand(s)
    ensures InHand(Run(s, events))
    decreases |events|
  {
    if events != [] {
      NextWellFormed(s, events[0]);
      NextInHand(s, events[0]);
      RunInHand(Next(s, events[0]), events[1..]);
    }
  }

  /** A new timer heap, whatever is added, cancelled or raced: it always has its alarm, no job runs twice or early, and
      from any point of the run on no job runs that was cancelled there with no pass past its decision to run it, and
      none at all if the heap was closed there with no pass under way. */
  lemma {:induction false} NewHeapBehaves(now: int, events: seq<Event>, n: nat, id: nat)
    requires n <= |events|
    ensures var mid, s := Run(New(now), events[..n]), Run(New(now), events);
      && HasAlarm(s) && RanProperly(s)
      && (n < |events| && events[n] == CancelJob(id) && id in mid.jobs && Undecided(mid, id) ==> !RanSince(mid, s, id))
      && (n < |events| && events[n] == CancelHeap && mid.pass.Idle? ==> s.ran == mid.ran)
  {
    NewIsFine(now);
    RunAlarmed(New(now), events);
    RunRunsProperly(New(now), events);
    if n < |events| {
      var mid, rest := Run(New(now), events[..n]), events[n..][1..];
      RunSplit(New(now), events, n);
      RunAlarmed(New(now), events[..n]);
      assert Run(New(now), events) == Run(Next(mid, events[n]), rest);
      if events[n] == CancelJob(id) && id in mid.jobs && Undecided(mid, id) {
        CancelledNeverRuns(mid, id, rest);
      }
      if events[n] == CancelHeap && mid.pass.Idle? { ClosedNeverRuns(mid, rest); }
    }
  }

  lemma {:induction false} RunSplit(s: State, events: seq<Event>, n: nat)
    requires n <= |events|
    ensures Run(s, events) == Run(Run(s, events[..n]), events[n..])
    decreases n
  {
    hide Next;
    if n == 0 {
      assert events[..0] == [] && events[0..] == events;
    } else {
      RunSplit(Next(s, events[0]), events[1..], n - 1);
      assert events[..n][1..] == events[1..][..n - 1] && events[1..][n - 1..] == events[n..];
    }
  }

  /** And after any run, left alone, it soon comes to rest with nothing overdue. */
  lemma {:induction false} NewHeapCatchesUp(now: int, events: seq<Event>, alone: seq<Event>)
    requires Undisturbed(Run(New(now), events), alone)
    ensures var s := Run(New(now), events); var s' := Run(s, alone);
      && |alone| <= Measure(s)
      && (AtRest(s') && !s'.closed ==> forall j :: j in s'.heap ==> j in s'.jobs && s'.now < s'.jobs[j].time)
  {
    NewIsFine(now);
    RunAlarmed(New(now), events);
    RunInHand(New(now), events);
    CatchesUp(Run(New(now), events), alone);
  }

  lemma {:induction false} NextKeepsTime(s: State, e: Event, id: nat)
    requires WellFormed(s) && id in s.jobs
    ensures id in Next(s, e).jobs && Next(s, e).jobs[id].time == s.jobs[id].time && s.now <= Next(s, e).now
  {
    hide Shows;
  }

  lemma {:induction false} RunKeepsTime(s: State, events: seq<Event>, id: nat)
    requires WellFormed(s) && id in s.jobs
    ensures id in Run(s, events).jobs && Run(s, events).jobs[id].time == s.jobs[id].time && s.now <= Run(s, events).now
    decreases |events|
  {
    if events != [] {
      NextWellFormed(s, events[0]);
      NextKeepsTime(s, events[0], id);
      RunKeepsTime(Next(s, events[0]), events[1..], id);
    }
  }

  /** So a job that is added for some time, whatever is called afterwards, is no longer in the heap once that time has
      come and the heap, still open, has been left alone until it rests. */
  lemma {:induction false} AddedJobIsServed(s: State, time: int, between: seq<Event>, dt: nat, alone: seq<Event>)
    requires Alarmed(s) && InHand(s)
    requires var s2 := Run(Next(s, AddJob(time)), between);
      s2.now + dt >= time && Undisturbed(Next(s2, Tick(dt)), alone)
    ensures var s2 := Run(Next(s, AddJob(time)), between); var s' := Run(Next(s2, Tick(dt)), alone);
      AtRest(s') && !s'.closed ==> s.nextId !in s'.heap
  {
    var id, s1 := s.nextId, Next(s, AddJob(time));
    NextAlarmed(s, AddJob(time));
    NextInHand(s, AddJob(time));
    assert id in s1.jobs && s1.jobs[id].time == time;
    hide Alarmed, Shows, Undisturbed, AtRest, Next;
    AlarmedThrough(s1, between, id);
    var s2 := Run(s1, between);
    NextAlarmed(s2, Tick(dt));
    NextInHand(s2, Tick(dt));
    TickPasses(s2, dt, id);
    CatchesUp(Next(s2, Tick(dt)), alone);
    AlarmedThrough(Next(s2, Tick(dt)), alone, id);
  }

  lemma {:induction false} AlarmedThrough(s: State, events: seq<Event>, id: nat)
    requires Alarmed(s) && InHand(s) && id in s.jobs
    ensures var s' := Run(s, events);
      && Alarmed(s') && WellFormed(s') && InHand(s') && s.now <= s'.now
      && id in s'.jobs && s'.jobs[id].time == s.jobs[id].time
  {
    RunAlarmed(s, events);
    RunInHand(s, events);
    RunKeepsTime(s, events, id);
  }

  lemma {:induction false} TickPasses(s: State, dt: nat, id: nat)
    requires id in s.jobs
    ensures Next(s, Tick(dt)).now == s.now + dt && Next(s, Tick(dt)).jobs == s.jobs
  {
  }
}
