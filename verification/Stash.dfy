/** The refill protocol of cache/fixed_size_stash.go: builder runs spawn workers, a worker goes
    round doGoOn and expand, and elements are taken or destroyed meanwhile. Each step is what
    happens under the lock once; goroutines that have been started and not yet run are counted. */
module Stash {
  import opened Basics

  datatype State = State(
    desiredSize: int,
    maxConcurrency: int,
    size: int,
    outstandingCreates: int,
    numWorkers: int,
    /** Workers about to call doGoOn, workers inside createOne, workers that will never return from it, and builder
        runs not yet begun. */
    atTop: nat,
    creating: nat,
    blocked: nat,
    pendingBuilders: nat,
    /** The largest concurrency ever set, and whether a below-zero clamp has ever fired. */
    largest: int,
    clamped: bool)

  /** CreateBlocks: the creator gave neither element nor error, and nobody receives the error reported for that. */
  datatype Event =
    | BuilderRuns
    | WorkerChecks
    | CreateSucceeds
    | CreateFails
    | CreateBlocks
    | Take
    | Destroy(present: bool)
    | SetMaximumConcurrency(max: int)

  function New(desiredSize: int, maxConcurrency: int): State {
    State(desiredSize, maxConcurrency, 0, 0, 0, 0, 0, 0, 1, maxConcurrency, false)
  }

  /** How many workers there are once the loop of builder has run: up to the concurrency, and no more than
      the elements missing. */
  function Staffed(s: State): int {
    Max(s.numWorkers, Min(s.maxConcurrency, s.desiredSize - s.size))
  }

  /** The loop of builder reaches that number, one worker a time. */
  method Builder(s: State) returns (numWorkers: int)
    ensures numWorkers == Staffed(s)
    ensures numWorkers >= s.numWorkers
    ensures numWorkers > s.numWorkers ==> numWorkers <= s.maxConcurrency && s.size + numWorkers <= s.desiredSize
    ensures numWorkers >= s.maxConcurrency || s.size + numWorkers >= s.desiredSize
  {
    numWorkers := s.numWorkers;
    while true
      invariant s.numWorkers <= numWorkers <= Staffed(s)
      decreases Staffed(s) - numWorkers
    {
      if numWorkers >= s.maxConcurrency { return; }
      if s.size + numWorkers >= s.desiredSize { return; }
      numWorkers := numWorkers + 1;
    }
  }

  /** Lower a counter with the clamp of the source, recording whether it fired. */
  function LowerCreates(s: State): State {
    s.(outstandingCreates := Max(s.outstandingCreates - 1, 0), clamped := s.clamped || s.outstandingCreates - 1 < 0)
  }

  function LowerWorkers(s: State): State {
    s.(numWorkers := Max(s.numWorkers - 1, 0), clamped := s.clamped || s.numWorkers - 1 < 0)
  }

  predicate Enabled(s: State, e: Event) {
    match e
    case BuilderRuns => s.pendingBuilders > 0
    case WorkerChecks => s.atTop > 0
    case CreateSucceeds => s.creating > 0
    case CreateFails => s.creating > 0
    case CreateBlocks => s.creating > 0
    case Take => s.size > 0
    case Destroy(present) => present && s.size > 0
    case SetMaximumConcurrency(max) => max >= 0
  }

  predicate GoesOn(s: State) {
    s.size + s.outstandingCreates < s.desiredSize
  }

  function Next(s: State, e: Event): State {
    if !Enabled(s, e) then s else
    match e
    case BuilderRuns =>
      var n := Staffed(s);
      s.(pendingBuilders := s.pendingBuilders - 1, numWorkers := n, atTop := s.atTop + (n - s.numWorkers))
    case WorkerChecks =>
      if GoesOn(s) then
        s.(outstandingCreates := s.outstandingCreates + 1, atTop := s.atTop - 1, creating := s.creating + 1)
      else LowerWorkers(s.(atTop := s.atTop - 1))
    case CreateSucceeds => LowerCreates(s.(size := s.size + 1, creating := s.creating - 1, atTop := s.atTop + 1))
    case CreateFails => LowerCreates(s.(creating := s.creating - 1, atTop := s.atTop + 1))
    case CreateBlocks => s.(creating := s.creating - 1, blocked := s.blocked + 1)
    case Take => s.(size := s.size - 1, pendingBuilders := s.pendingBuilders + 1)
    case Destroy(_) => s.(size := s.size - 1, pendingBuilders := s.pendingBuilders + 1)
    case SetMaximumConcurrency(max) =>
      s.(maxConcurrency := max, largest := Max(s.largest, max),
         pendingBuilders := if s.maxConcurrency < max then s.pendingBuilders + 1 else s.pendingBuilders)
  }

  function Run(s: State, events: seq<Event>): State
    decreases |events|
  {
    if events == [] then s else Run(Next(s, events[0]), events[1..])
  }

  // ---- Bounds, and no lost refill

  ghost predicate Bounds(s: State) {
    && s.outstandingCreates == s.creating + s.blocked && s.numWorkers == s.atTop + s.creating + s.blocked && !s.clamped
    && 0 <= s.size && s.size + s.outstandingCreates <= s.desiredSize
    && s.numWorkers <= s.largest && 0 <= s.maxConcurrency <= s.largest
  }

  /** A builder is on its way, or there are workers enough for what is missing and allowed. */
  ghost predicate RefillAlive(s: State) {
    s.pendingBuilders > 0 || s.numWorkers >= Min(s.maxConcurrency, s.desiredSize - s.size)
  }

  lemma {:induction false} NextAlive(s: State, e: Event)
    requires Bounds(s) && RefillAlive(s)
    ensures Bounds(Next(s, e)) && RefillAlive(Next(s, e))
  {
  }

  /** In every run of a new stash the bounds hold, no clamp fires and no refill is lost. */
  lemma {:induction false} RunAlive(s: State, events: seq<Event>)
    requires Bounds(s) && RefillAlive(s)
    ensures Bounds(Run(s, events)) && RefillAlive(Run(s, events))
    decreases |events|
  {
    if events != [] {
      NextAlive(s, events[0]);
      RunAlive(Next(s, events[0]), events[1..]);
    }
  }

  lemma {:induction false} NewIsAlive(desiredSize: int, maxConcurrency: int, events: seq<Event>)
    requires desiredSize >= 2 && maxConcurrency >= 0
    ensures var s := Run(New(desiredSize, maxConcurrency), events);
      && 0 <= s.size && s.size + s.outstandingCreates <= s.desiredSize
      && s.outstandingCreates == s.creating + s.blocked <= s.numWorkers <= s.largest && !s.clamped
      && (s.pendingBuilders > 0 || s.numWorkers >= Min(s.maxConcurrency, s.desiredSize - s.size))
      && (s.maxConcurrency >= 1 && s.size < s.desiredSize ==> s.numWorkers > 0 || s.pendingBuilders > 0)
  {
    RunAlive(New(desiredSize, maxConcurrency), events);
  }

  // ---- Someone who can move

  /** While something is missing and work is allowed, a worker or a builder can take a step. */
  ghost predicate RefillMoves(s: State) {
    s.maxConcurrency >= 1 && s.size < s.desiredSize ==> s.atTop + s.creating > 0 || s.pendingBuilders > 0
  }

  ghost predicate NoneBlocks(events: seq<Event>) {
    forall i :: 0 <= i < |events| ==> !events[i].CreateBlocks?
  }

  lemma {:induction false} NoneBlocked(s: State, events: seq<Event>)
    requires s.blocked == 0 && NoneBlocks(events)
    ensures Run(s, events).blocked == 0
    decreases |events|
  {
    if events != [] { NoneBlocked(Next(s, events[0]), events[1..]); }
  }

  /** The only worker never returns from its first creation. */
  function BlockingRun(): seq<Event> {
    [SetMaximumConcurrency(1), BuilderRuns, BuilderRuns, WorkerChecks, CreateBlocks]
  }

  lemma {:induction false} BlockedStops(desiredSize: int, maxConcurrency: int)
    requires desiredSize >= 2 && maxConcurrency >= 0
    ensures !RefillMoves(Run(New(desiredSize, maxConcurrency), BlockingRun()))
  {
    var es, s := BlockingRun(), New(desiredSize, maxConcurrency);
    var s1 := Next(s, es[0]);
    var s2 := Next(Next(s1, es[1]), es[2]);
    var s3 := Next(Next(s2, es[3]), es[4]);
    assert es[1..][1..] == es[2..] && es[2..][1..] == es[3..] && es[3..][1..] == es[4..] && es[4..][1..] == [];
    assert Run(s1, es[1..]) == Run(Next(s1, es[1]), es[2..]) == Run(s2, es[3..]);
    assert Run(s2, es[3..]) == Run(Next(s2, es[3]), es[4..]) == Run(s3, []);
  }

  /** Every run of a new stash keeps someone who can move if and only if no creation may block. */
  lemma {:induction false} RefillMovesIff(desiredSize: int, maxConcurrency: int, mayBlock: bool)
    requires desiredSize >= 2 && maxConcurrency >= 0
    ensures (forall events :: mayBlock || NoneBlocks(events) ==>
      RefillMoves(Run(New(desiredSize, maxConcurrency), events)))
       <==> !mayBlock
  {
    var s := New(desiredSize, maxConcurrency);
    if mayBlock {
      BlockedStops(desiredSize, maxConcurrency);
    } else {
      forall events | NoneBlocks(events) ensures RefillMoves(Run(s, events)) {
        RunAlive(s, events);
        NoneBlocked(s, events);
      }
    }
  }

  /** Raising the concurrency starts a builder, and nothing else about setting it does. */
  lemma {:induction false} RaisingStartsBuilder(s: State, max: int)
    requires max >= 0
    ensures var s' := Next(s, SetMaximumConcurrency(max));
      && s'.maxConcurrency == max && s'.numWorkers == s.numWorkers && s'.size == s.size
      && s'.pendingBuilders == s.pendingBuilders + if max > s.maxConcurrency then 1 else 0
  {
  }

  // ---- Nothing is made up or lost

  /** What an event adds to the stash, or takes from it. */
  function Gain(s: State, e: Event): int {
    if !Enabled(s, e) then 0 else if e.CreateSucceeds? then 1 else if e.Take? || e.Destroy? then -1 else 0
  }

  function Gains(s: State, events: seq<Event>): int
    decreases |events|
  {
    if events == [] then 0 else Gain(s, events[0]) + Gains(Next(s, events[0]), events[1..])
  }

  /** Destroying an element that has left changes nothing; one that is there leaves, and a builder is started. */
  lemma {:induction false} DestroyOnlyPresent(s: State)
    ensures Next(s, Destroy(false)) == s
    ensures s.size > 0 ==>
      Next(s, Destroy(true)) == Next(s, Take) == s.(size := s.size - 1, pendingBuilders := s.pendingBuilders + 1)
  {
  }

  /** In every run the stash holds what was created less what was taken and destroyed. */
  lemma {:induction false} SizeCounts(s: State, events: seq<Event>)
    ensures Run(s, events).size == s.size + Gains(s, events)
    decreases |events|
  {
    if events != [] { SizeCounts(Next(s, events[0]), events[1..]); }
  }

  // ---- Left alone, the stash fills up

  predicate Internal(e: Event) {
    e.BuilderRuns? || e.WorkerChecks? || e.CreateSucceeds?
  }

  /** How much work is left at most. */
  function Measure(s: State): int {
    3 * (s.desiredSize - s.size) + 2 * s.atTop + s.creating + BuilderCost(s.desiredSize, s.pendingBuilders)
  }

  /** What builders can still start. */
  function BuilderCost(desiredSize: int, pending: nat): int {
    (1 + 2 * desiredSize) * pending
  }

  lemma {:induction false} OneBuilder(desiredSize: int, pending: nat)
    requires pending > 0
    ensures BuilderCost(desiredSize, pending - 1) == BuilderCost(desiredSize, pending) - (1 + 2 * desiredSize)
  {
  }

  lemma {:induction false} InternalDecreases(s: State, e: Event)
    requires Bounds(s) && Internal(e) && Enabled(s, e)
    ensures Measure(Next(s, e)) < Measure(s)
  {
    hide BuilderCost;
    if e.BuilderRuns? { OneBuilder(s.desiredSize, s.pendingBuilders); }
  }

  /** Every event is an enabled internal step of its state. */
  predicate Undisturbed(s: State, events: seq<Event>)
    decreases |events|
  {
    events != [] ==> Internal(events[0]) && Enabled(s, events[0]) && Undisturbed(Next(s, events[0]), events[1..])
  }

  lemma {:induction false} MeasureNonNegative(s: State)
    requires Bounds(s)
    ensures Measure(s) >= 0
  {
    assert BuilderCost(s.desiredSize, s.pendingBuilders) >= 0;
  }

  /** Nothing is left for builders and workers to do. */
  ghost predicate AtRest(s: State) {
    forall e :: Internal(e) ==> !Enabled(s, e)
  }

  /** Builders and workers whose creations succeed stop after boundedly many steps. Where they stop, everything
      missing is waiting for a blocked worker, or as many workers are blocked as may work at all; so with work
      allowed and no worker blocked the stash is exactly full. */
  lemma {:induction false} RefillCompletes(s: State, events: seq<Event>)
    requires Bounds(s) && RefillAlive(s) && Undisturbed(s, events)
    ensures |events| <= Measure(s) && Run(s, events).blocked == s.blocked
    ensures var s' := Run(s, events); AtRest(s') ==>
      && (s'.size + s'.blocked == s'.desiredSize || s'.blocked >= s'.maxConcurrency)
      && (s.blocked == 0 && s'.maxConcurrency >= 1 ==> s'.size == s'.desiredSize)
    decreases |events|
  {
    if events == [] {
      MeasureNonNegative(s);
      assert Internal(BuilderRuns) && Internal(WorkerChecks) && Internal(CreateSucceeds);
    } else {
      InternalDecreases(s, events[0]);
      NextAlive(s, events[0]);
      RefillCompletes(Next(s, events[0]), events[1..]);
    }
  }

  // ---- A concurrency of zero does not stop the workers that are already there

  /** How many creations begin in a run. */
  function Begun(s: State, events: seq<Event>): nat
    decreases |events|
  {
    if events == [] then 0 else
    (if events[0].WorkerChecks? && Enabled(s, events[0]) && GoesOn(s) then 1 else 0) +
    Begun(Next(s, events[0]), events[1..])
  }

  ghost predicate LeavesConcurrency(events: seq<Event>) {
    forall i :: 0 <= i < |events| ==> !events[i].SetMaximumConcurrency?
  }

  lemma {:induction false} StoppedForGood(s: State, events: seq<Event>)
    requires Bounds(s) && RefillAlive(s) && s.maxConcurrency == 0 && LeavesConcurrency(events)
    requires s.numWorkers == s.blocked || s.blocked == s.desiredSize
    ensures Begun(s, events) == 0
    decreases |events|
  {
    if events != [] {
      NextAlive(s, events[0]);
      StoppedForGood(Next(s, events[0]), events[1..]);
    }
  }

  /** After SetMaximumConcurrency(0) no creation ever begins exactly when no worker was left that can move, or every
      element is waiting for one that cannot. */
  lemma {:induction false} ZeroStopsIff(s: State)
    requires Bounds(s) && RefillAlive(s) && s.desiredSize >= 2
    ensures var s0 := Next(s, SetMaximumConcurrency(0));
      (forall events :: LeavesConcurrency(events) ==> Begun(s0, events) == 0) <==>
      s.numWorkers == s.blocked || s.blocked == s.desiredSize
  {
    var s0 := Next(s, SetMaximumConcurrency(0));
    NextAlive(s, SetMaximumConcurrency(0));
    if s.numWorkers == s.blocked || s.blocked == s.desiredSize {
      forall events | LeavesConcurrency(events) ensures Begun(s0, events) == 0 { StoppedForGood(s0, events); }
    } else {
      var first := if s0.creating > 0 then CreateFails else if GoesOn(s0) then Destroy(false) else Take;
      var events := [first, WorkerChecks];
      assert events[1..] == [WorkerChecks] && events[1..][1..] == [];
      assert LeavesConcurrency(events);
      assert Begun(Next(s0, first), [WorkerChecks]) == 1;
      assert Begun(s0, events) >= 1;
    }
  }
}
