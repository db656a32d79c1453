/** The binary heap of queues/heap.go: an array-backed priority queue ordered by a
    three-way comparator whose positive answers mean "a is returned before b". */
module Heap {
  import opened Basics

  type Comparator<!T> = (T, T) -> int

  /** The two orders of asking agree. */
  ghost predicate Consistent<T>(cmp: Comparator<T>, a: T, b: T) {
    cmp(a, b) < 0 <==> cmp(b, a) > 0
  }

  ghost predicate Transitive<T>(cmp: Comparator<T>, a: T, b: T, c: T) {
    cmp(a, b) >= 0 && cmp(b, c) >= 0 ==> cmp(a, c) >= 0
  }

  /** The comparators the documentation describes: total preorders. */
  ghost predicate IsTotalPreorder<T(!new)>(cmp: Comparator<T>) {
    && (forall a, b :: Consistent(cmp, a, b))
    && (forall a, b, c :: Transitive(cmp, a, b, c))
  }

  function Parent(index: nat): int {
    if index == 0 then -1 else (index - 1) / 2
  }

  predicate After<T>(cmp: Comparator<T>, a: T, b: T) {
    cmp(a, b) < 0
  }

  predicate AfterOrEqual<T>(cmp: Comparator<T>, a: T, b: T) {
    cmp(a, b) <= 0
  }

  /** The link above slot `j` is in order. */
  ghost predicate LinkOk<T>(cmp: Comparator<T>, q: seq<T>, j: nat)
    requires 0 < j < |q|
  {
    !After(cmp, q[Parent(j)], q[j])
  }

  /** Every entry may be returned no earlier than the entry above it. */
  ghost predicate Ordered<T>(cmp: Comparator<T>, q: seq<T>) {
    forall j {:trigger LinkOk(cmp, q, j)} :: 0 < j < |q| ==> LinkOk(cmp, q, j)
  }

  function Pow2(n: nat): nat {
    if n == 0 then 1 else 2 * Pow2(n - 1)
  }

  function Swap<T>(q: seq<T>, i: nat, j: nat): (r: seq<T>)
    requires i < |q| && j < |q|
    ensures multiset(r) == multiset(q)
  {
    q[i := q[j]][j := q[i]]
  }

  /** Ordered everywhere but on the link above `i`, whose children already respect the entry above `i`. */
  ghost predicate OrderedAbove<T>(cmp: Comparator<T>, q: seq<T>, i: nat) {
    && (forall j {:trigger LinkOk(cmp, q, j)} :: 0 < j < |q| && j != i ==> LinkOk(cmp, q, j))
    && (forall j {:trigger Parent(j)} :: 0 < i < j < |q| && Parent(j) == i ==> !After(cmp, q[Parent(i)], q[j]))
  }

  /** Ordered everywhere but on the links below `i`, whose children already respect the entry above `i`. */
  ghost predicate OrderedBelow<T>(cmp: Comparator<T>, q: seq<T>, i: nat) {
    && (forall j {:trigger LinkOk(cmp, q, j)} :: 0 < j < |q| && Parent(j) != i ==> LinkOk(cmp, q, j))
    && (forall j {:trigger Parent(j)} :: 0 < i < j < |q| && Parent(j) == i ==> !After(cmp, q[Parent(i)], q[j]))
  }

  lemma {:induction false} AppendedAbove<T>(cmp: Comparator<T>, q: seq<T>, x: T)
    requires Ordered(cmp, q)
    ensures OrderedAbove(cmp, q + [x], |q|)
  {
    forall j | 0 < j < |q| ensures LinkOk(cmp, q + [x], j) { assert LinkOk(cmp, q, j); }
  }

  lemma {:induction false} SettledAbove<T>(cmp: Comparator<T>, q: seq<T>, i: nat)
    requires OrderedAbove(cmp, q, i) && i < |q| && (i > 0 ==> !After(cmp, q[Parent(i)], q[i]))
    ensures Ordered(cmp, q)
  {
    if i > 0 { assert LinkOk(cmp, q, i); }
  }

  lemma {:induction false} BubbleUp<T(!new)>(cmp: Comparator<T>, q: seq<T>, i: nat)
    requires IsTotalPreorder(cmp) && 0 < i < |q|
    requires OrderedAbove(cmp, q, i) && After(cmp, q[Parent(i)], q[i])
    ensures OrderedAbove(cmp, Swap(q, Parent(i), i), Parent(i))
  {
    var p := Parent(i);
    var r := Swap(q, p, i);
    forall j | 0 < j < |r| && j != p
      ensures LinkOk(cmp, r, j)
    {
      if j == i {
        assert Consistent(cmp, q[p], q[i]);
      } else if Parent(j) != i {
        assert LinkOk(cmp, q, j);
        assert Consistent(cmp, q[p], q[i]) && Transitive(cmp, q[i], q[p], q[j]);
      }
    }
    forall j | 0 < p < j < |r| && Parent(j) == p
      ensures !After(cmp, r[Parent(p)], r[j])
    {
      assert LinkOk(cmp, q, p);
      assert j != i ==> LinkOk(cmp, q, j);
      assert Transitive(cmp, q[Parent(p)], q[p], q[j]);
    }
  }

  lemma {:induction false} BubbleDown<T(!new)>(cmp: Comparator<T>, q: seq<T>, i: nat, c: nat)
    requires IsTotalPreorder(cmp) && OrderedBelow(cmp, q, i)
    requires c < |q| && c > 0 && Parent(c) == i && After(cmp, q[i], q[c])
    requires forall j {:trigger Parent(j)} :: 0 < j < |q| && Parent(j) == i ==> cmp(q[c], q[j]) >= 0
    ensures OrderedBelow(cmp, Swap(q, i, c), c)
  {
    var r := Swap(q, i, c);
    forall j | 0 < j < |r| && Parent(j) != c
      ensures LinkOk(cmp, r, j)
    {
      if j == i {
        assert Parent(c) == i;
      } else if j == c {
        assert Consistent(cmp, q[i], q[c]);
      } else if Parent(j) != i {
        assert LinkOk(cmp, q, j);
      }
    }
    forall j | 0 < c < j < |r| && Parent(j) == c
      ensures !After(cmp, r[Parent(c)], r[j])
    {
      assert LinkOk(cmp, q, j);
    }
  }

  /** The root may be returned before everything else. */
  lemma {:induction false} RootPrecedes<T(!new)>(cmp: Comparator<T>, q: seq<T>, i: nat)
    requires IsTotalPreorder(cmp) && Ordered(cmp, q) && i < |q|
    ensures cmp(q[0], q[i]) >= 0
  {
    if i > 0 {
      RootPrecedes(cmp, q, Parent(i));
      assert LinkOk(cmp, q, i) && Transitive(cmp, q[0], q[Parent(i)], q[i]);
    } else {
      assert Consistent(cmp, q[0], q[0]);
    }
  }

  lemma {:induction false} RootPrecedesRest<T(!new)>(cmp: Comparator<T>, q: seq<T>, rest: seq<T>)
    requires IsTotalPreorder(cmp) && Ordered(cmp, q) && q != [] && multiset(q) == multiset(rest) + multiset{q[0]}
    ensures forall y :: y in rest ==> cmp(q[0], y) >= 0
  {
    forall y | y in rest ensures cmp(q[0], y) >= 0 {
      assert y in multiset(rest);
      assert y in multiset(q);
      var i :| 0 <= i < |q| && q[i] == y;
      RootPrecedes(cmp, q, i);
    }
  }

  /** With the last entry in its place, only the links below the root are in doubt. */
  lemma {:induction false} LastAtRoot<T>(cmp: Comparator<T>, q: seq<T>)
    requires Ordered(cmp, q) && |q| > 1
    ensures OrderedBelow(cmp, q[0 := q[|q| - 1]][..|q| - 1], 0)
  {
    var r := q[0 := q[|q| - 1]][..|q| - 1];
    forall j | 0 < j < |r| && Parent(j) != 0 ensures LinkOk(cmp, r, j) { assert LinkOk(cmp, q, j); }
  }

  /** What one Add may do to the queue: the new entry becomes the root only by preceding the old one. */
  ghost predicate AddStep<T(!new)>(cmp: Comparator<T>, before: seq<T>, x: T, after: seq<T>) {
    && multiset(after) == multiset(before) + multiset{x} && after != []
    && (IsTotalPreorder(cmp) && Ordered(cmp, before) ==>
          && Ordered(cmp, after)
          && after[0] == if before == [] || After(cmp, before[0], x) then x else before[0])
  }

  /** What one successful Get may do: it hands out the root, which precedes everything that stays. */
  ghost predicate GetStep<T(!new)>(cmp: Comparator<T>, before: seq<T>, x: T, after: seq<T>) {
    && before != [] && x == before[0]
    && multiset(before) == multiset(after) + multiset{x}
    && (IsTotalPreorder(cmp) && Ordered(cmp, before) ==>
          Ordered(cmp, after) && forall y :: y in after ==> cmp(x, y) >= 0)
  }

  /** So many swaps have halved the index so often. */
  ghost predicate Cheap(swaps: nat, index: nat, n: nat) {
    Pow2(swaps) * (index + 1) <= n + 1
  }

  lemma {:induction false} CheapStart(n: nat)
    ensures Cheap(0, n, n)
  {
  }

  lemma {:induction false} CheapStep(swaps: nat, index: nat, n: nat)
    requires Cheap(swaps, index, n) && index > 0
    ensures Cheap(swaps + 1, Parent(index), n)
  {
    var above := Parent(index);
    assert 2 * (above + 1) <= index + 1;
    MulMonotone(Pow2(swaps), 2 * (above + 1), index + 1);
  }

  lemma {:induction false} CheapEnd(swaps: nat, index: nat, n: nat)
    requires Cheap(swaps, index, n)
    ensures Pow2(swaps) <= n + 1
  {
    MulMonotone(Pow2(swaps), 1, index + 1);
  }

  class HeapData<T(!new)> {
    const comparator: Comparator<T>
    var queue: seq<T>

    constructor (c: Comparator<T>)
      ensures comparator == c && queue == [] && Ordered(comparator, queue)
    {
      comparator := c;
      queue := [];
    }

    method Add(payload: T) returns (ghost swaps: nat)
      modifies this`queue
      ensures AddStep(comparator, old(queue), payload, queue)
      ensures Pow2(swaps) <= |old(queue)| + 1
    {
      hide IsTotalPreorder, Ordered, OrderedAbove, Cheap, Pow2;
      ghost var sound := IsTotalPreorder(comparator) && Ordered(comparator, queue);
      ghost var before := queue;
      var currentIndex: nat := |queue|;
      if sound { AppendedAbove(comparator, queue, payload); }
      queue := queue + [payload];
      var parentIndex := Parent(currentIndex);
      swaps := 0;
      CheapStart(|queue| - 1);
      while parentIndex >= 0 && After(comparator, queue[parentIndex], payload)
        invariant |queue| == |before| + 1 && 0 <= currentIndex < |queue|
        invariant parentIndex == Parent(currentIndex) && queue[currentIndex] == payload
        invariant multiset(queue) == multiset(before) + multiset{payload}
        invariant sound ==> OrderedAbove(comparator, queue, currentIndex)
        invariant before != [] ==> if currentIndex > 0 then queue[0] == before[0]
          else After(comparator, before[0], payload)
        invariant Cheap(swaps, currentIndex, |before|)
      {
        if sound { BubbleUp(comparator, queue, currentIndex); }
        CheapStep(swaps, currentIndex, |before|);
        queue := Swap(queue, parentIndex, currentIndex);
        currentIndex := parentIndex;
        parentIndex := Parent(currentIndex);
        swaps := swaps + 1;
      }
      CheapEnd(swaps, currentIndex, |before|);
      if sound {
        SettledAbove(comparator, queue, currentIndex);
        RootPrecedes(comparator, queue, currentIndex);
      }
    }

    method Get() returns (r: Option<T>, ghost swaps: nat)
      modifies this`queue
      ensures r.None? <==> old(queue) == []
      ensures r.None? ==> queue == [] && swaps == 0
      ensures r.Some? ==> GetStep(comparator, old(queue), r.value, queue)
      ensures r.Some? ==> Pow2(swaps) <= |old(queue)|
    {
      swaps := 0;
      if queue == [] { return None, 0; }
      ghost var before := queue;
      ghost var sound := IsTotalPreorder(comparator) && Ordered(comparator, before);
      r := Some(queue[0]);
      var currentLength := |queue| - 1;
      if currentLength == 0 {
        queue := [];
        assert before == [r.value];
        return;
      }
      queue := queue[0 := queue[currentLength]][..currentLength];
      RemovedRoot(before);
      if sound { LastAtRoot(comparator, before); }
      hide IsTotalPreorder, Ordered, OrderedBelow, Pow2;
      ghost var rest := multiset(queue);
      swaps := SiftDown();
      if sound { RootPrecedesRest(comparator, before, queue); }
    }

    /** One look of the loop of Get: the child to swap with, or None when the entry may stay. */
    method ChooseChild(i: nat) returns (child: Option<nat>)
      requires i < |queue|
      ensures child.Some? ==> i < child.value < |queue| && Parent(child.value) == i
      ensures IsTotalPreorder(comparator) && OrderedBelow(comparator, queue, i) ==>
        if child.None? then Ordered(comparator, queue)
        else OrderedBelow(comparator, Swap(queue, i, child.value), child.value)
    {
      hide OrderedBelow, Ordered, IsTotalPreorder;
      ghost var sound := IsTotalPreorder(comparator) && OrderedBelow(comparator, queue, i);
      var left, right := 2 * i + 1, 2 * i + 2;
      if left >= |queue| {
        if sound { SettledBelow(comparator, queue, i); }
        return None;
      }
      if right >= |queue| {
        if !After(comparator, queue[i], queue[left]) {
          if sound { SettledBelow(comparator, queue, i); }
          return None;
        }
        child := Some(left);
      } else {
        child := Some(if After(comparator, queue[right], queue[left]) then left else right);
        if AfterOrEqual(comparator, queue[child.value], queue[i]) {
          if sound { SettledAtBoth(comparator, queue, i, child.value); }
          return None;
        }
      }
      if sound {
        FirstChild(comparator, queue, i, child.value);
        BubbleDown(comparator, queue, i, child.value);
      }
    }

    /** The open-ended loop of Get, which lets the entry at the root sink. */
    method SiftDown() returns (ghost swaps: nat)
      requires queue != []
      modifies this`queue
      ensures |queue| == |old(queue)| && multiset(queue) == multiset(old(queue))
      ensures IsTotalPreorder(comparator) && OrderedBelow(comparator, old(queue), 0) ==> Ordered(comparator, queue)
      ensures Pow2(swaps) <= |queue|
    {
      hide OrderedBelow, Ordered, IsTotalPreorder;
      var currentIndex: nat := 0;
      swaps := 0;
      while true
        invariant currentIndex < |queue| == |old(queue)|
        invariant multiset(queue) == multiset(old(queue))
        invariant IsTotalPreorder(comparator) && OrderedBelow(comparator, old(queue), 0) ==>
          OrderedBelow(comparator, queue, currentIndex)
        invariant Pow2(swaps) <= currentIndex + 1
        decreases |queue| - currentIndex
      {
        var child := ChooseChild(currentIndex);
        if child.None? { return; }
        queue := Swap(queue, currentIndex, child.value);
        currentIndex := child.value;
        swaps := swaps + 1;
      }
    }

    method Peek() returns (r: Option<T>)
      ensures r == if queue == [] then None else Some(queue[0])
      ensures r.Some? && IsTotalPreorder(comparator) && Ordered(comparator, queue) ==>
        forall y :: y in queue ==> comparator(r.value, y) >= 0
    {
      r := if queue == [] then None else Some(queue[0]);
      if IsTotalPreorder(comparator) && Ordered(comparator, queue) {
        forall i | 0 <= i < |queue| ensures comparator(queue[0], queue[i]) >= 0 { RootPrecedes(comparator, queue, i); }
      }
    }

    /** Emptying a heap with Get hands out a sorted permutation of what it held. */
    method Drain() returns (out: seq<T>)
      requires IsTotalPreorder(comparator) && Ordered(comparator, queue)
      modifies this`queue
      ensures queue == [] && multiset(out) == multiset(old(queue))
      ensures forall i, j :: 0 <= i < j < |out| ==> comparator(out[i], out[j]) >= 0
    {
      out := [];
      while queue != []
        invariant Ordered(comparator, queue)
        invariant multiset(out) + multiset(queue) == multiset(old(queue))
        invariant forall i, j :: 0 <= i < j < |out| ==> comparator(out[i], out[j]) >= 0
        invariant forall x, y :: x in out && y in queue ==> comparator(x, y) >= 0
        decreases |queue|
      {
        ghost var before := queue;
        var r, _ := Get();
        assert |multiset(before)| == |multiset(queue)| + 1;
        forall y | y in queue ensures y in before { assert y in multiset(before); }
        out := out + [r.value];
      }
    }
  }

  /** The child chosen for the swap precedes its sibling. */
  lemma {:induction false} FirstChild<T(!new)>(cmp: Comparator<T>, q: seq<T>, i: nat, c: nat)
    requires IsTotalPreorder(cmp) && c < |q|
    requires c == 2 * i + 1 || c == 2 * i + 2
    requires 2 * i + 2 < |q| ==> (c == 2 * i + 1 <==> After(cmp, q[2 * i + 2], q[2 * i + 1]))
    ensures forall j {:trigger Parent(j)} :: 0 < j < |q| && Parent(j) == i ==> cmp(q[c], q[j]) >= 0
    ensures !AfterOrEqual(cmp, q[c], q[i]) ==> After(cmp, q[i], q[c])
  {
    assert Consistent(cmp, q[i], q[c]);
    forall j | 0 < j < |q| && Parent(j) == i
      ensures cmp(q[c], q[j]) >= 0
    {
      assert Consistent(cmp, q[c], q[c]) && Consistent(cmp, q[j], q[c]);
    }
  }

  lemma {:induction false} MulMonotone(k: nat, a: nat, b: nat)
    requires a <= b
    ensures k * a <= k * b
  {
  }

  lemma {:induction false} RemovedRoot<T>(q: seq<T>)
    requires |q| > 1
    ensures multiset(q) == multiset(q[0 := q[|q| - 1]][..|q| - 1]) + multiset{q[0]}
  {
    var n := |q| - 1;
    assert q == [q[0]] + q[1..n] + [q[n]];
    assert q[0 := q[n]][..n] == [q[n]] + q[1..n];
  }

  lemma {:induction false} SettledBelow<T(!new)>(cmp: Comparator<T>, q: seq<T>, i: nat)
    requires IsTotalPreorder(cmp) && OrderedBelow(cmp, q, i) && i < |q|
    requires 2 * i + 1 < |q| ==> !After(cmp, q[i], q[2 * i + 1])
    requires 2 * i + 2 < |q| ==> !After(cmp, q[i], q[2 * i + 2])
    ensures Ordered(cmp, q)
  {
    forall j | 0 < j < |q|
      ensures LinkOk(cmp, q, j)
    {
      if Parent(j) == i { assert j == 2 * i + 1 || j == 2 * i + 2; }
    }
  }

  lemma {:induction false} SettledAtBoth<T(!new)>(cmp: Comparator<T>, q: seq<T>, i: nat, c: nat)
    requires IsTotalPreorder(cmp) && OrderedBelow(cmp, q, i) && 2 * i + 2 < |q|
    requires c == if After(cmp, q[2 * i + 2], q[2 * i + 1]) then 2 * i + 1 else 2 * i + 2
    requires AfterOrEqual(cmp, q[c], q[i])
    ensures Ordered(cmp, q)
  {
    FirstChild(cmp, q, i, c);
    forall j | j == 2 * i + 1 || j == 2 * i + 2
      ensures !After(cmp, q[i], q[j])
    {
      assert Parent(j) == i;
      assert Consistent(cmp, q[i], q[c]) && Transitive(cmp, q[i], q[c], q[j]);
    }
    SettledBelow(cmp, q, i);
  }

  // ---- Whole runs

  datatype Event<T> = Added(x: T) | Got(x: T)

  ghost predicate Step<T(!new)>(cmp: Comparator<T>, q: seq<T>, e: Event<T>, q': seq<T>) {
    match e
    case Added(x) => AddStep(cmp, q, x, q')
    case Got(x) => GetStep(cmp, q, x, q')
  }

  /** `qs` are the successive queues of a run from the empty heap that performs `events`. */
  ghost predicate IsRun<T(!new)>(cmp: Comparator<T>, qs: seq<seq<T>>, events: seq<Event<T>>) {
    && |qs| == |events| + 1 && qs[0] == []
    && forall i {:trigger events[i]} :: 0 <= i < |events| ==> Step(cmp, qs[i], events[i], qs[i + 1])
  }

  /** What the first `n` events added. */
  function Adds<T>(events: seq<Event<T>>, n: nat): multiset<T>
    requires n <= |events|
  {
    if n == 0 then multiset{} else
    Adds(events, n - 1) + (if events[n - 1].Added? then multiset{events[n - 1].x} else multiset{})
  }

  /** What the first `n` events handed out. */
  function Gets<T>(events: seq<Event<T>>, n: nat): multiset<T>
    requires n <= |events|
  {
    if n == 0 then multiset{} else
    Gets(events, n - 1) + (if events[n - 1].Got? then multiset{events[n - 1].x} else multiset{})
  }

  /** Over every mix of Add and Get nothing is lost or duplicated, whatever the comparator. */
  lemma {:induction false} RunConserves<T(!new)>(cmp: Comparator<T>, qs: seq<seq<T>>, events: seq<Event<T>>, n: nat)
    requires IsRun(cmp, qs, events) && n <= |events|
    ensures Adds(events, n) == Gets(events, n) + multiset(qs[n])
  {
    if n > 0 {
      RunConserves(cmp, qs, events, n - 1);
      assert Step(cmp, qs[n - 1], events[n - 1], qs[n]);
    }
  }

  lemma {:induction false} RunStaysOrdered<T(!new)>(cmp: Comparator<T>, qs: seq<seq<T>>, events: seq<Event<T>>, n: nat)
    requires IsTotalPreorder(cmp) && IsRun(cmp, qs, events) && n <= |events|
    ensures Ordered(cmp, qs[n])
  {
    if n > 0 {
      RunStaysOrdered(cmp, qs, events, n - 1);
      assert Step(cmp, qs[n - 1], events[n - 1], qs[n]);
    }
  }

  /** Over every mix of Add and Get, each Get hands out an entry that precedes all that was held then. */
  lemma {:induction false} RunHandsOutFirst<T(!new)>(cmp: Comparator<T>, qs: seq<seq<T>>, events: seq<Event<T>>, n: nat,
                                                     y: T)
    requires IsTotalPreorder(cmp) && IsRun(cmp, qs, events)
    requires n < |events| && events[n].Got? && y in qs[n]
    ensures cmp(events[n].x, y) >= 0
  {
    RunStaysOrdered(cmp, qs, events, n);
    assert Step(cmp, qs[n], events[n], qs[n + 1]);
    var k :| 0 <= k < |qs[n]| && qs[n][k] == y;
    RootPrecedes(cmp, qs[n], k);
  }
}
