/** The clock of cache/car_clock.go: a singly linked FIFO of key, value and page reference
    bit, and a map from each key to its node. RemoveAll can take chain and map apart, so a clock is
    described by both, and by whether its tail is still on the chain. */
module CarClock {
  import opened Basics
  import opened Sequences

  datatype Entry<+K, +V> = Entry(key: K, value: V, bit: bool)

  /** A result of code that may panic. */
  datatype Step<+T> = Panic | Ok(value: T) {
    predicate IsFailure() { Panic? }
    function PropagateFailure<U>(): Step<U> requires Panic? { Panic }
    function Extract(): T requires Ok? { value }
  }

  // ---- Clocks as values

  /** A node on the chain, which is live while the map leads to it. */
  datatype Link<+K, +V> = Link(entry: Entry<K, V>, live: bool)

  /** The chain from the head, what the map holds under each key, and whether the tail is off the chain. */
  datatype Clock<K(==), V> = Clock(chain: seq<Link<K, V>>, index: map<K, Entry<K, V>>, loose: bool)

  /** A removal function. It is given what the map holds under the key, which for a stale node may be nothing. */
  type Removal<!K, !V> = (K, Option<Entry<K, V>>) -> bool

  function NoClock<K(==), V>(): Clock<K, V> { Clock([], map[], false) }

  function Under<K(==), V>(index: map<K, Entry<K, V>>, key: K): Option<Entry<K, V>> {
    if key in index then Some(index[key]) else None
  }

  /** The chain once the map has been reduced to `index`. */
  function Marked<K(==), V>(chain: seq<Link<K, V>>, index: map<K, Entry<K, V>>): (r: seq<Link<K, V>>)
    ensures |r| == |chain|
    ensures forall i {:trigger r[i]} :: 0 <= i < |r| ==>
      r[i] == chain[i].(live := chain[i].live && chain[i].entry.key in index)
  {
    seq(|chain|, i requires 0 <= i < |chain| => chain[i].(live := chain[i].live && chain[i].entry.key in index))
  }

  /** AddTail: a new key hangs from the tail, so it joins the chain only if the tail is on it. */
  function Added<K(==), V>(c: Clock<K, V>, key: K, value: V): Step<Clock<K, V>> {
    var e := Entry(key, value, false);
    if key in c.index then Panic
    else Ok(c.(chain := if c.loose then c.chain else c.chain + [Link(e, true)], index := c.index[key := e]))
  }

  /** RemoveHead: the key of the first node leaves the map, whether or not the map led to that node. */
  function Popped<K(==), V>(c: Clock<K, V>): Clock<K, V>
    requires c.chain != []
  {
    var index := c.index - {c.chain[0].entry.key};
    Clock(Marked(c.chain[1..], index), index, c.loose && |c.chain| > 1)
  }

  function WithBit<K(==), V>(chain: seq<Link<K, V>>, key: K): (r: seq<Link<K, V>>)
    ensures |r| == |chain|
    ensures forall i {:trigger r[i]} :: 0 <= i < |r| ==>
      r[i] == if chain[i].live && chain[i].entry.key == key then chain[i].(entry := chain[i].entry.(bit := true))
        else chain[i]
  {
    seq(|chain|, i requires 0 <= i < |chain| =>
      if chain[i].live && chain[i].entry.key == key then chain[i].(entry := chain[i].entry.(bit := true)) else chain[i])
  }

  /** SetPageReference. */
  function Referenced<K(==), V>(c: Clock<K, V>, key: K): Clock<K, V> {
    if key !in c.index then c
    else c.(chain := WithBit(c.chain, key), index := c.index[key := c.index[key].(bit := true)])
  }

  /** Which nodes of the chain RemoveAll picks, and the map it leaves. */
  function Picks<K(==), V>(chain: seq<Link<K, V>>, index: map<K, Entry<K, V>>, rf: Removal<K, V>): (r: seq<bool>)
    ensures |r| == |chain|
  {
    if chain == [] then [] else
    var key := chain[0].entry.key;
    var picked := rf(key, Under(index, key));
    [picked] + Picks(chain[1..], if picked then index - {key} else index, rf)
  }

  function IndexLeft<K(==), V>(chain: seq<Link<K, V>>, index: map<K, Entry<K, V>>,
                               rf: Removal<K, V>): map<K, Entry<K, V>> {
    if chain == [] then index else
    var key := chain[0].entry.key;
    IndexLeft(chain[1..], if rf(key, Under(index, key)) then index - {key} else index, rf)
  }

  /** RemoveAll: the chain becomes the walk, and picking the last node moves the tail to the one before it,
      wherever that is now. */
  function Swept<K(==), V>(c: Clock<K, V>, rf: Removal<K, V>): Clock<K, V> {
    var picks, index := Picks(c.chain, c.index, rf), IndexLeft(c.chain, c.index, rf);
    Clock(Marked(Walk(c.chain, picks), index), index,
          if picks == [] || !picks[|picks| - 1] then c.loose else EndsOnLast(picks))
  }

  /** What a sweep that has `index` left after `n` nodes goes on to pick and to leave. */
  ghost predicate Ahead<K, V>(chain: seq<Link<K, V>>, index: map<K, Entry<K, V>>, rf: Removal<K, V>, picks: seq<bool>,
                              left: map<K, Entry<K, V>>, n: nat)
    requires n <= |chain| == |picks|
  {
    picks[n..] == Picks(chain[n..], index, rf) && left == IndexLeft(chain[n..], index, rf)
  }

  lemma {:induction false} AheadStep<K, V>(chain: seq<Link<K, V>>, index: map<K, Entry<K, V>>, rf: Removal<K, V>,
                                           picks: seq<bool>, left: map<K, Entry<K, V>>, n: nat)
    requires n < |chain| == |picks| && Ahead(chain, index, rf, picks, left, n)
    ensures var key := chain[n].entry.key;
      && picks[n] == rf(key, Under(index, key))
      && Ahead(chain, if picks[n] then index - {key} else index, rf, picks, left, n + 1)
  {
    assert chain[n..][0] == chain[n] && chain[n..][1..] == chain[n + 1..];
    assert picks[n..][0] == picks[n] && picks[n..][1..] == picks[n + 1..];
  }

  lemma {:induction false} AheadStarts<K, V>(chain: seq<Link<K, V>>, index: map<K, Entry<K, V>>, rf: Removal<K, V>)
    ensures Ahead(chain, index, rf, Picks(chain, index, rf), IndexLeft(chain, index, rf), 0)
  {
    var picks := Picks(chain, index, rf);
    assert chain[0..] == chain && picks[0..] == picks;
  }

  lemma {:induction false} AheadEnds<K, V>(chain: seq<Link<K, V>>, index: map<K, Entry<K, V>>, rf: Removal<K, V>,
                                           picks: seq<bool>, left: map<K, Entry<K, V>>)
    requires |chain| == |picks| && Ahead(chain, index, rf, picks, left, |chain|)
    ensures left == index
  {
  }

  // ---- Clocks as linked nodes

  class Node<K, V> {
    const key: K
    const value: V
    var bit: bool
    var next: Node?<K, V>

    constructor (key: K, value: V)
      ensures this.key == key && this.value == value && !bit && next == null
    {
      this.key, this.value, this.bit, this.next := key, value, false, null;
    }

    function Snapshot(): Entry<K, V>
      reads this`bit
    {
      Entry(key, value, bit)
    }
  }

  ghost function At<K, V>(nodes: seq<Node<K, V>>, i: int): Node?<K, V> {
    if 0 <= i < |nodes| then nodes[i] else null
  }

  ghost predicate LinkOk<K, V>(nodes: seq<Node<K, V>>, i: nat)
    requires i < |nodes|
    reads {nodes[i]}`next
  {
    nodes[i].next == At(nodes, i + 1)
  }

  /** Where the link out of place `j` leads once the first `n` places have been visited by RemoveAll. */
  ghost predicate SweptLink<K, V>(nodes: seq<Node<K, V>>, picks: seq<bool>, n: nat, j: nat)
    requires j < |nodes| && n <= |picks|
    reads {nodes[j]}`next
  {
    nodes[j].next == At(nodes, Beyond(picks[..n], j + 1))
  }

  ghost predicate SweptLinks<K, V>(nodes: seq<Node<K, V>>, picks: seq<bool>, n: nat)
    requires n <= |picks|
    reads nodes
  {
    forall j {:trigger SweptLink(nodes, picks, n, j)} :: 0 <= j < |nodes| ==> SweptLink(nodes, picks, n, j)
  }

  /** `index` is what the map holds. */
  ghost predicate Mirrors<K, V>(index: map<K, Entry<K, V>>, keyMap: map<K, Node<K, V>>)
    reads keyMap.Values`bit
  {
    && index.Keys == keyMap.Keys
    && forall k {:trigger keyMap[k]} :: k in keyMap ==> keyMap[k].key == k && index[k] == keyMap[k].Snapshot()
  }

  /** What the chain and the map make of a node. */
  ghost function LinkOf<K, V>(node: Node<K, V>, keyMap: map<K, Node<K, V>>): Link<K, V>
    reads node`bit
  {
    Link(node.Snapshot(), node.key in keyMap && keyMap[node.key] == node)
  }

  ghost predicate LinkedAs<K, V>(node: Node<K, V>, keyMap: map<K, Node<K, V>>, link: Link<K, V>)
    reads node`bit
  {
    link == LinkOf(node, keyMap)
  }

  /** Following next from `head` runs through exactly `nodes`. */
  ghost predicate Chained<K, V>(head: Node?<K, V>, nodes: seq<Node<K, V>>)
    reads nodes`next
  {
    head == At(nodes, 0) && forall i {:trigger LinkOk(nodes, i)} :: 0 <= i < |nodes| ==> LinkOk(nodes, i)
  }

  /** `chain` says of each node what it holds and whether the map leads to it. */
  ghost predicate Described<K, V>(nodes: seq<Node<K, V>>, keyMap: map<K, Node<K, V>>, chain: seq<Link<K, V>>)
    reads nodes`bit
  {
    |chain| == |nodes| && forall i {:trigger chain[i]} :: 0 <= i < |nodes| ==> LinkedAs(nodes[i], keyMap, chain[i])
  }

  lemma {:induction false} DescribedAdd<K, V>(nodes: seq<Node<K, V>>, keyMap: map<K, Node<K, V>>,
                                              chain: seq<Link<K, V>>, addMe: Node<K, V>)
    requires Described(nodes, keyMap, chain) && addMe.key !in keyMap && addMe !in nodes
    ensures Described(nodes, keyMap[addMe.key := addMe], chain)
    ensures Described(nodes + [addMe], keyMap[addMe.key := addMe], chain + [Link(addMe.Snapshot(), true)])
  {
    forall i | 0 <= i < |nodes| ensures LinkedAs(nodes[i], keyMap[addMe.key := addMe], chain[i]) {
      assert LinkedAs(nodes[i], keyMap, chain[i]);
    }
  }

  lemma {:induction false} MirrorsAdd<K, V>(index: map<K, Entry<K, V>>, keyMap: map<K, Node<K, V>>, addMe: Node<K, V>)
    requires Mirrors(index, keyMap)
    ensures Mirrors(index[addMe.key := addMe.Snapshot()], keyMap[addMe.key := addMe])
  {
  }

  /** Taking a key out of the map leaves the nodes in place. */
  lemma {:induction false} WithoutKey<K, V>(nodes: seq<Node<K, V>>, keyMap: map<K, Node<K, V>>, chain: seq<Link<K, V>>,
                                            index: map<K, Entry<K, V>>, key: K)
    requires Described(nodes, keyMap, chain) && Mirrors(index, keyMap) && nodes != []
    ensures Mirrors(index - {key}, keyMap - {key})
    ensures Described(nodes[1..], keyMap - {key}, Marked(chain[1..], index - {key}))
  {
    var chain' := Marked(chain[1..], index - {key});
    forall i | 0 <= i < |nodes| - 1 ensures LinkedAs(nodes[1..][i], keyMap - {key}, chain'[i]) {
      assert LinkedAs(nodes[i + 1], keyMap, chain[i + 1]);
    }
  }

  lemma {:induction false} ChainedTail<K, V>(head: Node?<K, V>, nodes: seq<Node<K, V>>)
    requires Chained(head, nodes) && Distinct(nodes) && nodes != []
    ensures head == nodes[0] && Chained(nodes[0].next, nodes[1..]) && Distinct(nodes[1..])
  {
    var rest := nodes[1..];
    assert LinkOk(nodes, 0);
    forall i | 0 <= i < |rest| ensures LinkOk(rest, i) { assert LinkOk(nodes, i + 1); }
    forall i, j | 0 <= i < |rest| && 0 <= j < |rest| ensures Differ(rest, i, j) { assert Differ(nodes, i + 1, j + 1); }
  }

  /** After a whole sweep the links lead exactly along the walk. */
  lemma {:induction false} SweptChain<K, V>(nodes: seq<Node<K, V>>, picks: seq<bool>)
    requires |nodes| == |picks| && SweptLinks(nodes, picks, |picks|)
    ensures Chained(At(nodes, Beyond(picks, 0)), Walk(nodes, picks))
  {
    var w, l := Walk(nodes, picks), Landings(picks, 0);
    assert picks[..|picks|] == picks;
    forall i | 0 <= i < |w| ensures LinkOk(w, i) {
      assert SweptLink(nodes, picks, |picks|, l[i]);
      LandingStep(picks, 0, i);
    }
  }

  /** The walk is described by the walk of the description, with what has left the map marked. */
  lemma {:induction false} WalkDescribed<K, V>(nodes: seq<Node<K, V>>,
                                               keyMap0: map<K, Node<K, V>>, keyMap: map<K, Node<K, V>>,
                                               chain: seq<Link<K, V>>, picks: seq<bool>, index: map<K, Entry<K, V>>)
    requires Described(nodes, keyMap0, chain) && |picks| == |nodes| && index.Keys == keyMap.Keys
    requires forall k {:trigger keyMap[k]} :: k in keyMap ==> k in keyMap0 && keyMap[k] == keyMap0[k]
    ensures Described(Walk(nodes, picks), keyMap, Marked(Walk(chain, picks), index))
    ensures forall i {:trigger Walk(nodes, picks)[i]} :: 0 <= i < |Walk(nodes, picks)| ==>
      Walk(nodes, picks)[i] in nodes
  {
    var w, c, l := Walk(nodes, picks), Marked(Walk(chain, picks), index), Landings(picks, 0);
    forall i | 0 <= i < |w| ensures LinkedAs(w[i], keyMap, c[i]) && w[i] in nodes {
      assert LinkedAs(nodes[l[i]], keyMap0, chain[l[i]]);
    }
  }

  /** The tail ends the chain or, when loose, is off it. */
  ghost predicate TailOk<K, V>(nodes: seq<Node<K, V>>, tail: Node?<K, V>, loose: bool) {
    && (nodes == [] <==> tail == null)
    && (tail in nodes ==> tail == nodes[|nodes| - 1])
    && (loose <==> tail != At(nodes, |nodes| - 1))
  }

  /** Where a sweep leaves the tail, against where the walk ends. */
  lemma {:induction false} SweptTail<K, V>(nodes: seq<Node<K, V>>, picks: seq<bool>, tail: Node?<K, V>, loose: bool)
    requires |nodes| == |picks| && Distinct(nodes) && TailOk(nodes, tail, loose)
    ensures var last := picks != [] && picks[|picks| - 1];
      TailOk(Walk(nodes, picks), if last then At(nodes, |nodes| - 2) else tail,
             if last then EndsOnLast(picks) else loose)
  {
    var m, w, l := |nodes|, Walk(nodes, picks), Landings(picks, 0);
    WalkEnds(picks, 0);
    forall i | 0 <= i < |w| && m >= 2 && picks[m - 1] && w[i] == nodes[m - 2] ensures i == |w| - 1 {
      assert Differ(nodes, l[i], m - 2);
      LandingStep(picks, 0, i);
    }
    if m >= 2 { assert Differ(nodes, m - 2, m - 1); }
    if picks != [] && !picks[m - 1] {
      assert w[|w| - 1] == nodes[m - 1];
      forall i | 0 <= i < |w| && w[i] == tail ensures i == |w| - 1 {
        assert tail in nodes && Differ(nodes, l[i], m - 1);
        LandingStep(picks, 0, i);
      }
    }
  }

  /** Chain, map and tail are those of the clock, whole or damaged. */
  ghost predicate IsClock<K, V>(head: Node?<K, V>, tail: Node?<K, V>, keyMap: map<K, Node<K, V>>,
                                nodes: seq<Node<K, V>>, clock: Clock<K, V>)
    reads nodes, keyMap.Values`bit
  {
    && Chained(head, nodes) && Distinct(nodes) && Described(nodes, keyMap, clock.chain)
    && Mirrors(clock.index, keyMap) && TailOk(nodes, tail, clock.loose)
  }

  class CarClockData<K(==), V> {
    var keyMap: map<K, Node<K, V>>
    var head: Node?<K, V>
    var tail: Node?<K, V>
    /** The chain from the head, and the clock as a value. */
    ghost var nodes: seq<Node<K, V>>
    ghost var clock: Clock<K, V>
    ghost var Repr: set<object>

    ghost predicate Owned()
      reads this
    {
      && this in Repr && (forall i {:trigger nodes[i]} :: 0 <= i < |nodes| ==> nodes[i] in Repr)
      && (forall k {:trigger keyMap[k]} :: k in keyMap ==> keyMap[k] in Repr)
      && (tail != null ==> tail in Repr)
    }

    ghost predicate Valid()
      reads this, Repr
    {
      Owned() && IsClock(head, tail, keyMap, nodes, clock)
    }

    constructor ()
      ensures Valid() && Repr == {this} && clock == NoClock()
    {
      keyMap, head, tail, nodes, clock, Repr := map[], null, null, [], NoClock(), {this};
    }

    /** Answers false where the source panics. */
    method AddTail(key: K, value: V) returns (ok: bool)
      requires Valid()
      modifies Repr
      ensures Valid() && fresh(Repr - old(Repr))
      ensures var r := Added(old(clock), key, value);
        ok == r.Ok? && clock == if ok then r.value else old(clock)
    {
      if key in keyMap { return false; }
      ok := true;
      Append(key, value);
    }

    method Append(key: K, value: V)
      requires Valid() && key !in keyMap && key !in clock.index
      modifies Repr
      ensures Valid() && fresh(Repr - old(Repr)) && clock == Added(old(clock), key, value).value
    {
      hide IsClock;
      var addMe := new Node(key, value);
      ghost var nodes' := if clock.loose then nodes else nodes + [addMe];
      ghost var keyMap', clock' := keyMap[key := addMe], Added(clock, key, value).value;
      Joins(addMe, nodes', keyMap', clock');
      LinkTail(addMe, nodes', keyMap', clock');
      keyMap := keyMap[key := addMe];
      nodes, clock, Repr := nodes', clock', Repr + {addMe};
    }

    lemma {:induction false} Joins(addMe: Node<K, V>, nodes': seq<Node<K, V>>, keyMap': map<K, Node<K, V>>,
                                   clock': Clock<K, V>)
      requires Valid() && addMe !in Repr && addMe.key !in keyMap && !addMe.bit
      requires nodes' == if clock.loose then nodes else nodes + [addMe]
      requires keyMap' == keyMap[addMe.key := addMe] && clock' == Added(clock, addMe.key, addMe.value).value
      ensures Distinct(nodes') && Described(nodes', keyMap', clock'.chain) && Mirrors(clock'.index, keyMap')
    {
      if !clock.loose { DistinctSnoc(nodes, addMe); }
      DescribedAdd(nodes, keyMap, clock.chain, addMe);
      MirrorsAdd(clock.index, keyMap, addMe);
    }

    /** The pointer surgery of AddTail. */
    method LinkTail(addMe: Node<K, V>, ghost nodes': seq<Node<K, V>>, ghost keyMap': map<K, Node<K, V>>,
                    ghost clock': Clock<K, V>)
      requires Valid() && addMe !in Repr && addMe.next == null
      requires nodes' == (if clock.loose then nodes else nodes + [addMe]) && clock'.loose == clock.loose
      requires Distinct(nodes') && Described(nodes', keyMap', clock'.chain) && Mirrors(clock'.index, keyMap')
      modifies this`head, this`tail, (if tail == null then {} else {tail})`next
      ensures tail == addMe && IsClock(head, tail, keyMap', nodes', clock')
    {
      hide Described, Mirrors;
      if tail == null {
        head, tail := addMe, addMe;
      } else {
        tail.next := addMe;
        tail := addMe;
      }
      forall i | 0 <= i < |nodes'| ensures LinkOk(nodes', i) {
        if i < |nodes| { assert old(LinkOk(nodes, i)) && Differ(nodes, i, |nodes| - 1); }
      }
    }

    method Get(key: K) returns (r: Option<V>)
      requires Valid()
      ensures r == if key in clock.index then Some(clock.index[key].value) else None
    {
      r := if key in keyMap then Some(keyMap[key].value) else None;
    }

    method Size() returns (size: nat)
      requires Valid()
      ensures size == |clock.index|
    {
      size := |keyMap|;
      assert |keyMap.Keys| == |clock.index.Keys|;
    }

    /** Answers None where the source panics. */
    method GetPageReferenceOfHead() returns (r: Option<bool>)
      requires Valid()
      ensures r == if clock.chain == [] then None else Some(clock.chain[0].entry.bit)
    {
      if head == null { return None; }
      r := Some(head.bit);
      assert LinkedAs(nodes[0], keyMap, clock.chain[0]);
    }

    method RemoveHead() returns (r: Option<Entry<K, V>>)
      requires Valid()
      modifies Repr
      ensures Valid() && Repr == old(Repr)
      ensures if old(clock).chain == [] then r == None && clock == old(clock)
              else r == Some(old(clock).chain[0].entry) && clock == Popped(old(clock))
    {
      EmptyChain();
      hide IsClock;
      var toRemove := head;
      if toRemove == null { return None; }
      FirstLeaves();
      keyMap := keyMap - {toRemove.key};
      head := toRemove.next;
      if head == null { tail := null; }
      r := Some(toRemove.Snapshot());
      nodes, clock := nodes[1..], Popped(clock);
    }

    lemma {:induction false} EmptyChain()
      requires Valid()
      ensures |clock.chain| == |nodes| && head == At(nodes, 0)
    {
    }

    lemma {:induction false} FirstLeaves()
      requires Valid() && nodes != []
      ensures head == nodes[0] && clock.chain != [] && clock.chain[0].entry == head.Snapshot()
      ensures IsClock(head.next, if head.next == null then null else tail, keyMap - {head.key},
                      nodes[1..], Popped(clock))
    {
      ChainedTail(head, nodes);
      WithoutKey(nodes, keyMap, clock.chain, clock.index, nodes[0].key);
      assert LinkedAs(nodes[0], keyMap, clock.chain[0]);
      hide Described, Distinct, Mirrors;
      var rest := nodes[1..];
      assert tail in rest ==> tail in nodes;
    }

    method SetPageReference(key: K)
      requires Valid()
      modifies Repr
      ensures Valid() && Repr == old(Repr)
      ensures clock == Referenced(old(clock), key)
    {
      if key !in keyMap { return; }
      SetBit(keyMap[key]);
      hide IsClock;
      clock := Referenced(clock, key);
    }

    method SetBit(node: Node<K, V>)
      requires Valid() && node.key in keyMap && keyMap[node.key] == node
      modifies node`bit
      ensures IsClock(head, tail, keyMap, nodes, Referenced(clock, node.key))
    {
      node.bit := true;
      ghost var chain' := WithBit(clock.chain, node.key);
      forall i | 0 <= i < |nodes| ensures LinkedAs(nodes[i], keyMap, chain'[i]) {
        assert old(LinkedAs(nodes[i], keyMap, clock.chain[i]));
      }
    }

    /** The pointer-walking loop as written, which leaves `prior` on a node it has just removed. */
    method RemoveAll(rf: Removal<K, V>)
      requires Valid()
      modifies Repr
      ensures Valid() && Repr == old(Repr)
      ensures clock == Swept(old(clock), rf)
    {
      ghost var picks := Picks(clock.chain, clock.index, rf);
      ghost var keyMap0, tail0 := keyMap, tail;
      Sweep(rf, picks);
      Refile(rf, picks, keyMap0, tail0);
    }

    /** What a sweep over the first `n` nodes has made of links, ends and map. */
    ghost predicate SweptTo(picks: seq<bool>, index: map<K, Entry<K, V>>, n: nat,
                            keyMap0: map<K, Node<K, V>>, tail0: Node?<K, V>)
      requires n <= |picks|
      reads this, nodes, keyMap.Values
    {
      && SweptLinks(nodes, picks, n) && head == At(nodes, Beyond(picks[..n], 0))
      && Mirrors(index, keyMap)
      && (forall k {:trigger keyMap[k]} :: k in keyMap ==> k in keyMap0 && keyMap[k] == keyMap0[k])
      && tail == (if 0 < n == |nodes| && picks[n - 1] then At(nodes, n - 2) else tail0)
    }

    /** The loop of RemoveAll. */
    method Sweep(rf: Removal<K, V>, ghost picks: seq<bool>)
      requires Valid() && picks == Picks(clock.chain, clock.index, rf)
      modifies this`head, this`tail, this`keyMap, nodes`next
      ensures SweptTo(picks, IndexLeft(clock.chain, clock.index, rf), |picks|, old(keyMap), old(tail))
    {
      ghost var n, index, keyMap0, tail0 := 0, clock.index, keyMap, tail;
      ghost var left := IndexLeft(clock.chain, clock.index, rf);
      StartSweep(picks);
      AheadStarts(clock.chain, clock.index, rf);
      hide Valid, SweptTo, Ahead, Picks, IndexLeft, Distinct;
      var dot := head;
      var prior: Node?<K, V> := null;
      while dot != null
        invariant 0 <= n <= |nodes| && dot == At(nodes, n) && prior == At(nodes, n - 1)
        invariant SweptTo(picks, index, n, keyMap0, tail0) && Ahead(clock.chain, index, rf, picks, left, n)
        decreases |nodes| - n
      {
        AheadStep(clock.chain, index, rf, picks, left, n);
        var next := VisitNode(dot, prior, rf, picks, index, n, keyMap0, tail0);
        index := if picks[n] then index - {dot.key} else index;
        prior, dot := dot, next;
        n := n + 1;
      }
      AheadEnds(clock.chain, index, rf, picks, left);
    }

    lemma {:induction false} StartSweep(picks: seq<bool>)
      requires Valid() && |picks| == |nodes|
      ensures SweptTo(picks, clock.index, 0, keyMap, tail) && head == At(nodes, 0) && Distinct(nodes)
      ensures |clock.chain| == |nodes| && forall i :: 0 <= i < |nodes| ==> nodes[i].key == clock.chain[i].entry.key
    {
      forall i | 0 <= i < |nodes| ensures SweptLink(nodes, picks, 0, i) && nodes[i].key == clock.chain[i].entry.key {
        assert LinkOk(nodes, i) && LinkedAs(nodes[i], keyMap, clock.chain[i]);
      }
    }

    /** One iteration of RemoveAll. */
    method VisitNode(dot: Node<K, V>, prior: Node?<K, V>, rf: Removal<K, V>, ghost picks: seq<bool>,
                     ghost index: map<K, Entry<K, V>>, ghost n: nat,
                     ghost keyMap0: map<K, Node<K, V>>, ghost tail0: Node?<K, V>) returns (next: Node?<K, V>)
      requires n < |nodes| == |picks| && SweptTo(picks, index, n, keyMap0, tail0) && Distinct(nodes)
      requires dot == nodes[n] && prior == At(nodes, n - 1) && picks[n] == rf(dot.key, Under(index, dot.key))
      modifies this`head, this`tail, this`keyMap, nodes`next
      ensures SweptTo(picks, if picks[n] then index - {dot.key} else index, n + 1, keyMap0, tail0)
      ensures next == At(nodes, n + 1)
    {
      var val := if dot.key in keyMap then Some(keyMap[dot.key].Snapshot()) else None;
      assert SweptLink(nodes, picks, n, n);
      if rf(dot.key, val) {
        Unhook(dot, prior, picks, n);
        keyMap := keyMap - {dot.key};
      } else {
        PassedLinks(picks, n);
      }
      next := dot.next;
    }

    /** The pointer surgery of RemoveAll. */
    method Unhook(dot: Node<K, V>, prior: Node?<K, V>, ghost picks: seq<bool>, ghost n: nat)
      requires n < |nodes| == |picks| && SweptLinks(nodes, picks, n) && head == At(nodes, Beyond(picks[..n], 0))
      requires Distinct(nodes) && dot == nodes[n] && prior == At(nodes, n - 1) && picks[n]
      modifies this`head, this`tail, nodes`next
      ensures SweptLinks(nodes, picks, n + 1) && head == At(nodes, Beyond(picks[..n + 1], 0))
      ensures tail == if n + 1 == |nodes| then prior else old(tail)
      ensures dot.next == At(nodes, n + 1)
    {
      assert SweptLink(nodes, picks, n, n);
      if prior == null { head := dot.next; } else { prior.next := dot.next; }
      if dot.next == null { tail := prior; }
      ghost var n' := n + 1;
      forall j | 0 <= j < |nodes| ensures SweptLink(nodes, picks, n', j) {
        assert old(SweptLink(nodes, picks, n, j));
        if n > 0 { assert Differ(nodes, j, n - 1); }
      }
    }

    lemma {:induction false} PassedLinks(picks: seq<bool>, n: nat)
      requires n < |nodes| == |picks| && SweptLinks(nodes, picks, n) && !picks[n]
      ensures SweptLinks(nodes, picks, n + 1) && nodes[n].next == At(nodes, n + 1)
    {
      assert SweptLink(nodes, picks, n, n);
      var n' := n + 1;
      forall j | 0 <= j < |nodes| ensures SweptLink(nodes, picks, n', j) {
        assert SweptLink(nodes, picks, n, j);
      }
    }

    /** After the sweep the walk is the chain. */
    ghost method Refile(rf: Removal<K, V>, picks: seq<bool>, keyMap0: map<K, Node<K, V>>, tail0: Node?<K, V>)
      requires Owned() && Distinct(nodes) && Described(nodes, keyMap0, clock.chain)
      requires picks == Picks(clock.chain, clock.index, rf)
      requires SweptTo(picks, IndexLeft(clock.chain, clock.index, rf), |picks|, keyMap0, tail0)
      requires TailOk(nodes, tail0, clock.loose)
      modifies this`nodes, this`clock
      ensures Valid() && clock == Swept(old(clock), rf)
    {
      var nodes', clock' := Walk(nodes, picks), Swept(clock, rf);
      assert picks[..|picks|] == picks;
      SweptChain(nodes, picks);
      WalkDistinct(nodes, picks);
      SweptTail(nodes, picks, tail0, clock.loose);
      WalkDescribed(nodes, keyMap0, keyMap, clock.chain, picks, IndexLeft(clock.chain, clock.index, rf));
      hide TailOk, Chained, Described, Distinct, Walk, WalkFrom, Mirrors;
      assert IsClock(head, tail, keyMap, nodes', clock');
      nodes, clock := nodes', clock';
    }
  }
}
