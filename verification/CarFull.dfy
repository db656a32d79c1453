/** The CAR cache on clocks as they are, whole or damaged. Where no Remove selects two neighbours of a clock
    this is the cache of CarRuns; where one does, map and chain have come apart and the run goes on. */
module CarFull {
  import opened Basics
  import opened Sequences
  import opened CarClock
  import opened Car
  import opened CarPolicy
  import opened CarRuns

  type Cache<K(==), V> = Store<Clock<K, V>, K>

  function NoCache<K(==), V>(): Cache<K, V> { Store(0, NoClock(), NoClock(), [], []) }

  // ---- replace

  /** What the nodes on the chain hold. */
  function OnChain<K(==), V>(c: Clock<K, V>): (r: seq<Entry<K, V>>)
    ensures |r| == |c.chain| && forall i {:trigger r[i]} :: 0 <= i < |r| ==> r[i] == c.chain[i].entry
  {
    seq(|c.chain|, i requires 0 <= i < |c.chain| => c.chain[i].entry)
  }

  lemma {:induction false} ChainAfter<K, V>(c: Clock<K, V>, key: K, value: V)
    ensures c.chain != [] ==> OnChain(Popped(c)) == OnChain(c)[1..]
    ensures Added(c, key, value).Ok? ==> SetBits(OnChain(Added(c, key, value).value)) == SetBits(OnChain(c))
  {
    if key !in c.index && !c.loose {
      var e := Entry(key, value, false);
      assert OnChain(Added(c, key, value).value) == OnChain(c) + [e];
      SetBitsSnoc(OnChain(c), e);
    }
  }

  /** One iteration of replace. The sizes are those of the maps, the heads those of the chains. */
  function TurnOn<K(==), V>(t1: Clock<K, V>, t2: Clock<K, V>, localP: int): (r: Turn<Clock<K, V>, Entry<K, V>>)
    ensures r.Moved? ==> SetBits(OnChain(r.t1)) + SetBits(OnChain(r.t2)) < SetBits(OnChain(t1)) + SetBits(OnChain(t2))
  {
    if |t1.index| >= localP then
      if t1.chain == [] then Stuck else
      var head := t1.chain[0].entry;
      ChainAfter(t1, head.key, head.value);
      ChainAfter(t2, head.key, head.value);
      if !head.bit then Evicted(Popped(t1), t2, head, true)
      else
        var t2' := Added(t2, head.key, head.value);
        if t2'.Panic? then Stuck else Moved(Popped(t1), t2'.value)
    else
      if t2.chain == [] then Stuck else
      var head := t2.chain[0].entry;
      ChainAfter(t2, head.key, head.value);
      ChainAfter(Popped(t2), head.key, head.value);
      if !head.bit then Evicted(t1, Popped(t2), head, false)
      else
        var t2' := Added(Popped(t2), head.key, head.value);
        if t2'.Panic? then Stuck else Moved(t1, t2'.value)
  }

  /** The open-ended loop of replace. It ends on damaged clocks too. */
  function ReplaceOn<K(==), V>(t1: Clock<K, V>, t2: Clock<K, V>, localP: int): Step<Replaced<Clock<K, V>, Entry<K, V>>>
    decreases SetBits(OnChain(t1)) + SetBits(OnChain(t2))
  {
    match TurnOn(t1, t2, localP)
    case Stuck => Panic
    case Evicted(a, b, victim, fromT1) => Ok(Replaced(a, b, victim, fromT1, 1))
    case Moved(a, b) => OneMore(ReplaceOn(a, b, localP))
  }

  // ---- The calls

  function EvictOn<K(==), V>(s: Cache<K, V>): Step<(Cache<K, V>, Entry<K, V>)> {
    var r :- ReplaceOn(s.t1, s.t2, Max(1, s.p));
    Remember(s, r)
  }

  function SpareOn<K(==), V>(s: Cache<K, V>, max: int): Step<(Cache<K, V>, Option<Entry<K, V>>)> {
    if |s.t1.index| + |s.t2.index| >= max then
      var (s1, victim) :- EvictOn(s);
      Ok((s1, Some(victim)))
    else
      Ok((s, None))
  }

  function InsertOn<K(==), V>(s: Cache<K, V>, max: int, key: K, value: V): Step<Cache<K, V>> {
    if !InHistory(s, key) then
      var t1 :- Added(s.t1, key, value);
      Ok(s.(t1 := t1))
    else
      var t2 :- Added(s.t2, key, value);
      Ok(Recalled(s, max, key).(t2 := t2))
  }

  function SettleOn<K(==), V>(s: Cache<K, V>, max: int, key: K, value: V, evicted: bool): Step<Cache<K, V>> {
    InsertOn(if evicted then Trim(s, |s.t1.index|, |s.t2.index|, max, key) else s, max, key, value)
  }

  function RemovedOn<K(==), V>(s: Cache<K, V>, onNode: Removal<K, V>, onKey: K -> bool): Cache<K, V> {
    Store(s.p, Swept(s.t1, onNode), Swept(s.t2, onNode), Keep(s.b1, onKey), Keep(s.b2, onKey))
  }

  /** One call made while the keys in `asks` are being computed. */
  function RunOn<K(==), V>(max: int, s: Cache<K, V>, asks: set<K>, call: Call<K, V>): Step<(Cache<K, V>, Reply<K, V>)>
    decreases call
  {
    match call
    case Clear => Ok((NoCache(), NoReply))
    case Remove(onNode, onKey) => Ok((RemovedOn(s, onNode, onKey), NoReply))
    case Compute(key, nested, answer, destroys) =>
      if key in s.t1.index then Ok((s.(t1 := Referenced(s.t1, key)), Value(s.t1.index[key].value, None)))
      else if key in s.t2.index then Ok((s.(t2 := Referenced(s.t2, key)), Value(s.t2.index[key].value, None)))
      else if key in asks then Ok((s, CycleError))
      else
        var s1 :- RunAllOn(max, s, asks + {key}, nested);
        if answer.None? then Ok((s1, CalculatorError))
        else InstallOn(max, s1, asks + {key}, key, answer.value, destroys)
  }

  /** What a miss does once its calculator has succeeded: evict, let the destructor make its calls, insert. */
  function InstallOn<K(==), V>(max: int, s: Cache<K, V>, asks: set<K>, key: K, value: V,
                               destroys: seq<Call<K, V>>): Step<(Cache<K, V>, Reply<K, V>)>
    decreases destroys, 1
  {
    var (s2, victim) :- SpareOn(s, max);
    var s3 :- if victim.None? then Ok(s2) else RunAllOn(max, s2, asks, destroys);
    var s4 :- SettleOn(s3, max, key, value, victim.Some?);
    Ok((s4, Value(value, victim)))
  }

  function RunAllOn<K(==), V>(max: int, s: Cache<K, V>, asks: set<K>, calls: seq<Call<K, V>>): Step<Cache<K, V>>
    decreases calls, 0
  {
    if calls == [] then Ok(s) else
    var (s1, _) :- RunOn(max, s, asks, calls[0]);
    RunAllOn(max, s1, asks, calls[1..])
  }

  // ---- Whole clocks are sequences of entries

  /** The map leads to every node of the chain and nowhere else, and the tail is the end of the chain. */
  ghost predicate Whole<K, V>(c: Clock<K, V>, es: seq<Entry<K, V>>) {
    && |c.chain| == |es| && (forall i {:trigger c.chain[i]} :: 0 <= i < |es| ==> c.chain[i] == Link(es[i], true))
    && !c.loose && Indexed(c.index, KeysOf(es), es)
  }

  lemma {:induction false} WholeAdded<K, V>(c: Clock<K, V>, es: seq<Entry<K, V>>, key: K, value: V)
    requires Whole(c, es)
    ensures match AddTail(es, key, value) {
      case Panic => Added(c, key, value).Panic?
      case Ok(es') => Added(c, key, value).Ok? && Whole(Added(c, key, value).value, es')
    }
  {
    IndexedKeys(c.index, KeysOf(es), es);
    if key !in KeysOf(es) {
      var e := Entry(key, value, false);
      IndexedAddBack(c.index, KeysOf(es), es, key, e);
      assert KeysOf(es + [e]) == KeysOf(es) + [key];
    }
  }

  lemma {:induction false} WholePopped<K, V>(c: Clock<K, V>, es: seq<Entry<K, V>>)
    requires Whole(c, es) && es != []
    ensures Whole(Popped(c), es[1..])
  {
    IndexedWithout(c.index, KeysOf(es), es, 0);
    assert Without(es, 0) == es[1..] && Without(KeysOf(es), 0) == KeysOf(es[1..]);
    IndexedKeys(c.index - {es[0].key}, KeysOf(es[1..]), es[1..]);
    hide Indexed;
    assert forall i :: 0 <= i < |es[1..]| ==> KeysOf(es[1..])[i] == es[1..][i].key;
  }

  lemma {:induction false} WholeHeld<K, V>(c: Clock<K, V>, es: seq<Entry<K, V>>, key: K)
    requires Whole(c, es)
    ensures (key in c.index <==> ValueOf(es, key).Some?) &&
      (key in c.index ==> ValueOf(es, key) == Some(c.index[key].value))
  {
    IndexedKeys(c.index, KeysOf(es), es);
    ValueOfAt(es, key);
    if key in c.index {
      var i :| 0 <= i < |es| && KeysOf(es)[i] == key;
      assert IndexOk(c.index, KeysOf(es), es, i);
    }
  }

  lemma {:induction false} WholeReferenced<K, V>(c: Clock<K, V>, es: seq<Entry<K, V>>, key: K)
    requires Whole(c, es)
    ensures Whole(Referenced(c, key), Touch(es, key))
  {
    var es', index' := Touch(es, key), Referenced(c, key).index;
    assert KeysOf(es') == KeysOf(es);
    IndexedKeys(c.index, KeysOf(es), es);
    assert index'.Keys == c.index.Keys && |index'| == |index'.Keys|;
    forall i | 0 <= i < |es|
      ensures IndexOk(index', KeysOf(es'), es', i) && Referenced(c, key).chain[i] == Link(es'[i], true)
    {
      assert IndexOk(c.index, KeysOf(es), es, i) && c.chain[i] == Link(es[i], true);
    }
  }

  /** A sweep over the rest of a whole clock picks as the filter does and leaves the map of what is kept. */
  lemma {:induction false} SweepWhole<K, V>(chain: seq<Link<K, V>>, index: map<K, Entry<K, V>>, done: seq<Entry<K, V>>,
                                            rest: seq<Entry<K, V>>, rf: Removal<K, V>)
    requires |chain| == |rest| && forall i {:trigger chain[i]} :: 0 <= i < |rest| ==> chain[i].entry == rest[i]
    requires Indexed(index, KeysOf(done + rest), done + rest)
    ensures Picks(chain, index, rf) == Choices(rest, OnEntry(rf))
    ensures var all := done + Keep(rest, OnEntry(rf)); Indexed(IndexLeft(chain, index, rf), KeysOf(all), all)
    decreases |rest|
  {
    if rest == [] {
      assert done + [] == done;
    } else {
      var all, n, e, sel := done + rest, |done|, rest[0], OnEntry(rf);
      SweepStep(done, rest, sel);
      assert IndexOk(index, KeysOf(all), all, n);
      assert Choices(rest, sel) == [sel(e)] + Choices(rest[1..], sel);
      if sel(e) {
        IndexedWithout(index, KeysOf(all), all, n);
        assert Without(KeysOf(all), n) == KeysOf(done + rest[1..]);
        SweepWhole(chain[1..], index - {e.key}, done, rest[1..], rf);
      } else {
        SweepWhole(chain[1..], index, done + [e], rest[1..], rf);
      }
    }
  }

  /** RemoveAll filters a whole clock if and only if it selects no two neighbours; otherwise it leaves a damaged one. */
  lemma {:induction false} WholeSweptIff<K(!new), V(!new)>(c: Clock<K, V>, es: seq<Entry<K, V>>, rf: Removal<K, V>)
    requires Whole(c, es)
    ensures NoNeighbours(es, OnEntry(rf)) ==> Whole(Swept(c, rf), Keep(es, OnEntry(rf)))
    ensures (exists es' :: Whole(Swept(c, rf), es')) <==> NoNeighbours(es, OnEntry(rf))
  {
    assert [] + es == es && [] + Keep(es, OnEntry(rf)) == Keep(es, OnEntry(rf));
    SweepWhole(c.chain, c.index, [], es, rf);
    if NoNeighbours(es, OnEntry(rf)) { SweptStaysWhole(c, es, rf); } else { var w := SweptLeavesStale(c, es, rf); }
  }

  lemma {:induction false} SweptStaysWhole<K, V>(c: Clock<K, V>, es: seq<Entry<K, V>>, rf: Removal<K, V>)
    requires Whole(c, es) && NoNeighbours(es, OnEntry(rf)) && Picks(c.chain, c.index, rf) == Choices(es, OnEntry(rf))
    requires var kept := Keep(es, OnEntry(rf)); Indexed(IndexLeft(c.chain, c.index, rf), KeysOf(kept), kept)
    ensures Whole(Swept(c, rf), Keep(es, OnEntry(rf)))
  {
    var sel, c' := OnEntry(rf), Swept(c, rf);
    var kept, picks := Keep(es, sel), Choices(es, sel);
    assert es[0..] == es;
    WalkKeeps(es, sel, 0);
    KeepMembers(es, sel);
    IndexedKeys(c'.index, KeysOf(kept), kept);
    if EndsOnLast(picks) { EndsUnselected(es, sel); }
    hide Indexed, NoNeighbours, EndsOnLast, Keep;
    forall i | 0 <= i < |kept| ensures c'.chain[i] == Link(kept[i], true) {
      var x := Landings(picks, 0)[i];
      assert c.chain[x] == Link(es[x], true) && Walk(es, picks)[i] == es[x] && KeysOf(kept)[i] == kept[i].key;
    }
  }

  lemma {:induction false} SweptLeavesStale<K, V>(c: Clock<K, V>, es: seq<Entry<K, V>>, rf: Removal<K, V>)
      returns (w: nat)
    requires Whole(c, es) && !NoNeighbours(es, OnEntry(rf)) && Picks(c.chain, c.index, rf) == Choices(es, OnEntry(rf))
    requires var kept := Keep(es, OnEntry(rf)); Indexed(IndexLeft(c.chain, c.index, rf), KeysOf(kept), kept)
    ensures w < |Swept(c, rf).chain| && !Swept(c, rf).chain[w].live
  {
    var sel := OnEntry(rf);
    var kept, picks := Keep(es, sel), Choices(es, sel);
    var i :| 0 < i < |es| && sel(es[i - 1]) && sel(es[i]);
    w := WalkStale(es, sel, 0, i);
    var x := Landings(picks, 0)[w];
    KeepMembers(es, sel);
    IndexedKeys(Swept(c, rf).index, KeysOf(kept), kept);
    forall k | 0 <= k < |kept| ensures KeysOf(kept)[k] != es[x].key {
      var y :| 0 <= y < |es| && es[y] == kept[k];
      assert Differ(KeysOf(es), x, y);
    }
    assert c.chain[x] == Link(es[x], true);
  }

  // ---- As long as nothing is damaged, this is the cache of CarRuns

  ghost predicate Stands<K, V>(f: Cache<K, V>, s: State<K, V>) {
    f.p == s.p && f.b1 == s.b1 && f.b2 == s.b2 && Whole(f.t1, s.t1) && Whole(f.t2, s.t2)
  }

  lemma {:induction false} WholeTurn<K, V>(t1: Clock<K, V>, t2: Clock<K, V>,
                                           a: seq<Entry<K, V>>, b: seq<Entry<K, V>>, localP: int)
    requires localP >= 1 && Whole(t1, a) && Whole(t2, b)
    ensures match TurnOf(a, b, localP) {
      case Stuck => TurnOn(t1, t2, localP).Stuck?
      case Moved(a', b') => var r := TurnOn(t1, t2, localP); r.Moved? && Whole(r.t1, a') && Whole(r.t2, b')
      case Evicted(a', b', victim, fromT1) =>
        var r := TurnOn(t1, t2, localP);
        r.Evicted? && Whole(r.t1, a') && Whole(r.t2, b') && r.victim == victim && r.fromT1 == fromT1
    }
  {
    assert |t1.index| == |a|;
    if |a| >= localP {
      assert t1.chain[0].entry == a[0];
      WholePopped(t1, a);
      WholeAdded(t2, b, a[0].key, a[0].value);
    } else if b != [] {
      assert t2.chain[0].entry == b[0];
      WholePopped(t2, b);
      WholeAdded(Popped(t2), b[1..], b[0].key, b[0].value);
    }
    hide Whole;
  }

  /** Two results of replace, on whole clocks and on the sequences they are. */
  ghost predicate SameReplaced<K, V>(r: Step<Replaced<Clock<K, V>, Entry<K, V>>>,
                                     q: Step<Replaced<seq<Entry<K, V>>, Entry<K, V>>>) {
    match q
    case Panic => r.Panic?
    case Ok(x) =>
      && r.Ok? && Whole(r.value.t1, x.t1) && Whole(r.value.t2, x.t2)
      && r.value.victim == x.victim && r.value.fromT1 == x.fromT1 && r.value.rounds == x.rounds
  }

  lemma {:induction false} ReplaceAgrees<K, V>(t1: Clock<K, V>, t2: Clock<K, V>,
                                               a: seq<Entry<K, V>>, b: seq<Entry<K, V>>, localP: int)
    requires localP >= 1 && Whole(t1, a) && Whole(t2, b)
    ensures SameReplaced(ReplaceOn(t1, t2, localP), ReplaceLoop(a, b, localP))
    decreases SetBits(a) + SetBits(b)
  {
    hide Whole, TurnOf, TurnOn;
    WholeTurn(t1, t2, a, b, localP);
    var turn, turn' := TurnOf(a, b, localP), TurnOn(t1, t2, localP);
    if turn.Moved? { ReplaceAgrees(turn'.t1, turn'.t2, turn.t1, turn.t2, localP); }
  }

  lemma {:induction false} WholeSizes<K, V>(f: Cache<K, V>, s: State<K, V>)
    requires Stands(f, s)
    ensures |f.t1.index| == |s.t1| && |f.t2.index| == |s.t2|
  {
  }

  lemma {:induction false} EvictAgrees<K, V>(f: Cache<K, V>, s: State<K, V>)
    requires Stands(f, s)
    ensures match Evict(s) {
      case Panic => EvictOn(f).Panic?
      case Ok((s', victim)) => EvictOn(f).Ok? && Stands(EvictOn(f).value.0, s') && EvictOn(f).value.1 == victim
    }
  {
    ReplaceAgrees(f.t1, f.t2, s.t1, s.t2, Max(1, s.p));
    hide ReplaceOn, ReplaceLoop, Whole;
  }

  lemma {:induction false} SpareAgrees<K, V>(f: Cache<K, V>, s: State<K, V>, max: int)
    requires Stands(f, s)
    ensures match Spare(s, max) {
      case Panic => SpareOn(f, max).Panic?
      case Ok((s', victim)) => SpareOn(f, max).Ok? && Stands(SpareOn(f, max).value.0, s') &&
        SpareOn(f, max).value.1 == victim
    }
  {
    WholeSizes(f, s);
    EvictAgrees(f, s);
    hide Whole, EvictOn, Evict;
  }

  lemma {:induction false} InsertAgrees<K, V>(f: Cache<K, V>, s: State<K, V>, max: int, key: K, value: V)
    requires Stands(f, s)
    ensures match Insert(s, max, key, value) {
      case Panic => InsertOn(f, max, key, value).Panic?
      case Ok(s') => InsertOn(f, max, key, value).Ok? && Stands(InsertOn(f, max, key, value).value, s')
    }
  {
    WholeAdded(f.t1, s.t1, key, value);
    WholeAdded(f.t2, s.t2, key, value);
    hide Whole, Drop, Grown, Shrunk;
  }

  lemma {:induction false} SettleAgrees<K, V>(f: Cache<K, V>, s: State<K, V>, max: int, key: K, value: V, evicted: bool)
    requires Stands(f, s)
    ensures match Settle(s, max, key, value, evicted) {
      case Panic => SettleOn(f, max, key, value, evicted).Panic?
      case Ok(s') =>
        SettleOn(f, max, key, value, evicted).Ok? && Stands(SettleOn(f, max, key, value, evicted).value, s')
    }
  {
    WholeSizes(f, s);
    hide Whole;
    var f1 := if evicted then Trim(f, |f.t1.index|, |f.t2.index|, max, key) else f;
    var s1 := if evicted then Trim(s, |s.t1|, |s.t2|, max, key) else s;
    assert Stands(f1, s1);
    InsertAgrees(f1, s1, max, key, value);
    hide Stands, InsertOn, Insert;
  }

  /** The same run, in both models. */
  ghost predicate SameRun<K, V>(r: Step<(Cache<K, V>, Reply<K, V>)>, o: Outcome<K, V>) {
    && (o.Panicked? ==> r.Panic?)
    && (o.Finished? ==> r.Ok? && Stands(r.value.0, o.state) && r.value.1 == o.reply)
  }

  lemma {:induction false} HitAgrees<K, V>(f: Cache<K, V>, s: State<K, V>, key: K)
    requires Stands(f, s)
    ensures key in f.t1.index <==> ValueOf(s.t1, key).Some?
    ensures key in f.t2.index <==> ValueOf(s.t2, key).Some?
    ensures key in f.t1.index ==> ValueOf(s.t1, key) == Some(f.t1.index[key].value)
    ensures key in f.t2.index ==> ValueOf(s.t2, key) == Some(f.t2.index[key].value)
    ensures Stands(f.(t1 := Referenced(f.t1, key)), s.(t1 := Touch(s.t1, key)))
    ensures Stands(f.(t2 := Referenced(f.t2, key)), s.(t2 := Touch(s.t2, key)))
  {
    WholeHeld(f.t1, s.t1, key);
    WholeHeld(f.t2, s.t2, key);
    WholeReferenced(f.t1, s.t1, key);
    WholeReferenced(f.t2, s.t2, key);
  }

  /** Up to the first damage, the cache on its clocks does what the cache on sequences does. */
  lemma {:induction false} RunAgrees<K(!new), V(!new)>(max: int, f: Cache<K, V>, s: State<K, V>, asks: set<K>,
                                                       call: Call<K, V>)
    requires Stands(f, s)
    ensures SameRun(RunOn(max, f, asks, call), Run(max, s, asks, call))
    decreases call
  {
    match call
    case Clear => assert Whole(NoClock<K, V>(), []);
    case Remove(onNode, onKey) =>
      WholeSweptIff(f.t1, s.t1, onNode);
      WholeSweptIff(f.t2, s.t2, onNode);
    case Compute(key, nested, answer, destroys) =>
      HitAgrees(f, s, key);
      hide Stands, InstallOn, Install;
      if ValueOf(s.t1, key).None? && ValueOf(s.t2, key).None? && key !in asks {
        RunAllAgrees(max, f, s, asks + {key}, nested);
        var o := RunAll(max, s, asks + {key}, nested);
        if o.Finished? && answer.Some? {
          var f1 := RunAllOn(max, f, asks + {key}, nested).value;
          InstallAgrees(max, f1, o.state, asks + {key}, key, answer.value, destroys);
        }
      }
  }

  lemma {:induction false} InstallAgrees<K(!new), V(!new)>(max: int, f: Cache<K, V>, s: State<K, V>, asks: set<K>,
                                                           key: K, value: V, destroys: seq<Call<K, V>>)
    requires Stands(f, s)
    ensures SameRun(InstallOn(max, f, asks, key, value, destroys), Install(max, s, asks, key, value, destroys))
    decreases destroys, 1
  {
    hide Stands, SpareOn, Spare, SettleOn, Settle, RunOn, Run;
    SpareAgrees(f, s, max);
    if Spare(s, max).Ok? {
      var (f2, victim) := SpareOn(f, max).value;
      var s2 := Spare(s, max).value.0;
      RunAllAgrees(max, f2, s2, asks, destroys);
      var d := if victim.None? then Finished(s2, NoReply) else RunAll(max, s2, asks, destroys);
      if d.Finished? {
        var f3 := if victim.None? then f2 else RunAllOn(max, f2, asks, destroys).value;
        SettleAgrees(f3, d.state, max, key, value, victim.Some?);
      }
    }
  }

  lemma {:induction false} RunAllAgrees<K(!new), V(!new)>(max: int, f: Cache<K, V>, s: State<K, V>, asks: set<K>,
                                                          calls: seq<Call<K, V>>)
    requires Stands(f, s)
    ensures var r, o := RunAllOn(max, f, asks, calls), RunAll(max, s, asks, calls);
      (o.Panicked? ==> r.Panic?) && (o.Finished? ==> r.Ok? && Stands(r.value, o.state))
    decreases calls, 0
  {
    hide Stands;
    if calls != [] {
      RunAgrees(max, f, s, asks, calls[0]);
      var o := Run(max, s, asks, calls[0]);
      if o.Finished? { RunAllAgrees(max, RunOn(max, f, asks, calls[0]).value.0, o.state, asks, calls[1..]); }
    }
  }

  /** A new cache on which no Remove ever selects two neighbours of a clock: no call panics, its clocks stay whole,
      the four lists disjoint, and it is overfull by no more than the depth of the calls of its destructors. If those
      call nothing every bound is kept, and without Remove the directory keeps its shape. */
  lemma {:induction false} NewCacheBehaves<K(!new), V(!new)>(max: int, calls: seq<Call<K, V>>)
    requires max >= 1
    ensures var r, o := RunAllOn(max, NoCache(), {}, calls), RunAll(max, Empty(), {}, calls);
      && !o.Panicked?
      && (o.Finished? ==> r.Ok? && Stands(r.value, o.state) && Sound(o.state, max))
      && (o.Finished? ==> Total(o.state) <= max + DepthAll(calls))
      && (o.Finished? && DepthAll(calls) == 0 ==> Safe(o.state, max))
      && ((forall i :: 0 <= i < |calls| ==> Keeping(calls[i], false)) ==> o.Finished? && Directory(o.state, max))
  {
    EmptySound<K, V>(max, {});
    RunAllSound(max, Empty(), {}, calls);
    if DepthAll(calls) == 0 { RunAllSafe(max, Empty(), {}, calls); }
    RunAllAgrees(max, NoCache(), Empty(), {}, calls);
    if forall i :: 0 <= i < |calls| ==> Keeping(calls[i], false) { RunAllDirectory(max, Empty(), {}, calls, false); }
  }

  /** Whatever happened before, damage included, after Clear the cache is a new one. */
  lemma {:induction false} ClearIsNew<K, V>(max: int, s: Cache<K, V>, calls: seq<Call<K, V>>)
    ensures RunAllOn(max, s, {}, [Clear] + calls) == RunAllOn(max, NoCache(), {}, calls)
  {
    var all := [Clear] + calls;
    assert all[0] == Clear && all[1..] == calls;
  }

  // ---- Transparency, damaged or not

  /** Whenever a calculator succeeds, anywhere in the call, it answers f. */
  ghost predicate Computes<K(!new), V>(call: Call<K, V>, f: K -> V)
    decreases call
  {
    match call
    case Compute(key, nested, answer, destroys) =>
      && (answer.Some? ==> answer.value == f(key))
      && (forall i :: 0 <= i < |nested| ==> Computes(nested[i], f))
      && (forall i :: 0 <= i < |destroys| ==> Computes(destroys[i], f))
    case _ => true
  }

  /** Every value on the chain and in the map is what f gives for its key. */
  ghost predicate Truthful<K(!new), V>(c: Clock<K, V>, f: K -> V) {
    && (forall i {:trigger c.chain[i]} :: 0 <= i < |c.chain| ==> c.chain[i].entry.value == f(c.chain[i].entry.key))
    && (forall k {:trigger c.index[k]} :: k in c.index ==> c.index[k].value == f(k))
  }

  lemma {:induction false} ClockTruthful<K(!new), V>(c: Clock<K, V>, f: K -> V, key: K, value: V)
    requires Truthful(c, f)
    ensures c.chain != [] ==> Truthful(Popped(c), f)
    ensures Truthful(Referenced(c, key), f)
    ensures Added(c, key, value).Ok? && value == f(key) ==> Truthful(Added(c, key, value).value, f)
  {
  }

  lemma {:induction false} IndexLeftFewer<K(!new), V>(chain: seq<Link<K, V>>, index: map<K, Entry<K, V>>,
                                                      rf: Removal<K, V>)
    ensures forall k :: k in IndexLeft(chain, index, rf) ==> k in index && IndexLeft(chain, index, rf)[k] == index[k]
    decreases |chain|
  {
    if chain != [] {
      var key := chain[0].entry.key;
      IndexLeftFewer(chain[1..], if rf(key, Under(index, key)) then index - {key} else index, rf);
    }
  }

  lemma {:induction false} SweptTruthful<K(!new), V>(c: Clock<K, V>, rf: Removal<K, V>, f: K -> V)
    requires Truthful(c, f)
    ensures Truthful(Swept(c, rf), f)
  {
    IndexLeftFewer(c.chain, c.index, rf);
    var c', l := Swept(c, rf), Landings(Picks(c.chain, c.index, rf), 0);
    forall i | 0 <= i < |c'.chain| ensures c'.chain[i].entry.value == f(c'.chain[i].entry.key) {
      assert c'.chain[i].entry == c.chain[l[i]].entry;
    }
  }

  lemma {:induction false} TurnTruthful<K(!new), V>(t1: Clock<K, V>, t2: Clock<K, V>, localP: int, f: K -> V)
    requires Truthful(t1, f) && Truthful(t2, f)
    ensures var turn := TurnOn(t1, t2, localP); !turn.Stuck? ==> Truthful(turn.t1, f) && Truthful(turn.t2, f)
  {
    hide Truthful, Added, Popped;
    if |t1.index| >= localP && t1.chain != [] {
      var e := t1.chain[0].entry;
      HeadTruthful(t1, f);
      ClockTruthful(t1, f, e.key, e.value);
      ClockTruthful(t2, f, e.key, e.value);
    } else if |t1.index| < localP && t2.chain != [] {
      var e := t2.chain[0].entry;
      HeadTruthful(t2, f);
      ClockTruthful(t2, f, e.key, e.value);
      ClockTruthful(Popped(t2), f, e.key, e.value);
    }
  }

  lemma {:induction false} HeadTruthful<K(!new), V>(c: Clock<K, V>, f: K -> V)
    requires Truthful(c, f) && c.chain != []
    ensures c.chain[0].entry.value == f(c.chain[0].entry.key)
  {
  }

  lemma {:induction false} ReplaceTruthful<K(!new), V>(t1: Clock<K, V>, t2: Clock<K, V>, localP: int, f: K -> V)
    requires Truthful(t1, f) && Truthful(t2, f)
    ensures var r := ReplaceOn(t1, t2, localP); r.Ok? ==> Truthful(r.value.t1, f) && Truthful(r.value.t2, f)
    decreases SetBits(OnChain(t1)) + SetBits(OnChain(t2))
  {
    hide TurnOn, Truthful;
    TurnTruthful(t1, t2, localP, f);
    var turn := TurnOn(t1, t2, localP);
    if turn.Moved? { ReplaceTruthful(turn.t1, turn.t2, localP, f); }
  }

  ghost predicate Holds<K(!new), V>(s: Cache<K, V>, f: K -> V) {
    Truthful(s.t1, f) && Truthful(s.t2, f)
  }

  lemma {:induction false} SpareHolds<K(!new), V>(max: int, s: Cache<K, V>, f: K -> V)
    requires Holds(s, f)
    ensures var r := SpareOn(s, max); r.Ok? ==> Holds(r.value.0, f)
  {
    ReplaceTruthful(s.t1, s.t2, Max(1, s.p), f);
    hide ReplaceOn, Truthful;
  }

  lemma {:induction false} SettleHolds<K(!new), V>(max: int, s: Cache<K, V>, key: K, f: K -> V, evicted: bool)
    requires Holds(s, f)
    ensures var r := SettleOn(s, max, key, f(key), evicted); r.Ok? ==> Holds(r.value, f)
  {
    ClockTruthful(s.t1, f, key, f(key));
    ClockTruthful(s.t2, f, key, f(key));
    hide Truthful, Trims, Grown, Shrunk;
  }

  /** With calculators that answer f, every value handed out is f of its key: through promotion, rotation, eviction,
      re-entry from the histories, whatever the destructor says, and on damaged clocks as on whole ones. */
  lemma {:induction false} RunTransparent<K(!new), V>(max: int, s: Cache<K, V>, asks: set<K>, call: Call<K, V>,
                                                      f: K -> V)
    requires Holds(s, f) && Computes(call, f)
    ensures var r := RunOn(max, s, asks, call);
      r.Ok? ==> Holds(r.value.0, f) && (r.value.1.Value? ==> r.value.1.value == f(call.key))
    decreases call
  {
    match call
    case Clear =>
    case Remove(onNode, onKey) =>
      SweptTruthful(s.t1, onNode, f);
      SweptTruthful(s.t2, onNode, f);
    case Compute(key, nested, answer, destroys) =>
      ClockTruthful(s.t1, f, key, f(key));
      ClockTruthful(s.t2, f, key, f(key));
      if key !in s.t1.index && key !in s.t2.index && key !in asks {
        RunAllTransparent(max, s, asks + {key}, nested, f);
        var calculated := RunAllOn(max, s, asks + {key}, nested);
        if calculated.Ok? && answer.Some? {
          InstallTransparent(max, calculated.value, asks + {key}, key, destroys, f);
        }
      }
  }

  lemma {:induction false} InstallTransparent<K(!new), V>(max: int, s: Cache<K, V>, asks: set<K>, key: K,
                                                          destroys: seq<Call<K, V>>, f: K -> V)
    requires Holds(s, f) && forall i :: 0 <= i < |destroys| ==> Computes(destroys[i], f)
    ensures var r := InstallOn(max, s, asks, key, f(key), destroys);
      r.Ok? ==> Holds(r.value.0, f) && r.value.1.Value? && r.value.1.value == f(key)
    decreases destroys, 1
  {
    hide Holds, SpareOn, SettleOn;
    SpareHolds(max, s, f);
    var room := SpareOn(s, max);
    if room.Ok? {
      var (s2, victim) := room.value;
      RunAllTransparent(max, s2, asks, destroys, f);
      var destroyed := if victim.None? then Ok(s2) else RunAllOn(max, s2, asks, destroys);
      if destroyed.Ok? { SettleHolds(max, destroyed.value, key, f, victim.Some?); }
    }
  }

  lemma {:induction false} RunAllTransparent<K(!new), V>(max: int, s: Cache<K, V>, asks: set<K>, calls: seq<Call<K, V>>,
                                                         f: K -> V)
    requires Holds(s, f) && forall i :: 0 <= i < |calls| ==> Computes(calls[i], f)
    ensures var r := RunAllOn(max, s, asks, calls); r.Ok? ==> Holds(r.value, f)
    decreases calls, 0
  {
    hide Holds;
    if calls != [] {
      RunTransparent(max, s, asks, calls[0], f);
      var r := RunOn(max, s, asks, calls[0]);
      if r.Ok? { RunAllTransparent(max, r.value.0, asks, calls[1..], f); }
    }
  }

  // ---- Once something is damaged

  /** Keys the cache has not seen, as many as it holds and one more. */
  function Fill<K, V>(max: int, i: nat, name: nat -> K, v: V): seq<Call<K, V>>
    decreases max - i
  {
    if i >= max then [Find(name(i + 2), v)] else [Find(name(i + 2), v)] + Fill(max, i + 1, name, v)
  }

  /** An unknown key enters T1 while there is room. */
  lemma {:induction false} FindWithRoom<K, V>(max: int, s: Cache<K, V>, asks: set<K>, key: K, v: V)
    requires key !in s.t1.index && key !in s.t2.index && !InHistory(s, key) && |s.t1.index| + |s.t2.index| < max
    requires key !in asks
    ensures RunOn(max, s, asks, Find(key, v)) == Ok((s.(t1 := Added(s.t1, key, v).value), Value(v, None)))
  {
    assert RunAllOn<K, V>(max, s, asks + {key}, []) == Ok(s);
  }

  lemma {:induction false} StepOn<K, V>(max: int, s: Cache<K, V>, calls: seq<Call<K, V>>, s': Cache<K, V>,
                                        reply: Reply<K, V>)
    requires calls != [] && RunOn(max, s, {}, calls[0]) == Ok((s', reply))
    ensures RunAllOn(max, s, {}, calls) == RunAllOn(max, s', {}, calls[1..])
  {
  }

  /** The chain of T1 runs through one stale, referenced node, and `i` new keys hang from a tail that is off it. */
  ghost predicate Filled<K, V>(s: Cache<K, V>, i: nat, name: nat -> K, v: V) {
    && s == Store(0, Clock([Link(Entry(name(1), v, true), false)], s.t1.index, true), NoClock(), [], [])
    && |s.t1.index| == i && forall k :: k in s.t1.index ==> exists j: nat :: 2 <= j < i + 2 && k == name(j)
  }

  lemma {:induction false} FilledOneMore<K(!new), V>(s: Cache<K, V>, i: nat, name: nat -> K, v: V)
    requires Filled(s, i, name, v) && Injective(name)
    ensures name(i + 2) !in s.t1.index && name(1) !in s.t1.index
    ensures Filled(s.(t1 := Added(s.t1, name(i + 2), v).value), i + 1, name, v)
  {
    MapGrows(s.t1.index, name(i + 2), Entry(name(i + 2), v, false));
  }

  /** Promoting the stale node empties the chain of T1, while its map is as large as ever. */
  lemma {:induction false} StalePromotionPanics<K, V>(t1: Clock<K, V>, key: K, v: V)
    requires t1.chain == [Link(Entry(key, v, true), false)] && t1.index != map[] && key !in t1.index
    ensures ReplaceOn(t1, NoClock(), 1).Panic?
  {
    assert t1.chain[1..] == [] && t1.index - {key} == t1.index;
    var turn := TurnOn(t1, NoClock(), 1);
    assert turn.Moved? && turn.t1.chain == [] && turn.t1.index == t1.index;
    assert ReplaceOn(turn.t1, turn.t2, 1).Panic?;
  }

  lemma {:induction false} FullPanics<K(!new), V>(max: int, s: Cache<K, V>, name: nat -> K, v: V)
    requires max >= 1 && Filled(s, max, name, v) && Injective(name)
    ensures RunOn(max, s, {}, Find(name(max + 2), v)).Panic?
  {
    FilledOneMore(s, max, name, v);
    StalePromotionPanics(s.t1, name(1), v);
    hide ReplaceOn;
    assert RunAllOn<K, V>(max, s, {} + {name(max + 2)}, []) == Ok(s);
  }

  lemma {:induction false} FillPanics<K(!new), V>(max: int, s: Cache<K, V>, i: nat, name: nat -> K, v: V)
    requires max >= 1 && i <= max && Filled(s, i, name, v) && Injective(name)
    ensures RunAllOn(max, s, {}, Fill(max, i, name, v)).Panic?
    decreases max - i
  {
    var calls := Fill(max, i, name, v);
    if i == max {
      FullPanics(max, s, name, v);
    } else {
      FilledOneMore(s, i, name, v);
      FindWithRoom(max, s, {}, name(i + 2), v);
      var s' := s.(t1 := Added(s.t1, name(i + 2), v).value);
      FillPanics(max, s', i + 1, name, v);
      hide RunOn, RunAllOn, Filled;
      StepOn(max, s, calls, s', Value(v, None));
      assert calls[1..] == Fill(max, i + 1, name, v);
    }
  }

  /** A clock of two entries. */
  function Two<K(==), V>(a: Entry<K, V>, b: Entry<K, V>): Clock<K, V> {
    Clock([Link(a, true), Link(b, true)], map[a.key := a, b.key := b], false)
  }

  function InT1<K(==), V>(t1: Clock<K, V>): Cache<K, V> { Store(0, t1, NoClock(), [], []) }

  lemma {:induction false} TwoEntries<K, V>(a: K, b: K, v: V)
    requires a != b
    ensures var c, c1 := Two(Entry(a, v, false), Entry(b, v, false)), Added(NoClock<K, V>(), a, v);
      && c1.Ok? && |c1.value.index| == 1 && b !in c1.value.index && Added(c1.value, b, v) == Ok(c)
      && b in c.index && Referenced(c, b) == Two(Entry(a, v, false), Entry(b, v, true))
  {
    var c := Two(Entry(a, v, false), Entry(b, v, false));
    var c1 := Added(NoClock<K, V>(), a, v).value;
    assert c1.chain == [Link(Entry(a, v, false), true)] && c1.index == map[a := Entry(a, v, false)];
    assert Added(c1, b, v).value.chain == c.chain;
    assert Referenced(c, b).chain == Two(Entry(a, v, false), Entry(b, v, true)).chain;
  }

  /** What removing both leaves: the head on the second node, the tail on the first, and an empty map. */
  lemma {:induction false} RemoveBothDamages<K, V>(a: Entry<K, V>, b: Entry<K, V>, rf: Removal<K, V>)
    requires a.key != b.key && forall k, e :: rf(k, e)
    ensures Swept(Two(a, b), rf) == Clock([Link(b, false)], map[], true) && Swept(NoClock(), rf) == NoClock()
  {
    var c, rest := Two(a, b), [Link(b, true)];
    assert c.chain[1..] == rest && rest[1..] == [];
    assert c.index - {a.key} == map[b.key := b] && map[b.key := b] - {b.key} == map[];
    assert Picks(rest, map[b.key := b], rf) == [true] && IndexLeft(rest, map[b.key := b], rf) == map[];
    var picks := [true, true];
    assert Picks(c.chain, c.index, rf) == picks && IndexLeft(c.chain, c.index, rf) == map[];
    assert Landings(picks, 2) == [] && Landings(picks, 0) == [1];
    assert Walk(c.chain, picks) == [Link(b, true)];
  }

  /** From two entries in T1 on: the second is referenced, both are removed, and the cache is filled again. */
  function DamageAndFill<K, V>(max: int, name: nat -> K, v: V): seq<Call<K, V>> {
    [Find(name(1), v), Remove((_, _) => true, _ => true)] + Fill(max, 0, name, v)
  }

  lemma {:induction false} DamageAndFillPanics<K(!new), V>(max: int, name: nat -> K, v: V)
    requires max >= 1 && Injective(name)
    ensures var s := InT1(Two(Entry(name(0), v, false), Entry(name(1), v, false)));
      RunAllOn(max, s, {}, DamageAndFill(max, name, v)).Panic?
  {
    var a, b := name(0), name(1);
    assert a != b;
    TwoEntries(a, b, v);
    var s2 := InT1(Two(Entry(a, v, false), Entry(b, v, false)));
    var s3 := InT1(Two(Entry(a, v, false), Entry(b, v, true)));
    assert RunOn(max, s2, {}, Find(b, v)) == Ok((s3, Value(v, None)));
    var calls := DamageAndFill(max, name, v);
    var s4 := RemovedOn(s3, calls[1].onNode, calls[1].onKey);
    assert RunOn(max, s3, {}, calls[1]) == Ok((s4, NoReply));
    hide RunOn, RunAllOn, Two, Added, Referenced;
    RemoveBothDamages(Entry(a, v, false), Entry(b, v, true), calls[1].onNode);
    hide Swept;
    assert Filled(s4, 0, name, v);
    FillPanics(max, s4, 0, name, v);
    StepOn(max, s2, calls, s3, Value(v, None));
    StepOn(max, s3, calls[1..], s4, NoReply);
    assert calls[1..][1..] == Fill(max, 0, name, v);
  }

  /** Every capacity above one panics after such a Remove. */
  lemma {:induction false} DamagePanics<K(!new), V>(max: int, name: nat -> K, v: V)
    requires max >= 2 && Injective(name)
    ensures RunAllOn(max, NoCache(), {}, [Find(name(0), v), Find(name(1), v)] + DamageAndFill(max, name, v)).Panic?
  {
    var a, b := name(0), name(1);
    assert a != b;
    TwoEntries(a, b, v);
    var s1 := InT1(Added(NoClock<K, V>(), a, v).value);
    var s2 := InT1(Two(Entry(a, v, false), Entry(b, v, false)));
    FindWithRoom<K, V>(max, NoCache(), {}, a, v);
    FindWithRoom(max, s1, {}, b, v);
    hide RunOn, RunAllOn, Two, Added;
    DamageAndFillPanics(max, name, v);
    var rest := DamageAndFill(max, name, v);
    var calls := [Find(a, v), Find(b, v)] + rest;
    StepOn(max, NoCache(), calls, s1, Value(v, None));
    StepOn(max, s1, calls[1..], s2, Value(v, None));
    assert calls[1..][1..] == rest;
  }

  /** At capacity one a destructor that computes a key leaves two entries in T1. */
  lemma {:induction false} DestructorLeavesTwo<K(!new), V>(a: K, b: K, c: K, v: V)
    requires a != b && b != c && a != c
    ensures RunOn(1, InT1(Added(NoClock<K, V>(), c, v).value), {}, Compute(b, [], Some(v), [Find(a, v)])) ==
      Ok((InT1(Two(Entry(a, v, false), Entry(b, v, false))), Value(v, Some(Entry(c, v, false)))))
  {
    var one := Added(NoClock<K, V>(), c, v).value;
    var s := InT1(one);
    TwoEntries(c, b, v);
    TwoEntries(a, b, v);
    assert RunAllOn<K, V>(1, s, {} + {b}, []) == Ok(s);
    EvictOnly(c, v);
    var s2: Cache<K, V> := Store(0, NoClock(), NoClock(), [c], []);
    FindWithRoom(1, s2, {} + {b}, a, v);
    var s3 := s2.(t1 := Added(NoClock<K, V>(), a, v).value);
    assert [Find(a, v)][1..] == [];
    assert RunAllOn(1, s2, {} + {b}, [Find(a, v)]) == Ok(s3);
    assert SettleOn(s3, 1, b, v, true) == Ok(InT1(Two(Entry(a, v, false), Entry(b, v, false))));
    hide Added, Two, EvictOn, SettleOn, RunAllOn;
  }

  lemma {:induction false} EvictOnly<K(!new), V>(c: K, v: V)
    ensures EvictOn(InT1(Added(NoClock<K, V>(), c, v).value)) ==
      Ok((Store(0, NoClock(), NoClock(), [c], []), Entry(c, v, false)))
  {
    var one := Added(NoClock<K, V>(), c, v).value;
    assert one.chain == [Link(Entry(c, v, false), true)] && one.chain[1..] == [];
    assert one.index == map[c := Entry(c, v, false)] && one.index - {c} == map[];
    assert Popped(one) == NoClock();
    assert [c] + [] == [c];
    assert TurnOn(one, NoClock(), 1) == Evicted(NoClock(), NoClock(), Entry(c, v, false), true);
  }

  /** So at capacity one a run panics in which a destructor computes a key. */
  lemma {:induction false} DestructorPanics<K(!new), V>(name: nat -> K, v: V)
    requires Injective(name)
    ensures var first := [Find(name(4), v), Compute(name(1), [], Some(v), [Find(name(0), v)])];
      RunAllOn(1, NoCache(), {}, first + DamageAndFill(1, name, v)).Panic?
  {
    var a, b, c := name(0), name(1), name(4);
    assert a != b && b != c && a != c;
    var s1 := InT1(Added(NoClock<K, V>(), c, v).value);
    var s2 := InT1(Two(Entry(a, v, false), Entry(b, v, false)));
    FindWithRoom<K, V>(1, NoCache(), {}, c, v);
    DestructorLeavesTwo(a, b, c, v);
    hide RunOn, RunAllOn, Two, Added;
    DamageAndFillPanics(1, name, v);
    var rest := DamageAndFill(1, name, v);
    var calls := [Find(c, v), Compute(b, [], Some(v), [Find(a, v)])] + rest;
    StepOn(1, NoCache(), calls, s1, Value(v, None));
    StepOn(1, s1, calls[1..], s2, Value(v, Some(Entry(c, v, false))));
    assert calls[1..][1..] == rest;
  }

  /** No run panics, where destructors may call back only if `callbacks`. */
  ghost predicate NeverPanics<K(!new), V(!new)>(max: int, callbacks: bool) {
    forall calls: seq<Call<K, V>> :: callbacks || DepthAll(calls) == 0 ==> RunAllOn(max, NoCache(), {}, calls).Ok?
  }

  /** Whatever is called, in whatever order and however nested, a new cache never panics exactly when its capacity
      is one and its destructors do not call back. Below, the first miss panics; above, or with two entries that a
      destructor has left in a cache of one, a Remove of neighbours may lead to a panic. */
  lemma {:induction false} NeverPanicsIff<K(!new), V(!new)>(max: int, callbacks: bool, name: nat -> K, v: V)
    requires Injective(name)
    ensures NeverPanics<K, V>(max, callbacks) <==> max == 1 && !callbacks
  {
    if max == 1 && !callbacks {
      forall calls: seq<Call<K, V>> | DepthAll(calls) == 0 ensures RunAllOn(max, NoCache(), {}, calls).Ok? {
        RunAllSafe(max, Empty(), {}, calls);
        RunAllAgrees(max, NoCache(), Empty(), {}, calls);
      }
    } else if max >= 2 {
      DamagePanics(max, name, v);
      DamagingDepth(max, name, v);
    } else if max == 1 {
      DestructorPanics(name, v);
    } else {
      NoRoomPanics(max, name(0), v);
      DepthOfEach([Find(name(0), v)]);
    }
  }

  lemma {:induction false} FillDepth<K, V>(max: int, i: nat, name: nat -> K, v: V)
    ensures forall j :: 0 <= j < |Fill(max, i, name, v)| ==> Depth(Fill(max, i, name, v)[j]) == 0
    decreases max - i
  {
    if i < max { FillDepth(max, i + 1, name, v); }
  }

  lemma {:induction false} DamagingDepth<K, V>(max: int, name: nat -> K, v: V)
    ensures DepthAll([Find(name(0), v), Find(name(1), v)] + DamageAndFill(max, name, v)) == 0
  {
    FillDepth(max, 0, name, v);
    DepthOfEach([Find(name(0), v), Find(name(1), v)] + DamageAndFill(max, name, v));
  }

  lemma {:induction false} NoRoomPanics<K, V>(max: int, key: K, v: V)
    requires max <= 0
    ensures RunAllOn(max, NoCache(), {}, [Find(key, v)]).Panic?
  {
    assert RunAllOn<K, V>(max, NoCache(), {} + {key}, []) == Ok(NoCache());
    assert ReplaceOn<K, V>(NoClock(), NoClock(), 1).Panic?;
    assert RunOn<K, V>(max, NoCache(), {}, Find(key, v)).Panic?;
  }
}
