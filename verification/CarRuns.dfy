/** Whole runs of the CAR cache: hits, misses whose calculator and destructor call back into the cache,
    failed computations, Clear and Remove. A call is a tree, since a miss runs the calculator before it
    installs the value, and the destructor in the middle of that, and both may make any calls of their own. */
module CarRuns {
  import opened Basics
  import opened Sequences
  import opened CarClock
  import opened Car
  import opened CarPolicy

  // ---- Runs

  /** A call on the cache. A computation carries the calls its calculator makes and what it answers, and the
      calls its destructor makes if an entry is evicted; Remove carries how the removal function answers on the
      nodes of the clocks and on the keys of the histories. */
  datatype Call<!K, !V> =
    | Compute(key: K, nested: seq<Call<K, V>>, answer: Option<V>, destroys: seq<Call<K, V>>)
    | Clear
    | Remove(onNode: Removal<K, V>, onKey: K -> bool)

  /** What the caller gets. A value comes with the entry handed to the destructor, whose error does not replace it. */
  datatype Reply<K, V> =
    | Value(value: V, destroyed: Option<Entry<K, V>>)
    | CycleError
    | CalculatorError
    | NoReply

  /** Damaged marks a Remove that selects two neighbours of a clock. Its clocks are no longer whole, and what
      becomes of them is for CarFull. */
  datatype Outcome<K, V> = Panicked | Damaged | Finished(state: State<K, V>, reply: Reply<K, V>)

  /** What the removal function makes of the entries of a whole clock. */
  function OnEntry<K, V>(onNode: Removal<K, V>): Entry<K, V> -> bool {
    (e: Entry<K, V>) => onNode(e.key, Some(e))
  }

  /** The removal function selects no two neighbours of a clock. */
  ghost predicate Gentle<K, V>(s: State<K, V>, onNode: Removal<K, V>) {
    NoNeighbours(s.t1, OnEntry(onNode)) && NoNeighbours(s.t2, OnEntry(onNode))
  }

  function ValueOf<K(==), V>(es: seq<Entry<K, V>>, key: K): Option<V> {
    if es == [] then None else if es[0].key == key then Some(es[0].value) else ValueOf(es[1..], key)
  }

  /** One call made while the keys in `asks` are being computed, up to the first damage. */
  ghost function Run<K(!new), V>(max: int, s: State<K, V>, asks: set<K>, call: Call<K, V>): Outcome<K, V>
    decreases call
  {
    match call
    case Clear => Finished(Empty(), NoReply)
    case Remove(onNode, onKey) =>
      if Gentle(s, onNode) then Finished(Removed(s, OnEntry(onNode), onKey), NoReply) else Damaged
    case Compute(key, nested, answer, destroys) =>
      var hit1, hit2 := ValueOf(s.t1, key), ValueOf(s.t2, key);
      if hit1.Some? then Finished(s.(t1 := Touch(s.t1, key)), Value(hit1.value, None))
      else if hit2.Some? then Finished(s.(t2 := Touch(s.t2, key)), Value(hit2.value, None))
      else if key in asks then Finished(s, CycleError)
      else
        match RunAll(max, s, asks + {key}, nested)
        case Panicked => Panicked
        case Damaged => Damaged
        case Finished(s1, _) =>
          if answer.None? then Finished(s1, CalculatorError)
          else Install(max, s1, asks + {key}, key, answer.value, destroys)
  }

  /** What a miss does once its calculator has succeeded: evict, let the destructor make its calls, insert. */
  ghost function Install<K(!new), V>(max: int, s: State<K, V>, asks: set<K>, key: K, value: V,
                                     destroys: seq<Call<K, V>>): Outcome<K, V>
    decreases destroys, 1
  {
    match Spare(s, max)
    case Panic => Panicked
    case Ok((s2, victim)) =>
      var o := if victim.None? then Finished(s2, NoReply) else RunAll(max, s2, asks, destroys);
      FinishMiss(max, o, key, value, victim)
  }

  /** What is left of a miss once its destructor has returned. */
  function FinishMiss<K(==), V>(max: int, o: Outcome<K, V>, key: K, value: V,
                                victim: Option<Entry<K, V>>): Outcome<K, V> {
    if !o.Finished? then o else
    match Settle(o.state, max, key, value, victim.Some?)
    case Panic => Panicked
    case Ok(s') => Finished(s', Value(value, victim))
  }

  ghost function RunAll<K(!new), V>(max: int, s: State<K, V>, asks: set<K>, calls: seq<Call<K, V>>): Outcome<K, V>
    decreases calls, 0
  {
    if calls == [] then Finished(s, NoReply) else
    match Run(max, s, asks, calls[0])
    case Finished(s1, _) => RunAll(max, s1, asks, calls[1..])
    case other => other
  }

  /** How deeply the calls of destructors are nested in each other. */
  function Depth<K, V>(call: Call<K, V>): nat
    decreases call
  {
    match call
    case Compute(_, nested, _, destroys) =>
      Max(DepthAll(nested), if destroys == [] then 0 else 1 + DepthAll(destroys))
    case _ => 0
  }

  function DepthAll<K, V>(calls: seq<Call<K, V>>): nat
    decreases calls
  {
    if calls == [] then 0 else Max(Depth(calls[0]), DepthAll(calls[1..]))
  }

  lemma {:induction false} DepthOfEach<K, V>(calls: seq<Call<K, V>>)
    requires forall i :: 0 <= i < |calls| ==> Depth(calls[i]) == 0
    ensures DepthAll(calls) == 0
    decreases |calls|
  {
    if calls != [] { DepthOfEach(calls[1..]); }
  }

  /** A miss whose destructor calls nothing installs its value in one stroke. */
  function Installed<K(==), V>(max: int, o: Outcome<K, V>, key: K, answer: Option<V>): Outcome<K, V> {
    if !o.Finished? then o
    else if answer.None? then Finished(o.state, CalculatorError)
    else
      match InstallAtOnce(o.state, max, key, answer.value)
      case Panic => Panicked
      case Ok((s2, victim)) => Finished(s2, Value(answer.value, victim))
  }

  lemma {:induction false} QuietMiss<K(!new), V>(max: int, s: State<K, V>, asks: set<K>, call: Call<K, V>)
    requires call.Compute? && call.destroys == [] && call.key !in asks
    requires ValueOf(s.t1, call.key).None? && ValueOf(s.t2, call.key).None?
    ensures Run(max, s, asks, call) ==
      Installed(max, RunAll(max, s, asks + {call.key}, call.nested), call.key, call.answer)
  {
    var o := RunAll(max, s, asks + {call.key}, call.nested);
    if o.Finished? && Spare(o.state, max).Ok? {
      var s2 := Spare(o.state, max).value.0;
      assert RunAll(max, s2, asks + {call.key}, call.destroys) == Finished(s2, NoReply);
    }
    hide Evict, Trim, Insert, ValueOf;
  }

  lemma {:induction false} ValueOfNone<K, V>(es: seq<Entry<K, V>>, key: K)
    ensures ValueOf(es, key).None? <==> key !in Keys(es)
  {
    if es != [] {
      KeysHead(es);
      ValueOfNone(es[1..], key);
    }
  }

  lemma {:induction false} ValueOfAt<K, V>(es: seq<Entry<K, V>>, key: K)
    ensures ValueOf(es, key).Some? <==> key in KeysOf(es)
    ensures Distinct(KeysOf(es)) ==>
      forall i :: 0 <= i < |es| && es[i].key == key ==> ValueOf(es, key) == Some(es[i].value)
  {
    assert forall i :: 0 <= i < |es| ==> KeysOf(es)[i] == es[i].key;
    if es != [] {
      var rest := es[1..];
      ValueOfAt(rest, key);
      assert KeysOf(es) == [es[0].key] + KeysOf(rest);
      if Distinct(KeysOf(es)) {
        forall i, j | 0 <= i < |rest| && 0 <= j < |rest| ensures Differ(KeysOf(rest), i, j) {
          assert Differ(KeysOf(es), i + 1, j + 1);
        }
        forall i | 0 <= i < |es| && es[i].key == key ensures ValueOf(es, key) == Some(es[i].value) {
          assert Differ(KeysOf(es), 0, i);
          if i > 0 { assert rest[i - 1] == es[i]; }
        }
      }
    }
  }

  /** `es'` is `es` with the reference bit of `key` set, and nothing else changed. */
  ghost predicate OnlyReferences<K, V>(es: seq<Entry<K, V>>, key: K, es': seq<Entry<K, V>>) {
    && |es'| == |es|
    && forall i {:trigger es'[i]} :: 0 <= i < |es| ==> es'[i] == es[i].(bit := es[i].bit || es[i].key == key)
  }

  /** A hit hands out the value held and sets the reference bit of the key, which is all it changes; a key in progress
      and a calculator that fails without calls of its own change nothing. */
  lemma {:induction false} ComputeWithoutMiss<K(!new), V>(max: int, s: State<K, V>, asks: set<K>, call: Call<K, V>)
    requires Once(AllKeys(s)) && call.Compute?
    ensures var o := Run(max, s, asks, call); var key := call.key;
      && (key in Resident(s) ==>
            && o.Finished? && o.reply.Value? && o.reply.destroyed == None
            && (key, o.reply.value) in Pairs(s.t1) + Pairs(s.t2)
            && OnlyReferences(s.t1, key, o.state.t1) && OnlyReferences(s.t2, key, o.state.t2)
            && o.state == s.(t1 := o.state.t1, t2 := o.state.t2))
      && (key !in Resident(s) && key in asks ==> o == Finished(s, CycleError))
      && (key !in Resident(s) && key !in asks && call.nested == [] && call.answer.None? ==>
            o == Finished(s, CalculatorError))
  {
    var key := call.key;
    ValueOfNone(s.t1, key);
    ValueOfNone(s.t2, key);
    if ValueOf(s.t1, key).Some? {
      ValueOfPair(s.t1, key);
      InOneClock(s, key);
    } else if ValueOf(s.t2, key).Some? {
      ValueOfPair(s.t2, key);
      AbsentKey(s.t1, key);
    } else if key !in asks && call.nested == [] {
      assert RunAll(max, s, asks + {key}, call.nested) == Finished(s, NoReply);
    }
    hide Once, AllKeys, Keys, Pairs, ValueOf, Install;
  }

  lemma {:induction false} AbsentKey<K, V>(es: seq<Entry<K, V>>, key: K)
    requires key !in Keys(es)
    ensures OnlyReferences(es, key, es)
  {
    forall i | 0 <= i < |es| ensures es[i].key != key { assert KeysOf(es)[i] in multiset(KeysOf(es)); }
  }

  lemma {:induction false} InOneClock<K(!new), V>(s: State<K, V>, key: K)
    requires Once(AllKeys(s)) && key in Keys(s.t1)
    ensures OnlyReferences(s.t2, key, s.t2)
  {
    assert AtMostOnce(AllKeys(s), key);
    AbsentKey(s.t2, key);
  }

  lemma {:induction false} ValueOfPair<K, V>(es: seq<Entry<K, V>>, key: K)
    requires ValueOf(es, key).Some?
    ensures (key, ValueOf(es, key).value) in Pairs(es)
  {
    KeysHead(es);
    if es[0].key != key { ValueOfPair(es[1..], key); }
  }

  lemma {:induction false} TouchKeeps<K, V>(es: seq<Entry<K, V>>, key: K)
    ensures Keys(Touch(es, key)) == Keys(es) && Pairs(Touch(es, key)) == Pairs(es)
  {
    var es' := Touch(es, key);
    assert KeysOf(es') == KeysOf(es);
    var f := (s: seq<Entry<K, V>>) => seq(|s|, i requires 0 <= i < |s| => (s[i].key, s[i].value));
    assert f(es') == f(es);
  }

  lemma {:induction false} KeepKeys<K, V>(es: seq<Entry<K, V>>, sel: Entry<K, V> -> bool)
    ensures Keys(Keep(es, sel)) <= Keys(es) && Pairs(Keep(es, sel)) <= Pairs(es) && |Keep(es, sel)| <= |es|
  {
    if es != [] {
      KeysHead(es);
      KeepKeys(es[1..], sel);
      if !sel(es[0]) {
        KeysHead(Keep(es, sel));
        assert Keep(es, sel)[1..] == Keep(es[1..], sel);
      } else {
        assert Keep(es, sel) == Keep(es[1..], sel);
      }
    }
  }

  lemma {:induction false} KeepMultiset<K>(b: seq<K>, sel: K -> bool)
    ensures multiset(Keep(b, sel)) <= multiset(b) && |Keep(b, sel)| <= |b|
  {
    if b != [] {
      assert b == [b[0]] + b[1..];
      KeepMultiset(b[1..], sel);
    }
  }

  ghost predicate NoneResident<K(!new), V>(s: State<K, V>, asks: set<K>) {
    forall k :: k in asks ==> k !in Resident(s)
  }

  lemma {:induction false} RemovedKeys<K(!new), V>(s: State<K, V>, onEntry: Entry<K, V> -> bool, onKey: K -> bool)
    ensures var s' := Removed(s, onEntry, onKey);
      && AllKeys(s') <= AllKeys(s) && Resident(s') <= Resident(s)
      && Pairs(s'.t1) + Pairs(s'.t2) <= Pairs(s.t1) + Pairs(s.t2)
      && |s'.t1| <= |s.t1| && |s'.t2| <= |s.t2| && |s'.b1| <= |s.b1| && |s'.b2| <= |s.b2|
  {
    KeepKeys(s.t1, onEntry);
    KeepKeys(s.t2, onEntry);
    KeepMultiset(s.b1, onKey);
    KeepMultiset(s.b2, onKey);
  }

  lemma {:induction false} RemoveSafe<K(!new), V>(max: int, s: State<K, V>, onEntry: Entry<K, V> -> bool,
                                                  onKey: K -> bool)
    requires Safe(s, max)
    ensures var s' := Removed(s, onEntry, onKey);
      Safe(s', max) && Resident(s') <= Resident(s) && Pairs(s'.t1) + Pairs(s'.t2) <= Pairs(s.t1) + Pairs(s.t2)
  {
    RemovedKeys(s, onEntry, onKey);
    OnceFewer(AllKeys(Removed(s, onEntry, onKey)), AllKeys(s));
  }

  lemma {:induction false} EmptySafe<K(!new), V>(max: int, asks: set<K>)
    requires max >= 0
    ensures Safe(Empty<K, V>(), max) && NoneResident(Empty<K, V>(), asks)
  {
  }

  /** One entry has no neighbour. */
  lemma {:induction false} RemoveCallSafe<K(!new), V>(max: int, s: State<K, V>, asks: set<K>, onNode: Removal<K, V>,
                                                      onKey: K -> bool)
    requires max >= 1 && Safe(s, max) && NoneResident(s, asks)
    ensures max == 1 ==> Gentle(s, onNode)
    ensures var s' := Removed(s, OnEntry(onNode), onKey); Safe(s', max) && NoneResident(s', asks)
  {
    RemoveSafe(max, s, OnEntry(onNode), onKey);
  }

  /** A hit only sets a reference bit. */
  lemma {:induction false} HitSafe<K(!new), V>(max: int, s: State<K, V>, asks: set<K>, key: K)
    requires Safe(s, max) && NoneResident(s, asks)
    ensures Safe(s.(t1 := Touch(s.t1, key)), max) && NoneResident(s.(t1 := Touch(s.t1, key)), asks)
    ensures Safe(s.(t2 := Touch(s.t2, key)), max) && NoneResident(s.(t2 := Touch(s.t2, key)), asks)
  {
    TouchKeeps(s.t1, key);
    TouchKeeps(s.t2, key);
  }

  lemma {:induction false} MissSafe<K(!new), V>(max: int, o: Outcome<K, V>, asks: set<K>, key: K, answer: Option<V>)
    requires max >= 1 && !o.Panicked? && (max == 1 ==> !o.Damaged?) && key !in asks
    requires o.Finished? ==> Safe(o.state, max) && NoneResident(o.state, asks + {key})
    ensures var o' := Installed(max, o, key, answer);
      !o'.Panicked? && (max == 1 ==> !o'.Damaged?) &&
        (o'.Finished? ==> Safe(o'.state, max) && NoneResident(o'.state, asks))
  {
    if o.Finished? {
      assert forall k :: k in asks ==> k in asks + {key};
      if answer.Some? {
        assert key in asks + {key};
        var s', victim := InstallSafe(o.state, max, key, answer.value);
        InstalledElsewhere(o.state, max, asks, key, answer.value, s', victim);
        hide Safe, Installs, Resident, InstallAtOnce;
      }
    }
  }

  /** An installation makes no other key resident. */
  lemma {:induction false} InstalledElsewhere<K(!new), V>(s: State<K, V>, max: int, asks: set<K>, key: K, value: V,
                                                          s': State<K, V>, victim: Option<Entry<K, V>>)
    requires Installs(s, max, key, value, s', victim) && NoneResident(s, asks + {key}) && key !in asks
    ensures Safe(s', max) && NoneResident(s', asks)
  {
    hide Safe, Resident;
    forall k | k in asks ensures k !in Resident(s') {
      assert k in asks + {key};
      assert k !in Resident(s) + multiset{key};
    }
  }

  lemma {:induction false} AlsoAsking<K(!new), V>(s: State<K, V>, asks: set<K>, key: K)
    requires NoneResident(s, asks) && ValueOf(s.t1, key).None? && ValueOf(s.t2, key).None?
    ensures NoneResident(s, asks + {key})
  {
    ValueOfNone(s.t1, key);
    ValueOfNone(s.t2, key);
  }

  /** No call whose destructors call nothing, however deeply its calculators call back, reaches a panic before it
      damages a clock, and safety survives it; a cache of one entry is never damaged. The keys being computed stay
      out of the clocks, which is what keeps AddTail from meeting its own key. */
  lemma {:induction false} RunSafe<K(!new), V>(max: int, s: State<K, V>, asks: set<K>, call: Call<K, V>)
    requires max >= 1 && Safe(s, max) && NoneResident(s, asks) && Depth(call) == 0
    ensures var o := Run(max, s, asks, call);
      !o.Panicked? && (max == 1 ==> !o.Damaged?) && (o.Finished? ==> Safe(o.state, max) && NoneResident(o.state, asks))
    decreases call
  {
    hide Safe, NoneResident, Installed, FinishMiss, Spare;
    match call
    case Clear => EmptySafe<K, V>(max, asks);
    case Remove(onNode, onKey) => RemoveCallSafe(max, s, asks, onNode, onKey);
    case Compute(key, nested, answer, _) =>
      HitSafe(max, s, asks, key);
      if ValueOf(s.t1, key).None? && ValueOf(s.t2, key).None? && key !in asks {
        AlsoAsking(s, asks, key);
        RunAllSafe(max, s, asks + {key}, nested);
        MissSafe(max, RunAll(max, s, asks + {key}, nested), asks, key, answer);
        QuietMiss(max, s, asks, call);
      }
  }

  lemma {:induction false} RunAllSafe<K(!new), V>(max: int, s: State<K, V>, asks: set<K>, calls: seq<Call<K, V>>)
    requires max >= 1 && Safe(s, max) && NoneResident(s, asks) && DepthAll(calls) == 0
    ensures var o := RunAll(max, s, asks, calls);
      !o.Panicked? && (max == 1 ==> !o.Damaged?) && (o.Finished? ==> Safe(o.state, max) && NoneResident(o.state, asks))
    decreases calls
  {
    if calls != [] {
      RunSafe(max, s, asks, calls[0]);
      var o := Run(max, s, asks, calls[0]);
      if o.Finished? { RunAllSafe(max, o.state, asks, calls[1..]); }
    }
  }

  // ---- What survives destructors that call back

  /** Sound, with none of the keys being computed in a clock. */
  ghost predicate Settled<K(!new), V>(s: State<K, V>, max: int, asks: set<K>) {
    Sound(s, max) && NoneResident(s, asks)
  }

  lemma {:induction false} HitSound<K(!new), V>(max: int, s: State<K, V>, asks: set<K>, key: K)
    requires Settled(s, max, asks)
    ensures Settled(s.(t1 := Touch(s.t1, key)), max, asks) && Settled(s.(t2 := Touch(s.t2, key)), max, asks)
  {
    TouchKeeps(s.t1, key);
    TouchKeeps(s.t2, key);
  }

  lemma {:induction false} RemoveSound<K(!new), V>(max: int, s: State<K, V>, asks: set<K>, onEntry: Entry<K, V> -> bool,
                                                   onKey: K -> bool)
    requires Settled(s, max, asks)
    ensures var s' := Removed(s, onEntry, onKey); Settled(s', max, asks) && Total(s') <= Total(s)
  {
    RemovedKeys(s, onEntry, onKey);
    OnceFewer(AllKeys(Removed(s, onEntry, onKey)), AllKeys(s));
  }

  lemma {:induction false} SpareSound<K(!new), V>(max: int, s: State<K, V>, asks: set<K>)
    requires max >= 1 && Settled(s, max, asks)
    ensures Spare(s, max).Ok?
    ensures var (s', victim) := Spare(s, max).value;
      Settled(s', max, asks) && if victim.Some? then Total(s') == Total(s) - 1 else s' == s && Total(s) < max
  {
    if Total(s) >= max { EvictSound(max, s, asks); }
    hide Evict, Settled, Resident;
  }

  lemma {:induction false} FinishSound<K(!new), V>(max: int, o: Outcome<K, V>, asks: set<K>, key: K, value: V,
                                                   victim: Option<Entry<K, V>>)
    requires !o.Panicked? && key !in asks && (o.Finished? ==> Settled(o.state, max, asks + {key}))
    ensures var o' := FinishMiss(max, o, key, value, victim);
      !o'.Panicked? && (o'.Finished? <==> o.Finished?) &&
      (o'.Finished? ==> Settled(o'.state, max, asks) && Total(o'.state) == Total(o.state) + 1)
  {
    if o.Finished? {
      assert key in asks + {key};
      SettleSound(o.state, max, key, value, victim.Some?);
      var s' := Settle(o.state, max, key, value, victim.Some?).value;
      forall k | k in asks ensures k !in Resident(s') {
        assert k in asks + {key};
        assert k !in Resident(o.state) + multiset{key};
      }
    }
    hide Settle;
  }

  lemma {:induction false} AskingSound<K(!new), V>(max: int, s: State<K, V>, asks: set<K>, key: K)
    requires Settled(s, max, asks) && ValueOf(s.t1, key).None? && ValueOf(s.t2, key).None?
    ensures Settled(s, max, asks + {key})
  {
    AlsoAsking(s, asks, key);
  }

  lemma {:induction false} AskedSound<K(!new), V>(max: int, s: State<K, V>, asks: set<K>, key: K)
    requires Settled(s, max, asks + {key})
    ensures Settled(s, max, asks)
  {
    assert forall k :: k in asks ==> k in asks + {key};
  }

  lemma {:induction false} EmptySound<K(!new), V>(max: int, asks: set<K>)
    requires max >= 0
    ensures Settled(Empty<K, V>(), max, asks)
  {
  }

  /** No panic, and unless a clock is damaged a settled state with at most `bound` entries. */
  ghost predicate Survives<K(!new), V>(o: Outcome<K, V>, max: int, asks: set<K>, bound: int) {
    !o.Panicked? && (o.Finished? ==> Settled(o.state, max, asks) && Total(o.state) <= bound)
  }

  /** Whatever calculators and destructors call, and however deeply: no call reaches a panic before it damages a
      clock, the four lists stay disjoint and the target within the capacity, and the cache is overfull by no more
      than the depth to which the calls of destructors are nested. */
  lemma {:induction false} RunSound<K(!new), V>(max: int, s: State<K, V>, asks: set<K>, call: Call<K, V>)
    requires max >= 1 && Settled(s, max, asks)
    ensures Survives(Run(max, s, asks, call), max, asks, Max(Total(s), max + Depth(call)))
    decreases call
  {
    hide Settled, Install, Gentle, Removed;
    match call
    case Clear => EmptySound<K, V>(max, asks);
    case Remove(onNode, onKey) => RemoveSound(max, s, asks, OnEntry(onNode), onKey);
    case Compute(key, nested, answer, destroys) =>
      HitSound(max, s, asks, key);
      if ValueOf(s.t1, key).None? && ValueOf(s.t2, key).None? && key !in asks {
        AskingSound(max, s, asks, key);
        RunAllSound(max, s, asks + {key}, nested);
        var o := RunAll(max, s, asks + {key}, nested);
        if o.Finished? && answer.Some? { MissSound(max, o.state, asks, key, answer.value, destroys); }
        if o.Finished? { AskedSound(max, o.state, asks, key); }
      }
  }

  lemma {:induction false} MissSound<K(!new), V>(max: int, s: State<K, V>, asks: set<K>, key: K, value: V,
                                                 destroys: seq<Call<K, V>>)
    requires max >= 1 && Settled(s, max, asks + {key}) && key !in asks
    ensures var bound := max + if destroys == [] then 0 else 1 + DepthAll(destroys);
      Survives(Install(max, s, asks + {key}, key, value, destroys), max, asks, Max(Total(s), bound))
    decreases destroys, 1
  {
    hide Settled, FinishMiss, Spare, Run;
    SpareSound(max, s, asks + {key});
    var (s2, victim) := Spare(s, max).value;
    if victim.None? {
      FinishSound(max, Finished(s2, NoReply), asks, key, value, victim);
    } else {
      RunAllSound(max, s2, asks + {key}, destroys);
      FinishSound(max, RunAll(max, s2, asks + {key}, destroys), asks, key, value, victim);
    }
  }

  lemma {:induction false} RunAllSound<K(!new), V>(max: int, s: State<K, V>, asks: set<K>, calls: seq<Call<K, V>>)
    requires max >= 1 && Settled(s, max, asks)
    ensures Survives(RunAll(max, s, asks, calls), max, asks,
      Max(Total(s), if calls == [] then 0 else max + DepthAll(calls)))
    decreases calls, 0
  {
    hide Settled, Run, Depth;
    if calls != [] {
      RunSound(max, s, asks, calls[0]);
      var o := Run(max, s, asks, calls[0]);
      if o.Finished? { RunAllSound(max, o.state, asks, calls[1..]); }
    }
  }

  // ---- And the cache does get that overfull

  /** A computation that succeeds, with a calculator and a destructor that call nothing. */
  function Find<K, V>(key: K, v: V): Call<K, V> { Compute(key, [], Some(v), []) }

  ghost predicate Injective<K(!new)>(name: nat -> K) {
    forall i: nat, j: nat :: i != j ==> name(i) != name(j)
  }

  /** None of the names from `lo` up to `hi` is resident or being computed. */
  ghost predicate Unused<K(!new), V>(s: State<K, V>, asks: set<K>, name: nat -> K, lo: nat, hi: nat) {
    forall i: nat :: lo <= i < hi ==> name(i) !in Resident(s) && name(i) !in asks
  }

  /** Every destructor computes a key, which fills the cache again, and then a key with a destructor of its own. */
  function Overfilling<K, V>(d: nat, name: nat -> K, v: V): Call<K, V> {
    if d == 0 then Find(name(0), v)
    else Compute(name(2 * d), [], Some(v), [Find(name(2 * d - 1), v), Overfilling(d - 1, name, v)])
  }

  lemma {:induction false} OverfillingDepth<K, V>(d: nat, name: nat -> K, v: V)
    ensures Depth(Overfilling(d, name, v)) == d
  {
    if d > 0 {
      OverfillingDepth(d - 1, name, v);
      var calls := [Find(name(2 * d - 1), v), Overfilling(d - 1, name, v)];
      assert calls[1..] == [Overfilling(d - 1, name, v)] && calls[1..][1..] == [];
      assert DepthAll(calls[1..]) == d - 1;
      assert DepthAll(calls) == d - 1;
    }
  }

  lemma {:induction false} Missing<K(!new), V>(s: State<K, V>, key: K)
    requires key !in Resident(s)
    ensures ValueOf(s.t1, key).None? && ValueOf(s.t2, key).None?
  {
    ValueOfNone(s.t1, key);
    ValueOfNone(s.t2, key);
  }

  /** An unused key is computed while there is room. */
  lemma {:induction false} FindFills<K(!new), V>(max: int, s: State<K, V>, asks: set<K>, key: K, v: V)
      returns (s': State<K, V>)
    requires Settled(s, max, asks) && Total(s) < max && key !in Resident(s) && key !in asks
    ensures Run(max, s, asks, Find(key, v)) == Finished(s', Value(v, None))
    ensures Settled(s', max, asks) && Total(s') == Total(s) + 1 && Resident(s') == Resident(s) + multiset{key}
  {
    Missing(s, key);
    assert RunAll<K, V>(max, s, asks + {key}, []) == Finished(s, NoReply);
    SettleSound(s, max, key, v, false);
    s' := Settle(s, max, key, v, false).value;
    hide Settle, Sound, Resident;
  }

  lemma {:induction false} RunTwo<K(!new), V>(max: int, s: State<K, V>, asks: set<K>, a: Call<K, V>, b: Call<K, V>)
    requires Run(max, s, asks, a).Finished? && Run(max, Run(max, s, asks, a).state, asks, b).Finished?
    ensures RunAll(max, s, asks, [a, b]) == Finished(Run(max, Run(max, s, asks, a).state, asks, b).state, NoReply)
  {
    hide Run;
    var s1 := Run(max, s, asks, a).state;
    assert [a, b][1..] == [b] && [b][1..] == [];
    assert RunAll(max, s1, asks, [b]) == Finished(Run(max, s1, asks, b).state, NoReply);
  }

  /** A miss on a full cache whose calculator calls nothing, up to the return of its destructor. */
  lemma {:induction false} MissEvicts<K(!new), V>(max: int, s: State<K, V>, asks: set<K>, key: K, v: V,
                                                  destroys: seq<Call<K, V>>)
      returns (s': State<K, V>, victim: Entry<K, V>)
    requires max >= 1 && Settled(s, max, asks) && Total(s) == max && key !in Resident(s) && key !in asks
    ensures Run(max, s, asks, Compute(key, [], Some(v), destroys)) ==
      FinishMiss(max, RunAll(max, s', asks + {key}, destroys), key, v, Some(victim))
    ensures Settled(s', max, asks + {key}) && Total(s') == max - 1 && Resident(s') <= Resident(s)
  {
    Missing(s, key);
    AskingSound(max, s, asks, key);
    EvictSound(max, s, asks + {key});
    hide *;
    s' := Evict(s).value.0;
    victim := Evict(s).value.1;
    MissUnfolds(max, s, asks, key, v, destroys);
  }

  lemma {:induction false} EvictSound<K(!new), V>(max: int, s: State<K, V>, asks: set<K>)
    requires max >= 1 && Settled(s, max, asks) && Total(s) >= max
    ensures Evict(s).Ok? && Settled(Evict(s).value.0, max, asks)
    ensures Total(Evict(s).value.0) == Total(s) - 1 && Resident(Evict(s).value.0) <= Resident(s)
  {
    EvictSafe(s, max);
    var s' := Evict(s).value.0;
    hide Evict;
    forall k | k in asks ensures k !in Resident(s') { assert k !in Resident(s); }
  }

  lemma {:induction false} MissUnfolds<K(!new), V>(max: int, s: State<K, V>, asks: set<K>, key: K, v: V,
                                                   destroys: seq<Call<K, V>>)
    requires Total(s) >= max && Evict(s).Ok? && key !in asks && ValueOf(s.t1, key).None? && ValueOf(s.t2, key).None?
    ensures var (s', victim) := Evict(s).value;
      Run(max, s, asks, Compute(key, [], Some(v), destroys)) ==
      FinishMiss(max, RunAll(max, s', asks + {key}, destroys), key, v, Some(victim))
  {
    hide Evict, FinishMiss, ValueOf;
    assert RunAll<K, V>(max, s, asks + {key}, []) == Finished(s, NoReply);
  }

  lemma {:induction false} UnusedStill<K(!new), V>(s: State<K, V>, asks: set<K>, s': State<K, V>, key: K,
                                                   name: nat -> K, hi: nat)
    requires Unused(s, asks, name, 0, hi + 1) && Injective(name) && key == name(hi)
    ensures Resident(s') <= Resident(s) ==> Unused(s', asks + {key}, name, 0, hi)
    ensures Resident(s') == Resident(s) + multiset{key} ==> Unused(s', asks, name, 0, hi)
  {
    hide Resident;
    forall i: nat | i < hi && Resident(s') <= Resident(s) ensures name(i) !in Resident(s') && name(i) !in asks + {key} {
      assert name(i) != key && name(i) !in Resident(s);
    }
    forall i: nat | i < hi && Resident(s') == Resident(s) + multiset{key}
      ensures name(i) !in Resident(s') && name(i) !in asks {
      assert name(i) != key && name(i) !in Resident(s);
    }
  }

  /** On every full cache such a call leaves as many entries too many as its destructors are nested deep. */
  lemma {:induction false} Overfills<K(!new), V>(max: int, s: State<K, V>, asks: set<K>, d: nat, name: nat -> K, v: V)
    requires max >= 1 && Settled(s, max, asks) && Total(s) == max
    requires Injective(name) && Unused(s, asks, name, 0, 2 * d + 1)
    ensures var o := Run(max, s, asks, Overfilling(d, name, v));
      o.Finished? && Settled(o.state, max, asks) && Total(o.state) == max + d
    decreases d
  {
    hide Run, Settled, Resident, FinishMiss, Unused, Injective;
    var key, destroys := name(2 * d), Overfilling(d, name, v).destroys;
    UnusedOne(s, asks, name, 2 * d, 2 * d + 1);
    var s2, victim := MissEvicts(max, s, asks, key, v, destroys);
    UnusedStill(s, asks, s2, key, name, 2 * d);
    if d > 0 {
      var c := name(2 * d - 1);
      UnusedOne(s2, asks + {key}, name, 2 * d - 1, 2 * d);
      var s3 := FindFills(max, s2, asks + {key}, c, v);
      UnusedStill(s2, asks + {key}, s3, c, name, 2 * d - 1);
      Overfills(max, s3, asks + {key}, d - 1, name, v);
      RunTwo(max, s2, asks + {key}, Find(c, v), Overfilling(d - 1, name, v));
    }
    FinishSound(max, RunAll(max, s2, asks + {key}, destroys), asks, key, v, Some(victim));
  }

  lemma {:induction false} UnusedOne<K(!new), V>(s: State<K, V>, asks: set<K>, name: nat -> K, i: nat, hi: nat)
    requires Unused(s, asks, name, 0, hi) && i < hi
    ensures name(i) !in Resident(s) && name(i) !in asks
  {
  }

  /** Keys that fill a cache, and then a call that overfills it. */
  function FillAndOverfill<K, V>(n: nat, d: nat, name: nat -> K, v: V): seq<Call<K, V>> {
    if n == 0 then [Overfilling(d, name, v)] else [Find(name(2 * d + n), v)] + FillAndOverfill(n - 1, d, name, v)
  }

  lemma {:induction false} FillingDepth<K, V>(n: nat, d: nat, name: nat -> K, v: V)
    ensures DepthAll(FillAndOverfill(n, d, name, v)) == d
  {
    var calls := FillAndOverfill(n, d, name, v);
    OverfillingDepth(d, name, v);
    hide Overfilling;
    if n == 0 {
      assert calls[1..] == [];
    } else {
      assert calls[1..] == FillAndOverfill(n - 1, d, name, v) && Depth(calls[0]) == 0;
      FillingDepth(n - 1, d, name, v);
    }
  }

  lemma {:induction false} FillsAndOverfills<K(!new), V>(max: int, s: State<K, V>, n: nat, d: nat, name: nat -> K, v: V)
    requires max >= 1 && Settled(s, max, {}) && Total(s) + n == max
    requires Injective(name) && Unused(s, {}, name, 0, 2 * d + n + 1)
    ensures var o := RunAll(max, s, {}, FillAndOverfill(n, d, name, v)); o.Finished? && Total(o.state) == max + d
    decreases n
  {
    hide Run, RunAll, Settled, Resident, Unused, Injective, Overfilling;
    var calls := FillAndOverfill(n, d, name, v);
    if n == 0 {
      Overfills(max, s, {}, d, name, v);
      var o := Run(max, s, {}, calls[0]);
      RunStep(max, s, {}, calls, o.state, o.reply);
    } else {
      var key := name(2 * d + n);
      UnusedOne(s, {}, name, 2 * d + n, 2 * d + n + 1);
      var s' := FindFills(max, s, {}, key, v);
      UnusedStill(s, {}, s', key, name, 2 * d + n);
      FillsAndOverfills(max, s', n - 1, d, name, v);
      RunStep(max, s, {}, calls, s', Value(v, None));
      assert calls[1..] == FillAndOverfill(n - 1, d, name, v);
    }
  }

  /** So the bound is met: for every capacity and every depth a run of a new cache ends that overfull. */
  lemma {:induction false} NewCacheOverfills<K(!new), V>(max: int, d: nat, name: nat -> K, v: V)
    requires max >= 1 && Injective(name)
    ensures var calls := FillAndOverfill(max, d, name, v); var o := RunAll(max, Empty(), {}, calls);
      DepthAll(calls) == d && o.Finished? && Total(o.state) == max + d
  {
    FillingDepth(max, d, name, v);
    EmptySound<K, V>(max, {});
    FillsAndOverfills(max, Empty(), max, d, name, v);
  }

  // ---- What holds as long as nothing is removed by hand

  /** Neither the call nor anything its calculators do is a Remove, nor, if `full`, a Clear, and its destructors call
      nothing. */
  ghost predicate Keeping<K(!new), V>(call: Call<K, V>, full: bool)
    decreases call
  {
    match call
    case Compute(_, nested, _, destroys) => destroys == [] && forall i :: 0 <= i < |nested| ==> Keeping(nested[i], full)
    case Clear => !full
    case Remove(_, _) => false
  }

  ghost predicate IsFull<K, V>(s: State<K, V>, max: int) {
    |s.t1| + |s.t2| == max
  }

  ghost predicate InShape<K(!new), V>(s: State<K, V>, asks: set<K>, max: int, full: bool) {
    Safe(s, max) && NoneResident(s, asks) && Directory(s, max) && (full ==> IsFull(s, max))
  }

  lemma {:induction false} MissDirectory<K(!new), V>(max: int, o: Outcome<K, V>, asks: set<K>, key: K,
                                                     answer: Option<V>, full: bool)
    requires max >= 1 && key !in asks
    requires o.Finished? && InShape(o.state, asks + {key}, max, full)
    ensures var o' := Installed(max, o, key, answer); o'.Finished? && InShape(o'.state, asks, max, full)
  {
    MissSafe(max, o, asks, key, answer);
    if answer.Some? {
      assert key in asks + {key};
      var s', victim := InstallSafe(o.state, max, key, answer.value);
    }
  }

  lemma {:induction false} HitInShape<K(!new), V>(max: int, s: State<K, V>, asks: set<K>, key: K, full: bool)
    requires InShape(s, asks, max, full)
    ensures InShape(s.(t1 := Touch(s.t1, key)), asks, max, full) && InShape(s.(t2 := Touch(s.t2, key)), asks, max, full)
  {
    HitSafe(max, s, asks, key);
    hide Safe, NoneResident;
  }

  lemma {:induction false} AskingInShape<K(!new), V>(max: int, s: State<K, V>, asks: set<K>, key: K, full: bool)
    requires InShape(s, asks, max, full) && ValueOf(s.t1, key).None? && ValueOf(s.t2, key).None?
    ensures InShape(s, asks + {key}, max, full)
  {
    AlsoAsking(s, asks, key);
    hide Safe, NoneResident;
  }

  /** Without Remove, T1 and B1 together stay within the capacity and the histories stay empty until the cache
      is full; without Clear as well, a full cache stays full. */
  lemma {:induction false} RunDirectory<K(!new), V>(max: int, s: State<K, V>, asks: set<K>, call: Call<K, V>,
                                                    full: bool)
    requires max >= 1 && InShape(s, asks, max, full) && Keeping(call, full)
    ensures var o := Run(max, s, asks, call); o.Finished? && InShape(o.state, asks, max, full)
    decreases call
  {
    if call.Clear? {
      EmptySafe<K, V>(max, asks);
    } else {
      hide InShape, Installed, Install;
      var key := call.key;
      HitInShape(max, s, asks, key, full);
      if ValueOf(s.t1, key).None? && ValueOf(s.t2, key).None? && key !in asks {
        AskingInShape(max, s, asks, key, full);
        RunAllDirectory(max, s, asks + {key}, call.nested, full);
        MissDirectory(max, RunAll(max, s, asks + {key}, call.nested), asks, key, call.answer, full);
        QuietMiss(max, s, asks, call);
      }
    }
  }

  lemma {:induction false} RunAllDirectory<K(!new), V>(max: int, s: State<K, V>, asks: set<K>, calls: seq<Call<K, V>>,
                                                       full: bool)
    requires max >= 1 && InShape(s, asks, max, full)
    requires forall i :: 0 <= i < |calls| ==> Keeping(calls[i], full)
    ensures var o := RunAll(max, s, asks, calls); o.Finished? && InShape(o.state, asks, max, full)
    decreases calls
  {
    if calls != [] {
      RunDirectory(max, s, asks, calls[0], full);
      RunAllDirectory(max, Run(max, s, asks, calls[0]).state, asks, calls[1..], full);
    }
  }

  /** Remove keeps that shape exactly when the cache was not full, nothing resident is selected, or all that
      the histories remember is. */
  lemma {:induction false} RemoveDirectoryIff<K(!new), V>(max: int, s: State<K, V>, onEntry: Entry<K, V> -> bool,
                                                          onKey: K -> bool)
    requires Safe(s, max) && Directory(s, max)
    ensures Directory(Removed(s, onEntry, onKey), max) <==>
      || !IsFull(s, max)
      || (forall e :: e in s.t1 || e in s.t2 ==> !onEntry(e))
      || (forall k :: k in s.b1 || k in s.b2 ==> onKey(k))
  {
    RemoveSafe(max, s, onEntry, onKey);
    KeepSizes(s.t1, onEntry);
    KeepSizes(s.t2, onEntry);
    KeepSizes(s.b1, onKey);
    KeepSizes(s.b2, onKey);
  }

  lemma {:induction false} KeepSizes<T>(s: seq<T>, selected: T -> bool)
    ensures |Keep(s, selected)| <= |s|
    ensures |Keep(s, selected)| == |s| <==> forall x :: x in s ==> !selected(x)
    ensures Keep(s, selected) == [] <==> forall x :: x in s ==> selected(x)
  {
    if s != [] {
      KeepSizes(s[1..], selected);
      assert forall x :: x in s <==> x == s[0] || x in s[1..];
    }
  }

  /** A run in which it does not: a referenced key is evicted into B2, and then the only resident entry is removed. */
  function BreakingRun<K(==), V>(a: K, b: K, v: V): seq<Call<K, V>> {
    [Find(a, v), Find(a, v), Find(b, v), Remove((k, _) => k == b, _ => false)]
  }

  lemma {:induction false} RemoveBreaksDirectory<K(!new), V>(a: K, b: K, v: V)
    requires a != b
    ensures var o := RunAll(1, Empty(), {}, BreakingRun(a, b, v));
      o.Finished? && Safe(o.state, 1) && !Directory(o.state, 1)
  {
    var calls := BreakingRun(a, b, v);
    var s1: State<K, V> := Store(0, [Entry(a, v, false)], [], [], []);
    var s2: State<K, V> := Store(0, [Entry(a, v, true)], [], [], []);
    var s3: State<K, V> := Store(0, [Entry(b, v, false)], [], [], [a]);
    var s4: State<K, V> := Store(0, [], [], [], [a]);
    DepthOfEach(calls);
    hide Run, RunAll, Safe, Depth, DepthAll;
    EmptySafe<K, V>(1, {});
    RunAllSafe(1, Empty(), {}, calls);
    ReferenceOnly(a, v);
    ReferencedGoesToB2(a, b, v);
    RemoveOnly(a, b, v, calls[3].onNode, calls[3].onKey);
    RunStep(1, Empty(), {}, calls, s1, Value(v, None));
    RunStep(1, s1, {}, calls[1..], s2, Value(v, None));
    RunStep(1, s2, {}, calls[2..], s3, Value(v, Some(Entry(a, v, false))));
    RunStep(1, s3, {}, calls[3..], s4, NoReply);
    assert !Directory(s4, 1);
  }

  lemma {:induction false} RunStep<K(!new), V>(max: int, s: State<K, V>, asks: set<K>, calls: seq<Call<K, V>>,
                                               s': State<K, V>, reply: Reply<K, V>)
    requires calls != [] && Run(max, s, asks, calls[0]) == Finished(s', reply)
    ensures RunAll(max, s, asks, calls) == RunAll(max, s', asks, calls[1..])
    ensures |calls| == 1 ==> RunAll(max, s, asks, calls) == Finished(s', NoReply)
    ensures |calls| > 1 ==> calls[1..][0] == calls[1]
    ensures |calls| > 1 ==> forall i :: 1 <= i <= |calls| ==> calls[1..][i - 1..] == calls[i..]
  {
  }

  /** A key is computed into an empty cache and then asked for again. */
  lemma {:induction false} ReferenceOnly<K(!new), V>(a: K, v: V)
    ensures var find: Call<K, V> := Find(a, v); var s: State<K, V> := Store(0, [Entry(a, v, false)], [], [], []);
      && Run(1, Empty(), {}, find) == Finished(s, Value(v, None))
      && Run(1, s, {}, find) == Finished(s.(t1 := [Entry(a, v, true)]), Value(v, None))
  {
    var es: seq<Entry<K, V>> := [Entry(a, v, false)];
    assert [] + es == es && Touch(es, a) == [Entry(a, v, true)];
  }

  lemma {:induction false} RemoveOnly<K(!new), V>(a: K, b: K, v: V, onNode: Removal<K, V>, onKey: K -> bool)
    requires onNode(b, Some(Entry(b, v, false))) && !onKey(a)
    ensures Run(1, Store(0, [Entry(b, v, false)], [], [], [a]), {}, Remove(onNode, onKey)) ==
      Finished(Store(0, [], [], [], [a]), NoReply)
  {
    KeepSizes([Entry(b, v, false)], OnEntry(onNode));
    KeepSizes([a], onKey);
    KeepMembers([a], onKey);
    assert Keep([a], onKey)[0] in [a];
  }

  /** The only entry, once referenced, is promoted, found unreferenced in T2 and evicted into B2. */
  lemma {:induction false} ReferencedGoesToB2<K(!new), V>(a: K, b: K, v: V)
    requires a != b
    ensures Run(1, Store(0, [Entry(a, v, true)], [], [], []), {}, Find(b, v)) ==
      Finished(Store(0, [Entry(b, v, false)], [], [], [a]), Value(v, Some(Entry(a, v, false))))
  {
    var s: State<K, V> := Store(0, [Entry(a, v, true)], [], [], []);
    assert s.t1[1..] == [];
    assert ValueOf(s.t1, b) == None && ValueOf(s.t2, b) == None;
    ReplaceReferenced<K, V>(a, v);
    hide ReplaceLoop;
    assert [a] + [] == [a] && [] + [Entry(b, v, false)] == [Entry(b, v, false)];
    var gone: State<K, V> := Store(0, [], [], [], [a]);
    assert Evict(s) == Ok((gone, Entry(a, v, false)));
    assert Trim(gone, 0, 0, 1, b) == gone;
    assert Insert(gone, 1, b, v) == Ok(gone.(t1 := [Entry(b, v, false)]));
    hide Evict, Trim, Insert;
    assert InstallAtOnce(s, 1, b, v) == Ok((gone.(t1 := [Entry(b, v, false)]), Some(Entry(a, v, false))));
    hide InstallAtOnce;
    assert RunAll<K, V>(1, s, {} + {b}, []) == Finished(s, NoReply);
    QuietMiss(1, s, {}, Find(b, v));
  }

  lemma {:induction false} ReplaceReferenced<K(!new), V>(a: K, v: V)
    ensures ReplaceLoop([Entry(a, v, true)], [], 1) == Ok(Replaced([], [], Entry(a, v, false), false, 2))
  {
    var t1: seq<Entry<K, V>>, t2: seq<Entry<K, V>> := [Entry(a, v, true)], [Entry(a, v, false)];
    assert t1[1..] == [] && t2[1..] == [] && [] + t2 == t2;
    assert ReplaceLoop([], t2, 1) == Ok(Replaced([], [], t2[0], false, 1));
  }
}
