/** The cache of cache/car.go itself, over the linked clocks and histories, proved to do what
    CarFull says, on damaged clocks as on whole ones. */
module CarCache {
  import opened Basics
  import opened Sequences
  import opened CarClock
  import opened LruKeyMap
  import opened Car
  import opened CarPolicy
  import opened CarRuns
  import opened CarFull

  class CarCacheData<K(==,!new), V> {
    const max: int
    var p: int
    var T1: CarClockData<K, V>
    var T2: CarClockData<K, V>
    var B1: LruKeyMapData<K>
    var B2: LruKeyMapData<K>
    /** The keys this thread is computing. */
    var asks: set<K>
    ghost var Repr: set<object>

    ghost predicate Valid()
      reads this, Repr
    {
      && this in Repr && T1 in Repr && T2 in Repr && B1 in Repr && B2 in Repr
      && T1.Repr <= Repr && T2.Repr <= Repr && B1.Repr <= Repr && B2.Repr <= Repr
      && this !in T1.Repr && this !in T2.Repr && this !in B1.Repr && this !in B2.Repr
      && T1.Repr !! T2.Repr && T1.Repr !! B1.Repr && T1.Repr !! B2.Repr
      && T2.Repr !! B1.Repr && T2.Repr !! B2.Repr && B1.Repr !! B2.Repr
      && T1.Valid() && T2.Valid() && B1.Valid() && B2.Valid()
    }

    ghost function Abs(): Cache<K, V>
      reads this, T1, T2, B1, B2
    {
      Store(p, T1.clock, T2.clock, B1.Contents(), B2.Contents())
    }

    /** The footprint only grows by new objects, and the in-progress set is as before. */
    twostate predicate Kept()
      reads this
    {
      fresh(Repr - old(Repr)) && asks == old(asks)
    }

    static method NewClocks() returns (t1: CarClockData<K, V>, t2: CarClockData<K, V>)
      ensures t1.Valid() && t2.Valid() && t1.clock == t2.clock == NoClock()
      ensures t1 != t2 && t1.Repr == {t1} && t2.Repr == {t2} && fresh(t1) && fresh(t2)
    {
      t1 := new CarClockData();
      t2 := new CarClockData();
    }

    static method NewHistories() returns (b1: LruKeyMapData<K>, b2: LruKeyMapData<K>)
      ensures b1.Valid() && b2.Valid() && b1.Contents() == b2.Contents() == []
      ensures b1 != b2 && b1.Repr == {b1} && b2.Repr == {b2} && fresh(b1) && fresh(b2)
    {
      b1 := new LruKeyMapData();
      b2 := new LruKeyMapData();
    }

    constructor (max: int)
      ensures Valid() && Abs() == NoCache() && asks == {} && this.max == max
    {
      var t1, t2 := NewClocks();
      var b1, b2 := NewHistories();
      this.max, p, asks := max, 0, {};
      T1, T2, B1, B2 := t1, t2, b1, b2;
      Repr := {this, t1, t2, b1, b2};
    }

    // ---- One structure at a time

    method AppendT1(key: K, value: V) returns (ok: bool)
      requires Valid()
      modifies Repr
      ensures Valid() && Kept()
      ensures var r := Added(old(Abs()).t1, key, value);
        ok == r.Ok? && Abs() == if ok then old(Abs()).(t1 := r.value) else old(Abs())
    {
      hide IsClock, Indexed, Added;
      ok := T1.AddTail(key, value);
      Repr := Repr + T1.Repr;
    }

    method AppendT2(key: K, value: V) returns (ok: bool)
      requires Valid()
      modifies Repr
      ensures Valid() && Kept()
      ensures var r := Added(old(Abs()).t2, key, value);
        ok == r.Ok? && Abs() == if ok then old(Abs()).(t2 := r.value) else old(Abs())
    {
      hide IsClock, Indexed, Added;
      ok := T2.AddTail(key, value);
      Repr := Repr + T2.Repr;
    }

    method PopT1() returns (e: Entry<K, V>)
      requires Valid() && Abs().t1.chain != []
      modifies Repr
      ensures Valid() && Kept()
      ensures e == old(Abs()).t1.chain[0].entry && Abs() == old(Abs()).(t1 := Popped(old(Abs()).t1))
    {
      hide IsClock, Indexed;
      var r := T1.RemoveHead();
      e := r.value;
    }

    method PopT2() returns (e: Entry<K, V>)
      requires Valid() && Abs().t2.chain != []
      modifies Repr
      ensures Valid() && Kept()
      ensures e == old(Abs()).t2.chain[0].entry && Abs() == old(Abs()).(t2 := Popped(old(Abs()).t2))
    {
      hide IsClock, Indexed;
      var r := T2.RemoveHead();
      e := r.value;
    }

    method RememberB1(key: K) returns (ok: bool)
      requires Valid()
      modifies Repr
      ensures Valid() && Kept()
      ensures var r := AddMRU(old(Abs()).b1, key);
        ok == r.Ok? && Abs() == if ok then old(Abs()).(b1 := r.value) else old(Abs())
    {
      hide IsClock, Indexed;
      ok := B1.AddMRU(key);
      Repr := Repr + B1.Repr;
    }

    method RememberB2(key: K) returns (ok: bool)
      requires Valid()
      modifies Repr
      ensures Valid() && Kept()
      ensures var r := AddMRU(old(Abs()).b2, key);
        ok == r.Ok? && Abs() == if ok then old(Abs()).(b2 := r.value) else old(Abs())
    {
      hide IsClock, Indexed;
      ok := B2.AddMRU(key);
      Repr := Repr + B2.Repr;
    }

    method TrimB1()
      requires Valid()
      modifies Repr
      ensures Valid() && Kept() && Abs() == old(Abs()).(b1 := DropLRU(old(Abs()).b1))
    {
      hide IsClock, Indexed;
      B1.RemoveLRU();
    }

    method TrimB2()
      requires Valid()
      modifies Repr
      ensures Valid() && Kept() && Abs() == old(Abs()).(b2 := DropLRU(old(Abs()).b2))
    {
      hide IsClock, Indexed;
      B2.RemoveLRU();
    }

    method ForgetB1(key: K)
      requires Valid()
      modifies Repr
      ensures Valid() && Kept() && Abs() == old(Abs()).(b1 := Drop(old(Abs()).b1, key))
    {
      hide IsClock, Indexed;
      B1.Remove(key);
    }

    method ForgetB2(key: K)
      requires Valid()
      modifies Repr
      ensures Valid() && Kept() && Abs() == old(Abs()).(b2 := Drop(old(Abs()).b2, key))
    {
      hide IsClock, Indexed;
      B2.Remove(key);
    }

    method TouchT1(key: K)
      requires Valid()
      modifies Repr
      ensures Valid() && Kept() && Abs() == old(Abs()).(t1 := Referenced(old(Abs()).t1, key))
    {
      hide IsClock, Indexed;
      T1.SetPageReference(key);
    }

    method TouchT2(key: K)
      requires Valid()
      modifies Repr
      ensures Valid() && Kept() && Abs() == old(Abs()).(t2 := Referenced(old(Abs()).t2, key))
    {
      hide IsClock, Indexed;
      T2.SetPageReference(key);
    }

    method MoveTarget(target: int)
      requires Valid()
      modifies Repr
      ensures Valid() && Kept() && Abs() == old(Abs()).(p := target)
    {
      hide IsClock, Indexed;
      p := target;
    }

    method Ask(keys: set<K>)
      requires Valid()
      modifies Repr
      ensures Valid() && fresh(Repr - old(Repr)) && Abs() == old(Abs()) && asks == keys
    {
      hide IsClock, Indexed;
      asks := keys;
    }

    method Sizes() returns (t1Size: nat, t2Size: nat, b1Size: nat, b2Size: nat)
      requires Valid()
      ensures t1Size == |Abs().t1.index| && t2Size == |Abs().t2.index| && b1Size == |Abs().b1| && b2Size == |Abs().b2|
    {
      t1Size := T1.Size();
      t2Size := T2.Size();
      b1Size := B1.GetCurrentSize();
      b2Size := B2.GetCurrentSize();
    }

    /** The reference bits of both heads, None where the source panics on an empty clock. */
    method HeadBits() returns (bit1: Option<bool>, bit2: Option<bool>)
      requires Valid()
      ensures bit1 == if Abs().t1.chain == [] then None else Some(Abs().t1.chain[0].entry.bit)
      ensures bit2 == if Abs().t2.chain == [] then None else Some(Abs().t2.chain[0].entry.bit)
    {
      bit1 := T1.GetPageReferenceOfHead();
      bit2 := T2.GetPageReferenceOfHead();
    }

    /** What the clocks hold under a key. */
    method Hits(key: K) returns (hit1: Option<V>, hit2: Option<V>)
      requires Valid()
      ensures hit1 == Held(Abs().t1, key) && hit2 == Held(Abs().t2, key)
    {
      hit1 := T1.Get(key);
      hit2 := T2.Get(key);
    }

    method IsXInB(key: K) returns (inB1: bool, inB2: bool)
      requires Valid()
      ensures inB1 <==> key in Abs().b1
      ensures inB2 <==> key in Abs().b2
    {
      inB1 := B1.Contains(key);
      inB2 := B2.Contains(key);
    }

    // ---- replace

    /** An iteration of replace that looks at T1. */
    method TakeTurnInT1(localP: int) returns (r: Option<Step<(Entry<K, V>, bool)>>)
      requires Valid() && |Abs().t1.index| >= localP
      modifies Repr
      ensures Valid() && Kept() && Took(old(Abs()), localP, Abs(), r)
    {
      hide Valid;
      var bit, _ := HeadBits();
      if bit.None? { return Some(Panic); }
      var e := PopT1();
      if !bit.value { return Some(Ok((e, true))); }
      var ok := AppendT2(e.key, e.value);
      r := if ok then None else Some(Panic);
    }

    /** An iteration of replace that looks at T2. */
    method TakeTurnInT2(localP: int) returns (r: Option<Step<(Entry<K, V>, bool)>>)
      requires Valid() && |Abs().t1.index| < localP
      modifies Repr
      ensures Valid() && Kept() && Took(old(Abs()), localP, Abs(), r)
    {
      hide Valid;
      var _, bit := HeadBits();
      if bit.None? { return Some(Panic); }
      var e := PopT2();
      if !bit.value { return Some(Ok((e, false))); }
      var ok := AppendT2(e.key, e.value);
      r := if ok then None else Some(Panic);
    }

    method TakeTurn(localP: int) returns (r: Option<Step<(Entry<K, V>, bool)>>)
      requires Valid()
      modifies Repr
      ensures Valid() && Kept() && Took(old(Abs()), localP, Abs(), r)
    {
      hide Valid, Took;
      var t1Size, _, _, _ := Sizes();
      if t1Size >= localP {
        r := TakeTurnInT1(localP);
      } else {
        r := TakeTurnInT2(localP);
      }
    }

    /** The loop of replace, up to the eviction. It ends on damaged clocks too. */
    method Choose() returns (r: Step<(Entry<K, V>, bool)>)
      requires Valid()
      modifies Repr
      ensures Valid() && Kept()
      ensures var s := old(Abs()); match ReplaceOn(s.t1, s.t2, Max(1, s.p)) {
        case Panic => r.Panic?
        case Ok(x) => r == Ok((x.victim, x.fromT1)) && Abs() == s.(t1 := x.t1, t2 := x.t2)
      }
    {
      hide Valid, ReplaceOn, TurnOn, OnChain, SetBits;
      var localP := Max(1, p);
      ghost var s, n := Abs(), 0;
      while true
        invariant Valid() && Kept()
        invariant Abs() == s.(t1 := Abs().t1, t2 := Abs().t2)
        invariant ReplaceOn(s.t1, s.t2, localP) == Later(ReplaceOn(Abs().t1, Abs().t2, localP), n)
        decreases SetBits(OnChain(Abs().t1)) + SetBits(OnChain(Abs().t2))
      {
        LaterTurn(Abs().t1, Abs().t2, localP, n);
        var turn := TakeTurn(localP);
        if turn.Some? { return turn.value; }
        n := n + 1;
      }
    }

    /** replace: the entry handed to the destructor, or the panic. */
    method Replace() returns (r: Step<Entry<K, V>>)
      requires Valid()
      modifies Repr
      ensures Valid() && Kept()
      ensures match EvictOn(old(Abs())) {
        case Panic => r.Panic?
        case Ok((s, victim)) => r == Ok(victim) && Abs() == s
      }
    {
      hide Valid;
      var chosen := Choose();
      if chosen.Panic? { return Panic; }
      var (victim, fromT1) := chosen.value;
      var ok;
      if fromT1 {
        ok := RememberB1(victim.key);
      } else {
        ok := RememberB2(victim.key);
      }
      r := if ok then Ok(victim) else Panic;
    }

    // ---- The rest of a miss

    /** Make room in the histories for a key they do not hold. */
    method TrimHistories(key: K)
      requires Valid()
      modifies Repr
      ensures Valid() && Kept() && Abs() == Trim(old(Abs()), |old(Abs()).t1.index|, |old(Abs()).t2.index|, max, key)
    {
      hide Valid, DropLRU;
      var inB1, inB2 := IsXInB(key);
      var t1Size, t2Size, b1Size, b2Size := Sizes();
      if !inB1 && !inB2 {
        if t1Size + b1Size >= max {
          TrimB1();
        } else if t1Size + t2Size + b1Size + b2Size >= 2 * max {
          TrimB2();
        }
      }
    }

    /** Evict when the cache is full. */
    method MakeRoom() returns (r: Step<Option<Entry<K, V>>>)
      requires Valid()
      modifies Repr
      ensures Valid() && Kept()
      ensures match SpareOn(old(Abs()), max) {
        case Panic => r.Panic?
        case Ok((s, victim)) => r == Ok(victim) && Abs() == s
      }
    {
      hide Valid, EvictOn;
      var t1Size, t2Size, _, _ := Sizes();
      if t1Size + t2Size < max { return Ok(None); }
      var victim := Replace();
      r := if victim.Panic? then Panic else Ok(Some(victim.value));
    }

    /** Move the target and forget the key in the history that remembers it. */
    method Recall(key: K)
      requires Valid() && InHistory(Abs(), key)
      modifies Repr
      ensures Valid() && Kept() && Abs() == Recalled(old(Abs()), max, key)
    {
      hide Valid, Grown, Shrunk, Drop;
      var _, _, b1Size, b2Size := Sizes();
      var inB1, _ := IsXInB(key);
      if inB1 {
        MoveTarget(Grown(p, b1Size, b2Size, max));
        ForgetB1(key);
      } else {
        MoveTarget(Shrunk(p, b2Size, b1Size));
        ForgetB2(key);
      }
    }

    /** The last part of a miss. */
    method InsertValue(key: K, value: V) returns (ok: bool)
      requires Valid()
      modifies Repr
      ensures Valid() && Kept()
      ensures match InsertOn(old(Abs()), max, key, value) {
        case Panic => !ok
        case Ok(s) => ok && Abs() == s
      }
    {
      hide Valid;
      var inB1, inB2 := IsXInB(key);
      if !inB1 && !inB2 {
        ok := AppendT1(key, value);
      } else {
        Recall(key);
        ok := AppendT2(key, value);
      }
    }

    /** What a miss does once its destructor has returned. */
    method SettleValue(key: K, value: V, evicted: bool) returns (ok: bool)
      requires Valid()
      modifies Repr
      ensures Valid() && Kept()
      ensures match SettleOn(old(Abs()), max, key, value, evicted) {
        case Panic => !ok
        case Ok(s) => ok && Abs() == s
      }
    {
      hide Valid, InsertOn, Trim;
      if evicted { TrimHistories(key); }
      ok := InsertValue(key, value);
    }

    // ---- The calls

    /** The clocks are asked first, T1 before T2, and a hit sets the reference bit. */
    method LookUp(key: K) returns (r: Option<V>)
      requires Valid()
      modifies Repr
      ensures Valid() && Kept() && LookedUp(old(Abs()), key, r, Abs())
    {
      hide Valid;
      var hit1, hit2 := Hits(key);
      if hit1.Some? {
        TouchT1(key);
        return hit1;
      }
      if hit2.Some? { TouchT2(key); }
      r := hit2;
    }

    method HasKey(key: K) returns (found: bool)
      requires Valid()
      ensures found <==> key in Abs().t1.index || key in Abs().t2.index
      ensures forall s :: Stands(Abs(), s) ==> (found <==> key in Resident(s))
    {
      var hit1, hit2 := Hits(key);
      found := hit1.Some? || hit2.Some?;
      forall s | Stands(Abs(), s) ensures found <==> key in Resident(s) {
        HitAgrees(Abs(), s, key);
        ValueOfNone(s.t1, key);
        ValueOfNone(s.t2, key);
      }
    }

    method Size() returns (size: nat)
      requires Valid()
      ensures size == |Abs().t1.index| + |Abs().t2.index|
      ensures forall s :: Stands(Abs(), s) ==> size == |Resident(s)|
    {
      var t1Size, t2Size, _, _ := Sizes();
      size := t1Size + t2Size;
    }

    method ClearAllValues()
      requires this in Repr
      modifies Repr
      ensures Valid() && Kept() && Abs() == NoCache()
    {
      hide Valid, Abs, CarClockData.Valid, LruKeyMapData.Valid;
      var t1, t2 := NewClocks();
      var b1, b2 := NewHistories();
      Adopt(t1, t2, b1, b2);
    }

    /** Start over with new, empty structures. */
    method Adopt(t1: CarClockData<K, V>, t2: CarClockData<K, V>, b1: LruKeyMapData<K>, b2: LruKeyMapData<K>)
      requires t1.Valid() && t2.Valid() && t1.clock == t2.clock == NoClock() && this !in {t1, t2, b1, b2}
      requires b1.Valid() && b2.Valid() && b1.Contents() == b2.Contents() == []
      requires t1 != t2 && b1 != b2 && t1.Repr == {t1} && t2.Repr == {t2} && b1.Repr == {b1} && b2.Repr == {b2}
      modifies this
      ensures Valid() && asks == old(asks) && Repr == old(Repr) + {this, t1, t2, b1, b2} && Abs() == NoCache()
    {
      hide CarClockData.Valid, LruKeyMapData.Valid;
      p, T1, T2, B1, B2 := 0, t1, t2, b1, b2;
      Repr := Repr + {this, t1, t2, b1, b2};
    }

    /** Remove as written, whatever it selects. */
    method RemoveSelected(onNode: Removal<K, V>, onKey: K -> bool)
      requires Valid()
      modifies Repr
      ensures Valid() && Kept() && Abs() == RemovedOn(old(Abs()), onNode, onKey)
    {
      hide Valid;
      SweepT1(onNode);
      SweepT2(onNode);
      SweepB1(onKey);
      SweepB2(onKey);
    }

    method SweepT1(onNode: Removal<K, V>)
      requires Valid()
      modifies Repr
      ensures Valid() && Kept() && Abs() == old(Abs()).(t1 := Swept(old(Abs()).t1, onNode))
    {
      hide IsClock, Indexed;
      T1.RemoveAll(onNode);
    }

    method SweepT2(onNode: Removal<K, V>)
      requires Valid()
      modifies Repr
      ensures Valid() && Kept() && Abs() == old(Abs()).(t2 := Swept(old(Abs()).t2, onNode))
    {
      hide IsClock, Indexed;
      T2.RemoveAll(onNode);
    }

    method SweepB1(onKey: K -> bool)
      requires Valid()
      modifies Repr
      ensures Valid() && Kept() && Abs() == old(Abs()).(b1 := Keep(old(Abs()).b1, onKey))
    {
      hide IsClock, Indexed;
      B1.RemoveAll(onKey);
    }

    method SweepB2(onKey: K -> bool)
      requires Valid()
      modifies Repr
      ensures Valid() && Kept() && Abs() == old(Abs()).(b2 := Keep(old(Abs()).b2, onKey))
    {
      hide IsClock, Indexed;
      B2.RemoveAll(onKey);
    }

    /** Compute, Clear and Remove, with the calculator and the destructor making their own calls in the middle of a
        miss. Every run of the model is carried out step for step, its panics included, and the in-progress set is
        restored. */
    method Execute(call: Call<K, V>) returns (reply: Step<Reply<K, V>>)
      requires Valid()
      modifies Repr
      ensures Valid() && Kept() && Did(RunOn(max, old(Abs()), asks, call), Abs(), reply)
      decreases call, 1
    {
      assert this in Repr;
      hide Valid, RunAllOn, RemovedOn, Referenced, InstallOn;
      match call
      case Clear =>
        ClearAllValues();
        reply := Ok(NoReply);
      case Remove(onNode, onKey) =>
        RemoveSelected(onNode, onKey);
        reply := Ok(NoReply);
      case Compute(_, _, _, _) =>
        reply := ExecuteCompute(call);
    }

    method ExecuteCompute(call: Call<K, V>) returns (reply: Step<Reply<K, V>>)
      requires Valid() && call.Compute?
      modifies Repr
      ensures Valid() && Kept() && Did(RunOn(max, old(Abs()), asks, call), Abs(), reply)
      decreases call, 0
    {
      hide Valid, RunAllOn, Referenced, InstallOn;
      var hit := LookUp(call.key);
      if hit.Some? { return Ok(Reply.Value(hit.value, None)); }
      if call.key in asks { return Ok(CycleError); }
      Ask(asks + {call.key});
      var ok := ExecuteAll(call.nested);
      if !ok {
        reply := Panic;
      } else if call.answer.None? {
        reply := Ok(CalculatorError);
      } else {
        reply := InstallValue(call.key, call.answer.value, call.destroys);
      }
      Ask(asks - {call.key});
    }

    /** What a miss does once its calculator has succeeded, the calls of the destructor included. */
    method InstallValue(key: K, value: V, destroys: seq<Call<K, V>>) returns (reply: Step<Reply<K, V>>)
      requires Valid()
      modifies Repr
      ensures Valid() && Kept() && Did(InstallOn(max, old(Abs()), asks, key, value, destroys), Abs(), reply)
      decreases destroys, 3
    {
      hide Valid, RunAllOn, SpareOn, SettleOn;
      var victim := MakeRoom();
      if victim.Panic? { return Panic; }
      var ok := true;
      if victim.value.Some? { ok := ExecuteAll(destroys); }
      if ok { ok := SettleValue(key, value, victim.value.Some?); }
      reply := if ok then Ok(Reply.Value(value, victim.value)) else Panic;
    }

    method ExecuteAll(calls: seq<Call<K, V>>) returns (ok: bool)
      requires Valid()
      modifies Repr
      ensures Valid() && Kept()
      ensures match RunAllOn(max, old(Abs()), asks, calls) {
        case Panic => !ok
        case Ok(s) => ok && Abs() == s
      }
      decreases calls, 2
    {
      hide Valid, RunOn;
      var i := 0;
      while i < |calls|
        invariant 0 <= i <= |calls|
        invariant Valid() && Kept()
        invariant RunAllOn(max, Abs(), asks, calls[i..]) == RunAllOn(max, old(Abs()), asks, calls)
      {
        assert calls[i..][0] == calls[i] && calls[i..][1..] == calls[i + 1..];
        var reply := Execute(calls[i]);
        if reply.Panic? { return false; }
        i := i + 1;
      }
      ok := true;
    }
  }

  /** The answer and the state are those of the run, except that a panic leaves anything. */
  ghost predicate Did<K, V>(r: Step<(Cache<K, V>, Reply<K, V>)>, s: Cache<K, V>, reply: Step<Reply<K, V>>) {
    match r
    case Panic => reply.Panic?
    case Ok((s', reply')) => reply == Ok(reply') && s == s'
  }

  function Held<K(==), V>(c: Clock<K, V>, key: K): Option<V> {
    if key in c.index then Some(c.index[key].value) else None
  }

  /** A lookup asks T1 before T2 and sets the reference bit of what it finds. */
  ghost predicate LookedUp<K, V>(s: Cache<K, V>, key: K, r: Option<V>, s': Cache<K, V>) {
    var hit1, hit2 := Held(s.t1, key), Held(s.t2, key);
    && r == (if hit1.Some? then hit1 else hit2)
    && s' == (if hit1.Some? then s.(t1 := Referenced(s.t1, key))
              else if hit2.Some? then s.(t2 := Referenced(s.t2, key)) else s)
  }

  /** An iteration of replace from `s` leaves `s'` and the answer, except that a panic leaves anything. */
  ghost predicate Took<K, V>(s: Cache<K, V>, localP: int, s': Cache<K, V>, r: Option<Step<(Entry<K, V>, bool)>>) {
    match TurnOn(s.t1, s.t2, localP)
    case Stuck => r == Some(Panic)
    case Moved(a, b) => r == None && s' == s.(t1 := a, t2 := b)
    case Evicted(a, b, victim, fromT1) => r == Some(Ok((victim, fromT1))) && s' == s.(t1 := a, t2 := b)
  }

  lemma {:induction false} LaterTurn<K, V>(t1: Clock<K, V>, t2: Clock<K, V>, localP: int, n: nat)
    ensures var r := Later(ReplaceOn(t1, t2, localP), n); match TurnOn(t1, t2, localP) {
      case Stuck => r.Panic?
      case Moved(a, b) => r == Later(ReplaceOn(a, b, localP), n + 1)
      case Evicted(a, b, victim, fromT1) => r == Ok(Replaced(a, b, victim, fromT1, n + 1))
    }
  {
    hide TurnOn;
  }

  /** The same result, reached `n` iterations later. */
  ghost function Later<C, E>(r: Step<Replaced<C, E>>, n: nat): Step<Replaced<C, E>> {
    if r.Panic? then Panic else Ok(r.value.(rounds := r.value.rounds + n))
  }
}
