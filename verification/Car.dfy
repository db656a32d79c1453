/** The CAR policy of cache/car.go on values: two clocks T1 and T2 of entries, two key
    histories B1 and B2 (most recently used first) and the adaptive target p. A panic of the
    source is the value Panic, so that its absence is something to prove. */
module Car {
  import opened Basics
  import opened CarClock

  function KeysOf<K, V>(es: seq<Entry<K, V>>): (r: seq<K>)
    ensures |r| == |es| && forall i {:trigger r[i]} :: 0 <= i < |r| ==> r[i] == es[i].key
  {
    seq(|es|, i requires 0 <= i < |es| => es[i].key)
  }

  /** The entries with the reference bit of `key` set. */
  function Touch<K(==), V>(es: seq<Entry<K, V>>, key: K): (r: seq<Entry<K, V>>)
    ensures |r| == |es|
    ensures forall i {:trigger r[i]} :: 0 <= i < |r| ==> r[i] == if es[i].key == key then es[i].(bit := true) else es[i]
  {
    seq(|es|, i requires 0 <= i < |es| => if es[i].key == key then es[i].(bit := true) else es[i])
  }

  function Cleared<K, V>(e: Entry<K, V>): Entry<K, V> { e.(bit := false) }

  function ClearAll<K, V>(es: seq<Entry<K, V>>): (r: seq<Entry<K, V>>)
    ensures |r| == |es| && forall i {:trigger r[i]} :: 0 <= i < |r| ==> r[i] == Cleared(es[i])
  {
    seq(|es|, i requires 0 <= i < |es| => Cleared(es[i]))
  }

  function SetBits<K, V>(es: seq<Entry<K, V>>): nat {
    if es == [] then 0 else (if es[0].bit then 1 else 0) + SetBits(es[1..])
  }

  lemma {:induction false} SetBitsSnoc<K, V>(es: seq<Entry<K, V>>, e: Entry<K, V>)
    ensures SetBits(es + [e]) == SetBits(es) + if e.bit then 1 else 0
  {
    if es == [] {
      assert es + [e] == [e];
    } else {
      assert (es + [e])[1..] == es[1..] + [e];
      SetBitsSnoc(es[1..], e);
    }
  }

  // ---- replace

  /** What replace does to two clocks of type C: the evicted entry, the clock it left, and the iterations it took. */
  datatype Replaced<C, E> = Replaced(t1: C, t2: C, victim: E, fromT1: bool, rounds: nat)

  function AddTail<K(==), V>(es: seq<Entry<K, V>>, key: K, value: V): Step<seq<Entry<K, V>>> {
    if key in KeysOf(es) then Panic else Ok(es + [Entry(key, value, false)])
  }

  /** What one iteration of replace comes to. */
  datatype Turn<C, E> = Stuck | Moved(t1: C, t2: C) | Evicted(t1: C, t2: C, victim: E, fromT1: bool)

  /** The whole of replace after a turn that moves something. */
  function OneMore<C, E>(r: Step<Replaced<C, E>>): Step<Replaced<C, E>> {
    if r.Panic? then Panic else Ok(r.value.(rounds := r.value.rounds + 1))
  }

  /** One iteration: evict an unreferenced head, or promote it from T1 or rotate it in T2 with its bit cleared. */
  function TurnOf<K(==), V>(t1: seq<Entry<K, V>>, t2: seq<Entry<K, V>>,
                            localP: int): (r: Turn<seq<Entry<K, V>>, Entry<K, V>>)
    requires localP >= 1
    ensures r.Moved? ==> SetBits(r.t1) + SetBits(r.t2) < SetBits(t1) + SetBits(t2)
  {
    if |t1| >= localP then
      var head := t1[0];
      if !head.bit then Evicted(t1[1..], t2, head, true)
      else
        var t2' := AddTail(t2, head.key, head.value);
        SetBitsSnoc(t2, Cleared(head));
        if t2'.Panic? then Stuck else Moved(t1[1..], t2'.value)
    else if t2 == [] then Stuck
    else
      var head := t2[0];
      if !head.bit then Evicted(t1, t2[1..], head, false)
      else
        var t2' := AddTail(t2[1..], head.key, head.value);
        SetBitsSnoc(t2[1..], Cleared(head));
        if t2'.Panic? then Stuck else Moved(t1, t2'.value)
  }

  /** The open-ended loop of replace. */
  function ReplaceLoop<K(==), V>(t1: seq<Entry<K, V>>, t2: seq<Entry<K, V>>,
                                 localP: int): Step<Replaced<seq<Entry<K, V>>, Entry<K, V>>>
    requires localP >= 1
    decreases SetBits(t1) + SetBits(t2)
  {
    match TurnOf(t1, t2, localP)
    case Stuck => Panic
    case Evicted(a, b, victim, fromT1) => Ok(Replaced(a, b, victim, fromT1, 1))
    case Moved(a, b) => OneMore(ReplaceLoop(a, b, localP))
  }

  /** The first place whose reference bit is clear, or the length. */
  function FirstClear<K, V>(es: seq<Entry<K, V>>): (m: nat)
    ensures m <= |es| && (m < |es| ==> !es[m].bit) && forall i :: 0 <= i < m ==> es[i].bit
  {
    if es == [] || !es[0].bit then 0 else 1 + FirstClear(es[1..])
  }

  /** Evict the first clear entry of T2, or its old head when everything there is referenced. */
  function EvictFromT2<K, V>(t1: seq<Entry<K, V>>, t2: seq<Entry<K, V>>): Replaced<seq<Entry<K, V>>, Entry<K, V>>
    requires t2 != []
  {
    var m := FirstClear(t2);
    if m < |t2| then
      Replaced(t1, t2[m + 1..] + ClearAll(t2[..m]), t2[m], false, m + 1)
    else
      Replaced(t1, ClearAll(t2[1..]), Cleared(t2[0]), false, m + 1)
  }

  /** What replace does in one stroke: promote referenced heads of T1 while it holds at least `localP` and
      evict the first unreferenced one met; failing that, evict from T2 followed by the promoted ones. */
  function ReplaceAtOnce<K, V>(t1: seq<Entry<K, V>>, t2: seq<Entry<K, V>>,
                               localP: int): Replaced<seq<Entry<K, V>>, Entry<K, V>>
    requires localP >= 1 && |t1| + |t2| >= localP
  {
    var room := if |t1| >= localP then |t1| - localP + 1 else 0;
    var j := Min(FirstClear(t1), room);
    var t2' := t2 + ClearAll(t1[..j]);
    if j < room then
      Replaced(t1[j + 1..], t2', t1[j], true, j + 1)
    else
      var r := EvictFromT2(t1[j..], t2');
      r.(rounds := r.rounds + j)
  }

  /** How often each key occurs. */
  ghost function Keys<K, V>(es: seq<Entry<K, V>>): multiset<K> {
    multiset(KeysOf(es))
  }

  /** How often each key occurs with each value. */
  ghost function Pairs<K, V>(es: seq<Entry<K, V>>): multiset<(K, V)> {
    multiset(seq(|es|, i requires 0 <= i < |es| => (es[i].key, es[i].value)))
  }

  ghost predicate AtMostOnce<K>(m: multiset<K>, k: K) {
    m[k] <= 1
  }

  ghost predicate Once<K(!new)>(m: multiset<K>) {
    forall k {:trigger AtMostOnce(m, k)} :: AtMostOnce(m, k)
  }

  lemma {:induction false} KeysSnoc<K, V>(es: seq<Entry<K, V>>, e: Entry<K, V>)
    ensures Keys(es + [e]) == Keys(es) + multiset{e.key}
    ensures Pairs(es + [e]) == Pairs(es) + multiset{(e.key, e.value)}
  {
    assert KeysOf(es + [e]) == KeysOf(es) + [e.key];
    var f := (s: seq<Entry<K, V>>) => seq(|s|, i requires 0 <= i < |s| => (s[i].key, s[i].value));
    assert f(es + [e]) == f(es) + [(e.key, e.value)];
  }

  lemma {:induction false} KeysHead<K, V>(es: seq<Entry<K, V>>)
    requires es != []
    ensures Keys(es) == multiset{es[0].key} + Keys(es[1..])
    ensures Pairs(es) == multiset{(es[0].key, es[0].value)} + Pairs(es[1..])
  {
    assert KeysOf(es) == [es[0].key] + KeysOf(es[1..]);
    var f := (s: seq<Entry<K, V>>) => seq(|s|, i requires 0 <= i < |s| => (s[i].key, s[i].value));
    assert f(es) == [(es[0].key, es[0].value)] + f(es[1..]);
  }

  /** One promotion or rotation neither loses nor duplicates a key or its value, and AddTail accepts it. */
  lemma {:induction false} MoveHead<K(!new), V>(from: seq<Entry<K, V>>, to: seq<Entry<K, V>>)
    requires from != [] && Once(Keys(from) + Keys(to))
    ensures AddTail(to, from[0].key, from[0].value) == Ok(to + [Cleared(from[0])])
    ensures Keys(from[1..]) + Keys(to + [Cleared(from[0])]) == Keys(from) + Keys(to)
    ensures Pairs(from[1..]) + Pairs(to + [Cleared(from[0])]) == Pairs(from) + Pairs(to)
    ensures SetBits(from[1..]) + SetBits(to + [Cleared(from[0])]) + (if from[0].bit then 1 else 0) ==
      SetBits(from) + SetBits(to)
  {
    var key := from[0].key;
    KeysHead(from);
    KeysSnoc(to, Cleared(from[0]));
    SetBitsSnoc(to, Cleared(from[0]));
    assert AtMostOnce(Keys(from) + Keys(to), key);
    assert key !in multiset(KeysOf(to));
  }

  /** One iteration of replace on enough distinct keys gets somewhere and loses nothing but a victim. */
  lemma {:induction false} TurnConserves<K(!new), V>(t1: seq<Entry<K, V>>, t2: seq<Entry<K, V>>, localP: int)
    requires localP >= 1 && |t1| + |t2| >= localP && Once(Keys(t1) + Keys(t2))
    ensures match TurnOf(t1, t2, localP) {
      case Stuck => false
      case Moved(a, b) =>
        && Keys(a) + Keys(b) == Keys(t1) + Keys(t2) && Pairs(a) + Pairs(b) == Pairs(t1) + Pairs(t2)
        && |a| + |b| == |t1| + |t2| && |a| <= |t1|
        && SetBits(a) + SetBits(b) + 1 == SetBits(t1) + SetBits(t2)
      case Evicted(a, b, victim, fromT1) =>
        && Keys(a) + Keys(b) + multiset{victim.key} == Keys(t1) + Keys(t2)
        && Pairs(a) + Pairs(b) + multiset{(victim.key, victim.value)} == Pairs(t1) + Pairs(t2)
        && |a| + |b| + 1 == |t1| + |t2| && |a| == |t1| - if fromT1 then 1 else 0
    }
  {
    if |t1| >= localP {
      KeysHead(t1);
      MoveHead(t1, t2);
    } else {
      KeysHead(t2);
      OncePart(Keys(t1), Keys(t2));
      RotateHead(t2);
    }
  }

  /** replace keeps every key with its value but the victim, and takes at most one iteration more than there
      are reference bits set. */
  lemma {:induction false} ReplaceConserves<K(!new), V>(t1: seq<Entry<K, V>>, t2: seq<Entry<K, V>>, localP: int)
    requires localP >= 1 && |t1| + |t2| >= localP && Once(Keys(t1) + Keys(t2))
    ensures ReplaceLoop(t1, t2, localP).Ok?
    ensures var r := ReplaceLoop(t1, t2, localP).value;
      && Keys(r.t1) + Keys(r.t2) + multiset{r.victim.key} == Keys(t1) + Keys(t2)
      && Pairs(r.t1) + Pairs(r.t2) + multiset{(r.victim.key, r.victim.value)} == Pairs(t1) + Pairs(t2)
      && |r.t1| + |r.t2| + 1 == |t1| + |t2| && |r.t1| <= |t1| && (r.fromT1 ==> |r.t1| < |t1|)
      && r.rounds <= SetBits(t1) + SetBits(t2) + 1
    decreases SetBits(t1) + SetBits(t2)
  {
    TurnConserves(t1, t2, localP);
    var turn := TurnOf(t1, t2, localP);
    if turn.Moved? {
      ReplaceConserves(turn.t1, turn.t2, localP);
    }
  }

  lemma {:induction false} OncePart<K(!new)>(a: multiset<K>, b: multiset<K>)
    requires Once(a + b)
    ensures Once(a) && Once(b)
  {
    forall k ensures AtMostOnce(a, k) && AtMostOnce(b, k) { assert AtMostOnce(a + b, k); }
  }

  lemma {:induction false} RotateHead<K(!new), V>(es: seq<Entry<K, V>>)
    requires es != [] && Once(Keys(es))
    ensures AddTail(es[1..], es[0].key, es[0].value) == Ok(es[1..] + [Cleared(es[0])])
    ensures Keys(es[1..] + [Cleared(es[0])]) == Keys(es)
    ensures Pairs(es[1..] + [Cleared(es[0])]) == Pairs(es)
    ensures SetBits(es[1..] + [Cleared(es[0])]) + (if es[0].bit then 1 else 0) == SetBits(es)
  {
    var key := es[0].key;
    KeysHead(es);
    KeysSnoc(es[1..], Cleared(es[0]));
    SetBitsSnoc(es[1..], Cleared(es[0]));
    assert AtMostOnce(Keys(es), key);
    assert key !in multiset(KeysOf(es[1..]));
  }

  lemma {:induction false} FirstClearSnoc<K, V>(es: seq<Entry<K, V>>, e: Entry<K, V>)
    requires !e.bit
    ensures FirstClear(es + [e]) == FirstClear(es)
  {
    if es == [] {
      assert es + [e] == [e];
    } else {
      assert (es + [e])[1..] == es[1..] + [e];
      FirstClearSnoc(es[1..], e);
    }
  }

  /** The rotations of T2 in one stroke. */
  lemma {:induction false} RotateAtOnce<K(!new), V>(t1: seq<Entry<K, V>>, t2: seq<Entry<K, V>>, localP: int)
    requires localP >= 1 && |t1| < localP && t2 != [] && Once(Keys(t2))
    ensures ReplaceLoop(t1, t2, localP) == Ok(EvictFromT2(t1, t2))
    decreases SetBits(t2)
  {
    hide Keys, Pairs, Once;
    var m := FirstClear(t2);
    if m > 0 {
      var c := Cleared(t2[0]);
      var t2' := t2[1..] + [c];
      RotateHead(t2);
      FirstClearSnoc(t2[1..], c);
      RotateAtOnce(t1, t2', localP);
      if m < |t2| {
        assert t2'[m..] + ClearAll(t2'[..m - 1]) == t2[m + 1..] + ClearAll(t2[..m]);
      } else {
        assert t2'[m..] + ClearAll(t2'[..m - 1]) == ClearAll(t2[1..]);
      }
    } else {
      assert t2[1..] + ClearAll(t2[..0]) == t2[1..];
    }
  }

  lemma {:induction false} PromoteAtOnce<K, V>(t1: seq<Entry<K, V>>, t2: seq<Entry<K, V>>, localP: int)
    requires localP >= 1 && |t1| >= localP && t1[0].bit
    ensures var r := ReplaceAtOnce(t1[1..], t2 + [Cleared(t1[0])], localP);
      ReplaceAtOnce(t1, t2, localP) == r.(rounds := r.rounds + 1)
  {
    var room := |t1| - localP + 1;
    var j := Min(FirstClear(t1), room);
    var rest := t1[1..];
    assert (t2 + [Cleared(t1[0])]) + ClearAll(rest[..j - 1]) == t2 + ClearAll(t1[..j]);
    if j < room {
      assert rest[j - 1] == t1[j] && rest[j..] == t1[j + 1..];
    } else {
      assert rest[j - 1..] == t1[j..];
    }
  }

  /** The loop of replace is its closed form. */
  lemma {:induction false} ReplaceIsAtOnce<K(!new), V>(t1: seq<Entry<K, V>>, t2: seq<Entry<K, V>>, localP: int)
    requires localP >= 1 && |t1| + |t2| >= localP && Once(Keys(t1) + Keys(t2))
    ensures ReplaceLoop(t1, t2, localP) == Ok(ReplaceAtOnce(t1, t2, localP))
    decreases |t1|
  {
    if |t1| < localP {
      TurnToT2AtOnce(t1, t2, localP);
    } else if t1[0].bit {
      MoveHead(t1, t2);
      PromoteAtOnce(t1, t2, localP);
      hide Keys, Pairs, Once, ReplaceAtOnce;
      ReplaceIsAtOnce(t1[1..], t2 + [Cleared(t1[0])], localP);
    } else {
      EvictFirstAtOnce(t1, t2, localP);
    }
  }

  lemma {:induction false} EvictFirstAtOnce<K, V>(t1: seq<Entry<K, V>>, t2: seq<Entry<K, V>>, localP: int)
    requires localP >= 1 && |t1| >= localP && !t1[0].bit
    ensures ReplaceLoop(t1, t2, localP) == Ok(ReplaceAtOnce(t1, t2, localP))
  {
    assert t2 + ClearAll(t1[..0]) == t2;
  }

  lemma {:induction false} TurnToT2AtOnce<K(!new), V>(t1: seq<Entry<K, V>>, t2: seq<Entry<K, V>>, localP: int)
    requires localP >= 1 && |t1| < localP && |t1| + |t2| >= localP && Once(Keys(t1) + Keys(t2))
    ensures ReplaceLoop(t1, t2, localP) == Ok(ReplaceAtOnce(t1, t2, localP))
  {
    OncePart(Keys(t1), Keys(t2));
    RotateAtOnce(t1, t2, localP);
    hide Keys, Pairs, Once, ReplaceLoop, EvictFromT2;
    assert t2 + ClearAll(t1[..0]) == t2 && t1[0..] == t1;
  }

  /** T1 loses its unreferenced head only while it holds at least the target, and T2 is turned to only once
      T1 holds less. */
  lemma {:induction false} ReplaceRespectsTarget<K(!new), V>(t1: seq<Entry<K, V>>, t2: seq<Entry<K, V>>, localP: int)
    requires localP >= 1 && |t1| + |t2| >= localP && Once(Keys(t1) + Keys(t2))
    ensures ReplaceLoop(t1, t2, localP).Ok?
    ensures var r := ReplaceLoop(t1, t2, localP).value;
      if r.fromT1 then r.victim in t1 && !r.victim.bit && |r.t1| + 1 >= localP
      else |r.t1| < localP
  {
    ReplaceIsAtOnce(t1, t2, localP);
  }
}
