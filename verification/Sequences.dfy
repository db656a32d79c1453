/** Facts about sequences, and about maps that index them by key, which the linked
    structures and the caches share. */
module Sequences {

  ghost predicate Differ<T>(s: seq<T>, i: nat, j: nat)
    requires i < |s| && j < |s|
  {
    i != j ==> s[i] != s[j]
  }

  ghost predicate Distinct<T>(s: seq<T>) {
    forall i, j {:trigger Differ(s, i, j)} :: 0 <= i < |s| && 0 <= j < |s| ==> Differ(s, i, j)
  }

  function Without<T>(s: seq<T>, k: nat): (r: seq<T>)
    requires k < |s|
    ensures |r| == |s| - 1
    ensures forall i {:trigger r[i]} :: 0 <= i < |r| ==> r[i] == if i < k then s[i] else s[i + 1]
  {
    s[..k] + s[k + 1..]
  }

  /** `s` without its first occurrence of `x`, if any. */
  function Drop<T(==)>(s: seq<T>, x: T): seq<T> {
    if s == [] then [] else if s[0] == x then s[1..] else [s[0]] + Drop(s[1..], x)
  }

  lemma {:induction false} DropKey<T>(s: seq<T>, x: T)
    requires x in s
    ensures multiset(s) == multiset(Drop(s, x)) + multiset{x} && |Drop(s, x)| == |s| - 1
  {
    assert s == [s[0]] + s[1..];
    if s[0] != x { DropKey(s[1..], x); }
  }

  lemma {:induction false} DropAbsent<T>(s: seq<T>, x: T)
    requires x !in s
    ensures Drop(s, x) == s
  {
    if s != [] { DropAbsent(s[1..], x); }
  }

  lemma {:induction false} WithoutCons<T>(s: seq<T>, k: nat)
    requires 0 < k < |s|
    ensures [s[0]] + Without(s[1..], k - 1) == Without(s, k)
  {
    var t := s[1..];
    assert t[..k - 1] == s[1..k] && t[k..] == s[k + 1..];
    assert [s[0]] + s[1..k] == s[..k];
  }

  lemma {:induction false} DropAt<T>(s: seq<T>, k: nat)
    requires k < |s| && forall i :: 0 <= i < k ==> s[i] != s[k]
    ensures Drop(s, s[k]) == Without(s, k)
  {
    if k > 0 {
      DropAt(s[1..], k - 1);
      WithoutCons(s, k);
    }
  }

  /** What is left of `s` once everything selected is gone. */
  function Keep<T>(s: seq<T>, selected: T -> bool): seq<T> {
    if s == [] then [] else
    (if selected(s[0]) then [] else [s[0]]) + Keep(s[1..], selected)
  }

  lemma {:induction false} KeepMembers<T>(s: seq<T>, selected: T -> bool)
    ensures |Keep(s, selected)| <= |s|
    ensures forall i :: 0 <= i < |Keep(s, selected)| ==> Keep(s, selected)[i] in s && !selected(Keep(s, selected)[i])
    ensures forall i :: 0 <= i < |s| && !selected(s[i]) ==> s[i] in Keep(s, selected)
  {
    if s != [] {
      KeepMembers(s[1..], selected);
    }
  }

  /** One step of a sweep over `rest`: its first entry is dropped or joins what is done. */
  lemma {:induction false} SweepStep<T>(done: seq<T>, rest: seq<T>, selected: T -> bool)
    requires rest != []
    ensures (done + rest)[|done|] == rest[0]
    ensures Without(done + rest, |done|) == done + rest[1..]
    ensures (done + [rest[0]]) + rest[1..] == done + rest
    ensures done + Keep(rest, selected) ==
      (if selected(rest[0]) then done else done + [rest[0]]) + Keep(rest[1..], selected)
  {
    SweepSplit(done, rest);
    SweepSplit(done, [rest[0]] + Keep(rest[1..], selected));
    var kept := Keep(rest[1..], selected);
    assert ([rest[0]] + kept)[1..] == kept;
    assert [] + kept == kept;
  }

  lemma {:induction false} SweepSplit<T>(done: seq<T>, rest: seq<T>)
    requires rest != []
    ensures (done + rest)[|done|] == rest[0]
    ensures Without(done + rest, |done|) == done + rest[1..]
    ensures (done + [rest[0]]) + rest[1..] == done + rest
  {
    var all, n := done + rest, |done|;
    assert all[..n] == done && all[n + 1..] == rest[1..];
    assert rest == [rest[0]] + rest[1..];
  }

  // ---- A sweep that unlinks each picked entry from its old neighbour, dropped or not

  ghost predicate NoNeighbours<T>(s: seq<T>, selected: T -> bool) {
    forall i {:trigger s[i]} :: 0 < i < |s| ==> !(selected(s[i - 1]) && selected(s[i]))
  }

  function Choices<T>(s: seq<T>, selected: T -> bool): (r: seq<bool>)
    ensures |r| == |s| && forall i {:trigger r[i]} :: 0 <= i < |r| ==> r[i] == selected(s[i])
  {
    seq(|s|, i requires 0 <= i < |s| => selected(s[i]))
  }

  /** Where a link that led to place `j` leads after the sweep: to the next place, picked or not, if `j` is picked. */
  function Beyond(picks: seq<bool>, j: nat): nat {
    if j < |picks| && picks[j] then j + 1 else j
  }

  /** The places reached by following the links from one that led to place `j`. */
  function Landings(picks: seq<bool>, j: nat): (r: seq<nat>)
    ensures forall i {:trigger r[i]} :: 0 <= i < |r| ==> j <= r[i] < |picks|
    decreases |picks| - j
  {
    var k := Beyond(picks, j);
    if k >= |picks| then [] else [k] + Landings(picks, k + 1)
  }

  function WalkFrom<T>(s: seq<T>, picks: seq<bool>, j: nat): (r: seq<T>)
    requires |s| == |picks|
    ensures |r| == |Landings(picks, j)|
    ensures forall i {:trigger r[i]} :: 0 <= i < |r| ==> r[i] == s[Landings(picks, j)[i]]
  {
    var l := Landings(picks, j);
    seq(|l|, i requires 0 <= i < |l| => s[l[i]])
  }

  /** What is reached after the sweep. */
  function Walk<T>(s: seq<T>, picks: seq<bool>): seq<T>
    requires |s| == |picks|
  {
    WalkFrom(s, picks, 0)
  }

  /** The walk ends on the last place. */
  predicate EndsOnLast(picks: seq<bool>) {
    var l := Landings(picks, 0);
    l != [] && l[|l| - 1] == |picks| - 1
  }

  /** Each landing but the last leads to the next, and the last leads nowhere. */
  lemma {:induction false} LandingStep(picks: seq<bool>, j: nat, i: nat)
    requires i < |Landings(picks, j)|
    ensures var l := Landings(picks, j); var k := Beyond(picks, l[i] + 1);
      if i + 1 < |l| then l[i + 1] == k && l[i] < l[i + 1] else k >= |picks|
    decreases i
  {
    if i > 0 { LandingStep(picks, Beyond(picks, j) + 1, i - 1); }
  }

  lemma {:induction false} LandingsIncrease(picks: seq<bool>, j: nat, i: nat, k: nat)
    requires i < k < |Landings(picks, j)|
    ensures Landings(picks, j)[i] < Landings(picks, j)[k]
    decreases k
  {
    LandingStep(picks, j, k - 1);
    if i < k - 1 { LandingsIncrease(picks, j, i, k - 1); }
  }

  lemma {:induction false} WalkDistinct<T>(s: seq<T>, picks: seq<bool>)
    requires |s| == |picks| && Distinct(s)
    ensures Distinct(Walk(s, picks))
  {
    var w, l := Walk(s, picks), Landings(picks, 0);
    forall i, j | 0 <= i < |w| && 0 <= j < |w| ensures Differ(w, i, j) {
      assert Differ(s, l[i], l[j]);
      if i < j { LandingsIncrease(picks, 0, i, j); } else if j < i { LandingsIncrease(picks, 0, j, i); }
    }
  }

  /** Where a walk ends: on an unpicked last place, else on it or just before it. */
  lemma {:induction false} WalkEnds(picks: seq<bool>, j: nat)
    requires j <= |picks|
    ensures var l, m := Landings(picks, j), |picks|;
      if l == [] then j == m || (j == m - 1 && picks[j])
      else m - 2 <= l[|l| - 1] < m && (!picks[m - 1] ==> l[|l| - 1] == m - 1)
    decreases |picks| - j
  {
    var k := Beyond(picks, j);
    if k < |picks| { WalkEnds(picks, k + 1); }
  }

  lemma {:induction false} WalkFromStep<T>(s: seq<T>, picks: seq<bool>, j: nat)
    requires |s| == |picks| && Beyond(picks, j) < |s|
    ensures var k := Beyond(picks, j); WalkFrom(s, picks, j) == [s[k]] + WalkFrom(s, picks, k + 1)
  {
  }

  lemma {:induction false} KeepFrom<T>(s: seq<T>, selected: T -> bool, j: nat)
    requires j <= |s|
    ensures Keep(s[j..], selected) ==
      if j == |s| then [] else (if selected(s[j]) then [] else [s[j]]) + Keep(s[j + 1..], selected)
  {
    if j < |s| { assert s[j..][0] == s[j] && s[j..][1..] == s[j + 1..]; }
  }

  /** The walk is the exact filter when no two neighbours are selected. */
  lemma {:induction false} WalkKeeps<T>(s: seq<T>, selected: T -> bool, j: nat)
    requires NoNeighbours(s, selected) && j <= |s|
    ensures WalkFrom(s, Choices(s, selected), j) == Keep(s[j..], selected)
    decreases |s| - j
  {
    hide Keep;
    var picks := Choices(s, selected);
    var k := Beyond(picks, j);
    KeepFrom(s, selected, j);
    KeepFrom(s, selected, k);
    if k < |s| {
      assert !selected(s[k]);
      WalkFromStep(s, picks, j);
      WalkKeeps(s, selected, k + 1);
    }
  }

  lemma {:induction false} EndsUnselected<T>(s: seq<T>, selected: T -> bool)
    requires NoNeighbours(s, selected) && EndsOnLast(Choices(s, selected))
    ensures !selected(s[|s| - 1])
  {
    var l := Landings(Choices(s, selected), 0);
    assert s[0..] == s;
    WalkKeeps(s, selected, 0);
    hide Keep, NoNeighbours, Landings, WalkFrom;
    KeepMembers(s, selected);
    assert WalkFrom(s, Choices(s, selected), 0)[|l| - 1] == s[|s| - 1];
  }

  /** Otherwise the walk passes through a selected entry. */
  lemma {:induction false} WalkStale<T>(s: seq<T>, selected: T -> bool, j: nat, i: nat) returns (w: nat)
    requires j < i < |s| && selected(s[i - 1]) && selected(s[i])
    ensures w < |WalkFrom(s, Choices(s, selected), j)| && selected(WalkFrom(s, Choices(s, selected), j)[w])
    decreases i - j
  {
    var picks := Choices(s, selected);
    var k := Beyond(picks, j);
    if selected(s[k]) {
      w := 0;
    } else {
      w := WalkStale(s, selected, k + 1, i);
      w := w + 1;
    }
  }

  /** What the walk keeps is exactly what the filter keeps just when no two neighbours are selected. */
  lemma {:induction false} WalkIsKeepIff<T>(s: seq<T>, selected: T -> bool)
    ensures Walk(s, Choices(s, selected)) == Keep(s, selected) <==> NoNeighbours(s, selected)
  {
    KeepMembers(s, selected);
    if NoNeighbours(s, selected) {
      WalkKeeps(s, selected, 0);
      assert s[0..] == s;
    } else {
      var i :| 0 < i < |s| && selected(s[i - 1]) && selected(s[i]);
      var w := WalkStale(s, selected, 0, i);
    }
  }

  // ---- Maps that index a sequence of nodes by key

  ghost predicate IndexOk<K, N>(index: map<K, N>, keys: seq<K>, nodes: seq<N>, i: nat)
    requires |keys| == |nodes| && i < |keys|
  {
    keys[i] in index && index[keys[i]] == nodes[i]
  }

  /** `index` maps exactly the keys, which are distinct, each to the node in the same place. */
  ghost predicate Indexed<K, N>(index: map<K, N>, keys: seq<K>, nodes: seq<N>) {
    && |index| == |keys| == |nodes| && Distinct(keys)
    && forall i {:trigger IndexOk(index, keys, nodes, i)} :: 0 <= i < |keys| ==> IndexOk(index, keys, nodes, i)
  }

  lemma {:induction false} IndexedKeys<K, N>(index: map<K, N>, keys: seq<K>, nodes: seq<N>)
    requires Indexed(index, keys, nodes)
    ensures index.Keys == set k | k in keys
  {
    var ks := set k | k in keys;
    DistinctSize(keys);
    forall k | k in ks ensures k in index {
      var i :| 0 <= i < |keys| && keys[i] == k;
      assert IndexOk(index, keys, nodes, i);
    }
    assert |index.Keys| == |ks|;
    assert index.Keys == ks + (index.Keys - ks);
  }

  lemma {:induction false} MapGrows<K, N>(index: map<K, N>, k: K, n: N)
    requires k !in index
    ensures |index[k := n]| == |index| + 1
  {
    assert index[k := n].Keys == index.Keys + {k};
    assert |index[k := n].Keys| == |index.Keys| + 1;
  }

  /** A new key may join at the front. */
  lemma {:induction false} IndexedAddFront<K, N>(index: map<K, N>, keys: seq<K>, nodes: seq<N>, k: K, n: N)
    requires Indexed(index, keys, nodes) && k !in keys
    ensures Indexed(index[k := n], [k] + keys, [n] + nodes)
  {
    IndexedKeys(index, keys, nodes);
    MapGrows(index, k, n);
    DistinctCons(k, keys);
    hide Distinct;
    var index', keys', nodes' := index[k := n], [k] + keys, [n] + nodes;
    forall i | 0 <= i <= |keys| ensures IndexOk(index', keys', nodes', i) {
      if i > 0 { assert IndexOk(index, keys, nodes, i - 1); }
    }
  }

  /** Or at the back. */
  lemma {:induction false} IndexedAddBack<K, N>(index: map<K, N>, keys: seq<K>, nodes: seq<N>, k: K, n: N)
    requires Indexed(index, keys, nodes) && k !in keys
    ensures Indexed(index[k := n], keys + [k], nodes + [n])
  {
    IndexedKeys(index, keys, nodes);
    MapGrows(index, k, n);
    DistinctSnoc(keys, k);
    hide Distinct;
    var index', keys', nodes' := index[k := n], keys + [k], nodes + [n];
    forall i | 0 <= i <= |keys| ensures IndexOk(index', keys', nodes', i) {
      if i < |keys| { assert IndexOk(index, keys, nodes, i); }
    }
  }

  lemma {:induction false} IndexedWithout<K, N>(index: map<K, N>, keys: seq<K>, nodes: seq<N>, k: nat)
    requires Indexed(index, keys, nodes) && k < |keys|
    ensures Indexed(index - {keys[k]}, Without(keys, k), Without(nodes, k))
  {
    var index', keys', nodes' := index - {keys[k]}, Without(keys, k), Without(nodes, k);
    assert IndexOk(index, keys, nodes, k);
    assert |index'| == |index'.Keys| && index'.Keys == index.Keys - {keys[k]};
    forall i, j | 0 <= i < |keys'| && 0 <= j < |keys'| ensures Differ(keys', i, j) {
      assert Differ(keys, if i < k then i else i + 1, if j < k then j else j + 1);
    }
    forall i | 0 <= i < |nodes'| ensures IndexOk(index', keys', nodes', i) {
      var j := if i < k then i else i + 1;
      assert IndexOk(index, keys, nodes, j) && Differ(keys, j, k);
    }
  }

  lemma {:induction false} DistinctCons<T>(x: T, s: seq<T>)
    requires Distinct(s) && x !in s
    ensures Distinct([x] + s)
  {
    forall i, j | 0 <= i <= |s| && 0 <= j <= |s| ensures Differ([x] + s, i, j) {
      if i > 0 && j > 0 { assert Differ(s, i - 1, j - 1); }
    }
  }

  lemma {:induction false} DistinctSnoc<T>(s: seq<T>, x: T)
    requires Distinct(s) && x !in s
    ensures Distinct(s + [x])
  {
    forall i, j | 0 <= i <= |s| && 0 <= j <= |s| ensures Differ(s + [x], i, j) {
      if i < |s| && j < |s| { assert Differ(s, i, j); }
    }
  }

  lemma {:induction false} DistinctSize<T>(s: seq<T>)
    requires Distinct(s)
    ensures |set x | x in s| == |s|
  {
    if s != [] {
      var init := s[..|s| - 1];
      forall i, j | 0 <= i < |init| && 0 <= j < |init| ensures Differ(init, i, j) { assert Differ(s, i, j); }
      DistinctSize(init);
      forall i | 0 <= i < |init| ensures init[i] != s[|s| - 1] { assert Differ(s, i, |s| - 1); }
      assert (set x | x in s) == (set x | x in init) + {s[|s| - 1]};
    }
  }
}
