/** The policy of the CAR cache around replace, while its clocks are whole and so no more than sequences: which
    history remembers a victim, what the histories forget, how the target moves and where a key enters. */
module CarPolicy {
  import opened Basics
  import opened Sequences
  import opened CarClock
  import opened Car

  /** The fields of the cache, over clocks of type C. */
  datatype Store<C, K> = Store(p: int, t1: C, t2: C, b1: seq<K>, b2: seq<K>)

  /** The cache while its clocks are whole, and so no more than sequences of entries. */
  type State<K, V> = Store<seq<Entry<K, V>>, K>

  function Empty<K, V>(): State<K, V> { Store(0, [], [], [], []) }

  function AddMRU<K(==)>(b: seq<K>, key: K): Step<seq<K>> {
    if key in b then Panic else Ok([key] + b)
  }

  function DropLRU<K>(b: seq<K>): seq<K> {
    if b == [] then [] else b[..|b| - 1]
  }

  /** The key of the victim of replace enters the history of the clock it left. */
  function Remember<C, K(==), V>(s: Store<C, K>, r: Replaced<C, Entry<K, V>>): Step<(Store<C, K>, Entry<K, V>)> {
    if r.fromT1 then
      var b1 :- AddMRU(s.b1, r.victim.key);
      Ok((Store(s.p, r.t1, r.t2, b1, s.b2), r.victim))
    else
      var b2 :- AddMRU(s.b2, r.victim.key);
      Ok((Store(s.p, r.t1, r.t2, s.b1, b2), r.victim))
  }

  function Evict<K(==), V>(s: State<K, V>): Step<(State<K, V>, Entry<K, V>)> {
    var r :- ReplaceLoop(s.t1, s.t2, Max(1, s.p));
    Remember(s, r)
  }

  predicate InHistory<C, K(==)>(s: Store<C, K>, key: K) {
    key in s.b1 || key in s.b2
  }

  /** Which history loses its least recently used key to make room for an unknown key. */
  datatype Trimming = FromB1 | FromB2 | Nothing

  /** The clocks count `t1Size` and `t2Size` entries. */
  function Trims<C, K(==)>(s: Store<C, K>, t1Size: nat, t2Size: nat, max: int, key: K): Trimming {
    if InHistory(s, key) then Nothing
    else if t1Size + |s.b1| >= max then FromB1
    else if t1Size + t2Size + |s.b1| + |s.b2| >= 2 * max then FromB2
    else Nothing
  }

  function Trim<C, K(==)>(s: Store<C, K>, t1Size: nat, t2Size: nat, max: int, key: K): Store<C, K> {
    match Trims(s, t1Size, t2Size, max, key)
    case FromB1 => s.(b1 := DropLRU(s.b1))
    case FromB2 => s.(b2 := DropLRU(s.b2))
    case Nothing => s
  }

  /** How far the target moves with `gap` left to the end of its range, on a hit in a history of `own` keys while the
      other holds `other`: by one, or as often as the other history holds the first, unless that reaches the end. */
  ghost predicate MovesBy(dist: int, gap: int, own: nat, other: nat) {
    && 0 <= dist <= gap
    && (dist < gap ==> dist >= 1 && if other < own then dist == 1 else dist * own <= other < (dist + 1) * own)
    && (dist == gap > 1 ==> gap * own <= other)
  }

  /** As often as the first history goes into the other, but once at least. */
  function Ratio(own: nat, other: nat): (r: nat)
    requires own > 0
    ensures r >= 1 && if other < own then r == 1 else r * own <= other < (r + 1) * own
  {
    var q := other / own;
    assert q * own + other % own == other && (q + 1) * own == q * own + own;
    Max(1, q)
  }

  /** The target moves towards T1 on a hit in B1 and towards T2 on a hit in B2, within the capacity. */
  function Grown(p: int, own: nat, other: nat, max: int): (r: int)
    requires own > 0
    ensures p <= max ==> MovesBy(r - p, max - p, own, other)
  {
    var d := Ratio(own, other);
    CutShort(d, max - p, own, other);
    Min(p + d, max)
  }

  function Shrunk(p: int, own: nat, other: nat): (r: int)
    requires own > 0
    ensures p >= 0 ==> MovesBy(p - r, p, own, other)
  {
    var d := Ratio(own, other);
    CutShort(d, p, own, other);
    Max(p - d, 0)
  }

  lemma {:induction false} CutShort(d: nat, gap: int, own: nat, other: nat)
    requires d >= 1 && if other < own then d == 1 else d * own <= other < (d + 1) * own
    ensures gap >= 0 ==> MovesBy(Min(d, gap), gap, own, other)
  {
    if 1 < gap <= d { assert gap * own <= d * own; }
  }

  /** A remembered key moves the target and leaves its history. */
  function Recalled<C, K(==)>(s: Store<C, K>, max: int, key: K): Store<C, K>
    requires InHistory(s, key)
  {
    if key in s.b1 then s.(p := Grown(s.p, |s.b1|, |s.b2|, max), b1 := Drop(s.b1, key))
    else s.(p := Shrunk(s.p, |s.b2|, |s.b1|), b2 := Drop(s.b2, key))
  }

  /** The last part of a miss: a new key enters T1, a remembered one enters T2. */
  function Insert<K(==), V>(s: State<K, V>, max: int, key: K, value: V): Step<State<K, V>> {
    if !InHistory(s, key) then
      var t1 :- AddTail(s.t1, key, value);
      Ok(s.(t1 := t1))
    else
      var t2 :- AddTail(s.t2, key, value);
      Ok(Recalled(s, max, key).(t2 := t2))
  }

  /** A full cache evicts an entry, which is handed to the destructor. */
  function Spare<K(==), V>(s: State<K, V>, max: int): Step<(State<K, V>, Option<Entry<K, V>>)> {
    if |s.t1| + |s.t2| >= max then
      var (s1, victim) :- Evict(s);
      Ok((s1, Some(victim)))
    else
      Ok((s, None))
  }

  /** What a miss does once the destructor has returned. */
  function Settle<K(==), V>(s: State<K, V>, max: int, key: K, value: V, evicted: bool): Step<State<K, V>> {
    Insert(if evicted then Trim(s, |s.t1|, |s.t2|, max, key) else s, max, key, value)
  }

  /** A full cache evicts an entry and trims the histories for an unknown key. */
  function RoomFor<K(==), V>(s: State<K, V>, max: int, key: K): Step<(State<K, V>, Option<Entry<K, V>>)> {
    if |s.t1| + |s.t2| >= max then
      var (s1, victim) :- Evict(s);
      Ok((Trim(s1, |s1.t1|, |s1.t2|, max, key), Some(victim)))
    else
      Ok((s, None))
  }

  /** What a miss does once its calculator has succeeded, with the entry it evicted, when the destructor calls
      nothing. */
  function InstallAtOnce<K(==), V>(s: State<K, V>, max: int, key: K,
                                   value: V): Step<(State<K, V>, Option<Entry<K, V>>)> {
    var (s1, victim) :- RoomFor(s, max, key);
    var s2 :- Insert(s1, max, key, value);
    Ok((s2, victim))
  }

  /** Everything selected is gone from all four. */
  function Removed<K, V>(s: State<K, V>, onEntry: Entry<K, V> -> bool, onKey: K -> bool): State<K, V> {
    Store(s.p, Keep(s.t1, onEntry), Keep(s.t2, onEntry), Keep(s.b1, onKey), Keep(s.b2, onKey))
  }

  // ---- Safety of one installation

  ghost function Resident<K, V>(s: State<K, V>): multiset<K> {
    Keys(s.t1) + Keys(s.t2)
  }

  ghost function AllKeys<K, V>(s: State<K, V>): multiset<K> {
    Resident(s) + multiset(s.b1) + multiset(s.b2)
  }

  /** T1, T2, B1 and B2 are duplicate-free and pairwise disjoint, and the target is within the capacity. */
  ghost predicate Sound<K(!new), V>(s: State<K, V>, max: int) {
    Once(AllKeys(s)) && 0 <= s.p <= max
  }

  function Total<K, V>(s: State<K, V>): nat { |s.t1| + |s.t2| }

  /** T1, T2, B1 and B2 are duplicate-free and pairwise disjoint, and all the bounds hold. */
  ghost predicate Safe<K(!new), V>(s: State<K, V>, max: int) {
    && Once(AllKeys(s))
    && |s.t1| + |s.t2| <= max && |s.b1| + |s.b2| <= max && 0 <= s.p <= max
  }

  /** The shape that only Remove can break. */
  ghost predicate Directory<K, V>(s: State<K, V>, max: int) {
    && |s.t1| + |s.b1| <= max
    && (|s.t1| + |s.t2| < max ==> s.b1 == [] && s.b2 == [])
  }

  lemma {:induction false} DropLRUKey<K>(b: seq<K>)
    requires b != []
    ensures multiset(b) == multiset(DropLRU(b)) + multiset{b[|b| - 1]} && |DropLRU(b)| == |b| - 1
  {
    assert b == b[..|b| - 1] + [b[|b| - 1]];
  }

  lemma {:induction false} OnceFewer<K(!new)>(a: multiset<K>, b: multiset<K>)
    requires a <= b && Once(b)
    ensures Once(a)
  {
    forall k ensures AtMostOnce(a, k) { assert AtMostOnce(b, k); }
  }

  /** replace on a full or overfull cache reaches no panic and only moves keys around. */
  lemma {:induction false} EvictSafe<K(!new), V>(s: State<K, V>, max: int)
    requires Sound(s, max) && Total(s) >= max >= 1
    ensures Evict(s).Ok?
    ensures var (s', victim) := Evict(s).value;
      && AllKeys(s') == AllKeys(s) && s'.p == s.p
      && Resident(s') + multiset{victim.key} == Resident(s)
      && Total(s') == Total(s) - 1 && |s'.b1| + |s'.b2| == |s.b1| + |s.b2| + 1
      && |s'.t1| + |s'.b1| <= |s.t1| + |s.b1|
      && Pairs(s'.t1) + Pairs(s'.t2) <= Pairs(s.t1) + Pairs(s.t2)
  {
    OnceFewer(Resident(s), AllKeys(s));
    ReplaceConserves(s.t1, s.t2, Max(1, s.p));
    var r := ReplaceLoop(s.t1, s.t2, Max(1, s.p)).value;
    assert Resident(s)[r.victim.key] >= 1 && AtMostOnce(AllKeys(s), r.victim.key);
    assert r.victim.key !in multiset(s.b1) && r.victim.key !in multiset(s.b2);
    assert multiset([r.victim.key] + s.b1) == multiset{r.victim.key} + multiset(s.b1);
    assert multiset([r.victim.key] + s.b2) == multiset{r.victim.key} + multiset(s.b2);
  }

  ghost predicate ForgetsLast<K>(b: seq<K>, b': seq<K>) {
    b != [] && b == b' + [b[|b| - 1]]
  }

  /** Nothing goes for a key that is remembered; for an unknown one the last key of B1 goes when T1 and B1 together hold
      the capacity, else the last of B2 when all four lists together hold twice that, else nothing. */
  ghost predicate TrimsNoMore<K, V>(s: State<K, V>, max: int, key: K, s': State<K, V>) {
    if InHistory(s, key) then s' == s
    else if |s.t1| + |s.b1| >= max then ForgetsLast(s.b1, s'.b1) && s' == s.(b1 := s'.b1)
    else if |s.t1| + |s.t2| + |s.b1| + |s.b2| >= 2 * max then ForgetsLast(s.b2, s'.b2) && s' == s.(b2 := s'.b2)
    else s' == s
  }

  /** RemoveLRU is only ever asked of a history that has something to lose, and it restores the bound. */
  lemma {:induction false} TrimSafe<K(!new), V>(s: State<K, V>, max: int, key: K)
    requires Once(AllKeys(s)) && |s.t1| + |s.t2| == max - 1 && |s.b1| + |s.b2| <= max + 1
    ensures Trims(s, |s.t1|, |s.t2|, max, key).FromB1? ==> s.b1 != []
    ensures Trims(s, |s.t1|, |s.t2|, max, key).FromB2? ==> s.b2 != []
    ensures var s' := Trim(s, |s.t1|, |s.t2|, max, key);
      && AllKeys(s') <= AllKeys(s) && (InHistory(s', key) <==> InHistory(s, key))
      && (!InHistory(s, key) ==> |s'.b1| + |s'.b2| <= max)
      && |s'.t1| + |s'.b1| <= |s.t1| + |s.b1|
      && (!InHistory(s, key) ==> |s'.t1| + |s'.b1| < max || |s'.t1| + |s'.b1| < |s.t1| + |s.b1|)
  {
    TrimKeys(s, max, key);
    hide AllKeys, Once;
  }

  lemma {:induction false} TrimKeys<K(!new), V>(s: State<K, V>, max: int, key: K)
    ensures var s' := Trim(s, |s.t1|, |s.t2|, max, key);
      AllKeys(s') <= AllKeys(s) && (InHistory(s', key) <==> InHistory(s, key))
  {
    match Trims(s, |s.t1|, |s.t2|, max, key)
    case FromB1 => if s.b1 != [] { DropLRUKey(s.b1); }
    case FromB2 => if s.b2 != [] { DropLRUKey(s.b2); }
    case Nothing =>
  }

  /** AddTail accepts a key that is not resident. */
  lemma {:induction false} AddResident<K(!new), V>(s: State<K, V>, key: K, value: V)
    requires key !in Resident(s)
    ensures AddTail(s.t1, key, value) == Ok(s.t1 + [Entry(key, value, false)])
    ensures AddTail(s.t2, key, value) == Ok(s.t2 + [Entry(key, value, false)])
    ensures Keys(s.t1 + [Entry(key, value, false)]) == Keys(s.t1) + multiset{key}
    ensures Keys(s.t2 + [Entry(key, value, false)]) == Keys(s.t2) + multiset{key}
    ensures Pairs(s.t1 + [Entry(key, value, false)]) == Pairs(s.t1) + multiset{(key, value)}
    ensures Pairs(s.t2 + [Entry(key, value, false)]) == Pairs(s.t2) + multiset{(key, value)}
  {
    assert key !in multiset(KeysOf(s.t1)) && key !in multiset(KeysOf(s.t2));
    KeysSnoc(s.t1, Entry(key, value, false));
    KeysSnoc(s.t2, Entry(key, value, false));
  }

  /** Inserting keeps every key at most once. */
  lemma {:induction false} InsertOnce<K(!new), V>(s: State<K, V>, max: int, key: K, value: V)
    requires Once(AllKeys(s)) && key !in Resident(s)
    ensures Insert(s, max, key, value).Ok? && Once(AllKeys(Insert(s, max, key, value).value))
  {
    InsertKeys(s, max, key, value);
    var s' := Insert(s, max, key, value).value;
    assert key !in s.b1 ==> key !in multiset(s.b1);
    assert key !in s.b2 ==> key !in multiset(s.b2);
    hide Insert;
    forall k ensures AtMostOnce(AllKeys(s'), k) { assert AtMostOnce(AllKeys(s), k); }
  }

  /** A remembered key only changes its place; an unknown one is added. */
  lemma {:induction false} InsertKeys<K(!new), V>(s: State<K, V>, max: int, key: K, value: V)
    requires key !in Resident(s)
    ensures Insert(s, max, key, value).Ok?
    ensures AllKeys(Insert(s, max, key, value).value) ==
      AllKeys(s) + if InHistory(s, key) then multiset{} else multiset{key}
  {
    AddResident(s, key, value);
    if key in s.b1 { DropKey(s.b1, key); } else if key in s.b2 { DropKey(s.b2, key); }
    hide Pairs, Keys, Grown, Shrunk;
  }

  lemma {:induction false} InsertBounds<K(!new), V>(s: State<K, V>, max: int, key: K, value: V)
    requires |s.t1| + |s.t2| < max && 0 <= s.p <= max
    requires |s.b1| + |s.b2| <= if InHistory(s, key) then max + 1 else max
    requires Insert(s, max, key, value).Ok?
    ensures var s' := Insert(s, max, key, value).value;
      |s'.t1| + |s'.t2| <= max && |s'.b1| + |s'.b2| <= max && 0 <= s'.p <= max
  {
    if key in s.b1 { DropKey(s.b1, key); } else if key in s.b2 { DropKey(s.b2, key); }
  }

  /** What an insertion may do to the sizes and the contents of the clocks. */
  ghost predicate Adds<K(!new), V>(s: State<K, V>, key: K, value: V, s': State<K, V>) {
    && Resident(s') == Resident(s) + multiset{key}
    && |s'.t1| + |s'.t2| == |s.t1| + |s.t2| + 1
    && |s'.t1| + |s'.b1| <= |s.t1| + |s.b1| + (if InHistory(s, key) then 0 else 1)
    && Pairs(s'.t1) + Pairs(s'.t2) == Pairs(s.t1) + Pairs(s.t2) + multiset{(key, value)}
    && (s.b1 == [] && s.b2 == [] ==> s'.b1 == [] && s'.b2 == [])
  }

  lemma {:induction false} InsertAdds<K(!new), V>(s: State<K, V>, max: int, key: K, value: V)
    requires key !in Resident(s)
    ensures Insert(s, max, key, value).Ok? && Adds(s, key, value, Insert(s, max, key, value).value)
  {
    AddResident(s, key, value);
    if key in s.b1 { DropKey(s.b1, key); }
  }

  lemma {:induction false} InsertSafe<K(!new), V>(s: State<K, V>, max: int, key: K, value: V) returns (s': State<K, V>)
    requires Once(AllKeys(s)) && |s.t1| + |s.t2| < max && 0 <= s.p <= max
    requires |s.b1| + |s.b2| <= if InHistory(s, key) then max + 1 else max
    requires key !in Resident(s)
    ensures Insert(s, max, key, value) == Ok(s') && Safe(s', max) && Adds(s, key, value, s')
  {
    InsertOnce(s, max, key, value);
    InsertBounds(s, max, key, value);
    InsertAdds(s, max, key, value);
    s' := Insert(s, max, key, value).value;
  }

  lemma {:induction false} TrimSound<K(!new), V>(s: State<K, V>, max: int, key: K)
    requires Sound(s, max)
    ensures var s' := Trim(s, |s.t1|, |s.t2|, max, key); Sound(s', max) && s'.t1 == s.t1 && s'.t2 == s.t2
  {
    TrimKeys(s, max, key);
    OnceFewer(AllKeys(Trim(s, |s.t1|, |s.t2|, max, key)), AllKeys(s));
    hide Once, AllKeys;
  }

  lemma {:induction false} InsertSound<K(!new), V>(s: State<K, V>, max: int, key: K, value: V)
    requires Sound(s, max) && key !in Resident(s)
    ensures var r := Insert(s, max, key, value);
      r.Ok? && Sound(r.value, max) && Resident(r.value) == Resident(s) + multiset{key} && Total(r.value) == Total(s) + 1
  {
    InsertOnce(s, max, key, value);
    InsertAdds(s, max, key, value);
    hide Once, AllKeys, Resident, Pairs;
  }

  /** The last part of a miss needs no bounds to keep the four lists disjoint and the target in place. */
  lemma {:induction false} SettleSound<K(!new), V>(s: State<K, V>, max: int, key: K, value: V, evicted: bool)
    requires Sound(s, max) && key !in Resident(s)
    ensures var r := Settle(s, max, key, value, evicted);
      r.Ok? && Sound(r.value, max) && Resident(r.value) == Resident(s) + multiset{key} && Total(r.value) == Total(s) + 1
  {
    TrimSound(s, max, key);
    InsertSound(if evicted then Trim(s, |s.t1|, |s.t2|, max, key) else s, max, key, value);
    hide Sound, Trim, Insert;
  }

  /** The state just before the insertion of a miss meets what the insertion needs. */
  lemma {:induction false} MakeRoomSafe<K(!new), V>(s: State<K, V>, max: int, key: K)
      returns (s2: State<K, V>, victim: Entry<K, V>)
    requires max >= 1 && Safe(s, max) && |s.t1| + |s.t2| == max
    ensures Evict(s).Ok? && Evict(s).value.1 == victim
    ensures var s1 := Evict(s).value.0; Trim(s1, |s1.t1|, |s1.t2|, max, key) == s2
    ensures Once(AllKeys(s2)) && |s2.t1| + |s2.t2| == max - 1 && s2.p == s.p
    ensures |s2.b1| + |s2.b2| <= (if InHistory(s2, key) then max + 1 else max)
    ensures |s2.t1| + |s2.b1| <= |s.t1| + |s.b1|
    ensures !InHistory(s2, key) ==> |s2.t1| + |s2.b1| < max || |s2.t1| + |s2.b1| < |s.t1| + |s.b1|
    ensures Resident(s2) + multiset{victim.key} == Resident(s)
    ensures Pairs(s2.t1) + Pairs(s2.t2) <= Pairs(s.t1) + Pairs(s.t2)
  {
    EvictSafe(s, max);
    var s1 := Evict(s).value.0;
    victim := Evict(s).value.1;
    OnceFewer(AllKeys(s1), AllKeys(s));
    TrimSafe(s1, max, key);
    s2 := Trim(s1, |s1.t1|, |s1.t2|, max, key);
    OnceFewer(AllKeys(s2), AllKeys(s1));
  }

  /** What an installation may do: no panic, every bound kept, every other entry kept but the victim. */
  ghost predicate Installs<K(!new), V>(s: State<K, V>, max: int, key: K, value: V, s': State<K, V>,
                                       victim: Option<Entry<K, V>>) {
    && Safe(s', max)
    && Resident(s') + (if victim.Some? then multiset{victim.value.key} else multiset{}) == Resident(s) + multiset{key}
    && Pairs(s'.t1) + Pairs(s'.t2) <= Pairs(s.t1) + Pairs(s.t2) + multiset{(key, value)}
    && (Directory(s, max) ==> Directory(s', max))
    && |s'.t1| + |s'.t2| == Min(|s.t1| + |s.t2| + 1, max)
  }

  lemma {:induction false} InstallsThrough<K(!new), V>(s: State<K, V>, max: int, key: K, value: V,
                                                       s2: State<K, V>, s3: State<K, V>, victim: Entry<K, V>)
    requires Safe(s3, max) && |s.t1| + |s.t2| == max && |s2.t1| + |s2.t2| == max - 1
    requires |s2.t1| + |s2.b1| <= |s.t1| + |s.b1|
    requires !InHistory(s2, key) ==> |s2.t1| + |s2.b1| < max || |s2.t1| + |s2.b1| < |s.t1| + |s.b1|
    requires Resident(s2) + multiset{victim.key} == Resident(s)
    requires Pairs(s2.t1) + Pairs(s2.t2) <= Pairs(s.t1) + Pairs(s.t2)
    requires Adds(s2, key, value, s3)
    ensures Installs(s, max, key, value, s3, Some(victim))
  {
  }

  lemma {:induction false} InstallFull<K(!new), V>(s: State<K, V>, max: int, key: K, value: V)
      returns (s': State<K, V>, victim: Option<Entry<K, V>>)
    requires max >= 1 && Safe(s, max) && key !in Resident(s) && |s.t1| + |s.t2| == max
    ensures InstallAtOnce(s, max, key, value) == Ok((s', victim)) && Installs(s, max, key, value, s', victim)
  {
    var s2, gone := MakeRoomSafe(s, max, key);
    s' := InsertSafe(s2, max, key, value);
    victim := Some(gone);
    InstallsThrough(s, max, key, value, s2, s', gone);
  }

  /** On every safe state an installation is one of those. */
  lemma {:induction false} InstallSafe<K(!new), V>(s: State<K, V>, max: int, key: K, value: V)
      returns (s': State<K, V>, victim: Option<Entry<K, V>>)
    requires max >= 1 && Safe(s, max) && key !in Resident(s)
    ensures InstallAtOnce(s, max, key, value) == Ok((s', victim)) && Installs(s, max, key, value, s', victim)
  {
    if |s.t1| + |s.t2| >= max {
      s', victim := InstallFull(s, max, key, value);
    } else {
      s' := InsertSafe(s, max, key, value);
      victim := None;
    }
  }

  /** The policy of one miss on any safe state. An unknown key enters T1 and leaves the target alone. A key
      remembered by B1 enters T2 and raises the target, one remembered by B2 enters T2 and lowers it, each by the
      ratio of the histories after the eviction, and of all that is known only the place of that key changes, with
      that of the victim. */
  lemma {:induction false} MissPolicy<K(!new), V>(s: State<K, V>, max: int, key: K, value: V)
    requires max >= 1 && Safe(s, max) && key !in Resident(s)
    ensures InstallAtOnce(s, max, key, value).Ok?
    ensures var s' := InstallAtOnce(s, max, key, value).value.0; var e := Entry(key, value, false);
      && (!InHistory(s, key) ==> s'.t1 != [] && s'.t1[|s'.t1| - 1] == e && s'.p == s.p)
      && (InHistory(s, key) ==> s'.t2 != [] && s'.t2[|s'.t2| - 1] == e && AllKeys(s') == AllKeys(s))
      && (key in s.b1 ==> MovesBy(s'.p - s.p, max - s.p, |s'.b1| + 1, |s'.b2|))
      && (key in s.b2 ==> MovesBy(s.p - s'.p, s.p, |s'.b2| + 1, |s'.b1|))
      && !InHistory(s', key)
  {
    hide RoomFor, Insert, Once, AllKeys, Resident, MovesBy;
    var s1 := HistoryAfterRoom(s, max, key);
    InsertPolicy(s1, max, key, value);
  }

  /** Making room forgets neither the target nor whether a history remembers the key. */
  lemma {:induction false} HistoryAfterRoom<K(!new), V>(s: State<K, V>, max: int, key: K) returns (s1: State<K, V>)
    requires max >= 1 && Safe(s, max) && key !in Resident(s)
    ensures RoomFor(s, max, key).Ok? && RoomFor(s, max, key).value.0 == s1
    ensures s1.p == s.p && (key in s1.b1 <==> key in s.b1) && (key in s1.b2 <==> key in s.b2)
    ensures Once(AllKeys(s1)) && key !in Resident(s1) && (InHistory(s, key) ==> AllKeys(s1) == AllKeys(s))
  {
    s1 := s;
    if |s.t1| + |s.t2| >= max {
      var s2, victim := MakeRoomSafe(s, max, key);
      if InHistory(s, key) { KnownKeepsAll(s, max, key); }
      StillRemembered(s, max, key);
      hide AllKeys, Once, Evict, Trim, Pairs, Keys;
      s1 := s2;
    }
  }

  lemma {:induction false} StillRemembered<K(!new), V>(s: State<K, V>, max: int, key: K)
    requires max >= 1 && Safe(s, max) && key !in Resident(s) && Total(s) == max
    ensures Evict(s).Ok?
    ensures var e := Evict(s).value.0; var s1 := Trim(e, |e.t1|, |e.t2|, max, key);
      (key in s1.b1 <==> key in s.b1) && (key in s1.b2 <==> key in s.b2) && key !in Resident(e)
  {
    EvictSafe(s, max);
    var e, victim := Evict(s).value.0, Evict(s).value.1;
    assert victim.key in Resident(s);
    hide AllKeys, Once, ReplaceLoop, Pairs;
  }

  /** For a key that a history remembers nothing is trimmed. */
  lemma {:induction false} KnownKeepsAll<K(!new), V>(s: State<K, V>, max: int, key: K)
    requires max >= 1 && Safe(s, max) && Total(s) == max && InHistory(s, key)
    ensures Evict(s).Ok?
    ensures var e := Evict(s).value.0; Trim(e, |e.t1|, |e.t2|, max, key) == e && AllKeys(e) == AllKeys(s)
  {
    EvictSafe(s, max);
    hide AllKeys, Once, Resident, Pairs, ReplaceLoop;
  }

  lemma {:induction false} NotInBoth<K(!new), V>(s: State<K, V>, key: K)
    requires Once(AllKeys(s)) && key in s.b1
    ensures key !in s.b2
  {
    assert AtMostOnce(AllKeys(s), key) && key in multiset(s.b1);
    assert key !in multiset(s.b2);
  }

  lemma {:induction false} InsertPolicy<K(!new), V>(s: State<K, V>, max: int, key: K, value: V)
    requires 0 <= s.p <= max && Once(AllKeys(s)) && key !in Resident(s)
    ensures Insert(s, max, key, value).Ok?
    ensures var s' := Insert(s, max, key, value).value; var e := Entry(key, value, false);
      && (!InHistory(s, key) ==> s'.t1 != [] && s'.t1[|s'.t1| - 1] == e && s'.p == s.p)
      && (InHistory(s, key) ==> s'.t2 != [] && s'.t2[|s'.t2| - 1] == e && AllKeys(s') == AllKeys(s))
      && (key in s.b1 ==> MovesBy(s'.p - s.p, max - s.p, |s'.b1| + 1, |s'.b2|))
      && (key in s.b2 ==> MovesBy(s.p - s'.p, s.p, |s'.b2| + 1, |s'.b1|))
      && !InHistory(s', key)
  {
    AddResident(s, key, value);
    InsertForgets(s, max, key, value);
    if key in s.b1 { NotInBoth(s, key); }
    if key in s.b1 { DropKey(s.b1, key); } else if key in s.b2 { DropKey(s.b2, key); }
    hide Once, Keys, Pairs, Drop, AllKeys, Resident, MovesBy;
  }

  lemma {:induction false} InsertForgets<K(!new), V>(s: State<K, V>, max: int, key: K, value: V)
    requires Once(AllKeys(s)) && key !in Resident(s)
    ensures Insert(s, max, key, value).Ok? && !InHistory(Insert(s, max, key, value).value, key)
    ensures InHistory(s, key) ==> AllKeys(Insert(s, max, key, value).value) == AllKeys(s)
  {
    InsertOnce(s, max, key, value);
    InsertKeys(s, max, key, value);
    InsertAdds(s, max, key, value);
    var s' := Insert(s, max, key, value).value;
    assert AtMostOnce(AllKeys(s'), key) && key in Resident(s');
    assert key !in multiset(s'.b1) && key !in multiset(s'.b2);
  }

  /** The whole of replace, on a full or overfull cache: the clocks are those of the closed form with the target of
      the cache, and the victim is the most recent key of the history of the clock it left, which is T1 only while T1
      holds the target, and T2 only once it holds less. */
  lemma {:induction false} EvictIsAtOnce<K(!new), V>(s: State<K, V>, max: int)
    requires Sound(s, max) && Total(s) >= max >= 1
    ensures var r := ReplaceAtOnce(s.t1, s.t2, Max(1, s.p));
      Evict(s) == Ok((if r.fromT1 then Store(s.p, r.t1, r.t2, [r.victim.key] + s.b1, s.b2)
                      else Store(s.p, r.t1, r.t2, s.b1, [r.victim.key] + s.b2), r.victim))
      && (if r.fromT1 then r.victim in s.t1 && !r.victim.bit && |r.t1| + 1 >= s.p else |r.t1| < Max(1, s.p))
  {
    OnceFewer(Resident(s), AllKeys(s));
    ReplaceIsAtOnce(s.t1, s.t2, Max(1, s.p));
    ReplaceRespectsTarget(s.t1, s.t2, Max(1, s.p));
    EvictSafe(s, max);
    hide ReplaceAtOnce, ReplaceLoop, Once, AllKeys, Resident, Pairs, Keys;
  }

  /** What inserting an unknown key after an eviction makes the histories forget: nothing, or only the last key of B1
      when even then T1 and B1 together hold the capacity, or only the last key of B2 when even then all four lists
      together hold twice the capacity; and T1 and B1 outgrow the capacity no further. */
  ghost predicate Forgets<K(!new), V>(e: State<K, V>, max: int, key: K, value: V, s': State<K, V>) {
    && s'.p == e.p && s'.t1 == e.t1 + [Entry(key, value, false)] && s'.t2 == e.t2
    && |s'.t1| + |s'.b1| <= Max(max, |e.t1| + |e.b1|)
    && (|| (s'.b1 == e.b1 && s'.b2 == e.b2)
        || (ForgetsLast(e.b1, s'.b1) && s'.b2 == e.b2 && |s'.t1| + |s'.b1| >= max)
        || (ForgetsLast(e.b2, s'.b2) && s'.b1 == e.b1 && Total(s') + |s'.b1| + |s'.b2| >= 2 * max))
  }

  lemma {:induction false} SettleForgets<K(!new), V>(e: State<K, V>, max: int, key: K, value: V)
    requires Once(AllKeys(e)) && Total(e) == max - 1 && |e.b1| + |e.b2| <= max + 1
    requires key !in Resident(e) && !InHistory(e, key)
    ensures var r := Settle(e, max, key, value, true); r.Ok? && Forgets(e, max, key, value, r.value)
  {
    TrimSafe(e, max, key);
    hide *;
    TrimForgets(e, max, key);
    EntersT1(e, max, key, value);
    TrimmedForgets(e, max, key, value, Trim(e, |e.t1|, |e.t2|, max, key));
  }

  /** An unknown key that is not resident enters T1, whatever is trimmed. */
  lemma {:induction false} EntersT1<K(!new), V>(e: State<K, V>, max: int, key: K, value: V)
    requires key !in Resident(e) && !InHistory(e, key)
    ensures var e' := Trim(e, |e.t1|, |e.t2|, max, key);
      Settle(e, max, key, value, true) == Ok(e'.(t1 := e.t1 + [Entry(key, value, false)]))
  {
    AddResident(e, key, value);
    TrimKeys(e, max, key);
    hide Keys, Pairs, AllKeys, Resident;
  }

  lemma {:induction false} TrimmedForgets<K(!new), V>(e: State<K, V>, max: int, key: K, value: V, e': State<K, V>)
    requires Total(e) == max - 1 && !InHistory(e, key) && TrimsNoMore(e, max, key, e')
    ensures Forgets(e, max, key, value, e'.(t1 := e.t1 + [Entry(key, value, false)]))
  {
  }

  /** What a miss of an unknown key does on any safe state: while there is room it only enters T1; on a full cache
      replace comes first, and then the histories forget no more than they must. */
  lemma {:induction false} MissForgets<K(!new), V>(s: State<K, V>, max: int, key: K, value: V)
    requires max >= 1 && Safe(s, max) && key !in Resident(s) && !InHistory(s, key)
    ensures InstallAtOnce(s, max, key, value).Ok? && (Total(s) == max ==> Evict(s).Ok?)
    ensures var s' := InstallAtOnce(s, max, key, value).value.0;
      if Total(s) < max then s' == s.(t1 := s.t1 + [Entry(key, value, false)])
      else Forgets(Evict(s).value.0, max, key, value, s') && AllKeys(Evict(s).value.0) == AllKeys(s)
  {
    if Total(s) < max {
      AddResident(s, key, value);
    } else {
      EvictSafe(s, max);
      var e, victim := Evict(s).value.0, Evict(s).value.1;
      OnceFewer(AllKeys(e), AllKeys(s));
      var s1 := HistoryAfterRoom(s, max, key);
      assert victim.key in Resident(s);
      VictimRemembered(s, max, key);
      hide Once, AllKeys, Resident, Evict, Forgets, Pairs, Trim, Insert;
      SettleForgets(e, max, key, value);
    }
  }

  lemma {:induction false} VictimRemembered<K(!new), V>(s: State<K, V>, max: int, key: K)
    requires max >= 1 && Safe(s, max) && Total(s) == max && key !in Resident(s) && !InHistory(s, key)
    ensures Evict(s).Ok? && key !in Resident(Evict(s).value.0) && !InHistory(Evict(s).value.0, key)
  {
    EvictSafe(s, max);
    var e := Evict(s).value.0;
    assert key !in multiset(s.b1) && key !in multiset(s.b2);
    assert AllKeys(s)[key] == 0;
    assert AllKeys(e)[key] == 0;
    assert multiset(e.b1)[key] == 0 && multiset(e.b2)[key] == 0;
    hide Evict, Once, Pairs;
  }

  lemma {:induction false} TrimForgets<K(!new), V>(s: State<K, V>, max: int, key: K)
    requires Trims(s, |s.t1|, |s.t2|, max, key).FromB1? ==> s.b1 != []
    requires Trims(s, |s.t1|, |s.t2|, max, key).FromB2? ==> s.b2 != []
    ensures TrimsNoMore(s, max, key, Trim(s, |s.t1|, |s.t2|, max, key))
  {
  }
}
