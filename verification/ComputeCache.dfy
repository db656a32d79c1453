/** The recursive computable cache of cache/cache.go. The calculator asks the cache for one key after
    the other, may let each question depend on the answers so far, passes on the first error, and ends
    with a value or an error of its own; the in-progress set is what turns a cycle of such questions
    into an error. */
module ComputeCache {
  import opened Basics

  /** What a calculator makes of a key: a value, or an error of its own. */
  datatype Answer<+V> = Value(value: V) | Error(message: string)

  /** What a calculator does next. */
  datatype Move<+K, +V> = Ask(key: K) | Done(answer: Answer<V>)

  /** A calculator: its next move on a key, given the values of its questions so far. */
  type Calculator<!K, !V> = (K, seq<V>) -> Move<K, V>

  datatype Result<+K, +V> = Ok(value: V) | Failed(message: string) | CycleDetected(key: K)

  // ---- The answer without any cache

  /** Plain recursion on `k` once its first questions have been answered with `vs`, given up below `depth`. */
  function PlainFrom<K, V>(c: Calculator<K, V>, k: K, vs: seq<V>, depth: nat): Option<Answer<V>>
    decreases depth, 0
  {
    if depth == 0 then None else
    match c(k, vs)
    case Done(a) => Some(a)
    case Ask(d) =>
      match Plain(c, d, depth - 1)
      case None => None
      case Some(Error(m)) => Some(Error(m))
      case Some(Value(v)) => PlainFrom(c, k, vs + [v], depth - 1)
  }

  function Plain<K, V>(c: Calculator<K, V>, k: K, depth: nat): Option<Answer<V>>
    decreases depth, 1
  {
    PlainFrom(c, k, [], depth)
  }

  lemma {:induction false} PlainDeeper<K, V>(c: Calculator<K, V>, k: K, vs: seq<V>, n: nat, m: nat)
    requires n <= m && PlainFrom(c, k, vs, n).Some?
    ensures PlainFrom(c, k, vs, m) == PlainFrom(c, k, vs, n)
    decreases n
  {
    if c(k, vs).Ask? {
      var d := c(k, vs).key;
      PlainDeeper(c, d, [], n - 1, m - 1);
      var a := Plain(c, d, n - 1).value;
      if a.Value? { PlainDeeper(c, k, vs + [a.value], n - 1, m - 1); }
    }
  }

  /** The recursion without a cache terminates on `k` and gives `a`. */
  ghost predicate Answers<K, V>(c: Calculator<K, V>, k: K, a: Answer<V>) {
    exists n: nat :: Plain(c, k, n) == Some(a)
  }

  lemma {:induction false} AnswerUnique<K, V>(c: Calculator<K, V>, k: K, a: Answer<V>, b: Answer<V>)
    requires Answers(c, k, a) && Answers(c, k, b)
    ensures a == b
  {
    var n: nat, m: nat :| Plain(c, k, n) == Some(a) && Plain(c, k, m) == Some(b);
    if n <= m { PlainDeeper(c, k, [], n, m); } else { PlainDeeper(c, k, [], m, n); }
  }

  /** No key is refused by the calculator itself. */
  ghost predicate NeverFails<K(!new), V(!new)>(c: Calculator<K, V>) {
    forall k, vs :: c(k, vs).Done? ==> c(k, vs).answer.Value?
  }

  lemma {:induction false} NoErrors<K(!new), V(!new)>(c: Calculator<K, V>, k: K, vs: seq<V>, n: nat)
    requires NeverFails(c)
    ensures PlainFrom(c, k, vs, n).Some? ==> PlainFrom(c, k, vs, n).value.Value?
    decreases n
  {
    if n > 0 && c(k, vs).Ask? {
      var d := c(k, vs).key;
      NoErrors(c, d, [], n - 1);
      var r := Plain(c, d, n - 1);
      if r.Some? { NoErrors(c, k, vs + [r.value.value], n - 1); }
    }
  }

  // ---- The questions a calculator gets to ask

  /** `vs` are the values of the first questions on `k`, all found within `n`. */
  ghost predicate Answered<K, V>(c: Calculator<K, V>, k: K, vs: seq<V>, n: nat)
    decreases |vs|
  {
    vs == [] ||
    var init := vs[..|vs| - 1];
    Answered(c, k, init, n) && c(k, init).Ask? && Plain(c, c(k, init).key, n) == Some(Value(vs[|vs| - 1]))
  }

  lemma {:induction false} AnsweredDeeper<K, V>(c: Calculator<K, V>, k: K, vs: seq<V>, n: nat, m: nat)
    requires n <= m && Answered(c, k, vs, n)
    ensures Answered(c, k, vs, m)
    decreases |vs|
  {
    if vs != [] {
      var init := vs[..|vs| - 1];
      AnsweredDeeper(c, k, init, n, m);
      PlainDeeper(c, c(k, init).key, [], n, m);
    }
  }

  lemma {:induction false} AnsweredOneMore<K, V>(c: Calculator<K, V>, k: K, vs: seq<V>, n: nat, v: V) returns (m: nat)
    requires Answered(c, k, vs, n) && c(k, vs).Ask? && Answers(c, c(k, vs).key, Value(v))
    ensures Answered(c, k, vs + [v], m)
  {
    var x: nat :| Plain(c, c(k, vs).key, x) == Some(Value(v));
    m := Max(n, x);
    AnsweredDeeper(c, k, vs, n, m);
    PlainDeeper(c, c(k, vs).key, [], x, m);
    assert (vs + [v])[..|vs|] == vs;
  }

  /** Plain recursion goes through the answered questions, one level a question. */
  lemma {:induction false} PlainGoesOn<K, V>(c: Calculator<K, V>, k: K, vs: seq<V>, m: nat, n: nat)
    requires Answered(c, k, vs, m) && m <= n
    ensures Plain(c, k, n + |vs|) == PlainFrom(c, k, vs, n)
    decreases |vs|
  {
    if vs != [] {
      var init := vs[..|vs| - 1];
      PlainGoesOn(c, k, init, m, n + 1);
      PlainDeeper(c, c(k, init).key, [], m, n);
      assert init + [vs[|vs| - 1]] == vs;
    }
  }

  /** The first error among the answers is the answer. */
  lemma {:induction false} FirstError<K, V>(c: Calculator<K, V>, k: K, vs: seq<V>, m: nat, message: string)
    requires Answered(c, k, vs, m) && c(k, vs).Ask? && Answers(c, c(k, vs).key, Error(message))
    ensures Answers(c, k, Error(message))
  {
    var x: nat :| Plain(c, c(k, vs).key, x) == Some(Error(message));
    var n := Max(m, x);
    PlainDeeper(c, c(k, vs).key, [], x, n);
    PlainGoesOn(c, k, vs, m, n + 1);
    assert Plain(c, k, n + 1 + |vs|) == Some(Error(message));
  }

  /** And without one, the answer is what the calculator ends with. */
  lemma {:induction false} LastMove<K, V>(c: Calculator<K, V>, k: K, vs: seq<V>, m: nat)
    requires Answered(c, k, vs, m) && c(k, vs).Done?
    ensures Answers(c, k, c(k, vs).answer)
  {
    PlainGoesOn(c, k, vs, m, m + 1);
    assert Plain(c, k, m + 1 + |vs|) == Some(c(k, vs).answer);
  }

  // ---- Paths and cycles

  type Edges<!K> = (K, K) -> bool

  /** The calculator does get to ask for `b`: everything it asks for before has a value. */
  ghost predicate Reaches<K, V>(c: Calculator<K, V>, a: K, b: K, vs: seq<V>, n: nat) {
    Answered(c, a, vs, n) && c(a, vs) == Ask(b)
  }

  ghost function AsksFor<K, V(!new)>(c: Calculator<K, V>): Edges<K> {
    (a, b) => exists vs, n: nat :: Reaches(c, a, b, vs, n)
  }

  ghost predicate EdgeOk<K>(e: Edges<K>, p: seq<K>, i: nat)
    requires i + 1 < |p|
  {
    e(p[i], p[i + 1])
  }

  /** From each key of `p` there is an edge to the next. */
  ghost predicate IsPath<K>(e: Edges<K>, p: seq<K>) {
    p != [] && forall i {:trigger EdgeOk(e, p, i)} :: 0 <= i < |p| - 1 ==> EdgeOk(e, p, i)
  }

  ghost predicate PathFromTo<K>(e: Edges<K>, p: seq<K>, a: K, b: K) {
    IsPath(e, p) && p[0] == a && p[|p| - 1] == b
  }

  ghost predicate OnCycle<K(!new)>(e: Edges<K>, k: K) {
    exists p: seq<K> :: |p| >= 2 && PathFromTo(e, p, k, k)
  }

  /** Any number of steps lead from `k` to the key `x`, and at least one from `x` to itself. */
  ghost predicate CycleAt<K(!new)>(e: Edges<K>, k: K, x: K) {
    (exists p: seq<K> :: PathFromTo(e, p, k, x)) && OnCycle(e, x)
  }

  ghost predicate CycleReachable<K(!new)>(e: Edges<K>, k: K) {
    exists x :: CycleAt(e, k, x)
  }

  lemma {:induction false} CycleFromNext<K(!new)>(e: Edges<K>, k: K, d: K, x: K)
    requires e(k, d) && CycleAt(e, d, x)
    ensures CycleAt(e, k, x)
  {
    var p: seq<K> :| PathFromTo(e, p, d, x);
    var p' := [k] + p;
    forall i | 0 <= i < |p'| - 1 ensures EdgeOk(e, p', i) {
      if i > 0 { assert EdgeOk(e, p, i - 1); }
    }
    assert PathFromTo(e, p', k, x);
  }

  /** The keys on the stack, followed by one of them, close a cycle. */
  lemma {:induction false} StackCycle<K(!new)>(e: Edges<K>, stack: seq<K>, k: K)
    requires IsPath(e, stack + [k]) && k in stack
    ensures CycleAt(e, k, k)
  {
    var i :| 0 <= i < |stack| && stack[i] == k;
    var all := stack + [k];
    var p := all[i..];
    forall j | 0 <= j < |p| - 1 ensures EdgeOk(e, p, j) { assert EdgeOk(e, all, i + j); }
    assert PathFromTo(e, p, k, k);
    assert PathFromTo(e, [k], k, k);
  }

  lemma {:induction false} PathExtend<K>(e: Edges<K>, stack: seq<K>, k: K, d: K)
    requires IsPath(e, stack + [k]) && e(k, d)
    ensures IsPath(e, stack + [k] + [d])
  {
    var p, q := stack + [k], stack + [k] + [d];
    forall i | 0 <= i < |q| - 1 ensures EdgeOk(e, q, i) {
      if i < |p| - 1 { assert EdgeOk(e, p, i); }
    }
  }

  lemma {:induction false} PathTail<K>(e: Edges<K>, p: seq<K>)
    requires IsPath(e, p) && |p| > 1
    ensures e(p[0], p[1]) && IsPath(e, p[1..])
  {
    assert EdgeOk(e, p, 0);
    forall i | 0 <= i < |p| - 2 ensures EdgeOk(e, p[1..], i) { assert EdgeOk(e, p, i + 1); }
  }

  // ---- Where the calculator asks in circles, plain recursion does not end, and only there

  /** Plain recursion that ends on `k` has gone through its answered questions. */
  lemma {:induction false} EndsAfter<K, V>(c: Calculator<K, V>, k: K, vs: seq<V>, m: nat, n: nat)
    requires Plain(c, k, n).Some? && Answered(c, k, vs, m)
    ensures |vs| < n && PlainFrom(c, k, vs, n - |vs|) == Plain(c, k, n)
    decreases |vs|
  {
    if vs != [] {
      var init, v := vs[..|vs| - 1], vs[|vs| - 1];
      EndsAfter(c, k, init, m, n);
      var d, left := c(k, init).key, n - |init| - 1;
      assert Plain(c, d, left).Some?;
      if left <= m { PlainDeeper(c, d, [], left, m); } else { PlainDeeper(c, d, [], m, left); }
      assert init + [v] == vs;
    }
  }

  /** Plain recursion that ends has descended along every path of questions, a level or more a step. */
  lemma {:induction false} EndsAlong<K(!new), V(!new)>(c: Calculator<K, V>, p: seq<K>, n: nat) returns (m: nat)
    requires IsPath(AsksFor(c), p) && Plain(c, p[0], n).Some?
    ensures m + |p| <= n + 1 && Plain(c, p[|p| - 1], m).Some?
    decreases |p|
  {
    m := n;
    if |p| > 1 {
      PathTail(AsksFor(c), p);
      var vs, x: nat :| Reaches(c, p[0], p[1], vs, x);
      EndsAfter(c, p[0], vs, x, n);
      m := EndsAlong(c, p[1..], n - |vs| - 1);
    }
  }

  lemma {:induction false} NoEndOnCycle<K(!new), V(!new)>(c: Calculator<K, V>, x: K, n: nat)
    requires OnCycle(AsksFor(c), x)
    ensures Plain(c, x, n).None?
    decreases n
  {
    if Plain(c, x, n).Some? {
      var p: seq<K> :| |p| >= 2 && PathFromTo(AsksFor(c), p, x, x);
      var m := EndsAlong(c, p, n);
      NoEndOnCycle(c, x, m);
    }
  }

  /** A key from which the calculator gets to ask in circles has no answer. */
  lemma {:induction false} AnswerOrCycle<K(!new), V(!new)>(c: Calculator<K, V>, k: K, a: Answer<V>)
    requires Answers(c, k, a)
    ensures !CycleReachable(AsksFor(c), k)
  {
    if CycleReachable(AsksFor(c), k) {
      var n: nat :| Plain(c, k, n) == Some(a);
      var x :| CycleAt(AsksFor(c), k, x);
      var p: seq<K> :| PathFromTo(AsksFor(c), p, k, x);
      var m := EndsAlong(c, p, n);
      NoEndOnCycle(c, x, m);
    }
  }

  // ---- Calculators whose questions do not depend on the answers

  /** On each key the calculator asks for exactly the keys `deps` lists, in order. */
  ghost predicate AsksList<K(!new), V(!new)>(c: Calculator<K, V>, deps: K -> seq<K>) {
    forall k, vs :: AsksNext(c, deps, k, vs)
  }

  ghost predicate AsksNext<K, V>(c: Calculator<K, V>, deps: K -> seq<K>, k: K, vs: seq<V>) {
    if |vs| < |deps(k)| then c(k, vs) == Ask(deps(k)[|vs|]) else c(k, vs).Done?
  }

  ghost function DependsOn<K>(deps: K -> seq<K>): Edges<K> {
    (a, b) => b in deps(a)
  }

  /** The questions it gets to ask are among those. */
  lemma {:induction false} AsksAreDependencies<K(!new), V(!new)>(c: Calculator<K, V>, deps: K -> seq<K>, p: seq<K>)
    requires AsksList(c, deps) && IsPath(AsksFor(c), p)
    ensures IsPath(DependsOn(deps), p)
  {
    forall i | 0 <= i < |p| - 1 ensures EdgeOk(DependsOn(deps), p, i) {
      assert EdgeOk(AsksFor(c), p, i);
      var vs, n: nat :| Reaches(c, p[i], p[i + 1], vs, n);
      assert AsksNext(c, deps, p[i], vs);
    }
  }

  lemma {:induction false} CycleDepends<K(!new), V(!new)>(c: Calculator<K, V>, deps: K -> seq<K>, k: K, x: K)
    requires AsksList(c, deps) && CycleAt(AsksFor(c), k, x)
    ensures CycleAt(DependsOn(deps), k, x)
  {
    var p: seq<K> :| PathFromTo(AsksFor(c), p, k, x);
    var q: seq<K> :| |q| >= 2 && PathFromTo(AsksFor(c), q, x, x);
    AsksAreDependencies(c, deps, p);
    AsksAreDependencies(c, deps, q);
    assert PathFromTo(DependsOn(deps), p, k, x) && PathFromTo(DependsOn(deps), q, x, x);
  }

  ghost predicate HasValue<K, V>(c: Calculator<K, V>, k: K, n: int) {
    n >= 0 && Plain(c, k, n).Some? && Plain(c, k, n).value.Value?
  }

  /** Where plain recursion gets through the first questions on its way to a value. */
  ghost predicate OnTheWay<K, V>(c: Calculator<K, V>, k: K, vs: seq<V>, n: nat) {
    Answered(c, k, vs, n) && |vs| < n && PlainFrom(c, k, vs, n - |vs|).Some? &&
      PlainFrom(c, k, vs, n - |vs|).value.Value?
  }

  lemma {:induction false} OneQuestionOn<K, V>(c: Calculator<K, V>, k: K, vs: seq<V>, n: nat) returns (v: V)
    requires OnTheWay(c, k, vs, n) && c(k, vs).Ask?
    ensures HasValue(c, c(k, vs).key, n - |vs| - 1) && OnTheWay(c, k, vs + [v], n)
  {
    var d, left := c(k, vs).key, n - |vs| - 1;
    v := Plain(c, d, left).value.value;
    PlainDeeper(c, d, [], left, n);
    assert (vs + [v])[..|vs|] == vs;
  }

  /** On a key with a value it gets to ask everything, and each has a value. */
  lemma {:induction false} ValueAt<K(!new), V(!new)>(c: Calculator<K, V>, deps: K -> seq<K>, k: K, n: nat, i: nat)
      returns (vs: seq<V>)
    requires AsksList(c, deps) && i < |deps(k)| && HasValue(c, k, n)
    ensures |vs| == i && OnTheWay(c, k, vs, n) && c(k, vs) == Ask(deps(k)[i]) && HasValue(c, deps(k)[i], n - i - 1)
    decreases i
  {
    vs := [];
    if i > 0 {
      vs := ValueAt(c, deps, k, n, i - 1);
      hide OnTheWay, HasValue;
      var v := OneQuestionOn(c, k, vs, n);
      vs := vs + [v];
    }
    assert AsksNext(c, deps, k, vs);
    hide OnTheWay, HasValue;
    var _ := OneQuestionOn(c, k, vs, n);
  }

  /** From a key with a value, everything that is listed is asked, and has a value. */
  lemma {:induction false} ValueAlong<K(!new), V(!new)>(c: Calculator<K, V>, deps: K -> seq<K>, p: seq<K>, n: nat)
      returns (m: nat)
    requires AsksList(c, deps) && IsPath(DependsOn(deps), p) && HasValue(c, p[0], n)
    ensures IsPath(AsksFor(c), p) && HasValue(c, p[|p| - 1], m)
    decreases |p|
  {
    m := n;
    if |p| > 1 {
      PathTail(DependsOn(deps), p);
      var j :| 0 <= j < |deps(p[0])| && deps(p[0])[j] == p[1];
      var vs := ValueAt(c, deps, p[0], n, j);
      assert Reaches(c, p[0], p[1], vs, n);
      m := ValueAlong(c, deps, p[1..], n - j - 1);
      forall i | 0 <= i < |p| - 1 ensures EdgeOk(AsksFor(c), p, i) {
        if i > 0 { assert EdgeOk(AsksFor(c), p[1..], i - 1); }
      }
    }
  }

  /** So a key from which a cycle of dependencies can be reached has no value. */
  lemma {:induction false} ValueOrCycle<K(!new), V(!new)>(c: Calculator<K, V>, deps: K -> seq<K>, k: K, v: V)
    requires AsksList(c, deps) && Answers(c, k, Value(v))
    ensures !CycleReachable(DependsOn(deps), k)
  {
    if CycleReachable(DependsOn(deps), k) {
      var n: nat :| Plain(c, k, n) == Some(Value(v));
      var x :| CycleAt(DependsOn(deps), k, x);
      var p: seq<K> :| PathFromTo(DependsOn(deps), p, k, x);
      var q: seq<K> :| |q| >= 2 && PathFromTo(DependsOn(deps), q, x, x);
      var m := ValueAlong(c, deps, p, n);
      var _ := ValueAlong(c, deps, q, m);
      assert PathFromTo(AsksFor(c), p, k, x) && PathFromTo(AsksFor(c), q, x, x);
      assert CycleAt(AsksFor(c), k, x);
      AnswerOrCycle(c, k, Value(v));
    }
  }

  // ---- The cache

  /** No question that gets asked on a key of `universe` leads out of it. */
  ghost predicate Closed<K(!new), V(!new)>(c: Calculator<K, V>, universe: set<K>) {
    forall k, d :: k in universe && AsksFor(c)(k, d) ==> d in universe
  }

  /** On no key does the calculator go on asking for ever: `limit` bounds the questions that are answered. */
  ghost predicate Stops<K(!new), V(!new)>(c: Calculator<K, V>, limit: K -> nat) {
    forall k, vs, n: nat :: Answered(c, k, vs, n) ==> |vs| <= limit(k)
  }

  /** Everything held is the value of plain recursion. */
  ghost predicate Sound<K(!new), V>(c: Calculator<K, V>, cache: map<K, V>) {
    forall k :: k in cache ==> Answers(c, k, Value(cache[k]))
  }

  /** Nothing that was held is lost or changed. */
  ghost predicate Extends<K(!new), V>(was: map<K, V>, cache: map<K, V>) {
    forall k :: k in was ==> k in cache && cache[k] == was[k]
  }

  lemma {:induction false} Stored<K(!new), V>(c: Calculator<K, V>, was: map<K, V>, cache: map<K, V>, key: K, v: V)
    requires Sound(c, cache) && Extends(was, cache) && key !in was && Answers(c, key, Value(v))
    ensures Sound(c, cache[key := v]) && Extends(was, cache[key := v])
  {
  }

  lemma {:induction false} Held<K(!new), V>(c: Calculator<K, V>, cache: map<K, V>, key: K)
    requires Sound(c, cache) && key in cache
    ensures Answers(c, key, Value(cache[key]))
  {
  }

  lemma {:induction false} ExtendsItself<K(!new), V>(cache: map<K, V>)
    ensures Extends(cache, cache)
  {
  }

  class CacheData<K(==,!new), V(!new)> {
    const calculator: Calculator<K, V>
    ghost const universe: set<K>
    ghost const limit: K -> nat
    var cache: map<K, V>
    /** The keys this thread is computing, in the source a map in thread-local storage. */
    var asks: set<K>

    ghost predicate Valid()
      reads this
    {
      && Sound(calculator, cache)
      && Closed(calculator, universe) && Stops(calculator, limit)
      && asks <= universe
    }

    constructor (calculator: Calculator<K, V>, ghost universe: set<K>, ghost limit: K -> nat)
      requires Closed(calculator, universe) && Stops(calculator, limit)
      ensures Valid() && cache == map[] && asks == {}
      ensures this.calculator == calculator && this.universe == universe && this.limit == limit
    {
      this.calculator, this.universe, this.limit, cache, asks := calculator, universe, limit, map[], {};
    }

    /** Compute on a thread that is computing nothing else: it gives the value or the error of plain recursion
        where that ends, a cycle exactly where the calculator asks in circles, and leaves nothing in progress.
        So a calculator without errors of its own succeeds exactly when it does not ask in circles; and if its
        questions do not depend on the answers, exactly when no cycle of dependencies can be reached. */
    method Compute(key: K) returns (r: Result<K, V>)
      requires Valid() && asks == {} && key in universe
      modifies this
      ensures Valid() && asks == {}
      ensures r.Ok? ==> Answers(calculator, key, Value(r.value)) && key in cache && cache[key] == r.value
      ensures r.Failed? ==> Answers(calculator, key, Error(r.message))
      ensures r.CycleDetected? <==> CycleReachable(AsksFor(calculator), key)
      ensures r.CycleDetected? ==> CycleAt(AsksFor(calculator), key, r.key)
      ensures NeverFails(calculator) ==> (r.Ok? <==> !CycleReachable(AsksFor(calculator), key))
      ensures forall deps {:trigger AsksList(calculator, deps)} :: AsksList(calculator, deps) ==>
        && (r.Ok? ==> !CycleReachable(DependsOn(deps), key))
        && (NeverFails(calculator) ==> (r.Ok? <==> !CycleReachable(DependsOn(deps), key)))
      ensures Extends(old(cache), cache)
    {
      r := InternalCompute(key, []);
      Classify(calculator, key, r);
    }

    /** What one call promises whoever is below it on the stack. */
    twostate predicate Kept(key: K, new r: Result<K, V>)
      reads this
    {
      && Valid() && asks == old(asks)
      && (r.Ok? ==> Answers(calculator, key, Value(r.value)))
      && (r.Failed? ==> Answers(calculator, key, Error(r.message)))
      && (r.CycleDetected? ==> CycleAt(AsksFor(calculator), key, r.key))
      && Extends(old(cache), cache)
    }

    method InternalCompute(key: K, ghost stack: seq<K>) returns (r: Result<K, V>)
      requires Valid() && key in universe
      requires IsPath(AsksFor(calculator), stack + [key]) && forall k :: k in asks <==> k in stack
      modifies this
      ensures Kept(key, r)
      ensures r.Ok? ==> key in cache && cache[key] == r.value
      decreases |universe - asks|, 0
    {
      hide IsPath, CycleAt, Answers, Closed, Sound, Extends;
      ExtendsItself(cache);
      if key in cache {
        Held(calculator, cache, key);
        return Ok(cache[key]);
      }
      if key in asks {
        StackCycle(AsksFor(calculator), stack, key);
        return CycleDetected(key);
      }
      ghost var before := asks;
      asks := asks + {key};
      OneFewer(universe, before, key);
      r := RunCalculator(key, stack);
      if r.Ok? {
        Stored(calculator, old(cache), cache, key, r.value);
        cache := cache[key := r.value];
      }
      asks := asks - {key};
      assert asks == before;
    }

    /** The calculator at work: it asks for its dependencies one after the other. */
    method RunCalculator(key: K, ghost stack: seq<K>) returns (r: Result<K, V>)
      requires Valid() && key in universe
      requires IsPath(AsksFor(calculator), stack + [key]) && forall k :: k in asks <==> k in stack + [key]
      modifies this
      ensures Kept(key, r)
      decreases |universe - asks|, 1
    {
      var vs: seq<V> := [];
      ghost var depth: nat := 0;
      while true
        invariant Valid() && asks == old(asks)
        invariant Extends(old(cache), cache)
        invariant Answered(calculator, key, vs, depth)
        decreases limit(key) - |vs|
      {
        match calculator(key, vs) {
          case Done(answer) =>
            LastMove(calculator, key, vs, depth);
            return match answer case Value(v) => Ok(v) case Error(m) => Failed(m);
          case Ask(next) =>
            assert Reaches(calculator, key, next, vs, depth);
            PathExtend(AsksFor(calculator), stack, key, next);
            var d := InternalCompute(next, stack + [key]);
            match d {
              case CycleDetected(x) =>
                CycleFromNext(AsksFor(calculator), key, next, x);
                return CycleDetected(x);
              case Failed(m) =>
                FirstError(calculator, key, vs, depth, m);
                return Failed(m);
              case Ok(v) =>
                depth := AnsweredOneMore(calculator, key, vs, depth, v);
                vs := vs + [v];
            }
        }
      }
    }

    method Clear()
      requires Valid()
      modifies this`cache
      ensures Valid() && cache == map[]
    {
      cache := map[];
    }

    /** The deleting loop over the map leaves exactly what the removal function spares. */
    method Remove(rf: (K, V) -> bool)
      requires Valid()
      modifies this`cache
      ensures Valid() && cache == map k | k in old(cache) && !rf(k, old(cache)[k]) :: old(cache)[k]
    {
      var rest := cache.Keys;
      while rest != {}
        invariant rest <= old(cache).Keys
        invariant forall k :: k in cache <==> k in old(cache) && (k in rest || !rf(k, old(cache)[k]))
        invariant forall k :: k in cache ==> cache[k] == old(cache)[k]
        decreases rest
      {
        SomeKey(rest);
        var key :| key in rest;
        if rf(key, cache[key]) { cache := cache - {key}; }
        rest := rest - {key};
      }
    }
  }

  /** Every nested call has fewer keys left to ask for. */
  lemma {:induction false} OneFewer<K>(universe: set<K>, asks: set<K>, key: K)
    requires key in universe && key !in asks
    ensures |universe - (asks + {key})| < |universe - asks|
  {
    assert universe - (asks + {key}) == (universe - asks) - {key};
  }

  lemma {:induction false} SomeKey<K(!new)>(ks: set<K>)
    ensures ks == {} || exists k :: k in ks
  {
    if forall k :: k !in ks { assert ks <= {}; }
  }

  /** What the three results say about cycles. */
  lemma {:induction false} Classify<K(!new), V(!new)>(c: Calculator<K, V>, key: K, r: Result<K, V>)
    requires r.Ok? ==> Answers(c, key, Value(r.value))
    requires r.Failed? ==> Answers(c, key, Error(r.message))
    requires r.CycleDetected? ==> CycleAt(AsksFor(c), key, r.key)
    ensures r.CycleDetected? <==> CycleReachable(AsksFor(c), key)
    ensures NeverFails(c) ==> !r.Failed?
    ensures forall deps {:trigger AsksList(c, deps)} :: AsksList(c, deps) ==>
      && (r.Ok? ==> !CycleReachable(DependsOn(deps), key))
      && (NeverFails(c) ==> (r.Ok? <==> !CycleReachable(DependsOn(deps), key)))
  {
    match r
    case Ok(v) =>
      AnswerOrCycle(c, key, Value(v));
      forall deps | AsksList(c, deps) ensures !CycleReachable(DependsOn(deps), key) { ValueOrCycle(c, deps, key, v); }
    case Failed(m) =>
      AnswerOrCycle(c, key, Error(m));
      var n: nat :| Plain(c, key, n) == Some(Error(m));
      if NeverFails(c) { NoErrors(c, key, [], n); }
    case CycleDetected(x) =>
      forall deps | AsksList(c, deps) ensures CycleReachable(DependsOn(deps), key) { CycleDepends(c, deps, key, x); }
  }
}
