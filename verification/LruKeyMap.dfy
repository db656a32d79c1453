/** The key-only LRU map of cache/lru_map.go: a doubly linked list from the most to the
    least recently used key, and a map from each key to its node. */
module LruKeyMap {
  import opened Sequences

  class Node<K> {
    const key: K
    var previous: Node?<K>
    var next: Node?<K>

    constructor (key: K, next: Node?<K>)
      ensures this.key == key && this.previous == null && this.next == next
    {
      this.key, this.previous, this.next := key, null, next;
    }
  }

  ghost function At<K>(nodes: seq<Node<K>>, i: int): Node?<K> {
    if 0 <= i < |nodes| then nodes[i] else null
  }

  ghost function KeysOf<K>(nodes: seq<Node<K>>): (r: seq<K>)
    ensures |r| == |nodes| && forall i {:trigger r[i]} :: 0 <= i < |r| ==> r[i] == nodes[i].key
  {
    seq(|nodes|, i requires 0 <= i < |nodes| => nodes[i].key)
  }

  ghost predicate LinkOk<K>(nodes: seq<Node<K>>, i: nat)
    requires i < |nodes|
    reads nodes[i]
  {
    nodes[i].next == At(nodes, i + 1) && nodes[i].previous == At(nodes, i - 1)
  }

  /** The links of place `j` in a list from which place `k` has been spliced out. */
  ghost predicate SkipOk<K>(nodes: seq<Node<K>>, k: nat, j: nat)
    requires k < |nodes| && j < |nodes|
    reads nodes[j]
  {
    && nodes[j].next == At(nodes, if j + 1 == k then k + 1 else j + 1)
    && nodes[j].previous == At(nodes, if j == k + 1 then k - 1 else j - 1)
  }

  lemma {:induction false} SkipIsWithout<K>(nodes: seq<Node<K>>, k: nat)
    requires k < |nodes|
    requires forall j {:trigger SkipOk(nodes, k, j)} :: 0 <= j < |nodes| && j != k ==> SkipOk(nodes, k, j)
    ensures forall i {:trigger LinkOk(Without(nodes, k), i)} :: 0 <= i < |nodes| - 1 ==> LinkOk(Without(nodes, k), i)
  {
    forall i | 0 <= i < |nodes| - 1 ensures LinkOk(Without(nodes, k), i) {
      assert SkipOk(nodes, k, if i < k then i else i + 1);
    }
  }

  lemma {:induction false} KeysOfWithout<K>(nodes: seq<Node<K>>, k: nat)
    requires k < |nodes|
    ensures KeysOf(Without(nodes, k)) == Without(KeysOf(nodes), k)
  {
  }

  class LruKeyMapData<K(==,!new)> {
    var keys: map<K, Node<K>>
    var mru: Node?<K>
    var lru: Node?<K>
    ghost var nodes: seq<Node<K>>
    ghost var Repr: set<object>

    /** Chain, back links, both ends and the key map describe one duplicate-free sequence of nodes. */
    ghost predicate Valid()
      reads this, Repr
    {
      && this in Repr && (forall i {:trigger nodes[i]} :: 0 <= i < |nodes| ==> nodes[i] in Repr)
      && mru == At(nodes, 0) && lru == At(nodes, |nodes| - 1)
      && (forall i {:trigger LinkOk(nodes, i)} :: 0 <= i < |nodes| ==> LinkOk(nodes, i))
      && Indexed(keys, KeysOf(nodes), nodes)
    }

    /** The keys, most recently used first. */
    ghost function Contents(): seq<K>
      reads this
    {
      KeysOf(nodes)
    }

    constructor ()
      ensures Valid() && Repr == {this} && Contents() == []
    {
      keys, mru, lru, nodes, Repr := map[], null, null, [], {this};
    }

    method Contains(key: K) returns (found: bool)
      requires Valid()
      ensures found <==> key in Contents()
    {
      IndexedKeys(keys, KeysOf(nodes), nodes);
      found := key in keys;
    }

    method GetCurrentSize() returns (size: nat)
      requires Valid()
      ensures size == |Contents()|
    {
      size := |keys|;
    }

    /** Answers false where the source panics. */
    method AddMRU(key: K) returns (ok: bool)
      requires Valid()
      modifies Repr
      ensures Valid() && fresh(Repr - old(Repr))
      ensures ok <==> key !in old(Contents())
      ensures Contents() == if ok then [key] + old(Contents()) else old(Contents())
    {
      var found := Contains(key);
      if found { return false; }
      ok := true;
      assert Distinct(Contents());
      hide Indexed;
      var addMe := new Node(key, mru);
      IndexedAddFront(keys, KeysOf(nodes), nodes, key, addMe);
      if mru == null {
        mru, lru := addMe, addMe;
      } else {
        mru.previous := addMe;
        mru := addMe;
      }
      keys := keys[key := addMe];
      nodes, Repr := [addMe] + nodes, Repr + {addMe};
      assert KeysOf(nodes) == [key] + old(Contents());
      forall i | 0 <= i < |nodes| ensures LinkOk(nodes, i) {
        if i > 0 { assert old(LinkOk(nodes, i - 1)) && Differ(old(Contents()), i - 1, 0); }
      }
    }

    method RemoveLRU()
      requires Valid()
      modifies Repr
      ensures Valid() && Repr == old(Repr)
      ensures Contents() == if old(Contents()) == [] then [] else old(Contents())[..|old(Contents())| - 1]
    {
      if lru == null { return; }
      ghost var k := |nodes| - 1;
      assert LinkOk(nodes, k);
      IndexedWithout(keys, KeysOf(nodes), nodes, k);
      KeysOfWithout(nodes, k);
      keys := keys - {lru.key};
      if lru.previous == null {
        mru, lru := null, null;
      } else {
        lru.previous.next := null;
        lru := lru.previous;
      }
      nodes := Without(nodes, k);
      forall i | 0 <= i < |nodes| ensures LinkOk(nodes, i) {
        assert old(LinkOk(nodes, i)) && Differ(old(Contents()), i, k - 1) && Differ(old(Contents()), i, k);
      }
    }

    method Remove(key: K)
      requires Valid()
      modifies Repr
      ensures Valid() && Repr == old(Repr)
      ensures Contents() == Drop(old(Contents()), key)
    {
      IndexedKeys(keys, KeysOf(nodes), nodes);
      if key !in keys {
        DropAbsent(Contents(), key);
        return;
      }
      ghost var k :| 0 <= k < |nodes| && KeysOf(nodes)[k] == key;
      assert IndexOk(keys, KeysOf(nodes), nodes, k);
      forall i | 0 <= i < k ensures Contents()[i] != key { assert Differ(Contents(), i, k); }
      DropAt(Contents(), k);
      Unlink(keys[key], k);
    }

    /** The pointer surgery that Remove and RemoveAll share. */
    method Unlink(node: Node<K>, ghost k: nat)
      requires Valid() && k < |nodes| && nodes[k] == node
      modifies Repr
      ensures Valid() && Repr == old(Repr)
      ensures nodes == Without(old(nodes), k) && node.next == old(node.next)
      ensures Contents() == Without(old(Contents()), k)
    {
      IndexedWithout(keys, Contents(), nodes, k);
      KeysOfWithout(nodes, k);
      assert Distinct(Contents());
      hide Indexed;
      keys := keys - {node.key};
      Splice(node, k);
      SkipIsWithout(nodes, k);
      nodes := Without(nodes, k);
    }

    method Splice(node: Node<K>, ghost k: nat)
      requires k < |nodes| && nodes[k] == node && Distinct(Contents())
      requires mru == At(nodes, 0) && lru == At(nodes, |nodes| - 1)
      requires forall i {:trigger LinkOk(nodes, i)} :: 0 <= i < |nodes| ==> LinkOk(nodes, i)
      modifies this`mru, this`lru, nodes
      ensures mru == At(nodes, if k == 0 then 1 else 0) &&
        lru == At(nodes, if k + 1 == |nodes| then k - 1 else |nodes| - 1)
      ensures node.next == old(node.next)
      ensures forall j {:trigger SkipOk(nodes, k, j)} :: 0 <= j < |nodes| && j != k ==> SkipOk(nodes, k, j)
    {
      ghost var c := Contents();
      assert LinkOk(nodes, k);
      if node.previous != null {
        node.previous.next := node.next;
      } else {
        mru := node.next;
      }
      if node.next != null {
        node.next.previous := node.previous;
      } else {
        lru := node.previous;
      }
      forall j | 0 <= j < |nodes| && j != k ensures SkipOk(nodes, k, j) {
        assert old(LinkOk(nodes, j));
        if k > 0 { assert Differ(c, j, k - 1); }
        if k + 1 < |c| { assert Differ(c, j, k + 1); }
      }
    }

    /** One iteration of RemoveAll: drop or pass the node under the cursor. */
    method Visit(dot: Node<K>, rf: K -> bool, ghost j: nat) returns (next: Node?<K>)
      requires Valid() && j < |nodes| && nodes[j] == dot
      modifies Repr
      ensures Valid() && Repr == old(Repr)
      ensures Contents() == if rf(dot.key) then Without(old(Contents()), j) else old(Contents())
      ensures next == At(nodes, if rf(dot.key) then j else j + 1)
    {
      assert LinkOk(nodes, j);
      if rf(dot.key) {
        Unlink(dot, j);
      }
      next := dot.next;
    }

    method RemoveAll(rf: K -> bool)
      requires Valid()
      modifies Repr
      ensures Valid() && Repr == old(Repr)
      ensures Contents() == Keep(old(Contents()), rf)
    {
      assert mru == At(nodes, 0);
      KeepNothing(rf);
      hide Valid, Keep, Without;
      var dot := mru;
      ghost var done, rest: seq<K> := [], Contents();
      while dot != null
        invariant Valid() && Repr == old(Repr)
        invariant Contents() == done + rest
        invariant done + Keep(rest, rf) == Keep(old(Contents()), rf)
        invariant dot == At(nodes, |done|)
        decreases |rest|
      {
        SweepStep(done, rest, rf);
        dot := Visit(dot, rf, |done|);
        done := if rf(rest[0]) then done else done + [rest[0]];
        rest := rest[1..];
      }
      assert rest == [];
    }
  }

  lemma {:induction false} KeepNothing<K>(rf: K -> bool)
    ensures Keep([], rf) == []
  {
  }
}
