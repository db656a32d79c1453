/** The doubly linked list of cache/fixed_size_stash.go: a FIFO whose entries can also be taken
    out of the middle by whoever holds their node. */
module StashList {
  import opened Basics
  import opened Sequences

  class Node<T> {
    const payload: T
    var deleted: bool
    var next: Node?<T>
    var prev: Node?<T>

    constructor (payload: T)
      ensures this.payload == payload && !deleted && next == null && prev == null
    {
      this.payload, deleted, next, prev := payload, false, null, null;
    }
  }

  ghost function At<T>(nodes: seq<Node<T>>, i: int): Node?<T> {
    if 0 <= i < |nodes| then nodes[i] else null
  }

  /** New nodes join at the head, so next leads to the older neighbour and prev to the younger one. */
  ghost predicate LinkOk<T>(nodes: seq<Node<T>>, i: nat)
    requires i < |nodes|
    reads nodes[i]
  {
    nodes[i].next == At(nodes, i - 1) && nodes[i].prev == At(nodes, i + 1) && !nodes[i].deleted
  }

  /** The links of place `j` once place `k` has been spliced out. */
  ghost predicate SkipOk<T>(nodes: seq<Node<T>>, k: nat, j: nat)
    requires k < |nodes| && j < |nodes|
    reads nodes[j]
  {
    && nodes[j].next == At(nodes, if j == k + 1 then k - 1 else j - 1)
    && nodes[j].prev == At(nodes, if j + 1 == k then k + 1 else j + 1)
    && !nodes[j].deleted
  }

  lemma {:induction false} SkipIsWithout<T>(nodes: seq<Node<T>>, k: nat)
    requires k < |nodes|
    requires forall j {:trigger SkipOk(nodes, k, j)} :: 0 <= j < |nodes| && j != k ==> SkipOk(nodes, k, j)
    ensures forall i {:trigger LinkOk(Without(nodes, k), i)} :: 0 <= i < |nodes| - 1 ==> LinkOk(Without(nodes, k), i)
  {
    forall i | 0 <= i < |nodes| - 1 ensures LinkOk(Without(nodes, k), i) {
      assert SkipOk(nodes, k, if i < k then i else i + 1);
    }
  }

  /** Moving place `k` of `s` behind `t` keeps everything distinct. */
  lemma {:induction false} MoveDistinct<T>(s: seq<T>, t: seq<T>, k: nat)
    requires k < |s| && Distinct(s + t)
    ensures Distinct(Without(s, k) + (t + [s[k]]))
  {
    var a, b := s + t, Without(s, k) + (t + [s[k]]);
    forall i, j | 0 <= i < |b| && 0 <= j < |b| ensures Differ(b, i, j) {
      var n := |b| - 1;
      assert Differ(a, if i == n then k else if i < k then i else i + 1,
                    if j == n then k else if j < k then j else j + 1);
    }
  }

  /** `node` has moved from its place among the nodes to the end of those that have left. */
  ghost predicate TakenOut<T>(nodes: seq<Node<T>>, gone: seq<Node<T>>, node: Node<T>,
                              nodes': seq<Node<T>>, gone': seq<Node<T>>) {
    && gone' == gone + [node]
    && exists k :: 0 <= k < |nodes| && nodes[k] == node && nodes' == Without(nodes, k)
  }

  class Dll<T> {
    var head: Node?<T>
    var tail: Node?<T>
    var size: nat
    /** The nodes in the list, oldest first, and those that have left it, in the order they left. */
    ghost var nodes: seq<Node<T>>
    ghost var gone: seq<Node<T>>
    ghost var Repr: set<object>

    /** The links and size describe one sequence; every node ever issued is in it or has left it, once. */
    ghost predicate Valid()
      reads this, Repr
    {
      && this in Repr
      && (forall i {:trigger nodes[i]} :: 0 <= i < |nodes| ==> nodes[i] in Repr)
      && (forall i {:trigger gone[i]} :: 0 <= i < |gone| ==> gone[i] in Repr && gone[i].deleted)
      && Distinct(nodes + gone)
      && head == At(nodes, |nodes| - 1) && tail == At(nodes, 0) && size == |nodes|
      && (forall i {:trigger LinkOk(nodes, i)} :: 0 <= i < |nodes| ==> LinkOk(nodes, i))
    }

    constructor ()
      ensures Valid() && fresh(Repr) && nodes == gone == []
    {
      head, tail, size, nodes, gone, Repr := null, null, 0, [], [], {this};
    }

    method Add(element: T) returns (node: Node<T>)
      requires Valid()
      modifies Repr
      ensures Valid() && fresh(Repr - old(Repr)) && fresh(node)
      ensures node.payload == element && nodes == old(nodes) + [node] && gone == old(gone)
    {
      node := new Node(element);
      size := size + 1;
      var currentHead := head;
      if currentHead == null {
        head, tail := node, node;
      } else {
        node.next := currentHead;
        currentHead.prev := node;
        head := node;
      }
      Joined(nodes, gone, node);
      nodes, Repr := nodes + [node], Repr + {node};
      forall i | 0 <= i < |nodes| ensures LinkOk(nodes, i) {
        if i < |old(nodes)| {
          assert old(LinkOk(nodes, i));
          assert Differ(old(nodes) + gone, i, |old(nodes)| - 1);
        }
      }
    }

    /** Remove hands out the oldest element. */
    method Remove() returns (r: Option<T>)
      requires Valid()
      modifies Repr
      ensures Valid() && Repr == old(Repr)
      ensures old(nodes) == [] ==> r == None && nodes == [] && gone == old(gone)
      ensures old(nodes) != [] ==>
        r == Some(old(nodes)[0].payload) && nodes == old(nodes)[1..] && gone == old(gone) + [old(nodes)[0]]
    {
      var currentTail := tail;
      if currentTail == null { return None; }
      MoveDistinct(nodes, gone, 0);
      size := size - 1;
      r := Some(currentTail.payload);
      DetachTail();
      hide Distinct;
      SkipIsWithout(nodes, 0);
      nodes, gone := Without(nodes, 0), gone + [currentTail];
    }

    /** The pointer surgery of Remove. */
    method DetachTail()
      requires nodes != [] && Distinct(nodes + gone)
      requires head == At(nodes, |nodes| - 1) && tail == At(nodes, 0)
      requires forall i {:trigger LinkOk(nodes, i)} :: 0 <= i < |nodes| ==> LinkOk(nodes, i)
      modifies this`head, this`tail, nodes`next, nodes`prev, tail`deleted
      ensures nodes[0].deleted
      ensures forall j {:trigger SkipOk(nodes, 0, j)} :: 0 < j < |nodes| ==> SkipOk(nodes, 0, j)
      ensures head == At(nodes, if |nodes| == 1 then -1 else |nodes| - 1) && tail == At(nodes, 1)
    {
      assert LinkOk(nodes, 0);
      var currentTail := tail;
      currentTail.deleted := true;
      var previousNode := currentTail.prev;
      currentTail.prev := null;
      if previousNode == null {
        head, tail := null, null;
      } else {
        tail := previousNode;
        previousNode.next := null;
      }
      forall j | 0 < j < |nodes| ensures SkipOk(nodes, 0, j) {
        assert old(LinkOk(nodes, j));
        assert Differ(nodes + gone, j, 0) && Differ(nodes + gone, j, 1);
      }
    }

    /** DestroyElement answers true exactly when the element was still present, and takes out that one. */
    method DestroyElement(node: Node<T>) returns (present: bool)
      requires Valid() && (node in nodes || node in gone)
      modifies Repr
      ensures Valid() && Repr == old(Repr)
      ensures present <==> node in old(nodes)
      ensures !present ==> nodes == old(nodes) && gone == old(gone)
      ensures present ==> TakenOut(old(nodes), old(gone), node, nodes, gone)
    {
      Places(node);
      if node.deleted { return false; }
      present := true;
      ghost var k :| 0 <= k < |nodes| && nodes[k] == node;
      Unlink(node, k);
    }

    lemma {:induction false} Places(node: Node<T>)
      requires Valid() && (node in nodes || node in gone)
      ensures node.deleted <==> node !in nodes
    {
      if node in nodes {
        var i :| 0 <= i < |nodes| && nodes[i] == node;
        assert LinkOk(nodes, i);
      }
    }

    method Unlink(node: Node<T>, ghost k: nat)
      requires Valid() && k < |nodes| && nodes[k] == node
      modifies Repr
      ensures Valid() && Repr == old(Repr)
      ensures nodes == Without(old(nodes), k) && gone == old(gone) + [node]
    {
      MoveDistinct(nodes, gone, k);
      size := size - 1;
      Splice(node, k);
      hide Distinct;
      SkipIsWithout(nodes, k);
      nodes, gone := Without(nodes, k), gone + [node];
    }

    /** The pointer surgery of internalDestroyElement. */
    method Splice(node: Node<T>, ghost k: nat)
      requires k < |nodes| && nodes[k] == node && Distinct(nodes + gone)
      requires head == At(nodes, |nodes| - 1) && tail == At(nodes, 0)
      requires forall i {:trigger LinkOk(nodes, i)} :: 0 <= i < |nodes| ==> LinkOk(nodes, i)
      modifies this`head, this`tail, nodes`next, nodes`prev, node`deleted
      ensures node.deleted
      ensures forall j {:trigger SkipOk(nodes, k, j)} :: 0 <= j < |nodes| && j != k ==> SkipOk(nodes, k, j)
      ensures head == At(nodes, if k + 1 == |nodes| then k - 1 else |nodes| - 1)
      ensures tail == At(nodes, if k == 0 then 1 else 0)
    {
      assert LinkOk(nodes, k);
      var previousNode, nextNode := node.prev, node.next;
      node.deleted, node.next, node.prev := true, null, null;
      if previousNode == null {
        head := nextNode;
      } else {
        previousNode.next := nextNode;
      }
      if nextNode == null {
        tail := previousNode;
      } else {
        nextNode.prev := previousNode;
      }
      ghost var all := nodes + gone;
      forall j | 0 <= j < |nodes| && j != k ensures SkipOk(nodes, k, j) {
        assert old(LinkOk(nodes, j)) && Differ(all, j, k);
        if k > 0 { assert Differ(all, j, k - 1); }
        if k + 1 < |nodes| { assert Differ(all, j, k + 1); }
      }
    }
  }

  lemma {:induction false} Joined<T>(nodes: seq<Node<T>>, gone: seq<Node<T>>, node: Node<T>)
    requires Distinct(nodes + gone) && node !in nodes && node !in gone
    ensures Distinct(nodes + [node] + gone)
  {
    var a, b, n := nodes + gone, nodes + [node] + gone, |nodes|;
    forall i, j | 0 <= i < |b| && 0 <= j < |b| ensures Differ(b, i, j) {
      if i != n && j != n { assert Differ(a, if i < n then i else i - 1, if j < n then j else j - 1); }
    }
  }
}
