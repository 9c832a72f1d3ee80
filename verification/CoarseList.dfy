/** The coarse-grained list: pointer loops over heap nodes under one mutex. Its calls run
    one at a time, so they are ordinary methods; they give the set its meaning. */
module CoarseList {
  import opened ListSpec

  class Node {
    const key: int
    var next: Node?

    constructor (key: int)
      ensures this.key == key && next == null
    {
      this.key := key;
      next := null;
    }
  }

  ghost predicate Sorted(nodes: seq<Node>) {
    forall i, j :: 0 <= i < j < |nodes| ==> nodes[i].key < nodes[j].key
  }

  /** The keys between the first and the last node. */
  function Inner(nodes: seq<Node>): set<int> {
    set i | 0 < i < |nodes| - 1 :: nodes[i].key
  }

  class List {
    var head: Node
    var tail: Node
    /** The chain from head to tail. */
    ghost var nodes: seq<Node>

    ghost predicate Valid()
      reads this, nodes
    {
      && 2 <= |nodes| && nodes[0] == head && nodes[|nodes| - 1] == tail
      && head.key == MIN_KEY && tail.key == MAX_KEY && tail.next == null
      && (forall i :: 0 <= i < |nodes| - 1 ==> nodes[i].next == nodes[i + 1])
      && Sorted(nodes)
    }

    ghost function Keys(): set<int>
      reads this
    {
      Inner(nodes)
    }

    constructor ()
      ensures Valid() && fresh(nodes) && Keys() == {}
    {
      var h := new Node(MIN_KEY);
      var t := new Node(MAX_KEY);
      h.next := t;
      head, tail := h, t;
      nodes := [h, t];
    }

    /** The walk shared by the three calls: stops at the first key that is not smaller. */
    method Locate(key: int) returns (prev: Node, curr: Node, ghost i: nat)
      requires Valid() && InnerKey(key)
      ensures 0 < i < |nodes| && prev == nodes[i - 1] && curr == nodes[i]
      ensures prev.key < key <= curr.key
      ensures key in Keys() <==> curr.key == key
    {
      assert nodes[0].next == nodes[1];
      prev := head;
      curr := head.next;
      i := 1;
      while curr.key < key
        invariant 0 < i < |nodes| && prev == nodes[i - 1] && curr == nodes[i] && prev.key < key
        decreases |nodes| - i
      {
        assert nodes[i].next == nodes[i + 1];
        prev := curr;
        curr := curr.next;
        i := i + 1;
      }
      if key in Keys() {
        var j :| 0 < j < |nodes| - 1 && nodes[j].key == key;
        assert j == i;
      }
    }

    /** Links a new node in front of nodes[i]. */
    method Splice(prev: Node, node: Node, curr: Node, ghost i: nat)
      requires Valid() && 0 < i < |nodes| && prev == nodes[i - 1] && curr == nodes[i] && node !in nodes
      requires prev.key < node.key < curr.key
      modifies this`nodes, prev, node
      ensures Valid() && nodes == Inserted(old(nodes), i, node)
      ensures Keys() == old(Keys()) + {node.key}
    {
      KeysInsert(nodes, i, node);
      InsertedAt(nodes, i, node);
      ghost var before := nodes;
      assert forall k :: 0 <= k < |nodes| && k != i - 1 ==> nodes[k] != prev;
      hide Sorted, Inner, Inserted;
      prev.next := node;
      node.next := curr;
      nodes := Inserted(before, i, node);
      assert forall k :: 0 <= k < |nodes| - 1 ==> nodes[k].next == nodes[k + 1];
    }

    method Add(key: int) returns (result: bool)
      requires Valid() && InnerKey(key)
      modifies this, nodes
      ensures Valid() && forall n :: n in nodes ==> n in old(nodes) || fresh(n)
      ensures result == Answer(ListSpec.Add, key, old(Keys()))
      ensures Keys() == Effect(ListSpec.Add, key, old(Keys()))
    {
      var node := new Node(key);
      var prev, curr, i := Locate(key);
      if curr.key == key {
        return false;
      }
      Splice(prev, node, curr, i);
      result := true;
    }

    method Remove(key: int) returns (result: bool)
      requires Valid() && InnerKey(key)
      modifies this, nodes
      ensures Valid() && forall n :: n in nodes ==> n in old(nodes)
      ensures result == Answer(ListSpec.Remove, key, old(Keys()))
      ensures Keys() == Effect(ListSpec.Remove, key, old(Keys()))
    {
      var prev, curr, i := Locate(key);
      if curr.key != key {
        return false;
      }
      prev.next := curr.next;
      KeysErase(nodes, i);
      nodes := Erased(nodes, i);
      result := true;
    }

    method Contains(key: int) returns (result: bool)
      requires Valid() && InnerKey(key)
      ensures result == Answer(ListSpec.Contains, key, Keys())
    {
      var prev, curr, i := Locate(key);
      result := curr.key == key;
    }
  }

  function Inserted(nodes: seq<Node>, i: nat, node: Node): seq<Node>
    requires i <= |nodes|
  {
    nodes[..i] + [node] + nodes[i..]
  }

  function Erased(nodes: seq<Node>, i: nat): seq<Node>
    requires i < |nodes|
  {
    nodes[..i] + nodes[i + 1..]
  }

  lemma InsertedAt(nodes: seq<Node>, i: nat, node: Node)
    requires i <= |nodes|
    ensures var after := Inserted(nodes, i, node);
            && |after| == |nodes| + 1 && after[i] == node
            && (forall k :: 0 <= k < i ==> after[k] == nodes[k])
            && (forall k :: i < k < |after| ==> after[k] == nodes[k - 1])
  {
  }

  lemma KeysInsert(nodes: seq<Node>, i: nat, node: Node)
    requires 0 < i < |nodes| && Sorted(nodes) && nodes[i - 1].key < node.key < nodes[i].key
    ensures Sorted(Inserted(nodes, i, node)) && Inner(Inserted(nodes, i, node)) == Inner(nodes) + {node.key}
  {
    var after := Inserted(nodes, i, node);
    assert forall k :: 0 <= k < |after| ==>
        after[k] == if k < i then nodes[k] else if k == i then node else nodes[k - 1];
    forall x | x in Inner(nodes) ensures x in Inner(after) {
      var k :| 0 < k < |nodes| - 1 && nodes[k].key == x;
      assert after[if k < i then k else k + 1] == nodes[k];
    }
    assert after[i] == node;
  }

  lemma KeysErase(nodes: seq<Node>, i: nat)
    requires 0 < i < |nodes| - 1 && Sorted(nodes)
    ensures Sorted(Erased(nodes, i)) && Inner(Erased(nodes, i)) == Inner(nodes) - {nodes[i].key}
  {
    var after := Erased(nodes, i);
    assert forall k :: 0 <= k < |after| ==> after[k] == if k < i then nodes[k] else nodes[k + 1];
    forall x | x in Inner(nodes) && x != nodes[i].key ensures x in Inner(after) {
      var k :| 0 < k < |nodes| - 1 && nodes[k].key == x;
      assert after[if k < i then k else k - 1] == nodes[k];
    }
    forall x | x in Inner(after) ensures x in Inner(nodes) && x != nodes[i].key {
      var k :| 0 < k < |after| - 1 && after[k].key == x;
      assert after[k] == nodes[if k < i then k else k + 1];
    }
  }
}
