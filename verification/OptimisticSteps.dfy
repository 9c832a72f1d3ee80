/** What the updates of the optimistic list do to the nodes, and what the other threads
    may rely on meanwhile. */
module OptimisticSteps {
  import opened Options
  import opened ListSpec
  import opened SortedChain
  import opened OptimisticList
  import opened OptimisticInv

  lemma AllocateKept(h: Heap, key: int, u: nat)
    requires NodesInv(h) && InnerKey(key)
    ensures NodesInv(Allocate(h, key, u)) && Keys(Allocate(h, key, u)) == Keys(h)
  {
    var h' := Allocate(h, key, u);
    assert Listed(h') == Listed(h);
    Frame(h.key, h.next, Listed(h), h'.key, h'.next);
    hide Chain, KeysOf;
    assert forall n :: Linked(h', n) <==> Linked(h, n);
  }

  lemma AllocateRely(h: Heap, key: int, u: nat, t: nat)
    requires Shape(h) && t != u
    ensures Rely(h, Allocate(h, key, u), t)
  {
  }

  lemma RelockKept(h: Heap, n: int, o: Option<nat>)
    requires NodesInv(h) && Valid(h, n)
    ensures NodesInv(SetOwner(h, n, o)) && Keys(SetOwner(h, n, o)) == Keys(h)
  {
    var h' := SetOwner(h, n, o);
    hide Chain, KeysOf;
    assert Listed(h') == Listed(h);
    assert forall m :: Linked(h', m) <==> Linked(h, m);
  }

  lemma RelockRely(h: Heap, n: int, o: Option<nat>, u: nat, t: nat)
    requires Shape(h) && Valid(h, n) && t != u && !h.status[n].Fresh?
    requires h.owner[n] == None || h.owner[n] == Some(u)
    requires o == None || o == Some(u)
    ensures Rely(h, SetOwner(h, n, o), t)
  {
  }

  lemma PrepareKept(h: Heap, n: int, next: int, u: nat)
    requires NodesInv(h) && 2 <= n && Valid(h, n) && h.status[n] == Fresh(u)
    ensures NodesInv(SetNext(h, n, next)) && Keys(SetNext(h, n, next)) == Keys(h)
  {
    var h' := SetNext(h, n, next);
    assert Listed(h') == Listed(h);
    Frame(h.key, h.next, Listed(h), h'.key, h'.next);
    hide Chain, KeysOf;
    assert forall m :: Linked(h', m) ==> Linked(h, m) && h'.next[m] == h.next[m];
  }

  lemma PrepareRely(h: Heap, n: int, next: int, u: nat, t: nat)
    requires Shape(h) && Valid(h, n) && h.status[n] == Fresh(u) && h.owner[n] == None && t != u
    ensures Rely(h, SetNext(h, n, next), t)
  {
  }

  /** z is prepared to be linked between p and its successor. */
  ghost predicate Prepared(h: Heap, p: int, z: int, u: nat) {
    && NodesInv(h) && In(h, p) && p != TAIL && Valid(h, z) && 2 <= z && h.status[z] == Fresh(u)
    && h.next[z] == h.next[p] && h.key[p] < h.key[z] && In(h, h.next[p]) && h.key[z] < h.key[h.next[p]]
  }

  function Linking(h: Heap, p: int, z: int): Heap
    requires Shape(h) && Valid(h, p) && Valid(h, z)
  {
    SetStatus(SetNext(h, p, z), z, InList)
  }

  lemma LinkKept(h: Heap, p: int, z: int, u: nat)
    requires Prepared(h, p, z, u)
    ensures NodesInv(Linking(h, p, z))
    ensures h.key[z] !in Keys(h) && Keys(Linking(h, p, z)) == Keys(h) + {h.key[z]}
  {
    var h' := Linking(h, p, z);
    Insert(h.key, h.next, Listed(h), p, z);
    hide Chain, KeysOf;
    assert h'.next == h.next[z := h.next[p]][p := z];
    assert Listed(h') == Listed(h) + {z};
    assert forall m :: Linked(h', m) <==> Linked(h, m) || m == z;
  }

  lemma LinkRely(h: Heap, p: int, z: int, u: nat, t: nat)
    requires Prepared(h, p, z, u) && h.owner[p] == Some(u) && h.owner[z] == None && t != u
    ensures Rely(h, Linking(h, p, z), t)
  {
  }

  function Unlinking(h: Heap, p: int, c: int): Heap
    requires Shape(h) && Valid(h, p) && Valid(h, c)
  {
    SetStatus(SetNext(h, p, h.next[c]), c, Removed)
  }

  lemma UnlinkKept(h: Heap, p: int, c: int)
    requires NodesInv(h) && Adjacent(h.key, h.next, Listed(h), p, c)
    ensures NodesInv(Unlinking(h, p, c))
    ensures h.key[c] in Keys(h) && Keys(Unlinking(h, p, c)) == Keys(h) - {h.key[c]}
  {
    var h' := Unlinking(h, p, c);
    Delete(h.key, h.next, Listed(h), p, c);
    assert c != TAIL && Linked(h, c) && Linked(h, p);
    hide Chain, KeysOf;
    assert Listed(h') == Listed(h) - {c};
    assert forall m :: Linked(h', m) <==> Linked(h, m);
  }

  lemma UnlinkRely(h: Heap, p: int, c: int, u: nat, t: nat)
    requires NodesInv(h) && Adjacent(h.key, h.next, Listed(h), p, c)
    requires h.owner[p] == Some(u) && h.owner[c] == Some(u) && t != u
    ensures Rely(h, Unlinking(h, p, c), t)
  {
  }
}
