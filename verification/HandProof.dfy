/** Each step of the hand-over-hand list keeps the invariant. */
module HandProof {
  import opened Options
  import opened ListSpec
  import opened SortedChain
  import opened HandList
  import opened HandInv

  /** The others are where they were and keep what they rely on. */
  ghost predicate Undisturbed(s: State, s': State, u: nat) {
    && u < |s.threads| == |s'.threads| && s.hist <= s'.hist && Shape(s.heap) && Shape(s'.heap)
    && (forall t :: 0 <= t < |s.threads| && t != u ==> s'.threads[t] == s.threads[t] && Rely(s.heap, s'.heap, t))
    && (forall n :: 0 <= n < |s'.heap.owner| && s'.heap.owner[n].Some? && s'.heap.owner[n] != Some(u) ==>
          n < |s.heap.owner| && s.heap.owner[n] == s'.heap.owner[n])
    && (forall n :: 0 <= n < |s'.heap.status| && s'.heap.status[n].Linking? && s'.heap.status[n] != Linking(u) ==>
          n < |s.heap.status| && s.heap.status[n] == s'.heap.status[n])
  }

  /** Locks and half-linked nodes of u are those its program counter says. */
  ghost predicate OwnRight(h: Heap, th: Thread, u: nat) {
    && (forall n :: 0 <= n < |h.owner| && h.owner[n] == Some(u) ==> Holding(th, n))
    && (forall n :: 0 <= n < |h.status| && h.status[n] == Linking(u) ==> th.pc == SetNode && th.node == n)
  }

  lemma Assemble(s: State, s': State, u: nat)
    requires Inv(s) && Undisturbed(s, s', u)
    requires HeapInv(s'.heap) && ThreadInv(s'.heap, s'.hist, s'.threads[u], u) && OwnRight(s'.heap, s'.threads[u], u)
    requires Legal(s'.hist) && After(s'.hist) == Keys(s'.heap)
    ensures Inv(s')
  {
    hide HeapInv, Legal, After, Keys, ThreadInv, Rely;
    forall t | 0 <= t < |s.threads| ensures ThreadInv(s'.heap, s'.hist, s'.threads[t], t) {
      if t != u { Stable(s.heap, s'.heap, s.hist, s'.hist, s.threads[t], t); }
    }
    assert OwnerInv(s');
    assert LinkInv(s');
  }

  lemma Facts(s: State, u: nat)
    requires Inv(s) && u < |s.threads|
    ensures HeapInv(s.heap) && ThreadInv(s.heap, s.hist, s.threads[u], u) && OwnRight(s.heap, s.threads[u], u)
    ensures Legal(s.hist) && After(s.hist) == Keys(s.heap) && Shape(s.heap)
  {
  }

  lemma RelyRefl(h: Heap, t: nat)
    requires Shape(h)
    ensures Rely(h, h, t)
  {
  }

  /** Steps that leave the nodes alone. */
  lemma Quiet(s: State, s': State, u: nat)
    requires Inv(s) && u < |s.threads| && s'.heap == s.heap && s'.hist == s.hist
    requires |s'.threads| == |s.threads| && s'.threads == s.threads[u := s'.threads[u]]
    requires ThreadInv(s.heap, s.hist, s'.threads[u], u) && OwnRight(s.heap, s'.threads[u], u)
    ensures Inv(s')
  {
  }

  lemma ReadFirstStep(s: State, s': State, u: nat, op: Op, key: int, a: int)
    requires Inv(s) && Step(s, s', u, op, key, a) && s.threads[u].pc == ReadFirst
    ensures Inv(s')
  {
    Facts(s, u);
    hide Inv, Legal, After, Keys;
    Quiet(s, s', u);
  }

  lemma AdvanceStep(s: State, s': State, u: nat, op: Op, key: int, a: int)
    requires Inv(s) && Step(s, s', u, op, key, a) && s.threads[u].pc == Advance
    ensures Inv(s')
  {
    Facts(s, u);
    hide Inv, Legal, After, Keys, Chain;
    Quiet(s, s', u);
  }

  // ---- allocation ----

  lemma AllocateKept(h: Heap, a: int, key: int, u: nat)
    requires HeapInv(h) && Available(h, a)
    ensures HeapInv(Allocate(h, a, key, u)) && Keys(Allocate(h, a, key, u)) == Keys(h)
  {
    var h' := Allocate(h, a, key, u);
    assert Listed(h') == Listed(h);
    Frame(h.key, h.succ, Listed(h), h'.key, h'.succ);
    hide Chain, KeysOf;
  }

  lemma AllocateRely(h: Heap, a: int, key: int, u: nat, t: nat)
    requires HeapInv(h) && Available(h, a) && t != u
    ensures Rely(h, Allocate(h, a, key, u), t)
  {
  }

  /** Allocation gives nobody a lock or a half-linked node. */
  lemma OthersLocks(h: Heap, h': Heap, u: nat, a: int, key: int)
    requires Shape(h) && Available(h, a) && h' == Allocate(h, a, key, u)
    ensures Shape(h')
    ensures forall n :: 0 <= n < |h'.owner| && h'.owner[n].Some? ==> n < |h.owner| && h.owner[n] == h'.owner[n]
    ensures forall n :: 0 <= n < |h'.status| && h'.status[n].Linking? ==> n < |h.status| && h.status[n] == h'.status[n]
  {
  }

  lemma InvokeAdd(s: State, u: nat, key: int, a: int)
    requires Inv(s) && u < |s.threads| && s.threads[u].pc == Idle && InnerKey(key) && Shape(s.heap)
    requires Available(s.heap, a)
    ensures Inv(Put(s.(heap := Allocate(s.heap, a, key, u)), u,
                    s.threads[u].(pc := LockHead, op := Add, key := key, node := a, began := |s.hist|, at := -1)))
  {
    Facts(s, u);
    var h' := Allocate(s.heap, a, key, u);
    var th' := s.threads[u].(pc := LockHead, op := Add, key := key, node := a, began := |s.hist|, at := -1);
    var s' := Put(s.(heap := h'), u, th');
    AllocateKept(s.heap, a, key, u);
    assert a != HEAD && a != TAIL && a >= 0;
    forall t | 0 <= t < |s.threads| && t != u ensures Rely(s.heap, h', t) { AllocateRely(s.heap, a, key, u, t); }
    hide Inv, HeapInv, Rely, After, Legal, Keys;
    OthersLocks(s.heap, h', u, a, key);
    assert ThreadInv(h', s.hist, th', u) && OwnRight(h', th', u);
    hide ThreadInv, OwnRight, Allocate;
    Assemble(s, s', u);
  }

  lemma InvokeStep(s: State, s': State, u: nat, op: Op, key: int, a: int)
    requires Inv(s) && Step(s, s', u, op, key, a) && s.threads[u].pc == Idle
    ensures Inv(s')
  {
    hide DoDecide, CompleteNode, FreeNode, Allocate;
    if op == Add {
      hide Inv;
      InvokeAdd(s, u, key, a);
    } else {
      Facts(s, u);
      hide Inv, HeapInv, After, Legal;
      Quiet(s, s', u);
    }
  }

  // ---- locks ----

  lemma RelockKept(h: Heap, n: int, o: Option<nat>)
    requires HeapInv(h) && Valid(h, n) && (h.status[n].InList? || h.status[n].Doomed?)
    ensures HeapInv(SetOwner(h, n, o)) && Keys(SetOwner(h, n, o)) == Keys(h)
  {
    hide Chain, KeysOf;
    assert Listed(SetOwner(h, n, o)) == Listed(h);
  }

  lemma RelockRely(h: Heap, n: int, o: Option<nat>, u: nat, t: nat)
    requires Shape(h) && Valid(h, n) && t != u && !Tagged(h.status[n], t)
    requires h.owner[n] == None || h.owner[n] == Some(u)
    requires o == None || o == Some(u)
    ensures Rely(h, SetOwner(h, n, o), t)
  {
  }

  lemma Relock(s: State, s': State, u: nat, n: int, o: Option<nat>)
    requires Inv(s) && u < |s.threads| && Shape(s.heap) && Valid(s.heap, n) && |s'.threads| == |s.threads|
    requires s.heap.status[n] == InList || s.heap.status[n] == Doomed(u)
    requires s.heap.owner[n] == None || s.heap.owner[n] == Some(u)
    requires o == None || o == Some(u)
    requires s'.heap == SetOwner(s.heap, n, o) && s'.hist == s.hist && s'.threads == s.threads[u := s'.threads[u]]
    requires ThreadInv(s'.heap, s'.hist, s'.threads[u], u) && OwnRight(s'.heap, s'.threads[u], u)
    ensures Inv(s')
  {
    Facts(s, u);
    RelockKept(s.heap, n, o);
    hide Inv, HeapInv, ThreadInv, After, Legal, Keys, OwnRight;
    forall t | 0 <= t < |s.threads| && t != u ensures Rely(s.heap, s'.heap, t) { RelockRely(s.heap, n, o, u, t); }
    hide Rely;
    Assemble(s, s', u);
  }

  lemma LockHeadStep(s: State, s': State, u: nat, op: Op, key: int, a: int)
    requires Inv(s) && Step(s, s', u, op, key, a) && s.threads[u].pc == LockHead
    ensures Inv(s')
  {
    Facts(s, u);
    hide Inv, After, Legal, Keys, Chain;
    Relock(s, s', u, HEAD, Some(u));
  }

  /** The successor of a node locked by u is completely linked: a half-linked node hides
      behind a predecessor that its inserter has locked. */
  lemma SuccessorComplete(s: State, u: nat)
    requires Inv(s) && u < |s.threads| && s.threads[u].pc == LockCurr
    ensures var c := s.threads[u].curr; Valid(s.heap, c) && s.heap.status[c] == InList && s.threads[u].prev != c
  {
    Facts(s, u);
    var th := s.threads[u];
    var h := s.heap;
    assert th.prev in Listed(h);
    assert th.curr in Listed(h) && h.key[th.prev] < h.key[th.curr];
    hide Chain;
    if h.status[th.curr].Linking? {
      var v := h.status[th.curr].tid;
      assert v < |s.threads| && s.threads[v].pc == SetNode && s.threads[v].node == th.curr by { assert LinkInv(s); }
      Facts(s, v);
      assert s.threads[v].prev in Listed(h);
      OnePredecessor(h.key, h.succ, Listed(h), th.prev, s.threads[v].prev);
      assert false;
    }
  }

  lemma LockCurrStep(s: State, s': State, u: nat, op: Op, key: int, a: int)
    requires Inv(s) && Step(s, s', u, op, key, a) && s.threads[u].pc == LockCurr
    ensures Inv(s')
  {
    Facts(s, u);
    SuccessorComplete(s, u);
    hide Inv, After, Legal, Keys, HeapInv;
    Relock(s, s', u, s.threads[u].curr, Some(u));
  }

  lemma WalkStep(s: State, s': State, u: nat, op: Op, key: int, a: int)
    requires Inv(s) && Step(s, s', u, op, key, a) && s.threads[u].pc == Walk
    ensures Inv(s')
  {
    Facts(s, u);
    var th := s.threads[u];
    assert th.prev in Touches(th) && th.curr in Touches(th);
    assert th.curr == TAIL ==> s.heap.key[th.curr] == MAX_KEY;
    hide Inv, After, Legal, Keys, HeapInv;
    if s.heap.key[th.curr] < th.key {
      assert s' == Put(s.(heap := SetOwner(s.heap, th.prev, None)), u, th.(pc := Advance));
      WalkFits(s.heap, s.hist, th, u);
      hide Do, Safe, Enabled, ThreadInv, OwnRight;
      Relock(s, s', u, th.prev, None);
    } else {
      assert s' == Put(s, u, th.(pc := Decide));
      hide Do, Safe, Enabled;
      Quiet(s, s', u);
    }
  }

  lemma WalkFits(h: Heap, hist: seq<Call>, th: Thread, u: nat)
    requires ThreadInv(h, hist, th, u) && OwnRight(h, th, u) && th.pc == Walk && Shape(h)
    requires Valid(h, th.prev) && Valid(h, th.curr) && th.curr != TAIL && h.key[th.curr] < th.key
    ensures h.owner[th.prev] == Some(u) && h.status[th.prev] == InList
    ensures var th', h' := th.(pc := Advance), SetOwner(h, th.prev, None);
            ThreadInv(h', hist, th', u) && OwnRight(h', th', u)
  {
  }

  lemma UnlockPrevFits(h: Heap, hist: seq<Call>, th: Thread, u: nat)
    requires ThreadInv(h, hist, th, u) && OwnRight(h, th, u) && th.pc == UnlockPrev && Shape(h)
    ensures Valid(h, th.prev) && h.owner[th.prev] == Some(u) && h.status[th.prev] == InList
    ensures var th', h' := th.(pc := UnlockCurr), SetOwner(h, th.prev, None);
            ThreadInv(h', hist, th', u) && OwnRight(h', th', u)
  {
  }

  lemma UnlockCurrFits(h: Heap, hist: seq<Call>, th: Thread, u: nat)
    requires ThreadInv(h, hist, th, u) && OwnRight(h, th, u) && th.pc == UnlockCurr && Shape(h)
    ensures Valid(h, th.curr) && h.owner[th.curr] == Some(u)
    ensures h.status[th.curr] == InList || h.status[th.curr] == Doomed(u)
    ensures var pc := if th.op == Remove && th.result then Dispose else Idle;
            var th', h' := th.(pc := pc), SetOwner(h, th.curr, None);
            ThreadInv(h', hist, th', u) && OwnRight(h', th', u)
  {
  }

  lemma UnlockKept(s: State, u: nat, n: int, pc: Pc)
    requires Inv(s) && u < |s.threads| && Shape(s.heap) && Valid(s.heap, n)
    requires var th := s.threads[u];
             if th.pc == UnlockPrev then n == th.prev && pc == UnlockCurr
             else th.pc == UnlockCurr && n == th.curr && pc == if th.op == Remove && th.result then Dispose else Idle
    ensures Inv(Put(s.(heap := SetOwner(s.heap, n, None)), u, s.threads[u].(pc := pc)))
  {
    Facts(s, u);
    if s.threads[u].pc == UnlockPrev {
      UnlockPrevFits(s.heap, s.hist, s.threads[u], u);
    } else {
      UnlockCurrFits(s.heap, s.hist, s.threads[u], u);
    }
    hide Inv, After, Legal, Keys, HeapInv, ThreadInv, OwnRight;
    Relock(s, Put(s.(heap := SetOwner(s.heap, n, None)), u, s.threads[u].(pc := pc)), u, n, None);
  }

  lemma UnlockStep(s: State, s': State, u: nat, op: Op, key: int, a: int)
    requires Inv(s) && Step(s, s', u, op, key, a) && (s.threads[u].pc == UnlockPrev || s.threads[u].pc == UnlockCurr)
    ensures Inv(s')
  {
    hide Inv, DoDecide, Allocate, CompleteNode, FreeNode, Available;
    var th := s.threads[u];
    if th.pc == UnlockPrev {
      assert th.prev in Touches(th);
      UnlockKept(s, u, th.prev, UnlockCurr);
    } else {
      assert th.curr in Touches(th);
      UnlockKept(s, u, th.curr, if th.op == Remove && th.result then Dispose else Idle);
    }
  }

  // ---- effects ----

  lemma SettleFits(h: Heap, hist: seq<Call>, th: Thread, u: nat, result: bool)
    requires ThreadInv(h, hist, th, u) && OwnRight(h, th, u) && th.pc == Decide && (th.op == Remove ==> !result)
    ensures var th' := th.(pc := UnlockPrev, result := result, at := |hist|);
            ThreadInv(h, hist + [Call(u, th.op, th.key, result)], th', u) && OwnRight(h, th', u)
  {
  }

  lemma SettleQuietly(s: State, s': State, u: nat, result: bool)
    requires Inv(s) && u < |s.threads| && s.threads[u].pc == Decide && s' == Settle(s, u, s.heap, result, UnlockPrev)
    requires s.threads[u].op == Remove ==> !result
    requires result == Answer(s.threads[u].op, s.threads[u].key, Keys(s.heap))
    requires Effect(s.threads[u].op, s.threads[u].key, Keys(s.heap)) == Keys(s.heap)
    ensures Inv(s')
  {
    Facts(s, u);
    var th := s.threads[u];
    LegalExtend(s.hist, Call(u, th.op, th.key, result));
    hide Inv, HeapInv, After, Legal, Keys, Effect, Answer;
    SettleFits(s.heap, s.hist, th, u, result);
    hide ThreadInv, OwnRight;
    forall t | 0 <= t < |s.threads| ensures Rely(s.heap, s'.heap, t) { RelyRefl(s.heap, t); }
    hide Rely;
    Assemble(s, s', u);
  }

  lemma DecideQuiet(s: State, s': State, u: nat, op: Op, key: int, a: int)
    requires Inv(s) && Step(s, s', u, op, key, a) && s.threads[u].pc == Decide
    requires var th := s.threads[u];
             Valid(s.heap, th.curr) && (th.op == Contains || (th.op == Add) == (s.heap.key[th.curr] == th.key))
    ensures Inv(s')
  {
    Facts(s, u);
    var th := s.threads[u];
    assert th.prev in Listed(s.heap) && th.curr in Listed(s.heap);
    Found(s.heap.key, s.heap.succ, Listed(s.heap), th.prev, th.key);
    hide Inv, HeapInv, After, Legal, Keys;
    SettleQuietly(s, s', u, s.heap.key[th.curr] == th.key && th.op == Contains);
  }

  lemma LinkKept(h: Heap, p: int, z: int, u: nat)
    requires HeapInv(h) && Fits(h.key, h.succ, Listed(h), p, z) && h.status[p] == InList
    requires h.status[z] == Fresh(u) && h.owner[z] == None
    ensures var h' := LinkNode(h, p, z, h.succ[p], u);
            HeapInv(h') && h.key[z] !in Keys(h) && Keys(h') == Keys(h) + {h.key[z]}
  {
    var h' := LinkNode(h, p, z, h.succ[p], u);
    Insert(h.key, h.succ, Listed(h), p, z);
    hide Chain, KeysOf;
    assert Listed(h') == Listed(h) + {z};
  }

  lemma LinkRely(h: Heap, p: int, z: int, c: int, u: nat, t: nat)
    requires Shape(h) && Valid(h, p) && Valid(h, z) && t != u
    requires h.owner[p] == Some(u) && h.status[p] == InList && h.status[z] == Fresh(u) && h.owner[z] == None
    ensures Rely(h, LinkNode(h, p, z, c, u), t)
  {
  }

  /** Where an insertion is decided, the new node fits between the two locked ones. */
  lemma DecideFits(s: State, u: nat)
    requires Inv(s) && u < |s.threads| && s.threads[u].pc == Decide && s.threads[u].op == Add
    requires Valid(s.heap, s.threads[u].curr) && s.heap.key[s.threads[u].curr] != s.threads[u].key
    ensures var h, th := s.heap, s.threads[u];
            && Shape(h) && Fits(h.key, h.succ, Listed(h), th.prev, th.node) && h.status[th.prev] == InList
            && h.status[th.node] == Fresh(u) && h.owner[th.node] == None && h.owner[th.prev] == Some(u)
            && h.succ[th.prev] == th.curr
  {
  }

  lemma DecideLink(s: State, s': State, u: nat, op: Op, key: int, a: int)
    requires Inv(s) && Step(s, s', u, op, key, a) && s.threads[u].pc == Decide
    requires var th := s.threads[u]; Valid(s.heap, th.curr) && th.op == Add && s.heap.key[th.curr] != th.key
    ensures Inv(s')
  {
    hide HeapInv, Inv, After, Legal, Keys, Rely, Fits;
    Facts(s, u);
    DecideFits(s, u);
    var th := s.threads[u];
    assert s' == Settle(s, u, LinkNode(s.heap, th.prev, th.node, th.curr, u), true, SetNode);
    LinkKept(s.heap, th.prev, th.node, u);
    LegalExtend(s.hist, Call(u, th.op, th.key, true));
    forall t | 0 <= t < |s.threads| && t != u ensures Rely(s.heap, s'.heap, t) {
      LinkRely(s.heap, th.prev, th.node, th.curr, u, t);
    }
    assert ThreadInv(s'.heap, s'.hist, s'.threads[u], u);
    Assemble(s, s', u);
  }

  lemma CompleteKept(h: Heap, z: int, u: nat)
    requires HeapInv(h) && 2 <= z && Valid(h, z) && h.status[z] == Linking(u)
    ensures var h' := CompleteNode(h, z, h.succ[z]); HeapInv(h') && Keys(h') == Keys(h)
  {
    var h' := CompleteNode(h, z, h.succ[z]);
    hide Chain, KeysOf;
    assert Listed(h') == Listed(h);
  }

  lemma CompleteRely(h: Heap, z: int, c: int, u: nat, t: nat)
    requires Shape(h) && Valid(h, z) && t != u && h.status[z] == Linking(u) && h.owner[z] == None
    ensures Rely(h, CompleteNode(h, z, c), t)
  {
  }

  lemma SetNodeFits(s: State, u: nat)
    requires HeapInv(s.heap) && u < |s.threads| && s.threads[u].pc == SetNode
    requires ThreadInv(s.heap, s.hist, s.threads[u], u) && OwnRight(s.heap, s.threads[u], u)
    ensures var th := s.threads[u];
            && 2 <= th.node < |s.heap.key| && s.heap.owner[th.node] == None && s.heap.status[th.node] == Linking(u)
            && var th', h' := th.(pc := UnlockPrev), CompleteNode(s.heap, th.node, th.curr);
            && ThreadInv(h', s.hist, th', u) && OwnRight(h', th', u)
            && (forall n :: 0 <= n < |h'.status| && h'.status[n].Linking? && h'.status[n] != Linking(u) ==>
                  h'.status[n] == s.heap.status[n])
  {
    hide Chain;
  }

  lemma SetNodeStep(s: State, s': State, u: nat, op: Op, key: int, a: int)
    requires Inv(s) && Step(s, s', u, op, key, a) && s.threads[u].pc == SetNode
    ensures Inv(s')
  {
    Facts(s, u);
    var th := s.threads[u];
    SetNodeFits(s, u);
    CompleteKept(s.heap, th.node, u);
    forall t | 0 <= t < |s.threads| && t != u ensures Rely(s.heap, s'.heap, t) {
      CompleteRely(s.heap, th.node, th.curr, u, t);
    }
    hide Inv, HeapInv, After, Legal, Keys, Rely, DoDecide, Allocate, FreeNode, ThreadInv, OwnRight;
    Assemble(s, s', u);
  }

  lemma UnlinkKept(h: Heap, p: int, c: int, u: nat)
    requires HeapInv(h) && Adjacent(h.key, h.succ, Listed(h), p, c) && h.status[p] == InList && h.status[c] == InList
    ensures var h' := UnlinkNode(h, p, c, u);
            HeapInv(h') && h.key[c] in Keys(h) && Keys(h') == Keys(h) - {h.key[c]}
  {
    var h' := UnlinkNode(h, p, c, u);
    Delete(h.key, h.succ, Listed(h), p, c);
    assert c != TAIL && c != HEAD;
    hide Chain, KeysOf;
    assert Listed(h') == Listed(h) - {c};
  }

  lemma UnlinkRely(h: Heap, p: int, c: int, u: nat, t: nat)
    requires Shape(h) && Valid(h, p) && Valid(h, c) && t != u && h.status[p] == InList && h.status[c] == InList
    requires h.owner[p] == Some(u) && h.owner[c] == Some(u)
    ensures Rely(h, UnlinkNode(h, p, c, u), t)
  {
  }

  lemma DecideAdjacent(s: State, u: nat)
    requires Inv(s) && u < |s.threads| && s.threads[u].pc == Decide
    requires Valid(s.heap, s.threads[u].curr) && s.heap.key[s.threads[u].curr] == s.threads[u].key
    ensures var h, th := s.heap, s.threads[u]; Adjacent(h.key, h.succ, Listed(h), th.prev, th.curr)
  {
  }

  lemma DecideRemove(s: State, s': State, u: nat, op: Op, key: int, a: int)
    requires Inv(s) && Step(s, s', u, op, key, a) && s.threads[u].pc == Decide
    requires var th := s.threads[u]; Valid(s.heap, th.curr) && th.op == Remove && s.heap.key[th.curr] == th.key
    ensures Inv(s')
  {
    hide HeapInv, Inv, After, Legal, Keys, Rely, Adjacent;
    Facts(s, u);
    DecideAdjacent(s, u);
    var th := s.threads[u];
    assert s' == Settle(s, u, UnlinkNode(s.heap, th.prev, th.curr, u), true, UnlockPrev);
    UnlinkKept(s.heap, th.prev, th.curr, u);
    LegalExtend(s.hist, Call(u, th.op, th.key, true));
    forall t | 0 <= t < |s.threads| && t != u ensures Rely(s.heap, s'.heap, t) {
      UnlinkRely(s.heap, th.prev, th.curr, u, t);
    }
    assert 2 <= th.curr by { DecideAdjacent(s, u); }
    assert ThreadInv(s'.heap, s'.hist, s'.threads[u], u);
    Assemble(s, s', u);
  }

  lemma FreeKept(h: Heap, c: int, u: nat)
    requires HeapInv(h) && 2 <= c && Valid(h, c) && h.status[c] == Doomed(u) && h.owner[c] == None
    ensures HeapInv(FreeNode(h, c)) && Keys(FreeNode(h, c)) == Keys(h)
  {
    hide Chain, KeysOf;
    assert Listed(FreeNode(h, c)) == Listed(h);
  }

  lemma FreeRely(h: Heap, c: int, u: nat, t: nat)
    requires Shape(h) && Valid(h, c) && t != u && h.status[c] == Doomed(u) && h.owner[c] == None
    ensures Rely(h, FreeNode(h, c), t)
  {
  }

  lemma DisposeFits(s: State, u: nat)
    requires u < |s.threads| && s.threads[u].pc == Dispose && Shape(s.heap)
    requires ThreadInv(s.heap, s.hist, s.threads[u], u) && OwnRight(s.heap, s.threads[u], u)
    ensures var th := s.threads[u];
            && 2 <= th.curr < |s.heap.key| && s.heap.status[th.curr] == Doomed(u) && s.heap.owner[th.curr] == None
            && var th', h' := th.(pc := Idle), FreeNode(s.heap, th.curr);
            && Shape(h') && h'.owner == s.heap.owner && ThreadInv(h', s.hist, th', u) && OwnRight(h', th', u)
            && (forall n :: 0 <= n < |h'.status| && h'.status[n].Linking? ==> h'.status[n] == s.heap.status[n])
  {
  }

  lemma DisposeKept(s: State, u: nat)
    requires Inv(s) && u < |s.threads| && s.threads[u].pc == Dispose && Shape(s.heap)
    requires Valid(s.heap, s.threads[u].curr)
    ensures Inv(Put(s.(heap := FreeNode(s.heap, s.threads[u].curr)), u, s.threads[u].(pc := Idle)))
  {
    Facts(s, u);
    hide Inv, HeapInv, After, Legal, Keys, ThreadInv, OwnRight;
    var th := s.threads[u];
    var s' := Put(s.(heap := FreeNode(s.heap, th.curr)), u, th.(pc := Idle));
    DisposeFits(s, u);
    FreeKept(s.heap, th.curr, u);
    forall t | 0 <= t < |s.threads| && t != u ensures Rely(s.heap, s'.heap, t) { FreeRely(s.heap, th.curr, u, t); }
    hide Rely, FreeNode;
    Assemble(s, s', u);
  }

  lemma DisposeStep(s: State, s': State, u: nat, op: Op, key: int, a: int)
    requires Inv(s) && Step(s, s', u, op, key, a) && s.threads[u].pc == Dispose
    ensures Inv(s')
  {
    hide Inv, DoDecide, Allocate, CompleteNode, FreeNode, Available;
    assert s.threads[u].curr in Touches(s.threads[u]);
    DisposeKept(s, u);
  }

  lemma DecideStep(s: State, s': State, u: nat, op: Op, key: int, a: int)
    requires Inv(s) && Step(s, s', u, op, key, a) && s.threads[u].pc == Decide
    ensures Inv(s')
  {
    var th := s.threads[u];
    assert th.curr in Touches(th);
    hide Inv, DoDecide;
    if th.op == Contains || (th.op == Add) == (s.heap.key[th.curr] == th.key) {
      DecideQuiet(s, s', u, op, key, a);
    } else if th.op == Add {
      DecideLink(s, s', u, op, key, a);
    } else {
      DecideRemove(s, s', u, op, key, a);
    }
  }

  lemma InvStep(s: State, s': State, u: nat, op: Op, key: int, a: int)
    requires Inv(s) && Step(s, s', u, op, key, a)
    ensures Inv(s')
  {
    hide Inv, Do, Enabled, Safe;
    match s.threads[u].pc
    case Idle => InvokeStep(s, s', u, op, key, a);
    case LockHead => LockHeadStep(s, s', u, op, key, a);
    case ReadFirst => ReadFirstStep(s, s', u, op, key, a);
    case LockCurr => LockCurrStep(s, s', u, op, key, a);
    case Walk => WalkStep(s, s', u, op, key, a);
    case Advance => AdvanceStep(s, s', u, op, key, a);
    case Decide => DecideStep(s, s', u, op, key, a);
    case SetNode => SetNodeStep(s, s', u, op, key, a);
    case Dispose => DisposeStep(s, s', u, op, key, a);
    case _ => UnlockStep(s, s', u, op, key, a);
  }

  lemma InvInit(s: State)
    requires Initial(s)
    ensures Inv(s)
  {
  }

  lemma {:induction false} RunInv(run: seq<State>, n: nat)
    requires IsRun(run) && n < |run|
    ensures Inv(run[n])
  {
    if n == 0 {
      InvInit(run[0]);
    } else {
      RunInv(run, n - 1);
      assert Next(run[n - 1], run[n - 1 + 1]);
      var t: nat, op: Op, key: int, a: int :| Step(run[n - 1], run[n], t, op, key, a);
      InvStep(run[n - 1], run[n], t, op, key, a);
    }
  }
}
