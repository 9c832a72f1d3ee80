/** Where the memory of the hand-over-hand list goes: an unlinked node is freed by the call that
    unlinked it, and the only nodes lost are those of additions that found their key. */
module HandMemory {
  import opened Options
  import opened ListSpec
  import opened SortedChain
  import opened HandList
  import opened HandInv
  import opened HandProof
  import opened HandTheorems

  function Count<T>(s: seq<T>, p: T -> bool): nat {
    if |s| == 0 then 0 else Count(s[..|s| - 1], p) + if p(s[|s| - 1]) then 1 else 0
  }

  lemma CountAppend<T>(s: seq<T>, p: T -> bool, x: T)
    ensures Count(s + [x], p) == Count(s, p) + if p(x) then 1 else 0
  {
    assert (s + [x])[..|s|] == s;
  }

  lemma {:induction false} CountUpdate<T>(s: seq<T>, p: T -> bool, n: nat, x: T)
    requires n < |s|
    ensures Count(s[n := x], p) + (if p(s[n]) then 1 else 0) == Count(s, p) + if p(x) then 1 else 0
    decreases |s|
  {
    var m := |s| - 1;
    if n == m {
      assert s[n := x][..m] == s[..m];
    } else {
      assert s[n := x][..m] == s[..m][n := x];
      CountUpdate(s[..m], p, n, x);
    }
  }

  lemma {:induction false} CountNone<T>(s: seq<T>, p: T -> bool)
    requires forall n :: 0 <= n < |s| ==> !p(s[n])
    ensures Count(s, p) == 0
    decreases |s|
  {
    if |s| > 0 {
      CountNone(s[..|s| - 1], p);
    }
  }

  /** Allocated and not linked. */
  predicate IsFresh(st: Status) { st.Fresh? }

  /** An addition that has not taken effect. */
  predicate IsAdding(th: Thread) { th.pc != Idle && th.op == Add && !Settled(th.pc) }

  /** An addition that found its key. */
  predicate IsRefused(c: Call) { c.op == Add && !c.result }

  /** The removal that unlinked node n and is about to free it. */
  predicate Frees(th: Thread, n: int) {
    (th.pc == UnlockPrev || th.pc == UnlockCurr || th.pc == Dispose) && th.op == Remove && th.result && th.curr == n
  }

  /** An unlinked node belongs to the removal that unlinked it. */
  ghost predicate DoomInv(s: State) {
    forall n :: 0 <= n < |s.heap.status| && s.heap.status[n].Doomed? ==>
      s.heap.status[n].tid < |s.threads| && Frees(s.threads[s.heap.status[n].tid], n)
  }

  /** Every node that is allocated and not linked belongs to an addition that has not taken
      effect or to one that found its key. */
  ghost predicate Accounted(s: State) {
    Count(s.heap.status, IsFresh) == Count(s.threads, IsAdding) + Count(s.hist, IsRefused)
  }

  lemma InvokeShape(s: State, s': State, t: nat, op: Op, key: int, a: int)
    requires Step(s, s', t, op, key, a) && s.threads[t].pc == Idle
    ensures |s'.threads| == |s.threads| && s'.threads == s.threads[t := s'.threads[t]] && s'.hist == s.hist
    ensures IsAdding(s'.threads[t]) <==> op == Add
    ensures if op != Add then s'.heap.status == s.heap.status
            else if a == |s.heap.status| then s'.heap.status == s.heap.status + [Fresh(t)]
            else 0 <= a < |s.heap.status| && s.heap.status[a] == Free && s'.heap.status == s.heap.status[a := Fresh(t)]
  {
    hide DoDecide;
  }

  /** What a decision does to the nodes: nothing, or an added node is linked, or a removed one
      is unlinked. */
  lemma DecideShape(s: State, t: nat)
    requires t < |s.threads| && s.threads[t].pc == Decide && Safe(s, t)
    ensures var th, s' := s.threads[t], DoDecide(s, t);
            && |s'.threads| == |s.threads| && Settled(s'.threads[t].pc)
            && s'.threads == s.threads[t := s'.threads[t]]
            && s'.hist == s.hist + [Call(t, th.op, th.key, s'.threads[t].result)]
            && if !s'.threads[t].result || th.op == Contains then s'.heap.status == s.heap.status
               else if th.op == Add
               then Valid(s.heap, th.node) && s'.heap.status == s.heap.status[th.node := Linking(t)]
               else Valid(s.heap, th.curr) && s'.heap.status == s.heap.status[th.curr := Doomed(t)]
  {
    var th := s.threads[t];
    assert th.prev in Touches(th) && th.curr in Touches(th) && (th.op == Add ==> th.node in Touches(th));
  }

  /** A step unlinks no node for somebody else. */
  lemma OthersDoomed(s: State, s': State, t: nat, op: Op, key: int, a: int, n: int)
    requires Step(s, s', t, op, key, a) && 0 <= n < |s'.heap.status| && s'.heap.status[n].Doomed?
    requires s'.heap.status[n] != Doomed(t)
    ensures n < |s.heap.status| && s.heap.status[n] == s'.heap.status[n]
  {
    var th := s.threads[t];
    if th.pc == Idle {
      InvokeShape(s, s', t, op, key, a);
    } else if th.pc == Decide {
      DecideShape(s, t);
    } else {
      assert th.pc == SetNode ==> th.node in Touches(th);
      assert th.pc == Dispose ==> th.curr in Touches(th);
    }
    hide DoDecide, Allocate;
  }

  lemma OwnDoomed(s: State, s': State, t: nat, op: Op, key: int, a: int, n: int)
    requires Step(s, s', t, op, key, a) && 0 <= n < |s'.heap.status| && s'.heap.status[n] == Doomed(t)
    requires n < |s.heap.status| && s.heap.status[n] == Doomed(t) ==> Frees(s.threads[t], n)
    ensures t < |s'.threads| && Frees(s'.threads[t], n)
  {
    var th := s.threads[t];
    assert th.pc == Decide ==> th.prev in Touches(th) && th.curr in Touches(th);
    assert th.pc == SetNode ==> th.node in Touches(th);
    assert th.pc == Dispose ==> th.curr in Touches(th);
  }

  lemma DoomStep(s: State, s': State, t: nat, op: Op, key: int, a: int)
    requires DoomInv(s) && Step(s, s', t, op, key, a)
    ensures DoomInv(s')
  {
    RecordedOnce(s, s', t, op, key, a);
    hide Step, Frees;
    forall n | 0 <= n < |s'.heap.status| && s'.heap.status[n].Doomed?
      ensures s'.heap.status[n].tid < |s'.threads| && Frees(s'.threads[s'.heap.status[n].tid], n)
    {
      if s'.heap.status[n] == Doomed(t) {
        OwnDoomed(s, s', t, op, key, a, n);
      } else {
        OthersDoomed(s, s', t, op, key, a, n);
      }
    }
  }

  /** One thread moves on, the nodes and the recorded calls stay. */
  lemma SameAccounts(s: State, s': State, t: nat)
    requires Accounted(s) && t < |s.threads| == |s'.threads| && s'.threads == s.threads[t := s'.threads[t]]
    requires s'.heap.status == s.heap.status && s'.hist == s.hist && IsAdding(s'.threads[t]) == IsAdding(s.threads[t])
    ensures Accounted(s')
  {
    CountUpdate(s.threads, IsAdding, t, s'.threads[t]);
  }

  /** An addition allocates one node. */
  lemma AllocateBalance(s: State, s': State, t: nat, a: int)
    requires Accounted(s) && t < |s.threads| == |s'.threads| && s'.threads == s.threads[t := s'.threads[t]]
    requires s'.hist == s.hist && s.threads[t].pc == Idle && IsAdding(s'.threads[t])
    requires if a == |s.heap.status| then s'.heap.status == s.heap.status + [Fresh(t)]
             else 0 <= a < |s.heap.status| && s.heap.status[a] == Free && s'.heap.status == s.heap.status[a := Fresh(t)]
    ensures Accounted(s')
  {
    hide Count;
    CountUpdate(s.threads, IsAdding, t, s'.threads[t]);
    if a == |s.heap.status| {
      CountAppend(s.heap.status, IsFresh, Fresh(t));
    } else {
      CountUpdate(s.heap.status, IsFresh, a, Fresh(t));
    }
  }

  lemma InvokeAccounts(s: State, s': State, t: nat, op: Op, key: int, a: int)
    requires Accounted(s) && Step(s, s', t, op, key, a) && s.threads[t].pc == Idle
    ensures Accounted(s')
  {
    InvokeShape(s, s', t, op, key, a);
    hide Step, Accounted;
    if op == Add {
      AllocateBalance(s, s', t, a);
    } else {
      SameAccounts(s, s', t);
    }
  }

  lemma Balance(s: State, s': State, t: nat, n: int, st: Status)
    requires Accounted(s) && t < |s.threads| == |s'.threads| && s'.threads == s.threads[t := s'.threads[t]]
    requires s.threads[t].pc == Decide && Settled(s'.threads[t].pc)
    requires s'.hist == s.hist + [Call(t, s.threads[t].op, s.threads[t].key, s'.threads[t].result)]
    requires if !s'.threads[t].result || s.threads[t].op == Contains then s'.heap.status == s.heap.status else
             && 0 <= n < |s.heap.status| && s'.heap.status == s.heap.status[n := st] && !st.Fresh?
             && (s.heap.status[n].Fresh? <==> s.threads[t].op == Add)
    ensures Accounted(s')
  {
    hide Count;
    var th, r := s.threads[t], s'.threads[t].result;
    CountUpdate(s.threads, IsAdding, t, s'.threads[t]);
    CountAppend(s.hist, IsRefused, Call(t, th.op, th.key, r));
    if r && th.op != Contains {
      CountUpdate(s.heap.status, IsFresh, n, st);
    }
  }

  lemma DecideAccounts(s: State, s': State, t: nat, op: Op, key: int, a: int)
    requires Inv(s) && Accounted(s) && Step(s, s', t, op, key, a) && s.threads[t].pc == Decide
    ensures Accounted(s')
  {
    Facts(s, t);
    DecideShape(s, t);
    assert s' == DoDecide(s, t);
    hide Inv, HeapInv, Legal, After, Keys, Count, OwnRight, Step, DoDecide, Accounted;
    var th := s.threads[t];
    if th.op == Add {
      Balance(s, s', t, th.node, Linking(t));
    } else {
      Balance(s, s', t, th.curr, Doomed(t));
    }
  }

  lemma StatusAccounts(s: State, s': State, t: nat, n: int)
    requires Accounted(s) && t < |s.threads| == |s'.threads| && s'.threads == s.threads[t := s'.threads[t]]
    requires 0 <= n < |s.heap.status| == |s'.heap.status| && s'.heap.status == s.heap.status[n := s'.heap.status[n]]
    requires !s.heap.status[n].Fresh? && !s'.heap.status[n].Fresh?
    requires s'.hist == s.hist && IsAdding(s'.threads[t]) == IsAdding(s.threads[t])
    ensures Accounted(s')
  {
    CountUpdate(s.threads, IsAdding, t, s'.threads[t]);
    CountUpdate(s.heap.status, IsFresh, n, s'.heap.status[n]);
  }

  lemma SetNodeAccounts(s: State, s': State, t: nat, op: Op, key: int, a: int)
    requires Inv(s) && Accounted(s) && Step(s, s', t, op, key, a)
    requires s.threads[t].pc == SetNode || s.threads[t].pc == Dispose
    ensures Accounted(s')
  {
    Facts(s, t);
    hide Inv, HeapInv, Legal, After, Keys, Accounted, OwnRight, CallInv;
    var th := s.threads[t];
    StatusAccounts(s, s', t, if th.pc == SetNode then th.node else th.curr);
  }

  lemma OtherAccounts(s: State, s': State, t: nat, op: Op, key: int, a: int)
    requires Accounted(s) && Step(s, s', t, op, key, a)
    requires var pc := s.threads[t].pc; pc != Idle && pc != Decide && pc != SetNode && pc != Dispose
    ensures Accounted(s')
  {
    hide Accounted;
    SameAccounts(s, s', t);
  }

  lemma AccountsStep(s: State, s': State, t: nat, op: Op, key: int, a: int)
    requires Inv(s) && Accounted(s) && Step(s, s', t, op, key, a)
    ensures Accounted(s')
  {
    assert t < |s.threads|;
    hide Inv, Accounted, Step;
    match s.threads[t].pc {
      case Idle => InvokeAccounts(s, s', t, op, key, a);
      case Decide => DecideAccounts(s, s', t, op, key, a);
      case SetNode => SetNodeAccounts(s, s', t, op, key, a);
      case Dispose => SetNodeAccounts(s, s', t, op, key, a);
      case _ => OtherAccounts(s, s', t, op, key, a);
    }
  }

  lemma {:induction false} MemoryRun(run: seq<State>, n: nat)
    requires IsRun(run) && n < |run|
    ensures DoomInv(run[n]) && Accounted(run[n])
  {
    hide Inv, Step, DoomInv, Accounted;
    if n == 0 {
      MemoryInit(run[0]);
    } else {
      MemoryRun(run, n - 1);
      RunInv(run, n - 1);
      assert Next(run[n - 1], run[n - 1 + 1]);
      var t: nat, op: Op, key: int, a: int :| Step(run[n - 1], run[n], t, op, key, a);
      DoomStep(run[n - 1], run[n], t, op, key, a);
      AccountsStep(run[n - 1], run[n], t, op, key, a);
    }
  }

  lemma MemoryInit(s: State)
    requires Initial(s)
    ensures DoomInv(s) && Accounted(s)
  {
    CountNone(s.heap.status, IsFresh);
    CountNone(s.threads, IsAdding);
    CountNone(s.hist, IsRefused);
  }

  /** When no call is in progress every node is free, in the list, or one of those lost, and one
      node is lost for every addition that found its key. */
  lemma LostNodes(run: seq<State>, n: nat)
    requires IsRun(run) && n < |run|
    requires forall t :: 0 <= t < |run[n].threads| ==> run[n].threads[t].pc == Idle
    ensures forall m :: 0 <= m < |run[n].heap.status| ==>
              run[n].heap.status[m].Free? || run[n].heap.status[m].InList? || run[n].heap.status[m].Fresh?
    ensures Count(run[n].heap.status, IsFresh) == Count(run[n].hist, IsRefused)
  {
    MemoryRun(run, n);
    RunInv(run, n);
    CountNone(run[n].threads, IsAdding);
    hide HeapInv, ThreadInv, OwnerInv, Legal, After, Keys, Count;
  }
}
