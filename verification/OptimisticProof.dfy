/** The optimistic list: each step keeps the invariant, and what follows for every run. */
module OptimisticProof {
  import opened Options
  import opened ListSpec
  import opened SortedChain
  import opened OptimisticList
  import opened OptimisticInv
  import opened OptimisticSteps

  /** The others are where they were, and may rely on what happened to the nodes. */
  ghost predicate Undisturbed(s: State, s': State, u: nat) {
    && u < |s.threads| == |s'.threads| && s.hist <= s'.hist
    && (forall t :: 0 <= t < |s.threads| && t != u ==> s'.threads[t] == s.threads[t] && Rely(s.heap, s'.heap, t))
    && Shape(s.heap) && Shape(s'.heap) && |s.heap.key| <= |s'.heap.key|
    && (forall n :: 0 <= n < |s'.heap.owner| && s'.heap.owner[n].Some? && s'.heap.owner[n] != Some(u) ==>
          n < |s.heap.owner| && s.heap.owner[n] == s'.heap.owner[n])
  }

  /** Mutexes held by u are the two its program counter says. */
  ghost predicate OwnsRight(h: Heap, th: Thread, u: nat) {
    forall n :: 0 <= n < |h.owner| && h.owner[n] == Some(u) ==> Holding(th, n)
  }

  lemma Assemble(s: State, s': State, u: nat)
    requires Inv(s) && Undisturbed(s, s', u)
    requires NodesInv(s'.heap) && ThreadInv(s'.heap, s'.hist, s'.threads[u], u) && OwnsRight(s'.heap, s'.threads[u], u)
    requires Legal(s'.hist) && After(s'.hist) == Keys(s'.heap)
    ensures Inv(s')
  {
    hide NodesInv, Legal, After, Keys, ThreadInv, Rely;
    forall t | 0 <= t < |s.threads| ensures ThreadInv(s'.heap, s'.hist, s'.threads[t], t) {
      if t != u { Stable(s.heap, s'.heap, s.hist, s'.hist, s.threads[t], t); }
    }
  }

  /** The start of a proof of a step of u: the facts about u itself. */
  lemma Facts(s: State, u: nat)
    requires Inv(s) && u < |s.threads|
    ensures NodesInv(s.heap) && ThreadInv(s.heap, s.hist, s.threads[u], u) && OwnsRight(s.heap, s.threads[u], u)
    ensures Legal(s.hist) && After(s.hist) == Keys(s.heap)
  {
  }

  /** Steps that leave the nodes alone. */
  lemma Quiet(s: State, s': State, u: nat)
    requires Inv(s) && u < |s.threads| && s'.heap == s.heap && s'.hist == s.hist
    requires |s'.threads| == |s.threads| && s'.threads == s.threads[u := s'.threads[u]]
    requires ThreadInv(s.heap, s.hist, s'.threads[u], u)
    requires forall n :: Holding(s'.threads[u], n) == Holding(s.threads[u], n)
    ensures Inv(s')
  {
  }

  lemma QuietRely(h: Heap, t: nat)
    requires NodesInv(h)
    ensures Rely(h, h, t)
  {
  }

  lemma NodesShape(h: Heap)
    requires NodesInv(h)
    ensures Shape(h)
  {
  }

  lemma StartStep(s: State, s': State, u: nat, op: Op, key: int)
    requires Inv(s) && Step(s, s', u, op, key) && s.threads[u].pc == Start
    ensures Inv(s')
  {
  }

  lemma WalkStep(s: State, s': State, u: nat, op: Op, key: int)
    requires Inv(s) && Step(s, s', u, op, key) && s.threads[u].pc == Walk
    ensures Inv(s')
  {
    Facts(s, u);
    hide Inv, Chain, After, Legal, Keys, DoDecide, DoValidate, OwnsRight;
    Quiet(s, s', u);
  }

  lemma ValidateAfter(s: State, u: nat)
    requires NodesInv(s.heap) && u < |s.threads| && s.threads[u].pc == Validate && Safe(s, u)
    requires ThreadInv(s.heap, s.hist, s.threads[u], u)
    ensures ThreadInv(s.heap, s.hist, DoValidate(s, u).threads[u], u)
    ensures DoValidate(s, u).threads[u].pc == Decide ==>
              In(s.heap, s.threads[u].prev) && s.heap.next[s.threads[u].prev] == s.threads[u].curr
  {
    var th, th' := s.threads[u], DoValidate(s, u).threads[u];
    assert Linked(s.heap, th.it) && (th.it != TAIL ==> Linked(s.heap, s.heap.next[th.it]));
    assert s.heap.key[th.it] <= s.heap.key[th.prev] ==> th.it != TAIL by { assert WalkInv(s.heap, th); }
    hide Chain, NodesInv;
    assert PlaceInv(s.heap, th');
    assert HeldInv(s.heap, th', u) && NodeInv(s.heap, th', u);
  }

  /** One step of the validating walk. If it answers true, `prev` is listed and adjacent
      to `curr`, although the walk took no lock on the way. */
  lemma ValidateStep(s: State, s': State, u: nat, op: Op, key: int)
    requires Inv(s) && Step(s, s', u, op, key) && s.threads[u].pc == Validate
    ensures Inv(s')
    ensures s'.threads[u].pc == Decide ==>
               In(s.heap, s.threads[u].prev) && s.heap.next[s.threads[u].prev] == s.threads[u].curr
  {
    Facts(s, u);
    hide Inv, NodesInv, After, Legal, Keys, OwnsRight, DoDecide, ThreadInv;
    ValidateAfter(s, u);
    Quiet(s, s', u);
  }

  lemma InvokeStep(s: State, s': State, u: nat, op: Op, key: int)
    requires Inv(s) && Step(s, s', u, op, key) && s.threads[u].pc == Idle
    ensures Inv(s')
  {
    Facts(s, u);
    if op != Add {
      hide Inv, NodesInv, After, Legal;
      Quiet(s, s', u);
    } else {
      AllocateKept(s.heap, key, u);
      forall t | 0 <= t < |s.threads| && t != u ensures Rely(s.heap, s'.heap, t) { AllocateRely(s.heap, key, u, t); }
      hide Inv, NodesInv, Rely, After, Legal, Keys;
      NodesShape(s.heap);
      NodesShape(s'.heap);
      Assemble(s, s', u);
    }
  }

  /** Taking or dropping the mutex of a linked node. */
  lemma Relock(s: State, s': State, u: nat, n: int, o: Option<nat>)
    requires Inv(s) && u < |s.threads| && Shape(s.heap) && Linked(s.heap, n) && |s'.threads| == |s.threads|
    requires s.heap.owner[n] == None || s.heap.owner[n] == Some(u)
    requires o == None || o == Some(u)
    requires s'.heap == SetOwner(s.heap, n, o) && s'.hist == s.hist && s'.threads == s.threads[u := s'.threads[u]]
    requires ThreadInv(s'.heap, s'.hist, s'.threads[u], u)
    requires OwnsRight(s'.heap, s'.threads[u], u)
    ensures Inv(s')
  {
    Facts(s, u);
    RelockKept(s.heap, n, o);
    hide Inv, NodesInv, ThreadInv, After, Legal, Keys, OwnsRight;
    forall t | 0 <= t < |s.threads| && t != u ensures Rely(s.heap, s'.heap, t) { RelockRely(s.heap, n, o, u, t); }
    hide Rely;
    Assemble(s, s', u);
  }

  lemma LockPrevStep(s: State, s': State, u: nat, op: Op, key: int)
    requires Inv(s) && Step(s, s', u, op, key) && s.threads[u].pc == LockPrev
    ensures Inv(s')
  {
    Facts(s, u);
    hide Inv, Chain, Ascending, After, Legal, Keys;
    Relock(s, s', u, s.threads[u].prev, Some(u));
  }

  lemma ValidationBegins(h: Heap, h': Heap, th: Thread, u: nat)
    requires NodesInv(h) && PlaceInv(h, th) && HeldInv(h, th, u) && th.pc == LockCurr && Valid(h, th.curr)
    requires h' == SetOwner(h, th.curr, Some(u))
    ensures PlaceInv(h', th.(pc := Validate, it := HEAD, gone := Gone(h)))
  {
  }

  lemma LockCurrStep(s: State, s': State, u: nat, op: Op, key: int)
    requires Inv(s) && Step(s, s', u, op, key) && s.threads[u].pc == LockCurr
    ensures Inv(s')
  {
    Facts(s, u);
    ValidationBegins(s.heap, s'.heap, s.threads[u], u);
    hide Inv, Chain, Ascending, After, Legal, Keys, NoWayBack, Gone;
    assert s'.threads[u] == s.threads[u].(pc := Validate, it := HEAD, gone := Gone(s.heap));
    assert ThreadInv(s'.heap, s'.hist, s'.threads[u], u);
    Relock(s, s', u, s.threads[u].curr, Some(u));
  }

  lemma UnlockThread(h: Heap, hist: seq<Call>, th: Thread, th': Thread, u: nat, n: int)
    requires th.pc != Idle && NodeInv(h, th, u) && CallInv(hist, th, u) && HeldInv(h, th, u)
    requires match th.pc
             case FailPrev => n == th.prev && th' == th.(pc := FailCurr)
             case FailCurr => n == th.curr && th' == th.(pc := Start)
             case OkPrev => n == th.prev && th' == th.(pc := OkCurr)
             case OkCurr => n == th.curr && th' == th.(pc := Idle)
             case _ => false
    requires OwnsRight(h, th, u)
    ensures Linked(h, n) && h.owner[n] == Some(u)
    ensures ThreadInv(SetOwner(h, n, None), hist, th', u) && OwnsRight(SetOwner(h, n, None), th', u)
  {
  }

  lemma UnlockStep(s: State, s': State, u: nat, op: Op, key: int)
    requires Inv(s) && Step(s, s', u, op, key)
    requires var pc := s.threads[u].pc; pc == FailPrev || pc == FailCurr || pc == OkPrev || pc == OkCurr
    ensures Inv(s')
  {
    Facts(s, u);
    hide Inv, NodesInv, After, Legal, Keys, PlaceInv;
    var th := s.threads[u];
    var n := if th.pc == FailPrev || th.pc == OkPrev then th.prev else th.curr;
    UnlockThread(s.heap, s.hist, th, s'.threads[u], u, n);
    hide ThreadInv, OwnsRight, NodeInv, CallInv, HeldInv;
    assert s'.heap == SetOwner(s.heap, n, None);
    Relock(s, s', u, n, None);
  }

  /** The steps at which a call takes effect without touching the list. */
  lemma SettleQuietly(s: State, s': State, u: nat, result: bool)
    requires Inv(s) && u < |s.threads| && s.threads[u].pc == Decide && s' == Settle(s, u, s.heap, result)
    requires result == Answer(s.threads[u].op, s.threads[u].key, Keys(s.heap))
    requires Effect(s.threads[u].op, s.threads[u].key, Keys(s.heap)) == Keys(s.heap)
    ensures Inv(s')
  {
    Facts(s, u);
    var th := s.threads[u];
    LegalExtend(s.hist, Call(u, th.op, th.key, result));
    hide Inv, NodesInv, After, Legal, Keys, Effect, Answer;
    forall t | 0 <= t < |s.threads| ensures Rely(s.heap, s'.heap, t) { QuietRely(s.heap, t); }
    hide Rely;
    NodesShape(s.heap);
    assert ThreadInv(s'.heap, s'.hist, s'.threads[u], u);
    Assemble(s, s', u);
  }

  lemma DecideQuiet(s: State, s': State, u: nat, op: Op, key: int)
    requires Inv(s) && Step(s, s', u, op, key) && s.threads[u].pc == Decide
    requires var th := s.threads[u];
             Valid(s.heap, th.curr) && (th.op == Contains || (th.op == Add) == (s.heap.key[th.curr] == th.key))
    ensures Inv(s')
  {
    Facts(s, u);
    var th := s.threads[u];
    assert th.prev in Listed(s.heap) && th.curr in Listed(s.heap);
    Found(s.heap.key, s.heap.next, Listed(s.heap), th.prev, th.key);
    hide Inv, NodesInv, After, Legal, Keys;
    SettleQuietly(s, s', u, s.heap.key[th.curr] == th.key && th.op == Contains);
  }

  lemma PrepareAfter(s: State, u: nat, h': Heap)
    requires NodesInv(s.heap) && u < |s.threads| && s.threads[u].pc == Decide
    requires ThreadInv(s.heap, s.hist, s.threads[u], u)
    requires OwnsRight(s.heap, s.threads[u], u) && Valid(s.heap, s.threads[u].curr)
    requires s.threads[u].op == Add && s.heap.key[s.threads[u].curr] != s.threads[u].key
    requires h' == SetNext(s.heap, s.threads[u].node, s.threads[u].curr)
    ensures var th' := s.threads[u].(pc := Link); ThreadInv(h', s.hist, th', u) && OwnsRight(h', th', u)
  {
  }

  lemma DecidePrepare(s: State, s': State, u: nat, op: Op, key: int)
    requires Inv(s) && Step(s, s', u, op, key) && s.threads[u].pc == Decide
    requires var th := s.threads[u]; Valid(s.heap, th.curr) && th.op == Add && s.heap.key[th.curr] != th.key
    ensures Inv(s')
  {
    Facts(s, u);
    var th := s.threads[u];
    PrepareKept(s.heap, th.node, th.curr, u);
    forall t | 0 <= t < |s.threads| && t != u ensures Rely(s.heap, s'.heap, t) {
      PrepareRely(s.heap, th.node, th.curr, u, t);
    }
    PrepareAfter(s, u, s'.heap);
    hide Inv, NodesInv, After, Legal, Keys, Rely, ThreadInv, OwnsRight, DoValidate;
    NodesShape(s.heap);
    Assemble(s, s', u);
  }

  lemma RemoveAfter(s: State, u: nat, h': Heap)
    requires NodesInv(s.heap) && u < |s.threads| && s.threads[u].pc == Decide
    requires ThreadInv(s.heap, s.hist, s.threads[u], u)
    requires OwnsRight(s.heap, s.threads[u], u) && s.threads[u].op == Remove
    requires var th := s.threads[u];
             h' == SetStatus(SetNext(s.heap, th.prev, s.heap.next[th.curr]), th.curr, Removed)
    ensures var s' := Settle(s, u, h', true);
            ThreadInv(h', s'.hist, s'.threads[u], u) && OwnsRight(h', s'.threads[u], u)
  {
  }

  lemma RemoveReady(s: State, u: nat)
    requires NodesInv(s.heap) && u < |s.threads| && s.threads[u].pc == Decide
    requires ThreadInv(s.heap, s.hist, s.threads[u], u)
    requires Valid(s.heap, s.threads[u].curr) && s.heap.key[s.threads[u].curr] == s.threads[u].key
    ensures var th, h := s.threads[u], s.heap;
            && Adjacent(h.key, h.next, Listed(h), th.prev, th.curr)
            && h.owner[th.prev] == Some(u) && h.owner[th.curr] == Some(u)
  {
    hide NoWayBack;
    assert s.threads[u].prev in Listed(s.heap);
  }

  lemma RemoveShape(s: State, s': State, u: nat, op: Op, key: int)
    requires Step(s, s', u, op, key) && s.threads[u].pc == Decide
    requires var th := s.threads[u]; Valid(s.heap, th.curr) && th.op == Remove && s.heap.key[th.curr] == th.key
    ensures var th := s.threads[u];
            && Valid(s.heap, th.prev) && Shape(s.heap)
            && s' == Settle(s, u, SetStatus(SetNext(s.heap, th.prev, s.heap.next[th.curr]), th.curr, Removed), true)
  {
    assert s.threads[u].prev in Follows(s.threads[u]);
  }

  lemma DecideRemove(s: State, s': State, u: nat, op: Op, key: int)
    requires Inv(s) && Step(s, s', u, op, key) && s.threads[u].pc == Decide
    requires var th := s.threads[u]; Valid(s.heap, th.curr) && th.op == Remove && s.heap.key[th.curr] == th.key
    ensures Inv(s')
  {
    RemoveShape(s, s', u, op, key);
    hide Step;
    Facts(s, u);
    var th := s.threads[u];
    RemoveReady(s, u);
    hide Inv, NodesInv, ThreadInv, OwnsRight, Keys, Rely, After, Legal, Adjacent;
    UnlinkKept(s.heap, th.prev, th.curr);
    LegalExtend(s.hist, Call(u, th.op, th.key, true));
    forall t | 0 <= t < |s.threads| && t != u ensures Rely(s.heap, s'.heap, t) {
      UnlinkRely(s.heap, th.prev, th.curr, u, t);
    }
    RemoveAfter(s, u, s'.heap);
    Assemble(s, s', u);
  }

  lemma LinkAfter(s: State, u: nat, h': Heap)
    requires NodesInv(s.heap) && u < |s.threads| && s.threads[u].pc == Link
    requires ThreadInv(s.heap, s.hist, s.threads[u], u)
    requires OwnsRight(s.heap, s.threads[u], u)
    requires h' == SetStatus(SetNext(s.heap, s.threads[u].prev, s.threads[u].node), s.threads[u].node, InList)
    ensures var th, s' := s.threads[u], Settle(s, u, h', true);
            ThreadInv(h', s'.hist, s'.threads[u], u) && OwnsRight(h', s'.threads[u], u)
  {
  }

  lemma LinkReady(s: State, u: nat)
    requires NodesInv(s.heap) && u < |s.threads| && s.threads[u].pc == Link
    requires ThreadInv(s.heap, s.hist, s.threads[u], u)
    ensures var th, h := s.threads[u], s.heap;
            && Prepared(h, th.prev, th.node, u) && h.owner[th.prev] == Some(u) && h.owner[th.node] == None
            && th.op == Add && h.key[th.node] == th.key
  {
  }

  lemma LinkShape(s: State, s': State, u: nat, op: Op, key: int)
    requires Step(s, s', u, op, key) && s.threads[u].pc == Link
    ensures var th := s.threads[u];
            && Shape(s.heap) && Valid(s.heap, th.prev) && Valid(s.heap, th.node)
            && s' == Settle(s, u, SetStatus(SetNext(s.heap, th.prev, th.node), th.node, InList), true)
  {
    assert s.threads[u].prev in Follows(s.threads[u]) && s.threads[u].node in Follows(s.threads[u]);
  }

  lemma LinkStep(s: State, s': State, u: nat, op: Op, key: int)
    requires Inv(s) && Step(s, s', u, op, key) && s.threads[u].pc == Link
    ensures Inv(s')
  {
    LinkShape(s, s', u, op, key);
    hide Step;
    Facts(s, u);
    var th := s.threads[u];
    LinkReady(s, u);
    hide Inv, NodesInv, ThreadInv, OwnsRight, Keys, Rely, After, Legal;
    LinkKept(s.heap, th.prev, th.node, u);
    LegalExtend(s.hist, Call(u, th.op, th.key, true));
    forall t | 0 <= t < |s.threads| && t != u ensures Rely(s.heap, s'.heap, t) {
      LinkRely(s.heap, th.prev, th.node, u, t);
    }
    LinkAfter(s, u, s'.heap);
    Assemble(s, s', u);
  }

  lemma DecideStep(s: State, s': State, u: nat, op: Op, key: int)
    requires Inv(s) && Step(s, s', u, op, key) && s.threads[u].pc == Decide
    ensures Inv(s')
  {
    var th := s.threads[u];
    assert th.curr in Follows(th);
    hide Inv, DoDecide;
    if th.op == Contains || (th.op == Add) == (s.heap.key[th.curr] == th.key) {
      DecideQuiet(s, s', u, op, key);
    } else if th.op == Add {
      DecidePrepare(s, s', u, op, key);
    } else {
      DecideRemove(s, s', u, op, key);
    }
  }

  lemma InvStep(s: State, s': State, u: nat, op: Op, key: int)
    requires Inv(s) && Step(s, s', u, op, key)
    ensures Inv(s')
  {
    hide Inv, Do, Enabled, Safe;
    match s.threads[u].pc
    case Idle => InvokeStep(s, s', u, op, key);
    case Start => StartStep(s, s', u, op, key);
    case Walk => WalkStep(s, s', u, op, key);
    case LockPrev => LockPrevStep(s, s', u, op, key);
    case LockCurr => LockCurrStep(s, s', u, op, key);
    case Validate => ValidateStep(s, s', u, op, key);
    case Decide => DecideStep(s, s', u, op, key);
    case Link => LinkStep(s, s', u, op, key);
    case _ => UnlockStep(s, s', u, op, key);
  }

  lemma InvInit(s: State)
    requires Initial(s)
    ensures Inv(s)
  {
  }

  lemma {:induction false} RunInv(run: seq<State>, n: nat)
    requires IsRun(run) && n < |run|
    ensures Inv(run[n])
  {
    if n == 0 {
      InvInit(run[0]);
    } else {
      RunInv(run, n - 1);
      assert Next(run[n - 1], run[n - 1 + 1]);
      var t: nat, op: Op, key: int :| Step(run[n - 1], run[n], t, op, key);
      InvStep(run[n - 1], run[n], t, op, key);
    }
  }
}
