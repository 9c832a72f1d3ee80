/** What holds in every run of the hand-over-hand list. */
module HandTheorems {
  import opened Options
  import opened ListSpec
  import opened SortedChain
  import opened HandList
  import opened HandInv
  import opened HandProof

  /** Memory safety: no thread ever touches, holds or waits for a freed node. */
  lemma NeverTouchesFreed(run: seq<State>, n: nat, t: nat)
    requires IsRun(run) && n < |run| && t < |run[n].threads|
    ensures Safe(run[n], t)
    ensures forall m :: 0 <= m < |run[n].heap.owner| && run[n].heap.owner[m] == Some(t) ==>
               run[n].heap.status[m] != Free
  {
    RunInv(run, n);
    SafeInv(run[n], t);
    Facts(run[n], t);
  }

  lemma SafeInv(s: State, t: nat)
    requires Inv(s) && t < |s.threads|
    ensures Safe(s, t)
  {
  }

  /** The nodes of the list are exactly those reached from the head; the pointer of a node that
      is linked completely is its successor. */
  lemma ReachableIffListed(run: seq<State>, n: nat, m: int)
    requires IsRun(run) && n < |run| && m != NULL
    ensures LeadsTo(run[n].heap.succ, HEAD, m) <==> m in Listed(run[n].heap)
    ensures var h := run[n].heap;
            Shape(h) && (Valid(h, m) && h.status[m] == InList && m != TAIL ==> h.next[m] == h.succ[m])
  {
    RunInv(run, n);
    hide After, Legal, Keys, ThreadInv, Chain;
    var h := run[n].heap;
    ListedIffReachable(h.key, h.succ, Listed(h), m);
  }

  /** Refinement of the coarse list: the recorded calls form a legal sequential history of
      the set, the list holds what that history leaves, and a call that has taken effect is
      recorded with its answer, after its invocation. */
  lemma RefinesCoarseList(run: seq<State>, n: nat)
    requires IsRun(run) && n < |run|
    ensures Legal(run[n].hist) && After(run[n].hist) == Keys(run[n].heap)
    ensures forall k :: k in After(run[n].hist) <==> OnTheWay(run[n].heap.key, run[n].heap.succ, k)
    ensures forall t :: 0 <= t < |run[n].threads| && Settled(run[n].threads[t].pc) ==>
              var th := run[n].threads[t];
              th.began <= th.at < |run[n].hist| && run[n].hist[th.at] == Call(t, th.op, th.key, th.result)
  {
    RunInv(run, n);
    forall t | 0 <= t < |run[n].threads| ensures ThreadInv(run[n].heap, run[n].hist, run[n].threads[t], t) {
      Facts(run[n], t);
    }
    hide After, Legal, Chain, OnTheWay;
    var h := run[n].heap;
    forall k ensures k in Keys(h) <==> OnTheWay(h.key, h.succ, k) {
      KeysAreOnTheWay(h.key, h.succ, Listed(h), k);
    }
  }

  lemma {:induction false} HistKept(run: seq<State>, m: nat, n: nat)
    requires IsRun(run) && m <= n < |run|
    ensures run[m].hist <= run[n].hist && |run[m].threads| == |run[n].threads|
    decreases n - m
  {
    hide Step;
    if m < n {
      HistKept(run, m, n - 1);
      assert Next(run[n - 1], run[n - 1 + 1]);
      var u: nat, op: Op, key: int, a: int :| Step(run[n - 1], run[n], u, op, key, a);
      HistGrows(run[n - 1], run[n], u, op, key, a);
    }
  }

  /** Each call is recorded exactly once: when its thread settles it, which happens before it
      returns. */
  lemma RecordedOnce(s: State, s': State, u: nat, op: Op, key: int, a: int)
    requires Step(s, s', u, op, key, a)
    ensures |s'.threads| == |s.threads| && forall t :: 0 <= t < |s.threads| && t != u ==> s'.threads[t] == s.threads[t]
    ensures var th, th' := s.threads[u], s'.threads[u];
            && (!Settled(th.pc) && Settled(th'.pc) <==> s'.hist == s.hist + [Call(u, th.op, th.key, th'.result)])
            && (s'.hist != s.hist ==> !Settled(th.pc) && Settled(th'.pc))
            && (Settled(th.pc) && !Settled(th'.pc) ==> th'.pc == Idle)
            && (th.pc != Idle && th'.pc == Idle ==> Settled(th.pc))
            && (th.pc != Idle && th'.pc != Idle ==> th'.began == th.began)
            && (th.pc == Idle ==> th'.pc != Idle && th'.began == |s.hist|)
  {
  }

  /** A call that is in progress at k and was not at n began after everything recorded at n. */
  lemma {:induction false} BeganAfter(run: seq<State>, n: nat, k: nat, u: nat)
    requires IsRun(run) && n <= k < |run| && u < |run[n].threads| && run[n].threads[u].pc == Idle
    ensures |run[k].threads| == |run[n].threads|
    ensures run[k].threads[u].pc != Idle ==> run[k].threads[u].began >= |run[n].hist|
    decreases k - n
  {
    hide Step;
    HistKept(run, n, k);
    if n < k {
      BeganAfter(run, n, k - 1, u);
      HistKept(run, n, k - 1);
      assert Next(run[k - 1], run[k - 1 + 1]);
      var v: nat, op: Op, key: int, a: int :| Step(run[k - 1], run[k], v, op, key, a);
      RecordedOnce(run[k - 1], run[k], v, op, key, a);
    }
  }

  /** Real-time order: a call that has taken effect at m precedes every call that its thread
      had not yet invoked at n, for m <= n. */
  lemma RealTimeOrder(run: seq<State>, m: nat, n: nat, k: nat, t: nat, u: nat)
    requires IsRun(run) && m <= n <= k < |run| && t < |run[m].threads| && u < |run[n].threads|
    requires Settled(run[m].threads[t].pc) && run[n].threads[u].pc == Idle
    ensures |run[k].threads| == |run[n].threads| == |run[m].threads|
    ensures var c, d := run[m].threads[t], run[k].threads[u];
            Settled(d.pc) ==>
              && 0 <= c.at < d.at < |run[k].hist|
              && run[k].hist[c.at] == Call(t, c.op, c.key, c.result)
              && run[k].hist[d.at] == Call(u, d.op, d.key, d.result)
  {
    HistKept(run, m, n);
    HistKept(run, n, k);
    BeganAfter(run, n, k, u);
    RefinesCoarseList(run, m);
    RefinesCoarseList(run, k);
  }

  /** A step changes the set only by recording a call of its thread, made with both
      neighbours locked, with the answer and the effect of that call. */
  lemma TakesEffectOnce(run: seq<State>, n: nat, s': State, u: nat, op: Op, key: int, a: int)
    requires IsRun(run) && n < |run| && Step(run[n], s', u, op, key, a)
    ensures EffectOnce(run[n], s', u)
  {
    RunInv(run, n);
    TakesEffect(run[n], s', u, op, key, a);
  }

  ghost predicate EffectOnce(s: State, s': State, u: nat) {
    && u < |s.threads| == |s'.threads|
    && if s'.hist == s.hist then Keys(s'.heap) == Keys(s.heap) else
         var th, th' := s.threads[u], s'.threads[u];
         && s'.hist == s.hist + [Call(u, th.op, th.key, th'.result)]
         && Shape(s.heap) && Valid(s.heap, th.prev) && Valid(s.heap, th.curr)
         && s.heap.owner[th.prev] == Some(u) && s.heap.owner[th.curr] == Some(u)
         && th'.result == Answer(th.op, th.key, Keys(s.heap))
         && Keys(s'.heap) == Effect(th.op, th.key, Keys(s.heap))
  }

  lemma TakesEffect(s: State, s': State, u: nat, op: Op, key: int, a: int)
    requires Inv(s) && Step(s, s', u, op, key, a)
    ensures EffectOnce(s, s', u)
  {
    InvStep(s, s', u, op, key, a);
    Facts(s, u);
    Facts(s', u);
    hide Inv, HeapInv, Keys, After;
    HistGrows(s, s', u, op, key, a);
    if s'.hist != s.hist {
      var c := s'.hist[|s.hist|];
      assert s'.hist[..|s.hist|] == s.hist;
      AfterExtend(s.hist, c);
    }
  }

  lemma HistGrows(s: State, s': State, u: nat, op: Op, key: int, a: int)
    requires Step(s, s', u, op, key, a)
    ensures |s'.threads| == |s.threads|
    ensures s'.hist == s.hist ||
            (s.threads[u].pc == Decide &&
             s'.hist == s.hist + [Call(u, s.threads[u].op, s.threads[u].key, s'.threads[u].result)])
  {
  }

  predicate Busy(s: State, t: nat) { t < |s.threads| && s.threads[t].pc != Idle }

  lemma OwnerHolds(s: State, n: int)
    requires Inv(s) && 0 <= n < |s.heap.owner| && s.heap.owner[n].Some?
    ensures s.heap.owner[n].value < |s.threads| && Holding(s.threads[s.heap.owner[n].value], n)
  {
  }

  /** Locks are taken in increasing key order, so the owner of a lock, or somebody it waits
      for, is not blocked. */
  lemma {:induction false} OwnerRuns(s: State, n: int) returns (t: nat)
    requires Inv(s) && Shape(s.heap) && In(s.heap, n) && s.heap.owner[n].Some?
    ensures Busy(s, t) && Safe(s, t) && Enabled(s, t)
    decreases MAX_KEY - s.heap.key[n]
  {
    t := s.heap.owner[n].value;
    OwnerHolds(s, n);
    Facts(s, t);
    SafeInv(s, t);
    var th := s.threads[t];
    if th.pc == LockCurr && s.heap.owner[th.curr].Some? {
      SuccessorComplete(s, t);
      KeysRise(s, t);
      t := OwnerRuns(s, th.curr);
    }
  }

  lemma KeysRise(s: State, t: nat)
    requires Inv(s) && t < |s.threads| && s.threads[t].pc == LockCurr
    ensures var th := s.threads[t];
            && Shape(s.heap) && Valid(s.heap, th.prev) && Valid(s.heap, th.curr)
            && s.heap.key[th.prev] < s.heap.key[th.curr] <= MAX_KEY
  {
  }

  /** Deadlock freedom: while some call is in progress, some call can make a step. */
  lemma SomeCallRuns(run: seq<State>, n: nat, u: nat) returns (t: nat)
    requires IsRun(run) && n < |run| && Busy(run[n], u)
    ensures Busy(run[n], t) && Safe(run[n], t) && Enabled(run[n], t)
  {
    RunInv(run, n);
    var s := run[n];
    Facts(s, u);
    SafeInv(s, u);
    var th := s.threads[u];
    t := u;
    if th.pc == LockHead && s.heap.owner[HEAD].Some? {
      t := OwnerRuns(s, HEAD);
    } else if th.pc == LockCurr && s.heap.owner[th.curr].Some? {
      SuccessorComplete(s, u);
      t := OwnerRuns(s, th.curr);
    }
  }
}
