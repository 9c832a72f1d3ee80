/** What holds in every run of the optimistic list. */
module OptimisticTheorems {
  import opened Options
  import opened ListSpec
  import opened SortedChain
  import opened OptimisticList
  import opened OptimisticInv
  import opened OptimisticSteps
  import opened OptimisticProof

  /** Every node ever linked, also a removed one, leads to the tail. */
  lemma {:induction false} LinkedLeadsToTail(h: Heap, n: int)
    requires NodesInv(h) && Linked(h, n)
    ensures LeadsTo(h.next, n, TAIL)
    decreases MAX_KEY - h.key[n]
  {
    if n == TAIL {
      LeadsToSelf(h.next, n);
    } else {
      assert Linked(h, h.next[n]);
      KeyInBounds(h, h.next[n]);
      LinkedLeadsToTail(h, h.next[n]);
      LeadsToFirst(h.next, n, TAIL);
    }
  }

  lemma KeyInBounds(h: Heap, n: int)
    requires NodesInv(h) && Valid(h, n)
    ensures MIN_KEY <= h.key[n] <= MAX_KEY && (h.key[n] == MIN_KEY ==> n == HEAD) && (h.key[n] == MAX_KEY ==> n == TAIL)
  {
  }

  // ---- every run ----

  /** No thread ever follows a null or wild pointer, in any interleaving. */
  lemma WalksNeverReachNull(run: seq<State>, n: nat, t: nat)
    requires IsRun(run) && n < |run| && t < |run[n].threads|
    ensures Safe(run[n], t)
  {
    RunInv(run, n);
    SafeInv(run[n], t);
  }

  lemma SafeInv(s: State, t: nat)
    requires Inv(s) && t < |s.threads|
    ensures Safe(s, t)
  {
  }

  /** A successful validation: `prev` is on the chain from the head and `curr` is its
      successor, for as long as the thread holds the two locks. */
  lemma ValidationSound(run: seq<State>, n: nat, t: nat)
    requires IsRun(run) && n < |run| && t < |run[n].threads|
    requires run[n].threads[t].pc == Decide || run[n].threads[t].pc == Link
    ensures var h, th := run[n].heap, run[n].threads[t];
            && Shape(h) && Valid(h, th.prev) && Valid(h, th.curr)
            && LeadsTo(h.next, HEAD, th.prev) && h.next[th.prev] == th.curr
            && h.owner[th.prev] == Some(t) && h.owner[th.curr] == Some(t)
            && h.key[th.prev] < th.key <= h.key[th.curr]
  {
    RunInv(run, n);
    Facts(run[n], t);
    var h := run[n].heap;
    assert run[n].threads[t].prev in Listed(h);
    hide Inv, After, Legal, Keys, NoWayBack, Chain, Ascending;
    ListedIsReachable(h.key, h.next, Listed(h), run[n].threads[t].prev);
  }

  /** Every node ever linked, removed or not, points to a larger key and leads to the tail. */
  lemma EveryNodeLeadsToTail(run: seq<State>, n: nat, m: int)
    requires IsRun(run) && n < |run| && Linked(run[n].heap, m)
    ensures var h := run[n].heap;
            LeadsTo(h.next, m, TAIL) && Shape(h) && (m != TAIL ==> Linked(h, h.next[m]) && h.key[m] < h.key[h.next[m]])
  {
    RunInv(run, n);
    hide After, Legal, Keys, ThreadInv, Chain;
    LinkedLeadsToTail(run[n].heap, m);
  }

  /** A removed node is never changed again. */
  lemma {:induction false} RemovedNodesFrozen(run: seq<State>, n: nat, m: nat, x: int)
    requires IsRun(run) && n <= m < |run|
    requires 0 <= x < |run[n].heap.status| && run[n].heap.status[x] == Removed
    ensures Shape(run[n].heap) && Shape(run[m].heap) && Valid(run[m].heap, x)
    ensures run[m].heap.status[x] == Removed
    ensures run[m].heap.next[x] == run[n].heap.next[x] && run[m].heap.key[x] == run[n].heap.key[x]
    decreases m - n
  {
    hide Inv, Step;
    if n == m {
      RunInv(run, n);
      Shaped(run[n]);
    } else {
      RemovedNodesFrozen(run, n, m - 1, x);
      RunInv(run, m - 1);
      assert Next(run[m - 1], run[m - 1 + 1]);
      var u: nat, op: Op, key: int :| Step(run[m - 1], run[m], u, op, key);
      RemovedStep(run[m - 1], run[m], u, op, key, x);
    }
  }

  lemma Shaped(s: State)
    requires Inv(s)
    ensures Shape(s.heap)
  {
  }

  lemma RemovedStep(s: State, s': State, u: nat, op: Op, key: int, n: int)
    requires Inv(s) && Step(s, s', u, op, key) && Valid(s.heap, n) && s.heap.status[n] == Removed
    ensures Shape(s'.heap) && Valid(s'.heap, n) && s'.heap.status[n] == Removed
    ensures s'.heap.next[n] == s.heap.next[n] && s'.heap.key[n] == s.heap.key[n]
  {
    Facts(s, u);
    hide Inv, Chain, After, Legal, Keys, NoWayBack, OwnsRight, Ascending;
    var th := s.threads[u];
    match th.pc
    case Decide =>
      assert Holding(th, th.prev) && In(s.heap, th.prev);
    case Link =>
      assert Holding(th, th.prev) && In(s.heap, th.prev);
    case _ =>
  }

  /** Each step takes effect on the abstract set exactly once per call: either the set of
      keys is unchanged and nothing is recorded, or the thread holds both locks, the call
      is recorded with the right answer and the set changes as the call says. */
  lemma TakesEffectOnce(run: seq<State>, n: nat, s': State, u: nat, op: Op, key: int)
    requires IsRun(run) && n < |run| && Step(run[n], s', u, op, key)
    ensures EffectOnce(run[n], s', u)
  {
    RunInv(run, n);
    TakesEffect(run[n], s', u, op, key);
  }

  ghost predicate EffectOnce(s: State, s': State, u: nat) {
    && u < |s.threads| == |s'.threads|
    && if s'.hist == s.hist then Keys(s'.heap) == Keys(s.heap) else
         var th, th' := s.threads[u], s'.threads[u];
         && s'.hist == s.hist + [Call(u, th.op, th.key, th'.result)]
         && Shape(s.heap) && Valid(s.heap, th.prev) && Valid(s.heap, th.curr)
         && s.heap.owner[th.prev] == Some(u) && s.heap.owner[th.curr] == Some(u)
         && th'.result == Answer(th.op, th.key, Keys(s.heap))
         && Keys(s'.heap) == Effect(th.op, th.key, Keys(s.heap))
  }

  lemma TakesEffect(s: State, s': State, u: nat, op: Op, key: int)
    requires Inv(s) && Step(s, s', u, op, key)
    ensures EffectOnce(s, s', u)
  {
    hide Inv, NodesInv, Keys, After, NoWayBack, Do, Enabled, Safe;
    InvStep(s, s', u, op, key);
    Facts(s, u);
    NodesShape(s.heap);
    HistGrows(s, s', u, op, key);
    if s'.hist != s.hist {
      var c := s'.hist[|s.hist|];
      assert s'.hist[..|s.hist|] == s.hist;
      AfterExtend(s.hist, c);
    }
    Facts(s', u);
  }

  lemma HistGrows(s: State, s': State, u: nat, op: Op, key: int)
    requires Step(s, s', u, op, key)
    ensures |s'.threads| == |s.threads|
    ensures s'.hist == s.hist ||
            (&& (s.threads[u].pc == Decide || s.threads[u].pc == Link)
             && s'.hist == s.hist + [Call(u, s.threads[u].op, s.threads[u].key, s'.threads[u].result)])
  {
  }

  /** The nodes of the list are exactly those reached from the head. */
  lemma ReachableIffListed(run: seq<State>, n: nat, m: int)
    requires IsRun(run) && n < |run| && m != NULL
    ensures LeadsTo(run[n].heap.next, HEAD, m) <==> m in Listed(run[n].heap)
  {
    RunInv(run, n);
    hide After, Legal, Keys, ThreadInv, Ascending, Chain;
    var h := run[n].heap;
    ListedIffReachable(h.key, h.next, Listed(h), m);
  }

  /** Linearizability: in every run the recorded calls form a legal sequential history of
      the set, the list holds what that history leaves, and a call that returns has been
      recorded with its answer after it was invoked. */
  lemma Linearizable(run: seq<State>, n: nat)
    requires IsRun(run) && n < |run|
    ensures Legal(run[n].hist) && After(run[n].hist) == Keys(run[n].heap)
    ensures forall k :: k in After(run[n].hist) <==> OnTheWay(run[n].heap.key, run[n].heap.next, k)
    ensures forall t :: 0 <= t < |run[n].threads| && Settled(run[n].threads[t].pc) ==>
              var th := run[n].threads[t];
              th.began <= th.at < |run[n].hist| && run[n].hist[th.at] == Call(t, th.op, th.key, th.result)
  {
    RunInv(run, n);
    forall t | 0 <= t < |run[n].threads| ensures ThreadInv(run[n].heap, run[n].hist, run[n].threads[t], t) {
      Facts(run[n], t);
    }
    hide After, Legal, Ascending, Chain, NoWayBack, OnTheWay;
    var h := run[n].heap;
    forall k ensures k in Keys(h) <==> OnTheWay(h.key, h.next, k) {
      KeysAreOnTheWay(h.key, h.next, Listed(h), k);
    }
  }

  lemma {:induction false} HistKept(run: seq<State>, m: nat, n: nat)
    requires IsRun(run) && m <= n < |run|
    ensures run[m].hist <= run[n].hist && |run[m].threads| == |run[n].threads|
    decreases n - m
  {
    hide Step;
    if m < n {
      HistKept(run, m, n - 1);
      assert Next(run[n - 1], run[n - 1 + 1]);
      var u: nat, op: Op, key: int :| Step(run[n - 1], run[n], u, op, key);
      HistGrows(run[n - 1], run[n], u, op, key);
    }
  }

  /** Each call is recorded exactly once: when its thread settles it, which happens before it
      returns. */
  lemma RecordedOnce(s: State, s': State, u: nat, op: Op, key: int)
    requires Step(s, s', u, op, key)
    ensures |s'.threads| == |s.threads| && forall t :: 0 <= t < |s.threads| && t != u ==> s'.threads[t] == s.threads[t]
    ensures var th, th' := s.threads[u], s'.threads[u];
            && (!Settled(th.pc) && Settled(th'.pc) <==> s'.hist == s.hist + [Call(u, th.op, th.key, th'.result)])
            && (s'.hist != s.hist ==> !Settled(th.pc) && Settled(th'.pc))
            && (Settled(th.pc) && !Settled(th'.pc) ==> th'.pc == Idle)
            && (th.pc != Idle && th'.pc == Idle ==> Settled(th.pc))
            && (th.pc != Idle && th'.pc != Idle ==> th'.began == th.began)
            && (th.pc == Idle ==> th'.pc != Idle && th'.began == |s.hist|)
  {
  }

  /** A call that is in progress at k and was not at n began after everything recorded at n. */
  lemma {:induction false} BeganAfter(run: seq<State>, n: nat, k: nat, u: nat)
    requires IsRun(run) && n <= k < |run| && u < |run[n].threads| && run[n].threads[u].pc == Idle
    ensures |run[k].threads| == |run[n].threads|
    ensures run[k].threads[u].pc != Idle ==> run[k].threads[u].began >= |run[n].hist|
    decreases k - n
  {
    hide Step;
    HistKept(run, n, k);
    if n < k {
      BeganAfter(run, n, k - 1, u);
      HistKept(run, n, k - 1);
      assert Next(run[k - 1], run[k - 1 + 1]);
      var v: nat, op: Op, key: int :| Step(run[k - 1], run[k], v, op, key);
      RecordedOnce(run[k - 1], run[k], v, op, key);
    }
  }

  /** Real-time order: a call that has taken effect at m precedes every call that its thread
      had not yet invoked at n, for m <= n. */
  lemma RealTimeOrder(run: seq<State>, m: nat, n: nat, k: nat, t: nat, u: nat)
    requires IsRun(run) && m <= n <= k < |run| && t < |run[m].threads| && u < |run[n].threads|
    requires Settled(run[m].threads[t].pc) && run[n].threads[u].pc == Idle
    ensures |run[k].threads| == |run[n].threads| == |run[m].threads|
    ensures var c, d := run[m].threads[t], run[k].threads[u];
            Settled(d.pc) ==>
              && 0 <= c.at < d.at < |run[k].hist|
              && run[k].hist[c.at] == Call(t, c.op, c.key, c.result)
              && run[k].hist[d.at] == Call(u, d.op, d.key, d.result)
  {
    HistKept(run, m, n);
    HistKept(run, n, k);
    BeganAfter(run, n, k, u);
    Linearizable(run, m);
    Linearizable(run, k);
  }

  /** Locks are taken in increasing key order. */
  lemma LockOrder(run: seq<State>, n: nat, t: nat)
    requires IsRun(run) && n < |run| && t < |run[n].threads| && run[n].threads[t].pc == LockCurr
    ensures var h, th := run[n].heap, run[n].threads[t];
            && Shape(h) && Valid(h, th.prev) && Valid(h, th.curr) && h.key[th.prev] < h.key[th.curr]
            && forall m :: 0 <= m < |h.owner| && h.owner[m] == Some(t) ==> m == th.prev
  {
    RunInv(run, n);
    Facts(run[n], t);
    hide Inv, After, Legal, Keys, NoWayBack, Chain, Ascending;
  }

  /** The thread is in the middle of a call. */
  predicate Busy(s: State, t: nat) { t < |s.threads| && s.threads[t].pc != Idle }

  /** Following the owners of locks, keys grow, so somebody is not blocked. */
  lemma {:induction false} OwnerRuns(s: State, n: int) returns (t: nat)
    requires Inv(s) && Shape(s.heap) && Linked(s.heap, n) && s.heap.owner[n].Some?
    ensures Busy(s, t) && Safe(s, t) && Enabled(s, t)
    decreases MAX_KEY - s.heap.key[n]
  {
    t := s.heap.owner[n].value;
    OwnerHolds(s, n);
    Facts(s, t);
    SafeInv(s, t);
    var th := s.threads[t];
    if th.pc == LockCurr && s.heap.owner[th.curr].Some? {
      KeyInBounds(s.heap, th.curr);
      t := OwnerRuns(s, th.curr);
    }
  }

  lemma OwnerHolds(s: State, n: int)
    requires Inv(s) && 0 <= n < |s.heap.owner| && s.heap.owner[n].Some?
    ensures s.heap.owner[n].value < |s.threads| && Holding(s.threads[s.heap.owner[n].value], n)
  {
  }

  /** Deadlock freedom: while some call is in progress, some call can make a step. */
  lemma SomeCallRuns(run: seq<State>, n: nat, u: nat) returns (t: nat)
    requires IsRun(run) && n < |run| && Busy(run[n], u)
    ensures Busy(run[n], t) && Safe(run[n], t) && Enabled(run[n], t)
  {
    RunInv(run, n);
    var s := run[n];
    Facts(s, u);
    SafeInv(s, u);
    var th := s.threads[u];
    t := u;
    if th.pc == LockPrev && s.heap.owner[th.prev].Some? {
      t := OwnerRuns(s, th.prev);
    } else if th.pc == LockCurr && s.heap.owner[th.curr].Some? {
      t := OwnerRuns(s, th.curr);
    }
  }
}
