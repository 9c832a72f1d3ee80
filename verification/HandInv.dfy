/** The invariant of the hand-over-hand list and what each thread may rely on. */
module HandInv {
  import opened Options
  import opened ListSpec
  import opened SortedChain
  import opened HandList

  predicate In(h: Heap, n: int) { 0 <= n < |h.status| && (h.status[n].InList? || h.status[n].Linking?) }

  function Listed(h: Heap): set<int> {
    set n | 0 <= n < |h.status| && In(h, n)
  }

  function Keys(h: Heap): set<int> { KeysOf(h.key, Listed(h)) }

  ghost predicate HeapInv(h: Heap) {
    && Shape(h) && Chain(h.key, h.succ, Listed(h)) && h.succ[TAIL] == NULL
    && h.status[HEAD] == InList && h.status[TAIL] == InList
    && (forall n {:trigger h.next[n]} :: 0 <= n < |h.key| && h.status[n] == InList && n != TAIL ==>
        h.next[n] == h.succ[n])
    && (forall n :: 0 <= n < |h.key| && h.owner[n].Some? ==> h.status[n].InList? || h.status[n].Doomed?)
  }

  predicate HoldsPrev(pc: Pc) {
    pc == ReadFirst || pc == LockCurr || pc == Walk || pc == Decide || pc == SetNode || pc == UnlockPrev
  }

  predicate HoldsCurr(pc: Pc) {
    pc == Walk || pc == Advance || pc == Decide || pc == SetNode || pc == UnlockPrev || pc == UnlockCurr
  }

  predicate Holding(th: Thread, n: int) {
    (HoldsPrev(th.pc) && n == th.prev) || (HoldsCurr(th.pc) && n == th.curr)
  }

  predicate Settled(pc: Pc) { pc == SetNode || pc == UnlockPrev || pc == UnlockCurr || pc == Dispose }

  predicate NodeInv(h: Heap, th: Thread, t: nat) {
    && Shape(h)
    && (th.op == Add && !Settled(th.pc) ==>
          2 <= th.node < |h.key| && h.status[th.node] == Fresh(t) && h.key[th.node] == th.key)
    && (th.pc == SetNode ==>
          2 <= th.node < |h.key| && h.status[th.node] == Linking(t) && h.succ[th.node] == th.curr)
    && (th.op == Remove && Settled(th.pc) && th.result ==>
          2 <= th.curr < |h.key| && h.status[th.curr] == Doomed(t))
    && (th.pc == Dispose ==> th.op == Remove && th.result && Valid(h, th.curr) && h.owner[th.curr] == None)
  }

  predicate CallInv(hist: seq<Call>, th: Thread, t: nat) {
    && InnerKey(th.key) && th.began <= |hist|
    && if Settled(th.pc)
       then th.began <= th.at < |hist| && hist[th.at] == Call(t, th.op, th.key, th.result)
       else th.at == -1
  }

  predicate HeldInv(h: Heap, th: Thread, t: nat) {
    && Shape(h)
    && (HoldsPrev(th.pc) ==>
          Valid(h, th.prev) && h.owner[th.prev] == Some(t) && h.status[th.prev] == InList && th.prev != TAIL)
    && (HoldsCurr(th.pc) ==> Valid(h, th.curr) && h.owner[th.curr] == Some(t))
    && (HoldsCurr(th.pc) && !(th.op == Remove && Settled(th.pc) && th.result) ==> h.status[th.curr] == InList)
    && (HoldsPrev(th.pc) && HoldsCurr(th.pc) ==> th.prev != th.curr)
  }

  predicate PlaceInv(h: Heap, th: Thread)
    requires Shape(h)
  {
    && (th.pc == ReadFirst ==> th.prev == HEAD)
    && (th.pc == LockCurr || th.pc == Walk || th.pc == Decide ==>
          Valid(h, th.prev) && h.succ[th.prev] == th.curr && h.key[th.prev] < th.key)
    && (th.pc == Advance ==> Valid(h, th.curr) && th.curr != TAIL && h.key[th.curr] < th.key)
    && (th.pc == Decide ==> Valid(h, th.curr) && th.key <= h.key[th.curr])
    && (th.pc == SetNode ==> Valid(h, th.prev) && h.succ[th.prev] == th.node && th.op == Add)
  }

  predicate ThreadInv(h: Heap, hist: seq<Call>, th: Thread, t: nat) {
    th.pc != Idle ==> NodeInv(h, th, t) && CallInv(hist, th, t) && HeldInv(h, th, t) && PlaceInv(h, th)
  }

  ghost predicate OwnerInv(s: State) {
    forall n :: 0 <= n < |s.heap.owner| && s.heap.owner[n].Some? ==>
      s.heap.owner[n].value < |s.threads| && Holding(s.threads[s.heap.owner[n].value], n)
  }

  /** A half-linked node belongs to a thread that is about to complete it. */
  ghost predicate LinkInv(s: State) {
    forall n :: 0 <= n < |s.heap.status| && s.heap.status[n].Linking? ==>
      var t := s.heap.status[n].tid; t < |s.threads| && s.threads[t].pc == SetNode && s.threads[t].node == n
  }

  ghost predicate Inv(s: State) {
    && HeapInv(s.heap)
    && (forall t :: 0 <= t < |s.threads| ==> ThreadInv(s.heap, s.hist, s.threads[t], t))
    && OwnerInv(s) && LinkInv(s)
    && Legal(s.hist) && After(s.hist) == Keys(s.heap)
  }

  predicate Tagged(st: Status, t: nat) { st == Fresh(t) || st == Linking(t) || st == Doomed(t) }

  /** What thread t may count on while others step: its locks, its nodes, and the fields of
      the nodes it has locked. */
  ghost predicate Rely(h: Heap, h': Heap, t: nat) {
    && Shape(h) && Shape(h') && |h.key| <= |h'.key|
    && (forall n :: 0 <= n < |h.key| ==> (h.owner[n] == Some(t) <==> h'.owner[n] == Some(t)))
    && (forall n :: 0 <= n < |h.key| && (h.owner[n] == Some(t) || Tagged(h.status[n], t)) ==>
          && h'.key[n] == h.key[n] && h'.next[n] == h.next[n] && h'.succ[n] == h.succ[n] && h'.status[n] == h.status[n]
          && h'.owner[n] == h.owner[n])
  }

  /** The invariant of a thread survives the steps of the others. */
  lemma Stable(h: Heap, h': Heap, hist: seq<Call>, hist': seq<Call>, th: Thread, t: nat)
    requires ThreadInv(h, hist, th, t) && Rely(h, h', t) && hist <= hist'
    ensures ThreadInv(h', hist', th, t)
  {
  }
}
