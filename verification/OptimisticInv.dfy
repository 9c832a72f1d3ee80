/** The invariant of the optimistic list: what every thread may rely on while the others
    run, and why a successful validation means what it says. */
module OptimisticInv {
  import opened Options
  import opened ListSpec
  import opened SortedChain
  import opened OptimisticList

  predicate Linked(h: Heap, n: int) { 0 <= n < |h.status| && !h.status[n].Fresh? }

  predicate In(h: Heap, n: int) { 0 <= n < |h.status| && h.status[n] == InList }

  function Listed(h: Heap): set<int> {
    set n | 0 <= n < |h.status| && In(h, n)
  }

  /** Every node ever linked, removed or not, points to a linked node with a larger key. */
  ghost predicate Ascending(h: Heap) {
    && Shape(h)
    && forall n {:trigger h.next[n]} :: Linked(h, n) && n != TAIL ==>
        Linked(h, h.next[n]) && h.key[n] < h.key[h.next[n]]
  }

  ghost predicate NodesInv(h: Heap) {
    && Shape(h) && Ascending(h) && Chain(h.key, h.next, Listed(h))
    && h.next[TAIL] == NULL && forall n :: 2 <= n < |h.key| ==> InnerKey(h.key[n])
  }

  /** From outside the set of nodes that were unlinked at some earlier moment, no pointer
      leads back into it. */
  ghost predicate NoWayBack(h: Heap, gone: set<int>) {
    && Shape(h)
    && (forall n :: n in gone ==> Valid(h, n) && h.status[n] == Removed)
    && (forall n {:trigger h.next[n]} :: Linked(h, n) && n != TAIL && n !in gone ==> h.next[n] !in gone)
  }

  predicate HoldsPrev(pc: Pc) {
    pc == LockCurr || pc == Validate || pc == Decide || pc == Link || pc == FailPrev || pc == OkPrev
  }

  predicate HoldsCurr(pc: Pc) {
    pc == Validate || pc == Decide || pc == Link || pc == FailPrev || pc == FailCurr || pc == OkPrev || pc == OkCurr
  }

  predicate Holding(th: Thread, n: int) {
    (HoldsPrev(th.pc) && n == th.prev) || (HoldsCurr(th.pc) && n == th.curr)
  }

  predicate Settled(pc: Pc) { pc == OkPrev || pc == OkCurr }

  ghost predicate WalkInv(h: Heap, th: Thread)
    requires Shape(h)
  {
    && Linked(h, th.prev) && Linked(h, th.curr) && th.prev != TAIL
    && h.key[th.prev] < th.key && h.key[th.prev] < h.key[th.curr]
    && (th.pc != Walk ==> th.key <= h.key[th.curr])
  }

  /** Before its call takes effect, an adding thread owns its unlinked node. */
  predicate NodeInv(h: Heap, th: Thread, t: nat) {
    th.op == Add && !Settled(th.pc) ==>
      Shape(h) && 2 <= th.node < |h.key| && h.status[th.node] == Fresh(t) && h.key[th.node] == th.key
        && h.owner[th.node] == None
  }

  predicate CallInv(hist: seq<Call>, th: Thread, t: nat) {
    && InnerKey(th.key) && th.began <= |hist|
    && if Settled(th.pc)
       then th.began <= th.at < |hist| && hist[th.at] == Call(t, th.op, th.key, th.result)
       else th.at == -1
  }

  predicate HeldInv(h: Heap, th: Thread, t: nat) {
    && Shape(h)
    && (HoldsPrev(th.pc) ==> Linked(h, th.prev) && h.owner[th.prev] == Some(t))
    && (HoldsCurr(th.pc) ==> Linked(h, th.curr) && h.owner[th.curr] == Some(t))
    && (HoldsPrev(th.pc) && HoldsCurr(th.pc) ==> th.prev != th.curr)
  }

  ghost predicate PlaceInv(h: Heap, th: Thread) {
    && Shape(h)
    && (th.pc != Start && !Settled(th.pc) && th.pc != FailCurr ==> WalkInv(h, th))
    && (th.pc == Validate ==>
          NoWayBack(h, th.gone) && Linked(h, th.it) && th.it !in th.gone && (In(h, th.prev) || th.prev in th.gone))
    && (th.pc == Decide || th.pc == Link ==> In(h, th.prev) && h.next[th.prev] == th.curr)
    && (th.pc == Link ==> th.op == Add && Valid(h, th.node) && h.next[th.node] == th.curr && th.key < h.key[th.curr])
  }

  ghost predicate ThreadInv(h: Heap, hist: seq<Call>, th: Thread, t: nat) {
    th.pc != Idle ==> NodeInv(h, th, t) && CallInv(hist, th, t) && HeldInv(h, th, t) && PlaceInv(h, th)
  }

  ghost predicate OwnerInv(s: State) {
    forall n :: 0 <= n < |s.heap.owner| && s.heap.owner[n].Some? ==>
      s.heap.owner[n].value < |s.threads| && Holding(s.threads[s.heap.owner[n].value], n)
  }

  /** The keys of the list. */
  function Keys(h: Heap): set<int> {
    KeysOf(h.key, Listed(h))
  }

  ghost predicate Inv(s: State) {
    && NodesInv(s.heap)
    && (forall t :: 0 <= t < |s.threads| ==> ThreadInv(s.heap, s.hist, s.threads[t], t))
    && OwnerInv(s)
    && Legal(s.hist) && After(s.hist) == Keys(s.heap)
  }

  /** What thread t may count on while others step. */
  ghost predicate Rely(h: Heap, h': Heap, t: nat) {
    && Shape(h) && Shape(h') && h.key <= h'.key
    && (forall n :: 0 <= n < |h.key| ==> RelyStatus(h.status[n], h'.status[n]))
    && (forall n :: 0 <= n < |h.key| && (h.owner[n] == Some(t) || h.status[n] == Fresh(t) || h.status[n] == Removed) ==>
          h'.status[n] == h.status[n] && h'.next[n] == h.next[n])
    && (forall n :: 0 <= n < |h.key| ==> (h.owner[n] == Some(t) <==> h'.owner[n] == Some(t)))
    && (forall n :: 0 <= n < |h.key| && h.status[n] == Fresh(t) ==> h'.owner[n] == h.owner[n])
    && (forall n {:trigger h'.next[n]} :: Linked(h', n) && n != TAIL ==>
          (Linked(h, n) && h'.next[n] == h.next[n]) || !Valid(h, h'.next[n]) || h.status[h'.next[n]] != Removed)
  }

  predicate RelyStatus(a: Status, b: Status) {
    !a.Fresh? ==> !b.Fresh?
  }

  /** The invariant of a thread survives the steps of the others. */
  lemma Stable(h: Heap, h': Heap, hist: seq<Call>, hist': seq<Call>, th: Thread, t: nat)
    requires ThreadInv(h, hist, th, t) && Rely(h, h', t) && hist <= hist'
    ensures ThreadInv(h', hist', th, t)
  {
  }
}
