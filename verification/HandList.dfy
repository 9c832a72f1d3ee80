/** The hand-over-hand list as a step machine: a thread holds the lock of one node while it
    takes the lock of the next. Removed nodes are freed and their addresses handed out
    again. Each step makes at most one access to a shared `next` field or mutex, except that
    a removal reads the successor's `next` and writes the predecessor's in one step; both
    nodes are locked then. */
module HandList {
  import opened Options
  import opened ListSpec
  import opened SortedChain

  /** State of an address: free, allocated by a thread but not linked, in the list, linked
      with its own `next` still to be written, unlinked and about to be freed. */
  datatype Status = Free | Fresh(tid: nat) | InList | Linking(tid: nat) | Doomed(tid: nat)

  /** The nodes field by field. `succ` is the successor in the list: a history variable that
      `next` catches up with when an insertion is finished. */
  datatype Heap = Heap(key: seq<int>, next: seq<int>, succ: seq<int>, owner: seq<Option<nat>>, status: seq<Status>)

  datatype Pc =
    | Idle | LockHead | ReadFirst | LockCurr | Walk | Advance | Decide | SetNode
    | UnlockPrev | UnlockCurr | Dispose

  /** `began` and `at` place the call in the sequence of calls that took effect. */
  datatype Thread = Thread(pc: Pc, op: Op, key: int, node: int, prev: int, curr: int, result: bool, began: nat, at: int)

  datatype State = State(heap: Heap, threads: seq<Thread>, hist: seq<Call>)

  predicate Shape(h: Heap) { |h.key| == |h.next| == |h.succ| == |h.owner| == |h.status| }

  predicate Valid(h: Heap, n: int) { 0 <= n < |h.key| }

  predicate Initial(s: State) {
    && s.heap == Heap([MIN_KEY, MAX_KEY], [TAIL, NULL], [TAIL, NULL], [None, None], [InList, InList])
    && (forall t :: 0 <= t < |s.threads| ==> s.threads[t].pc == Idle)
    && s.hist == []
  }

  /** The addresses that the next step of the thread touches: fields read or written,
      mutexes taken, awaited or dropped, memory freed. */
  function Touches(th: Thread): set<int> {
    match th.pc
    case Idle => {}
    case LockHead => {HEAD}
    case ReadFirst => {HEAD}
    case LockCurr => {th.curr}
    case Walk => {th.prev, th.curr}
    case Advance => {th.curr}
    case Decide => if th.op == Add then {th.prev, th.curr, th.node} else {th.prev, th.curr}
    case SetNode => {th.node}
    case UnlockPrev => {th.prev}
    case UnlockCurr => {th.curr}
    case Dispose => {th.curr}
  }

  /** Nothing that the thread is about to touch is null, wild or freed. */
  predicate Safe(s: State, t: nat)
    requires t < |s.threads|
  {
    Shape(s.heap) && forall n :: n in Touches(s.threads[t]) ==> Valid(s.heap, n) && s.heap.status[n] != Free
  }

  /** malloc may hand out any free address or a new one. */
  predicate Available(h: Heap, a: int)
    requires Shape(h)
  {
    a == |h.key| || (Valid(h, a) && h.status[a] == Free)
  }

  predicate Enabled(s: State, t: nat)
    requires t < |s.threads| && Safe(s, t)
  {
    var th := s.threads[t];
    match th.pc
    case LockHead => assert HEAD in Touches(th); s.heap.owner[HEAD] == None
    case LockCurr => assert th.curr in Touches(th); s.heap.owner[th.curr] == None
    case _ => true
  }

  function Put(s: State, t: nat, th: Thread): State
    requires t < |s.threads|
  {
    s.(threads := s.threads[t := th])
  }

  function SetOwner(h: Heap, n: int, o: Option<nat>): Heap
    requires Shape(h) && Valid(h, n)
  {
    h.(owner := h.owner[n := o])
  }

  function Allocate(h: Heap, a: int, key: int, t: nat): Heap
    requires Shape(h) && Available(h, a)
  {
    if a == |h.key| then
      Heap(h.key + [key], h.next + [NULL], h.succ + [NULL], h.owner + [None], h.status + [Fresh(t)])
    else
      h.(key := h.key[a := key], owner := h.owner[a := None], status := h.status[a := Fresh(t)])
  }

  function LinkNode(h: Heap, p: int, z: int, c: int, t: nat): Heap
    requires Shape(h) && Valid(h, p) && Valid(h, z)
  {
    h.(next := h.next[p := z], succ := h.succ[z := c][p := z], status := h.status[z := Linking(t)])
  }

  function CompleteNode(h: Heap, z: int, c: int): Heap
    requires Shape(h) && Valid(h, z)
  {
    h.(next := h.next[z := c], status := h.status[z := InList])
  }

  function UnlinkNode(h: Heap, p: int, c: int, t: nat): Heap
    requires Shape(h) && Valid(h, p) && Valid(h, c)
  {
    h.(next := h.next[p := h.next[c]], succ := h.succ[p := h.next[c]], status := h.status[c := Doomed(t)])
  }

  function FreeNode(h: Heap, c: int): Heap
    requires Shape(h) && Valid(h, c)
  {
    h.(status := h.status[c := Free])
  }

  /** The call takes effect: its answer is fixed and recorded. */
  function Settle(s: State, t: nat, heap: Heap, result: bool, pc: Pc): State
    requires t < |s.threads|
  {
    var th := s.threads[t];
    State(heap, s.threads[t := th.(pc := pc, result := result, at := |s.hist|)],
          s.hist + [Call(t, th.op, th.key, result)])
  }

  function DoDecide(s: State, t: nat): State
    requires t < |s.threads| && s.threads[t].pc == Decide && Safe(s, t)
  {
    var th := s.threads[t];
    assert th.prev in Touches(th) && th.curr in Touches(th) && (th.op == Add ==> th.node in Touches(th));
    var found := s.heap.key[th.curr] == th.key;
    match th.op
    case Add =>
      if found then Settle(s, t, s.heap, false, UnlockPrev)
      else Settle(s, t, LinkNode(s.heap, th.prev, th.node, th.curr, t), true, SetNode)
    case Remove =>
      if found then Settle(s, t, UnlinkNode(s.heap, th.prev, th.curr, t), true, UnlockPrev)
      else Settle(s, t, s.heap, false, UnlockPrev)
    case Contains => Settle(s, t, s.heap, found, UnlockPrev)
  }

  /** The state after thread t takes its next step; `op`, `key` and `a` are the call it
      starts when idle and the address that malloc returns for it. */
  function Do(s: State, t: nat, op: Op, key: int, a: int): State
    requires t < |s.threads| && Safe(s, t) && Available(s.heap, a)
  {
    var th := s.threads[t];
    assert forall n :: n in Touches(th) ==> Valid(s.heap, n);
    match th.pc
    case Idle =>
      var th' := th.(pc := LockHead, op := op, key := key, node := a, began := |s.hist|, at := -1);
      if op == Add then Put(s.(heap := Allocate(s.heap, a, key, t)), t, th') else Put(s, t, th')
    case LockHead =>
      assert HEAD in Touches(th);
      Put(s.(heap := SetOwner(s.heap, HEAD, Some(t))), t, th.(pc := ReadFirst, prev := HEAD))
    case ReadFirst =>
      assert HEAD in Touches(th);
      Put(s, t, th.(pc := LockCurr, curr := s.heap.next[HEAD]))
    case LockCurr =>
      assert th.curr in Touches(th);
      Put(s.(heap := SetOwner(s.heap, th.curr, Some(t))), t, th.(pc := Walk))
    case Walk =>
      assert th.prev in Touches(th) && th.curr in Touches(th);
      if s.heap.key[th.curr] < th.key then Put(s.(heap := SetOwner(s.heap, th.prev, None)), t, th.(pc := Advance))
      else Put(s, t, th.(pc := Decide))
    case Advance =>
      assert th.curr in Touches(th);
      Put(s, t, th.(pc := LockCurr, prev := th.curr, curr := s.heap.next[th.curr]))
    case Decide => DoDecide(s, t)
    case SetNode =>
      assert th.node in Touches(th);
      Put(s.(heap := CompleteNode(s.heap, th.node, th.curr)), t, th.(pc := UnlockPrev))
    case UnlockPrev =>
      assert th.prev in Touches(th);
      Put(s.(heap := SetOwner(s.heap, th.prev, None)), t, th.(pc := UnlockCurr))
    case UnlockCurr =>
      assert th.curr in Touches(th);
      var pc := if th.op == Remove && th.result then Dispose else Idle;
      Put(s.(heap := SetOwner(s.heap, th.curr, None)), t, th.(pc := pc))
    case Dispose =>
      assert th.curr in Touches(th);
      Put(s.(heap := FreeNode(s.heap, th.curr)), t, th.(pc := Idle))
  }

  predicate Step(s: State, s': State, t: nat, op: Op, key: int, a: int) {
    && t < |s.threads| && InnerKey(key) && Safe(s, t) && Enabled(s, t) && Available(s.heap, a)
    && s' == Do(s, t, op, key, a)
  }

  ghost predicate Next(s: State, s': State) {
    exists t: nat, op: Op, key: int, a: int :: Step(s, s', t, op, key, a)
  }

  ghost predicate IsRun(run: seq<State>) {
    && |run| > 0 && Initial(run[0])
    && forall n :: 0 <= n < |run| - 1 ==> Next(run[n], run[n + 1])
  }
}
