/** The optimistic list as a step machine: threads walk without locks, lock two nodes,
    validate with a second unlocked walk and then act. Each step makes at most one
    access to a shared `next` field or mutex, except that a removal reads the successor's
    `next` and writes the predecessor's in one step; both nodes are locked then. */
module OptimisticList {
  import opened Options
  import opened ListSpec
  import opened SortedChain

  /** History of a node: allocated by a thread but not linked, in the list, unlinked. */
  datatype Status = Fresh(tid: nat) | InList | Removed

  /** The nodes, field by field: node n has key[n], next[n], the mutex owner[n] and the
      history status[n]. */
  datatype Heap = Heap(key: seq<int>, next: seq<int>, owner: seq<Option<nat>>, status: seq<Status>)

  datatype Pc =
    | Idle | Start | Walk | LockPrev | LockCurr | Validate | Decide | Link
    | FailPrev | FailCurr | OkPrev | OkCurr

  /** `gone` is the set of unlinked nodes when validation began, `began` the number of
      calls that had taken effect at invocation and `at` the place of this call among
      them (-1 before it takes effect): history variables. */
  datatype Thread = Thread(pc: Pc, op: Op, key: int, node: int, prev: int, curr: int, it: int,
                           result: bool, gone: set<int>, began: nat, at: int)

  datatype State = State(heap: Heap, threads: seq<Thread>, hist: seq<Call>)

  predicate Initial(s: State) {
    && s.heap == Heap([MIN_KEY, MAX_KEY], [TAIL, NULL], [None, None], [InList, InList])
    && (forall t :: 0 <= t < |s.threads| ==> s.threads[t].pc == Idle)
    && s.hist == []
  }

  predicate Shape(h: Heap) { |h.key| == |h.next| == |h.owner| == |h.status| }

  predicate Valid(h: Heap, n: int) { 0 <= n < |h.key| }

  /** The pointers that the next step of the thread follows. */
  function Follows(th: Thread): set<int> {
    match th.pc
    case Idle => {}
    case Start => {HEAD}
    case Walk => {th.curr}
    case LockPrev => {th.prev}
    case LockCurr => {th.curr}
    case Validate => {th.it, th.prev}
    case Decide => if th.op == Add then {th.prev, th.curr, th.node} else {th.prev, th.curr}
    case Link => {th.prev, th.node}
    case FailPrev => {th.prev}
    case FailCurr => {th.curr}
    case OkPrev => {th.prev}
    case OkCurr => {th.curr}
  }

  /** No null or wild pointer is about to be followed. */
  predicate Safe(s: State, t: nat)
    requires t < |s.threads|
  {
    Shape(s.heap) && forall n :: n in Follows(s.threads[t]) ==> Valid(s.heap, n)
  }

  predicate Enabled(s: State, t: nat)
    requires t < |s.threads| && Safe(s, t)
  {
    var th := s.threads[t];
    match th.pc
    case LockPrev => assert th.prev in Follows(th); s.heap.owner[th.prev] == None
    case LockCurr => assert th.curr in Follows(th); s.heap.owner[th.curr] == None
    case _ => true
  }

  function Put(s: State, t: nat, th: Thread): State
    requires t < |s.threads|
  {
    s.(threads := s.threads[t := th])
  }

  function SetOwner(h: Heap, n: int, o: Option<nat>): Heap
    requires Shape(h) && Valid(h, n)
  {
    h.(owner := h.owner[n := o])
  }

  function SetNext(h: Heap, n: int, next: int): Heap
    requires Shape(h) && Valid(h, n)
  {
    h.(next := h.next[n := next])
  }

  function SetStatus(h: Heap, n: int, status: Status): Heap
    requires Shape(h) && Valid(h, n)
  {
    h.(status := h.status[n := status])
  }

  function Allocate(h: Heap, key: int, t: nat): Heap {
    Heap(h.key + [key], h.next + [NULL], h.owner + [None], h.status + [Fresh(t)])
  }

  function Gone(h: Heap): set<int> {
    set n | 0 <= n < |h.status| && h.status[n] == Removed
  }

  /** The call takes effect: its answer is fixed and recorded. */
  function Settle(s: State, t: nat, heap: Heap, result: bool): State
    requires t < |s.threads|
  {
    var th := s.threads[t];
    State(heap, s.threads[t := th.(pc := OkPrev, result := result, at := |s.hist|)],
          s.hist + [Call(t, th.op, th.key, result)])
  }

  function DoValidate(s: State, t: nat): State
    requires t < |s.threads| && s.threads[t].pc == Validate && Safe(s, t)
  {
    var th := s.threads[t];
    assert th.it in Follows(th) && th.prev in Follows(th);
    if s.heap.key[th.it] <= s.heap.key[th.prev] then
      if th.it == th.prev then
        Put(s, t, th.(pc := if s.heap.next[th.it] == th.curr then Decide else FailPrev))
      else
        Put(s, t, th.(it := s.heap.next[th.it]))
    else
      Put(s, t, th.(pc := FailPrev))
  }

  function DoDecide(s: State, t: nat): State
    requires t < |s.threads| && s.threads[t].pc == Decide && Safe(s, t)
  {
    var th := s.threads[t];
    assert th.prev in Follows(th) && th.curr in Follows(th) && (th.op == Add ==> th.node in Follows(th));
    var found := s.heap.key[th.curr] == th.key;
    match th.op
    case Add =>
      if found then Settle(s, t, s.heap, false)
      else Put(s.(heap := SetNext(s.heap, th.node, th.curr)), t, th.(pc := Link))
    case Remove =>
      if found then
        Settle(s, t, SetStatus(SetNext(s.heap, th.prev, s.heap.next[th.curr]), th.curr, Removed), true)
      else Settle(s, t, s.heap, false)
    case Contains => Settle(s, t, s.heap, found)
  }

  /** The state after thread t takes its next step; `op` and `key` are the call it starts
      when it is idle. */
  function Do(s: State, t: nat, op: Op, key: int): State
    requires t < |s.threads| && Safe(s, t)
  {
    var th := s.threads[t];
    assert forall n :: n in Follows(th) ==> Valid(s.heap, n);
    match th.pc
    case Idle =>
      var th' := th.(pc := Start, op := op, key := key, node := |s.heap.key|, began := |s.hist|, at := -1);
      if op == Add then Put(s.(heap := Allocate(s.heap, key, t)), t, th') else Put(s, t, th')
    case Start =>
      assert HEAD in Follows(th);
      Put(s, t, th.(pc := Walk, prev := HEAD, curr := s.heap.next[HEAD]))
    case Walk =>
      assert th.curr in Follows(th);
      if s.heap.key[th.curr] < th.key then Put(s, t, th.(prev := th.curr, curr := s.heap.next[th.curr]))
      else Put(s, t, th.(pc := LockPrev))
    case LockPrev =>
      assert th.prev in Follows(th);
      Put(s.(heap := SetOwner(s.heap, th.prev, Some(t))), t, th.(pc := LockCurr))
    case LockCurr =>
      assert th.curr in Follows(th);
      Put(s.(heap := SetOwner(s.heap, th.curr, Some(t))), t, th.(pc := Validate, it := HEAD, gone := Gone(s.heap)))
    case Validate => DoValidate(s, t)
    case Decide => DoDecide(s, t)
    case Link =>
      assert th.prev in Follows(th) && th.node in Follows(th);
      Settle(s, t, SetStatus(SetNext(s.heap, th.prev, th.node), th.node, InList), true)
    case FailPrev =>
      assert th.prev in Follows(th);
      Put(s.(heap := SetOwner(s.heap, th.prev, None)), t, th.(pc := FailCurr))
    case FailCurr =>
      assert th.curr in Follows(th);
      Put(s.(heap := SetOwner(s.heap, th.curr, None)), t, th.(pc := Start))
    case OkPrev =>
      assert th.prev in Follows(th);
      Put(s.(heap := SetOwner(s.heap, th.prev, None)), t, th.(pc := OkCurr))
    case OkCurr =>
      assert th.curr in Follows(th);
      Put(s.(heap := SetOwner(s.heap, th.curr, None)), t, th.(pc := Idle))
  }

  predicate Step(s: State, s': State, t: nat, op: Op, key: int) {
    && t < |s.threads| && InnerKey(key) && Safe(s, t) && Enabled(s, t)
    && s' == Do(s, t, op, key)
  }

  ghost predicate Next(s: State, s': State) {
    exists t: nat, op: Op, key: int :: Step(s, s', t, op, key)
  }

  ghost predicate IsRun(run: seq<State>) {
    && |run| > 0 && Initial(run[0])
    && forall n :: 0 <= n < |run| - 1 ==> Next(run[n], run[n + 1])
  }
}
