/** The transaction engine as a step machine: any number of threads run
    `j += i + 1; k -= i` over shared records. A step is one critical section of a
    record lock, one access to a record, one release, or one piece of work done while
    the global mutex is held; the mutex itself is part of the state. */
module Engine {
  import opened Options
  import opened LockManager

  /** One line of a thread's output file. */
  datatype Entry = Entry(cid: int, i: nat, j: nat, k: nat, vi: int, vj: int, vk: int)

  datatype Pc =
    | Top                    // loop test
    | Request(s: LockType)   // about to take the global mutex and call deadlock_check
    | Locking(s: LockType)   // in getLock, queue not passed yet
    | Draining(s: LockType)  // writer has claimed the lock, waits for readers to leave
    | Flagging(s: LockType)  // lock taken, grant flag not set yet
    | Rejoin(s: LockType)    // getLock returned; release the global mutex or pass through it
    | Reading(s: LockType)
    | Writing(s: LockType)
    | Finish                 // about to take the global mutex to finish
    | Release(m: nat, n: nat) // mutex held, m of the n locks released
    | Done

  datatype Thread = Thread(pc: Pc, i: nat, j: nat, k: nat, iv: int, jv: int, kv: int, file: seq<Entry>)

  /** `log` lists the committed lines in the order of their commits: a history variable. */
  datatype State = State(mon: Mon, rw: seq<RW>, value: seq<int>, mutex: Option<nat>,
                         order: int, limit: int, threads: seq<Thread>, log: seq<Entry>)

  function Rank(s: LockType): nat {
    match s case R => 0 case W1 => 1 case W2 => 2
  }

  function KindAt(n: nat): LockType {
    if n == 0 then R else if n == 1 then W1 else W2
  }

  function RecOf(th: Thread, s: LockType): nat {
    match s case R => th.i case W1 => th.j case W2 => th.k
  }

  function Req(th: Thread, t: nat, s: LockType): LockInfo {
    LockInfo(RecOf(th, s), s, t, false)
  }

  /** The shape of a state: table sizes agree and every transaction names three
      distinct records. */
  predicate Shape(s: State) {
    && |s.mon.depend| == |s.threads|
    && |s.mon.queue| == |s.rw| == |s.value|
    && 3 <= |s.value|
    && forall t :: 0 <= t < |s.threads| ==> ThreadShape(s.threads[t], |s.value|)
  }

  predicate ThreadShape(th: Thread, records: nat) {
    && th.i < records && th.j < records && th.k < records
    && th.i != th.j && th.i != th.k && th.j != th.k
    && (th.pc.Release? ==> 1 <= th.pc.n <= 3 && th.pc.m <= th.pc.n)
    && (th.pc.Draining? ==> th.pc.s != R)
    && (th.pc.Writing? ==> th.pc.s != R)
  }

  predicate Initial(s: State) {
    && Shape(s)
    && (forall x :: 0 <= x < |s.value| ==> s.value[x] == 100 && s.rw[x] == RW(0, false) && s.mon.queue[x] == [])
    && (forall t :: 0 <= t < |s.threads| ==> s.mon.depend[t] == {} && s.threads[t].pc == Top && s.threads[t].file == [])
    && s.mutex == None && s.order == 0 && s.log == []
  }

  /** Can thread t take its next step, or is it blocked? */
  predicate Enabled(s: State, t: nat)
    requires Shape(s) && t < |s.threads|
  {
    var th := s.threads[t];
    match th.pc
    case Request(_) => s.mutex == None
    case Finish => s.mutex == None
    case Rejoin(_) => s.mutex == None || s.mutex == Some(t)
    case Locking(kind) =>
      var x := RecOf(th, kind);
      Eligible(s.mon.queue[x], Req(th, t, kind)) && !s.rw[x].writing
    case Draining(kind) => s.rw[RecOf(th, kind)].numReader == 0
    case Done => false
    case _ => true
  }

  predicate Distinct(c: (nat, nat, nat), records: nat) {
    c.0 < records && c.1 < records && c.2 < records && c.0 != c.1 && c.0 != c.2 && c.1 != c.2
  }

  /** What every step leaves alone: sizes, the limit, the other threads. */
  predicate Framed(s: State, s': State, t: nat) {
    && Shape(s') && |s'.threads| == |s.threads| && |s'.value| == |s.value| && s'.limit == s.limit
    && forall u :: 0 <= u < |s.threads| && u != t ==> s'.threads[u] == s.threads[u]
  }

  function Put(s: State, t: nat, th: Thread): State
    requires t < |s.threads|
  {
    s.(threads := s.threads[t := th])
  }

  function Goto(s: State, t: nat, pc: Pc): State
    requires t < |s.threads|
  {
    Put(s, t, s.threads[t].(pc := pc))
  }

  /** The next state when thread t takes its step; `c` is the choice of records made at
      the top of the loop. */
  ghost function Do(s: State, t: nat, c: (nat, nat, nat)): (s': State)
    requires Shape(s) && t < |s.threads| && Distinct(c, |s.value|)
    ensures Framed(s, s', t)
  {
    var th := s.threads[t];
    match th.pc
    case Top =>
      if s.order < s.limit then Put(s, t, th.(pc := Request(R), i := c.0, j := c.1, k := c.2))
      else Goto(s, t, Done)
    case Request(kind) => DoRequest(s, t, kind)
    case Locking(kind) => DoLocking(s, t, kind)
    case Draining(kind) => Goto(s, t, Flagging(kind))
    case Flagging(kind) =>
      var x := RecOf(th, kind);
      var q := Flag(s.mon.queue[x], Req(th, t, kind));
      Goto(s.(mon := s.mon.(queue := s.mon.queue[x := q])), t, Rejoin(kind))
    case Rejoin(kind) => Goto(s.(mutex := None), t, Reading(kind))
    case Reading(kind) => DoReading(s, t, kind)
    case Writing(kind) =>
      if kind == W1 then Goto(s.(value := s.value[th.j := th.jv + th.iv + 1]), t, Request(W2))
      else Goto(s.(value := s.value[th.k := th.kv - th.iv]), t, Finish)
    case Finish => Goto(s.(mutex := Some(t)), t, Release(0, 3))
    case Release(m, n) =>
      if m < n then DoRelease(s, t, m, n)
      else if n < 3 then Goto(s.(mutex := None), t, Top)
      else DoDecide(s, t)
    case Done => s
  }

  /** lock the global mutex; deadlock_check; and what its three answers lead to. */
  ghost function DoRequest(s: State, t: nat, kind: LockType): (s': State)
    requires Shape(s) && t < |s.threads|
    ensures Framed(s, s', t)
  {
    var th := s.threads[t];
    var req := Req(th, t, kind);
    var edges := AddEdges(s.mon, req);
    if Reaches(edges.depend, t, t) then
      match kind
      case R => Goto(s.(mon := edges, mutex := Some(t)), t, Top)
      case W1 => Goto(s.(mon := edges, mutex := Some(t)), t, Release(0, 1))
      case W2 => Goto(s.(mon := edges, mutex := Some(t), value := s.value[th.j := th.jv]), t, Release(0, 2))
    else
      var mon := Enqueue(edges, req);
      var get := Immediate(mon.queue[req.index], req);
      Goto(s.(mon := mon, mutex := if get then Some(t) else None), t, Locking(kind))
  }

  function DoLocking(s: State, t: nat, kind: LockType): (s': State)
    requires Shape(s) && t < |s.threads|
    ensures Framed(s, s', t)
  {
    var x := RecOf(s.threads[t], kind);
    Goto(s.(rw := s.rw[x := Admit(s.rw[x], kind)]), t, if kind == R then Flagging(kind) else Draining(kind))
  }

  function DoReading(s: State, t: nat, kind: LockType): (s': State)
    requires Shape(s) && t < |s.threads|
    ensures Framed(s, s', t)
  {
    var th := s.threads[t];
    match kind
    case R => Put(s, t, th.(pc := Request(W1), iv := s.value[th.i]))
    case W1 => Put(s, t, th.(pc := Writing(W1), jv := s.value[th.j]))
    case W2 => Put(s, t, th.(pc := Writing(W2), kv := s.value[th.k]))
  }

  /** releaseLock on the next lock of the thread: queue entry, graph and lock in one step. */
  function DoRelease(s: State, t: nat, m: nat, n: nat): (s': State)
    requires Shape(s) && t < |s.threads| && m < n <= 3
    ensures Framed(s, s', t)
  {
    var th := s.threads[t];
    var kind := KindAt(m);
    var x := RecOf(th, kind);
    var rw := s.rw[x := Dismiss(s.rw[x], kind)];
    Goto(s.(mon := DeleteLock(s.mon, Req(th, t, kind)), rw := rw), t, Release(m + 1, n))
  }

  /** Draw a commit id; log the transaction, or roll it back and stop when the id is
      over the limit. */
  function DoDecide(s: State, t: nat): (s': State)
    requires Shape(s) && t < |s.threads|
    ensures Framed(s, s', t)
  {
    var th := s.threads[t];
    var cid := s.order + 1;
    if cid <= s.limit then
      var e := Entry(cid, th.i, th.j, th.k, s.value[th.i], s.value[th.j], s.value[th.k]);
      Put(s.(order := cid, mutex := None, log := s.log + [e]), t, th.(pc := Top, file := th.file + [e]))
    else
      Goto(s.(order := cid, mutex := None, value := s.value[th.i := th.iv][th.j := th.jv][th.k := th.kv]), t, Done)
  }

  ghost predicate Step(s: State, s': State, t: nat, c: (nat, nat, nat)) {
    && Shape(s) && t < |s.threads| && Distinct(c, |s.value|)
    && Enabled(s, t) && s' == Do(s, t, c)
  }

  ghost predicate Next(s: State, s': State) {
    exists t: nat, c: (nat, nat, nat) :: Step(s, s', t, c)
  }

  /** A run: an initial state followed by steps of arbitrary threads. */
  ghost predicate IsRun(run: seq<State>) {
    && |run| > 0 && Initial(run[0])
    && forall n :: 0 <= n < |run| - 1 ==> Next(run[n], run[n + 1])
  }
}
