/** The lock manager of the transaction engine: per-record request queues, the
    wait-for graph with its breadth-first cycle test, and the reader/writer lock
    that consults the queue before it lets a request in. */
module LockManager {

  datatype LockType = R | W1 | W2

  datatype LockInfo = LockInfo(index: nat, kind: LockType, tid: nat, getLock: bool)

  datatype Status = Get | Waiting | Deadlock

  /** The monitor's state as a value: one request queue per record and one set of
      awaited threads per thread. */
  datatype Mon = Mon(queue: seq<seq<LockInfo>>, depend: seq<set<nat>>)

  /** The counters of one reader/writer lock. */
  datatype RW = RW(numReader: int, writing: bool)

  /** Whom a release notifies: every request waiting for its turn, the writer waiting for
      readers to leave, or nobody. */
  datatype Wake = WakeQueue | WakeDrain | WakeNobody

  function Admit(rw: RW, kind: LockType): RW {
    if kind == R then rw.(numReader := rw.numReader + 1) else rw.(writing := true)
  }

  function Dismiss(rw: RW, kind: LockType): RW {
    if kind == R then rw.(numReader := rw.numReader - 1) else rw.(writing := false)
  }

  /** The notification after a release that left the counters at `rw`. */
  function Notice(rw: RW, kind: LockType): Wake {
    if kind != R || !rw.writing then WakeQueue else if rw.numReader == 0 then WakeDrain else WakeNobody
  }

  /** Equality of requests: the grant flag does not take part. */
  predicate Same(a: LockInfo, b: LockInfo) {
    a.index == b.index && a.kind == b.kind && a.tid == b.tid
  }

  predicate Conflict(a: LockInfo, b: LockInfo) {
    a.kind != R || b.kind != R
  }

  /** Position of the first request equal to `req`, or the length of the queue. */
  function Pos(q: seq<LockInfo>, req: LockInfo): (p: nat)
    ensures p <= |q|
    ensures p < |q| ==> Same(q[p], req)
    ensures forall a :: 0 <= a < p ==> !Same(q[a], req)
  {
    if |q| == 0 || Same(q[0], req) then 0 else 1 + Pos(q[1..], req)
  }

  /** May `req` pass the queue? A reader needs readers only in front of it, a writer
      readers only that already carry the grant flag. */
  predicate Eligible(q: seq<LockInfo>, req: LockInfo) {
    forall a :: 0 <= a < Pos(q, req) ==> q[a].kind == R && (req.kind == R || q[a].getLock)
  }

  /** The requests that `req` has to wait for if it is appended to `q`. */
  function ConflictTids(q: seq<LockInfo>, req: LockInfo): set<nat> {
    set a | 0 <= a < |q| && Conflict(q[a], req) :: q[a].tid
  }

  function AddEdges(m: Mon, req: LockInfo): Mon
    requires req.index < |m.queue| && req.tid < |m.depend|
  {
    m.(depend := m.depend[req.tid := m.depend[req.tid] + ConflictTids(m.queue[req.index], req)])
  }

  function Enqueue(m: Mon, req: LockInfo): Mon
    requires req.index < |m.queue|
  {
    m.(queue := m.queue[req.index := m.queue[req.index] + [req]])
  }

  /** The request gets its lock at once: it is first, or a reader behind readers only. */
  predicate Immediate(q: seq<LockInfo>, req: LockInfo) {
    Pos(q, req) == 0 || (req.kind == R && forall a :: 0 <= a < Pos(q, req) ==> q[a].kind == R)
  }

  /** A new request gets its lock at once exactly if nothing queued conflicts with it. */
  lemma ImmediateIff(q: seq<LockInfo>, req: LockInfo)
    requires forall a :: 0 <= a < |q| ==> !Same(q[a], req)
    ensures Immediate(q + [req], req) <==> forall a :: 0 <= a < |q| ==> !Conflict(q[a], req)
  {
    AppendedLast(q, req);
    assert forall a :: 0 <= a < |q| ==> (q + [req])[a] == q[a];
    assert |q| > 0 && req.kind != R ==> Conflict(q[0], req);
  }

  lemma AppendedLast(q: seq<LockInfo>, req: LockInfo)
    requires forall a :: 0 <= a < |q| ==> !Same(q[a], req)
    ensures Pos(q + [req], req) == |q|
  {
    assert (q + [req])[|q|] == req;
    assert forall a :: 0 <= a < |q| ==> (q + [req])[a] == q[a];
  }

  function Erase(q: seq<LockInfo>, req: LockInfo): seq<LockInfo> {
    var p := Pos(q, req);
    if p < |q| then q[..p] + q[p + 1..] else q
  }

  function Forget(depend: seq<set<nat>>, tid: nat): seq<set<nat>> {
    seq(|depend|, t requires 0 <= t < |depend| => if t == tid then {} else depend[t] - {tid})
  }

  function DeleteLock(m: Mon, req: LockInfo): Mon
    requires req.index < |m.queue| && req.tid < |m.depend|
  {
    Mon(m.queue[req.index := Erase(m.queue[req.index], req)], Forget(m.depend, req.tid))
  }

  function Flag(q: seq<LockInfo>, req: LockInfo): seq<LockInfo> {
    seq(|q|, a requires 0 <= a < |q| => if Same(q[a], req) then q[a].(getLock := true) else q[a])
  }

  // ---- the wait-for graph ----

  ghost predicate IsPath(d: seq<set<nat>>, p: seq<nat>, u: nat, v: nat) {
    && |p| >= 2 && p[0] == u && p[|p| - 1] == v
    && forall a :: 0 <= a < |p| - 1 ==> p[a] < |d| && p[a + 1] in d[p[a]]
  }

  /** There is a path of at least one edge from u to v. */
  ghost predicate Reaches(d: seq<set<nat>>, u: nat, v: nat) {
    exists p: seq<nat> :: IsPath(d, p, u, v)
  }

  function Below(n: nat): (s: set<nat>)
    ensures forall t: nat :: t in s <==> t < n
  {
    if n == 0 then {} else Below(n - 1) + {n - 1}
  }

  ghost predicate Closed(d: seq<set<nat>>) {
    forall t, u :: 0 <= t < |d| && u in d[t] ==> u < |d|
  }

  ghost predicate Acyclic(d: seq<set<nat>>) {
    forall t :: 0 <= t < |d| ==> !Reaches(d, t, t)
  }

  lemma ReachesStep(d: seq<set<nat>>, u: nat, v: nat)
    requires u < |d| && v in d[u]
    ensures Reaches(d, u, v)
  {
    assert IsPath(d, [u, v], u, v);
  }

  lemma ReachesExtend(d: seq<set<nat>>, u: nat, v: nat, w: nat)
    requires Reaches(d, u, v) && v < |d| && w in d[v]
    ensures Reaches(d, u, w)
  {
    var p: seq<nat> :| IsPath(d, p, u, v);
    assert IsPath(d, p + [w], u, w);
  }

  /** A set that holds the successors of u and is closed under edges holds everything
      that u reaches. */
  lemma {:induction false} PathStaysInside(d: seq<set<nat>>, p: seq<nat>, u: nat, v: nat, s: set<nat>)
    requires IsPath(d, p, u, v)
    requires d[u] <= s
    requires forall t :: t in s && t < |d| ==> d[t] <= s
    ensures v in s
    decreases |p|
  {
    if |p| > 2 {
      var w := p[|p| - 2];
      assert IsPath(d, p[..|p| - 1], u, w);
      PathStaysInside(d, p[..|p| - 1], u, w, s);
      assert p[|p| - 2 + 1] in d[w];
    }
  }

  // ---- invariants of the breadth-first search ----

  ghost predicate AllReached(d: seq<set<nat>>, tid: nat, pending: seq<nat>) {
    forall t :: t in pending ==> t < |d| && Reaches(d, tid, t)
  }

  /** Every edge out of `tid` or out of a visited thread ends in a visited or pending one. */
  ghost predicate Frontier(d: seq<set<nat>>, tid: nat, visited: set<nat>, pending: seq<nat>) {
    && (forall t :: t in visited ==> t < |d|)
    && forall t, u :: (t == tid || t in visited) && t < |d| && u in d[t] ==> u in visited || u in pending
  }

  lemma AllReachedFirst(d: seq<set<nat>>, tid: nat, pending: seq<nat>)
    requires Closed(d) && tid < |d| && forall t :: t in d[tid] <==> t in pending
    ensures AllReached(d, tid, pending)
  {
    forall t | t in pending ensures t < |d| && Reaches(d, tid, t) {
      ReachesStep(d, tid, t);
    }
  }

  lemma AllReachedRest(d: seq<set<nat>>, tid: nat, pending: seq<nat>)
    requires |pending| > 0 && AllReached(d, tid, pending)
    ensures AllReached(d, tid, pending[1..]) && pending[0] < |d| && Reaches(d, tid, pending[0])
  {
    assert pending[0] in pending;
    assert forall t :: t in pending[1..] ==> t in pending;
  }

  lemma AllReachedMore(d: seq<set<nat>>, tid: nat, pending: seq<nat>, more: seq<nat>)
    requires Closed(d) && |pending| > 0 && AllReached(d, tid, pending)
    requires pending[0] < |d| && forall t :: t in d[pending[0]] <==> t in more
    ensures AllReached(d, tid, pending[1..] + more)
  {
    assert pending[0] in pending;
    forall t | t in pending[1..] + more ensures t < |d| && Reaches(d, tid, t) {
      if t in more {
        ReachesExtend(d, tid, pending[0], t);
      } else {
        assert t in pending;
      }
    }
  }

  lemma FrontierSkip(d: seq<set<nat>>, tid: nat, visited: set<nat>, pending: seq<nat>)
    requires |pending| > 0 && pending[0] in visited && Frontier(d, tid, visited, pending)
    ensures Frontier(d, tid, visited, pending[1..])
  {
    assert forall u :: u in pending ==> u == pending[0] || u in pending[1..];
  }

  lemma FrontierVisit(d: seq<set<nat>>, tid: nat, visited: set<nat>, pending: seq<nat>, more: seq<nat>)
    requires |pending| > 0 && pending[0] < |d| && Frontier(d, tid, visited, pending)
    requires forall t :: t in d[pending[0]] <==> t in more
    ensures Frontier(d, tid, visited + {pending[0]}, pending[1..] + more)
  {
    assert forall u :: u in pending ==> u == pending[0] || u in pending[1..];
  }

  lemma FrontierEmpty(d: seq<set<nat>>, tid: nat, visited: set<nat>)
    requires tid < |d| && tid !in visited && Frontier(d, tid, visited, [])
    ensures !Reaches(d, tid, tid)
  {
    if Reaches(d, tid, tid) {
      var p: seq<nat> :| IsPath(d, p, tid, tid);
      PathStaysInside(d, p, tid, tid, visited);
    }
  }

  /** Entry a stands in front of the first request equal to `req`. */
  ghost predicate InFront(q: seq<LockInfo>, a: nat, req: LockInfo)
    requires a < |q|
  {
    forall b :: 0 <= b <= a ==> !Same(q[b], req)
  }

  lemma InFrontIff(q: seq<LockInfo>, req: LockInfo)
    ensures forall a :: 0 <= a < |q| ==> (InFront(q, a, req) <==> a < Pos(q, req))
  {
  }

  class RWLock {
    var numReader: int
    var writing: bool

    ghost function View(): RW
      reads this
    {
      RW(numReader, writing)
    }

    constructor ()
      ensures View() == RW(0, false)
    {
      numReader, writing := 0, false;
    }

    /** The queue test of the lock, with the scans and early exits of the source. */
    static method CheckQueue(waitings: seq<LockInfo>, req: LockInfo) returns (ok: bool)
      requires |waitings| > 0
      ensures ok == Eligible(waitings, req)
      ensures ok <==> forall a :: 0 <= a < |waitings| && InFront(waitings, a, req) ==>
                waitings[a].kind == R && (req.kind == R || waitings[a].getLock)
    {
      InFrontIff(waitings, req);
      if Same(waitings[0], req) {
        return true;
      }
      var a := 0;
      if req.kind == R {
        while a < |waitings| && !Same(waitings[a], req)
          invariant a <= Pos(waitings, req)
          invariant forall b :: 0 <= b < a ==> waitings[b].kind == R
        {
          if waitings[a].kind != R {
            return false;
          }
          a := a + 1;
        }
      } else {
        while a < |waitings| && !Same(waitings[a], req)
          invariant a <= Pos(waitings, req)
          invariant forall b :: 0 <= b < a ==> waitings[b].kind == R && waitings[b].getLock
        {
          if waitings[a].kind == W1 || waitings[a].kind == W2 || !waitings[a].getLock {
            return false;
          }
          a := a + 1;
        }
      }
      ok := true;
    }

    /** One pass of lockShared through the lock's mutex; `false` leaves the thread waiting. */
    method EnterShared(waitings: seq<LockInfo>, req: LockInfo) returns (entered: bool)
      requires |waitings| > 0
      modifies this
      ensures entered == (Eligible(waitings, req) && !old(writing))
      ensures View() == if entered then Admit(old(View()), R) else old(View())
      ensures writing == old(writing) && numReader == old(numReader) + if entered then 1 else 0
    {
      var ok := CheckQueue(waitings, req);
      entered := ok && !writing;
      if entered {
        numReader := numReader + 1;
      }
    }

    /** The first half of lockExclusive: claim the lock, readers may still be inside. */
    method ClaimExclusive(waitings: seq<LockInfo>, req: LockInfo) returns (claimed: bool)
      requires |waitings| > 0
      modifies this
      ensures claimed == (Eligible(waitings, req) && !old(writing))
      ensures View() == if claimed then Admit(old(View()), W1) else old(View())
      ensures writing == (old(writing) || claimed) && numReader == old(numReader)
    {
      var ok := CheckQueue(waitings, req);
      claimed := ok && !writing;
      if claimed {
        writing := true;
      }
    }

    method UnlockExclusive() returns (wake: Wake)
      modifies this
      ensures View() == Dismiss(old(View()), W1) && wake == Notice(View(), W1)
      ensures !writing && numReader == old(numReader) && wake == WakeQueue
    {
      writing := false;
      wake := WakeQueue;
    }

    method UnlockShared() returns (wake: Wake)
      modifies this
      ensures View() == Dismiss(old(View()), R) && wake == Notice(View(), R)
      ensures writing == old(writing) && numReader == old(numReader) - 1
      ensures wake == WakeQueue <==> !writing
      ensures wake == WakeDrain <==> writing && numReader == 0
    {
      numReader := numReader - 1;
      var localNumReader, localWriting := numReader, writing;
      wake := WakeNobody;
      if localWriting && localNumReader == 0 {
        wake := WakeDrain;
      } else if !localWriting {
        wake := WakeQueue;
      }
    }
  }

  class Monitor {
    var lockRequest: seq<seq<LockInfo>>
    var dependThreads: seq<set<nat>>

    ghost function View(): Mon
      reads this
    {
      Mon(lockRequest, dependThreads)
    }

    ghost predicate Valid()
      reads this
    {
      && Closed(dependThreads)
      && forall x, a :: 0 <= x < |lockRequest| && 0 <= a < |lockRequest[x]| ==>
           lockRequest[x][a].tid < |dependThreads|
    }

    constructor (numThreads: nat, numRecords: nat)
      ensures Valid()
      ensures lockRequest == seq(numRecords, x => [])
      ensures dependThreads == seq(numThreads, t => {})
    {
      lockRequest := seq(numRecords, x => []);
      dependThreads := seq(numThreads, t => {});
    }

    /** Records the edges of `req` and reports a deadlock exactly when the requesting
        thread then reaches itself; otherwise the request joins its queue. */
    method DeadlockCheck(req: LockInfo) returns (st: Status)
      requires Valid()
      requires req.index < |lockRequest| && req.tid < |dependThreads|
      modifies this
      ensures Valid()
      ensures st == Deadlock <==> Reaches(AddEdges(old(View()), req).depend, req.tid, req.tid)
      ensures st == Deadlock ==> View() == AddEdges(old(View()), req)
      ensures st != Deadlock ==>
                && View() == Enqueue(AddEdges(old(View()), req), req)
                && (st == Get <==> Immediate(lockRequest[req.index], req))
      ensures st != Deadlock && (forall a :: 0 <= a < |old(lockRequest)[req.index]| ==>
                                   !Same(old(lockRequest)[req.index][a], req)) ==>
                (st == Get <==> forall a :: 0 <= a < |old(lockRequest)[req.index]| ==>
                                  !Conflict(old(lockRequest)[req.index][a], req))
    {
      ghost var before := lockRequest[req.index];
      AddDependencies(req);
      var cyclic := FindCycle(req.tid);
      if cyclic {
        return Deadlock;
      }
      lockRequest := lockRequest[req.index := lockRequest[req.index] + [req]];
      st := Standing(lockRequest[req.index], req);
      if forall a :: 0 <= a < |before| ==> !Same(before[a], req) {
        ImmediateIff(before, req);
      }
    }

    method AddDependencies(req: LockInfo)
      requires Valid()
      requires req.index < |lockRequest| && req.tid < |dependThreads|
      modifies this
      ensures Valid()
      ensures View() == AddEdges(old(View()), req)
      ensures forall t :: 0 <= t < |dependThreads| && t != req.tid ==> dependThreads[t] == old(dependThreads)[t]
      ensures forall u :: u in dependThreads[req.tid] <==>
                u in old(dependThreads)[req.tid]
                || exists a :: 0 <= a < |lockRequest[req.index]| && lockRequest[req.index][a].tid == u
                               && (req.kind != R || lockRequest[req.index][a].kind != R)
    {
      var q := lockRequest[req.index];
      var a := 0;
      while a < |q|
        invariant a <= |q|
        invariant lockRequest == old(lockRequest) && |dependThreads| == |old(dependThreads)|
        invariant Valid()
        invariant forall t :: 0 <= t < |dependThreads| && t != req.tid ==> dependThreads[t] == old(dependThreads)[t]
        invariant dependThreads[req.tid] == old(dependThreads)[req.tid] + ConflictTids(q[..a], req)
      {
        assert ConflictTids(q[..a + 1], req) ==
               ConflictTids(q[..a], req) + (if Conflict(q[a], req) then {q[a].tid} else {}) by {
          assert q[..a + 1] == q[..a] + [q[a]];
          ConflictTidsAppend(q[..a], q[a], req);
        }
        if req.kind == R && q[a].kind != R {
          dependThreads := dependThreads[req.tid := dependThreads[req.tid] + {q[a].tid}];
        }
        if req.kind != R {
          dependThreads := dependThreads[req.tid := dependThreads[req.tid] + {q[a].tid}];
        }
        a := a + 1;
      }
      assert q[..a] == q;
      assert dependThreads == AddEdges(old(View()), req).depend;
    }

    /** The breadth-first search: true iff `tid` reaches itself. */
    method FindCycle(tid: nat) returns (cyclic: bool)
      requires Valid() && tid < |dependThreads|
      ensures cyclic <==> Reaches(dependThreads, tid, tid)
    {
      var d := dependThreads;
      var visited: set<nat> := {};
      var pending := Listing(d[tid]);
      AllReachedFirst(d, tid, pending);
      assert Frontier(d, tid, visited, pending);
      hide AllReached, Frontier, Reaches;
      while |pending| > 0
        invariant AllReached(d, tid, pending)
        invariant visited <= Below(|d|) && tid !in visited
        invariant Frontier(d, tid, visited, pending)
        decreases |Below(|d|) - visited|, |pending|
      {
        var cur := pending[0];
        AllReachedRest(d, tid, pending);
        if cur == tid {
          return true;
        }
        if cur in visited {
          FrontierSkip(d, tid, visited, pending);
          pending := pending[1..];
        } else {
          var more := Listing(d[cur]);
          AllReachedMore(d, tid, pending, more);
          FrontierVisit(d, tid, visited, pending, more);
          pending := pending[1..] + more;
          assert Below(|d|) - visited == (Below(|d|) - (visited + {cur})) + {cur};
          visited := visited + {cur};
        }
      }
      FrontierEmpty(d, tid, visited);
      cyclic := false;
    }

    /** The elements of a set in some order, each of them once. */
    static method Listing(s: set<nat>) returns (l: seq<nat>)
      ensures forall t :: t in s <==> t in l
      ensures |l| == |s|
    {
      l := [];
      var rest := s;
      while rest != {}
        invariant rest <= s && |l| + |rest| == |s|
        invariant forall t :: t in s <==> t in l || t in rest
      {
        var t :| t in rest;
        l := l + [t];
        rest := rest - {t};
      }
    }

    static method Standing(q: seq<LockInfo>, req: LockInfo) returns (st: Status)
      requires |q| > 0 && Same(q[|q| - 1], req)
      ensures st != Deadlock
      ensures st == Get <==> Immediate(q, req)
      ensures st == Get <==> forall a :: 0 <= a < |q| && InFront(q, a, req) ==> !Conflict(q[a], req)
    {
      InFrontIff(q, req);
      if Same(q[0], req) {
        return Get;
      }
      if req.kind == R {
        var a := 0;
        while a < |q| && !Same(q[a], req)
          invariant a <= Pos(q, req)
          invariant forall b :: 0 <= b < a ==> q[b].kind == R
        {
          if q[a].kind != R {
            return Waiting;
          }
          a := a + 1;
        }
        return Get;
      }
      st := Waiting;
    }

    /** Removes the request from its queue and the thread from the wait-for graph. */
    method Remove(req: LockInfo)
      requires Valid()
      requires req.index < |lockRequest| && req.tid < |dependThreads|
      modifies this
      ensures Valid()
      ensures View() == DeleteLock(old(View()), req)
    {
      var q := lockRequest[req.index];
      var p := 0;
      while p < |q| && !Same(q[p], req)
        invariant p <= Pos(q, req)
      {
        p := p + 1;
      }
      if p < |q| {
        lockRequest := lockRequest[req.index := q[..p] + q[p + 1..]];
      }
      dependThreads := dependThreads[req.tid := {}];
      var t := 0;
      while t < |dependThreads|
        invariant t <= |dependThreads| == |old(dependThreads)|
        invariant lockRequest == old(lockRequest)[req.index := Erase(q, req)]
        invariant forall u :: 0 <= u < t ==> dependThreads[u] == Forget(old(dependThreads), req.tid)[u]
        invariant forall u :: t <= u < |dependThreads| ==>
                    dependThreads[u] == if u == req.tid then {} else old(dependThreads)[u]
      {
        dependThreads := dependThreads[t := dependThreads[t] - {req.tid}];
        t := t + 1;
      }
      assert dependThreads == Forget(old(dependThreads), req.tid);
    }

    /** The flag update that follows a successful acquisition. */
    method MarkGranted(req: LockInfo)
      requires Valid()
      requires req.index < |lockRequest|
      modifies this
      ensures Valid()
      ensures View() == old(View()).(queue := old(lockRequest)[req.index := Flag(old(lockRequest)[req.index], req)])
    {
      var q := lockRequest[req.index];
      var a := 0;
      while a < |q|
        invariant a <= |q| == |old(lockRequest)[req.index]|
        invariant forall b :: 0 <= b < a ==> q[b] == Flag(old(lockRequest)[req.index], req)[b]
        invariant forall b :: a <= b < |q| ==> q[b] == old(lockRequest)[req.index][b]
      {
        if Same(q[a], req) {
          q := q[a := q[a].(getLock := true)];
        }
        a := a + 1;
      }
      assert q == Flag(old(lockRequest)[req.index], req);
      lockRequest := lockRequest[req.index := q];
    }
  }

  lemma ConflictTidsAppend(q: seq<LockInfo>, r: LockInfo, req: LockInfo)
    ensures ConflictTids(q + [r], req) == ConflictTids(q, req) + (if Conflict(r, req) then {r.tid} else {})
  {
    var q' := q + [r];
    forall t | t in ConflictTids(q, req) ensures t in ConflictTids(q', req) {
      var a :| 0 <= a < |q| && Conflict(q[a], req) && q[a].tid == t;
      assert q'[a] == q[a];
    }
    if Conflict(r, req) {
      assert q'[|q|] == r;
    }
  }
}
