/** Every step keeps the wait-for graph faithful to the queues and free of cycles. */
module GraphSteps {
  import opened Options
  import opened LockManager
  import opened Engine
  import opened QueueOrder
  import opened EngineLocks
  import opened WaitGraph

  lemma GraphInvInit(s: State)
    requires Initial(s)
    ensures GraphInv(s)
  {
    assert forall x, t, u :: 0 <= x < |s.mon.queue| ==> !Behind(s.mon.queue[x], t, u);
    assert Ranked(s.mon.depend, seq(|s.threads|, t => 0), -1);
  }

  /** A first read request closes no cycle: nobody waits for a thread without requests. */
  lemma FirstReadIsFree(s: State, t: nat)
    requires LockInv(s) && GraphInv(s) && t < |s.threads| && s.threads[t].pc == Request(R) && s.mutex == None
    ensures !Reaches(AddEdges(s.mon, Req(s.threads[t], t, R)).depend, t, t)
  {
    hide QueueInv, Ranked;
    var req := Req(s.threads[t], t, R);
    var d := AddEdges(s.mon, req).depend;
    var others := Below(|d|) - {t};
    forall u | 0 <= u < |d| ensures d[u] <= others {
      NoRequests(s, t, u);
      forall v | v in d[u] ensures v in others {
        if u == t && v in ConflictTids(s.mon.queue[req.index], req) {
          var a :| 0 <= a < |s.mon.queue[req.index]| && s.mon.queue[req.index][a].tid == v;
          assert RecInv(s.mon.queue[req.index], s.rw[req.index], s.threads, req.index);
          assert Listed(s.mon.queue[req.index][a], s.threads, req.index);
        }
      }
    }
    forall p: seq<nat> | IsPath(d, p, t, t) ensures false {
      PathStaysInside(d, p, t, t, others);
    }
  }

  lemma ClosedEdges(s: State, req: LockInfo)
    requires LockInv(s) && Closed(s.mon.depend) && req.index < |s.rw| && req.tid < |s.threads|
    ensures Closed(AddEdges(s.mon, req).depend)
  {
  }

  /** `get` means that no conflicting request stands in front. */
  lemma ImmediateIsClear(q: seq<LockInfo>, req: LockInfo, u: nat)
    requires forall a :: 0 <= a < |q| ==> q[a].tid != req.tid
    requires Immediate(q + [req], req)
    ensures !Behind(q + [req], req.tid, u)
  {
  }

  lemma GraphAfterEnqueue(s: State, t: nat, kind: LockType)
    requires LockInv(s) && GraphInv(s) && t < |s.threads| && s.threads[t].pc == Request(kind) && s.mutex == None
    requires !Reaches(AddEdges(s.mon, Req(s.threads[t], t, kind)).depend, t, t)
    ensures GraphInv(DoRequest(s, t, kind))
  {
    hide QueueInv, IsPath;
    var req := Req(s.threads[t], t, kind);
    var s' := DoRequest(s, t, kind);
    ClosedEdges(s, req);
    FaithfulEnqueue(s.mon, req);
    var rank :| Ranked(s.mon.depend, rank, -1);
    var rank' := RankAfterRequest(s.mon.depend, rank, t, ConflictTids(s.mon.queue[req.index], req));
    var q := s.mon.queue[req.index];
    assert RecInv(q, s.rw[req.index], s.threads, req.index);
    assert ThreadShape(s.threads[t], |s.value|);
    forall a | 0 <= a < |q| ensures q[a].tid != t { assert Listed(q[a], s.threads, req.index); }
    assert MutexInv(s');
    if Immediate(q + [req], req) {
      forall u ensures !Behind(q + [req], t, u) { ImmediateIsClear(q, req, u); }
    }
    assert GetInv(s');
    assert Releaser(s') == -1;
    assert Ranked(s'.mon.depend, rank', -1);
  }

  lemma GraphAfterDeadlock(s: State, t: nat, kind: LockType)
    requires LockInv(s) && GraphInv(s) && t < |s.threads| && s.threads[t].pc == Request(kind) && s.mutex == None
    requires kind != R && Reaches(AddEdges(s.mon, Req(s.threads[t], t, kind)).depend, t, t)
    ensures GraphInv(DoRequest(s, t, kind))
  {
    hide QueueInv, IsPath, Waits, LockInv;
    var req := Req(s.threads[t], t, kind);
    var s' := DoRequest(s, t, kind);
    ClosedEdges(s, req);
    var rank :| Ranked(s.mon.depend, rank, -1);
    assert Releaser(s') == t;
    assert Ranked(s'.mon.depend, rank, t);
    assert MutexInv(s');
  }

  lemma GraphAfterFlag(s: State, s': State, t: nat, kind: LockType)
    requires GraphInv(s) && t < |s.threads| && s.threads[t].pc == Flagging(kind)
    requires var x := RecOf(s.threads[t], kind);
             s' == Goto(s.(mon := s.mon.(queue := s.mon.queue[x := Flag(s.mon.queue[x], Req(s.threads[t], t, kind))])),
                        t, Rejoin(kind))
    ensures GraphInv(s')
  {
    var x := RecOf(s.threads[t], kind);
    var req := Req(s.threads[t], t, kind);
    forall u, v | 0 <= u < |s.threads| && 0 <= v < |s.threads|
      ensures Waits(s'.mon.queue, u, v) <==> Waits(s.mon.queue, u, v)
    {
      BehindFlag(s.mon.queue[x], req, u, v);
      WaitsReplace(s.mon.queue, x, Flag(s.mon.queue[x], req), u, v);
    }
    assert GetInv(s') by {
      forall y, u, v ensures 0 <= y < |s.mon.queue| ==>
          (Behind(s'.mon.queue[y], u, v) <==> Behind(s.mon.queue[y], u, v)) {
        BehindFlag(s.mon.queue[x], req, u, v);
      }
    }
    hide Waits;
    assert Releaser(s') == Releaser(s);
    assert MutexInv(s');
  }

  lemma FaithfulRelease(s: State, t: nat, m: nat, n: nat)
    requires LockInv(s) && GraphInv(s) && t < |s.threads| && s.threads[t].pc == Release(m, n) && m < n <= 3
    ensures var s' := DoRelease(s, t, m, n);
            Faithful(s'.mon.depend, s'.mon.queue, t)
  {
    hide QueueInv;
    var s' := DoRelease(s, t, m, n);
    var kind := KindAt(m);
    var x := RecOf(s.threads[t], kind);
    var q := s.mon.queue[x];
    var b := Locate(s, t, kind);
    forall u, v | 0 <= u < |s.threads| && 0 <= v < |s.threads| && u != t && v != t
      ensures v in s'.mon.depend[u] <==> Waits(s'.mon.queue, u, v)
    {
      BehindCut(q, b, u, v);
      WaitsReplace(s.mon.queue, x, Cut(q, b), u, v);
    }
  }

  lemma GraphAfterRelease(s: State, t: nat, m: nat, n: nat)
    requires LockInv(s) && GraphInv(s) && t < |s.threads| && s.threads[t].pc == Release(m, n) && m < n <= 3
    ensures GraphInv(DoRelease(s, t, m, n))
  {
    var s' := DoRelease(s, t, m, n);
    FaithfulRelease(s, t, m, n);
    hide QueueInv, Waits, Behind, LockInv;
    var rank :| Ranked(s.mon.depend, rank, t);
    assert Ranked(s'.mon.depend, rank, t);
    assert Releaser(s') == t;
    assert MutexInv(s');
    assert Closed(s'.mon.depend);
  }

  /** The last step of a release section: the thread has left all queues and the graph. */
  lemma GraphAfterSection(s: State, s': State, t: nat)
    requires LockInv(s) && GraphInv(s) && Shape(s') && t < |s.threads|
    requires s.threads[t].pc.Release? && s.threads[t].pc.m == s.threads[t].pc.n
    requires s'.mon == s.mon && s'.mutex == None && s'.threads == s.threads[t := s'.threads[t]]
    requires s'.threads[t].pc == Top || s'.threads[t].pc == Done
    ensures GraphInv(s')
  {
    var d := s.mon.depend;
    var rank :| Ranked(d, rank, t);
    assert ThreadShape(s.threads[t], |s.value|);
    forall u, v | 0 <= u < |d| && 0 <= v < |d| ensures v in d[u] <==> Waits(s.mon.queue, u, v) {
      NoRequests(s, t, u);
      NoRequests(s, t, v);
    }
    hide QueueInv, Waits, Behind, LockInv;
    assert Ranked(d, rank, -1);
    assert Releaser(s') == -1;
    assert MutexInv(s');
  }

  lemma GraphAfterFinish(s: State, t: nat)
    requires GraphInv(s) && t < |s.threads| && s.threads[t].pc == Finish && s.mutex == None
    ensures GraphInv(Goto(s.(mutex := Some(t)), t, Release(0, 3)))
  {
    hide Waits, Behind;
    var s' := Goto(s.(mutex := Some(t)), t, Release(0, 3));
    var rank :| Ranked(s.mon.depend, rank, -1);
    assert Ranked(s'.mon.depend, rank, t);
    assert Releaser(s') == t;
  }

  /** Only thread t moves, outside of releases; it may drop the mutex but not take it. */
  lemma QuietKept(s: State, s': State, t: nat)
    requires GraphInv(s) && Shape(s') && t < |s.threads| && s'.mon == s.mon
    requires s'.threads == s.threads[t := s'.threads[t]] && !s.threads[t].pc.Release? && !s'.threads[t].pc.Release?
    requires s'.mutex == s.mutex || (s'.mutex == None && s.mutex == Some(t))
    requires s'.mutex == Some(t) ==> InSection(s'.threads[t].pc) && !s'.threads[t].pc.Locking?
    requires var th, th' := s.threads[t], s'.threads[t];
             th'.pc.Draining? ==> th.pc == Locking(th'.pc.s) && RecOf(th, th.pc.s) == RecOf(th', th.pc.s)
    ensures GraphInv(s')
  {
  }

  /** The steps that do not reach the monitor at all. */
  lemma QuietStep(s: State, s': State, t: nat, c: (nat, nat, nat))
    requires GraphInv(s) && Step(s, s', t, c)
    requires var pc := s.threads[t].pc;
             pc.Top? || pc.Locking? || pc.Draining? || pc.Rejoin? || pc.Reading? || pc.Writing?
    ensures GraphInv(s')
  {
    hide Ranked, Faithful, Eligible, Closed, DoRequest, DoRelease, DoDecide, Pos, Flag, GetInv, Behind;
    assert s.mutex == Some(t) ==> InSection(s.threads[t].pc);
    QuietKept(s, s', t);
  }

  lemma GraphInvStep(s: State, s': State, t: nat, c: (nat, nat, nat))
    requires LockInv(s) && GraphInv(s) && Step(s, s', t, c)
    ensures GraphInv(s')
  {
    hide QueueInv, LockInv, Ranked, Faithful, GetInv, Closed, DoRequest, DoRelease, DoDecide, DoLocking, DoReading;
    match s.threads[t].pc
    case Request(kind) =>
      if Reaches(AddEdges(s.mon, Req(s.threads[t], t, kind)).depend, t, t) {
        if kind == R { FirstReadIsFree(s, t); assert false; }
        GraphAfterDeadlock(s, t, kind);
      } else {
        GraphAfterEnqueue(s, t, kind);
      }
    case Flagging(kind) => GraphAfterFlag(s, s', t, kind);
    case Finish => GraphAfterFinish(s, t);
    case Release(m, n) =>
      if m < n { GraphAfterRelease(s, t, m, n); } else { GraphSectionEnd(s, s', t, c); }
    case Done =>
    case _ => QuietStep(s, s', t, c);
  }

  lemma GraphSectionEnd(s: State, s': State, t: nat, c: (nat, nat, nat))
    requires LockInv(s) && GraphInv(s) && Step(s, s', t, c)
    requires s.threads[t].pc.Release? && s.threads[t].pc.m == s.threads[t].pc.n
    ensures GraphInv(s')
  {
    hide QueueInv, LockInv, Ranked, Faithful, GetInv, Closed;
    GraphAfterSection(s, s', t);
  }
}
