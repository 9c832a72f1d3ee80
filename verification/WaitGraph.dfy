/** The wait-for graph is exactly the order of the queues, and it never holds a cycle
    while the global mutex is free. */
module WaitGraph {
  import opened Options
  import opened LockManager
  import opened Engine
  import opened QueueOrder
  import opened EngineLocks

  /** Some request of t stands behind a conflicting request of u in this queue. */
  ghost predicate Behind(q: seq<LockInfo>, t: nat, u: nat) {
    exists a, b :: 0 <= a < b < |q| && q[b].tid == t && q[a].tid == u && Conflict(q[a], q[b])
  }

  ghost predicate Waits(queue: seq<seq<LockInfo>>, t: nat, u: nat) {
    exists x :: 0 <= x < |queue| && Behind(queue[x], t, u)
  }

  /** The thread that is in the middle of releasing its locks, or -1. */
  function Releaser(s: State): int {
    if s.mutex.Some? && s.mutex.value < |s.threads| && s.threads[s.mutex.value].pc.Release? then s.mutex.value else -1
  }

  ghost predicate Ranked(d: seq<set<nat>>, rank: seq<nat>, ex: int) {
    && |rank| == |d|
    && forall t, u {:trigger u in d[t]} :: 0 <= t < |d| && t != ex && u in d[t] && u != ex ==>
        u < |d| && rank[u] < rank[t]
  }

  ghost predicate Faithful(d: seq<set<nat>>, queue: seq<seq<LockInfo>>, ex: int) {
    forall t, u :: 0 <= t < |d| && 0 <= u < |d| && t != ex && u != ex ==> (u in d[t] <==> Waits(queue, t, u))
  }

  predicate InSection(pc: Pc) {
    pc.Locking? || pc.Draining? || pc.Flagging? || pc.Rejoin? || pc.Release?
  }

  /** Which threads may hold the global mutex, and where. */
  predicate MutexInv(s: State) {
    && (s.mutex.Some? ==> s.mutex.value < |s.threads| && InSection(s.threads[s.mutex.value].pc))
    && (forall t :: 0 <= t < |s.threads| && s.threads[t].pc.Release? ==> s.mutex == Some(t))
  }

  /** A thread that takes a record lock with the mutex held has nothing in front of it. */
  ghost predicate GetInv(s: State)
    requires Shape(s)
  {
    s.mutex.Some? && s.mutex.value < |s.threads| ==>
      var t := s.mutex.value; var th := s.threads[t];
      th.pc.Locking? || th.pc.Draining? ==> forall u :: !Behind(s.mon.queue[RecOf(th, th.pc.s)], t, u)
  }

  ghost predicate GraphInv(s: State) {
    && Shape(s) && MutexInv(s) && GetInv(s)
    && Closed(s.mon.depend)
    && Faithful(s.mon.depend, s.mon.queue, Releaser(s))
    && (Releaser(s) >= 0 && s.threads[Releaser(s)].pc.m > 0 ==>
          forall t :: 0 <= t < |s.threads| ==> s.mon.depend[Releaser(s)] == {} && Releaser(s) !in s.mon.depend[t])
    && (exists rank :: Ranked(s.mon.depend, rank, Releaser(s)))
  }

  // ---- adding the edges of a request ----

  function Bound(rank: seq<nat>): (m: nat)
    ensures forall t :: 0 <= t < |rank| ==> rank[t] < m
  {
    if |rank| == 0 then 0 else
      var m := Bound(rank[..|rank| - 1]);
      if rank[|rank| - 1] < m then m else rank[|rank| - 1] + 1
  }

  /** A ranking survives the insertion of edges out of one thread that does not reach itself. */
  lemma RankAfterRequest(d: seq<set<nat>>, rank: seq<nat>, t: nat, more: set<nat>) returns (rank': seq<nat>)
    requires Ranked(d, rank, -1) && t < |d|
    requires var d' := d[t := d[t] + more]; Closed(d') && !Reaches(d', t, t)
    ensures Ranked(d[t := d[t] + more], rank', -1)
  {
    var d' := d[t := d[t] + more];
    var m := Bound(rank);
    rank' := seq(|d|, v requires 0 <= v < |d| => if Reaches(d', t, v) then rank[v] else rank[v] + m);
    forall v, w | 0 <= v < |d'| && w in d'[v] ensures w < |d'| && rank'[w] < rank'[v] {
      if Reaches(d', t, v) {
        ReachesExtend(d', t, v, w);
      }
      if v == t {
        ReachesStep(d', t, w);
      }
    }
  }

  /** No thread of a ranked graph reaches itself. */
  lemma {:induction false} RankFalls(d: seq<set<nat>>, rank: seq<nat>, p: seq<nat>, u: nat, v: nat)
    requires Ranked(d, rank, -1) && IsPath(d, p, u, v)
    ensures v < |d| && rank[v] < rank[u]
    decreases |p|
  {
    var w := p[|p| - 2];
    assert w < |d| && p[|p| - 2 + 1] in d[w];
    assert v in d[w];
    if |p| > 2 {
      assert IsPath(d, p[..|p| - 1], u, w);
      RankFalls(d, rank, p[..|p| - 1], u, w);
    }
  }

  lemma RankedIsAcyclic(d: seq<set<nat>>, rank: seq<nat>)
    requires Ranked(d, rank, -1)
    ensures Acyclic(d)
  {
    forall t | 0 <= t < |d| ensures !Reaches(d, t, t) {
      forall p: seq<nat> | IsPath(d, p, t, t) ensures false {
        RankFalls(d, rank, p, t, t);
      }
    }
  }

  lemma BehindAppend(q: seq<LockInfo>, req: LockInfo, t: nat, u: nat)
    ensures Behind(q + [req], t, u) <==> Behind(q, t, u) || (t == req.tid && u in ConflictTids(q, req))
  {
    var q' := q + [req];
    assert forall a :: 0 <= a < |q| ==> q'[a] == q[a];
    if t == req.tid && u in ConflictTids(q, req) {
      var a :| 0 <= a < |q| && Conflict(q[a], req) && q[a].tid == u;
      assert q'[a] == q[a] && q'[|q|] == req;
    }
    if Behind(q, t, u) {
      var a, b :| 0 <= a < b < |q| && q[b].tid == t && q[a].tid == u && Conflict(q[a], q[b]);
      assert q'[a] == q[a] && q'[b] == q[b];
    }
  }

  lemma WaitsEnqueue(queue: seq<seq<LockInfo>>, req: LockInfo, t: nat, u: nat)
    requires req.index < |queue|
    ensures Waits(queue[req.index := queue[req.index] + [req]], t, u) <==>
            Waits(queue, t, u) || (t == req.tid && u in ConflictTids(queue[req.index], req))
  {
    var queue' := queue[req.index := queue[req.index] + [req]];
    BehindAppend(queue[req.index], req, t, u);
    if Waits(queue, t, u) {
      var x :| 0 <= x < |queue| && Behind(queue[x], t, u);
      assert Behind(queue'[x], t, u);
    }
    if Waits(queue', t, u) {
      var x :| 0 <= x < |queue| && Behind(queue'[x], t, u);
      assert x != req.index ==> Behind(queue[x], t, u);
    }
    if t == req.tid && u in ConflictTids(queue[req.index], req) {
      assert Behind(queue'[req.index], t, u);
    }
  }

  lemma FaithfulEnqueue(m: Mon, req: LockInfo)
    requires req.index < |m.queue| && req.tid < |m.depend| && Faithful(m.depend, m.queue, -1)
    ensures Faithful(AddEdges(m, req).depend, Enqueue(m, req).queue, -1)
  {
    forall t, u | 0 <= t < |m.depend| && 0 <= u < |m.depend|
      ensures u in AddEdges(m, req).depend[t] <==> Waits(Enqueue(m, req).queue, t, u)
    {
      WaitsEnqueue(m.queue, req, t, u);
    }
  }

  // ---- removing a thread ----

  lemma BehindCut(q: seq<LockInfo>, b: nat, t: nat, u: nat)
    requires b < |q| && q[b].tid != t && q[b].tid != u
    ensures Behind(Cut(q, b), t, u) <==> Behind(q, t, u)
  {
    var q' := Cut(q, b);
    assert forall a :: 0 <= a < |q'| ==> q'[a] == q[if a < b then a else a + 1];
    if Behind(q, t, u) {
      var a, c :| 0 <= a < c < |q| && q[c].tid == t && q[a].tid == u && Conflict(q[a], q[c]);
      assert q'[if a < b then a else a - 1] == q[a] && q'[if c < b then c else c - 1] == q[c];
    }
    if Behind(q', t, u) {
      var a, c :| 0 <= a < c < |q'| && q'[c].tid == t && q'[a].tid == u && Conflict(q'[a], q'[c]);
      assert q'[a] == q[if a < b then a else a + 1] && q'[c] == q[if c < b then c else c + 1];
    }
  }

  lemma WaitsReplace(queue: seq<seq<LockInfo>>, x: nat, q': seq<LockInfo>, t: nat, u: nat)
    requires x < |queue| && (Behind(q', t, u) <==> Behind(queue[x], t, u))
    ensures Waits(queue[x := q'], t, u) <==> Waits(queue, t, u)
  {
    var queue' := queue[x := q'];
    if Waits(queue, t, u) {
      var y :| 0 <= y < |queue| && Behind(queue[y], t, u);
      assert Behind(queue'[y], t, u);
    }
    if Waits(queue', t, u) {
      var y :| 0 <= y < |queue| && Behind(queue'[y], t, u);
      assert Behind(queue[y], t, u);
    }
  }

  lemma BehindFlag(q: seq<LockInfo>, req: LockInfo, t: nat, u: nat)
    ensures Behind(Flag(q, req), t, u) <==> Behind(q, t, u)
  {
    var q' := Flag(q, req);
    assert forall a :: 0 <= a < |q| ==> q'[a].tid == q[a].tid && q'[a].kind == q[a].kind;
    if Behind(q, t, u) {
      var a, b :| 0 <= a < b < |q| && q[b].tid == t && q[a].tid == u && Conflict(q[a], q[b]);
      assert Conflict(q'[a], q'[b]) && q'[b].tid == t && q'[a].tid == u;
    }
  }

  /** A thread without requests neither waits nor is waited for. */
  lemma NoRequests(s: State, t: nat, u: nat)
    requires LockInv(s) && t < |s.threads| && forall kind :: !Has(s.threads[t].pc, kind)
    ensures !Waits(s.mon.queue, t, u) && !Waits(s.mon.queue, u, t)
  {
  }
}
