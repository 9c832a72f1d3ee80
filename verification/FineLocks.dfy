/** What the lock invariant of the engine says about a thread that tests, sleeps or drains. */
module FineLocks {
  import opened LockManager
  import opened Engine
  import opened QueueOrder
  import opened EngineLocks
  import opened WaitGraph

  /** Some conflicting request stands in front of the thread's own. */
  ghost predicate HasAhead(q: seq<LockInfo>, t: nat) {
    exists u :: Behind(q, t, u)
  }

  /** A request that may pass the queue finds no writer. */
  lemma EligibleIsFree(s: State, t: nat, kind: LockType)
    requires LockInv(s) && t < |s.threads| && s.threads[t].pc == Locking(kind)
    requires Eligible(s.mon.queue[RecOf(s.threads[t], kind)], Req(s.threads[t], t, kind))
    ensures !s.rw[RecOf(s.threads[t], kind)].writing
  {
    var x := RecOf(s.threads[t], kind);
    var b := Locate(s, t, kind);
    assert RecInv(s.mon.queue[x], s.rw[x], s.threads, x);
    hide LockInv, QueueInv;
    NoSpin(s.mon.queue[x], Phases(s.mon.queue[x], s.threads), s.rw[x], b);
  }

  /** A request that may not pass the queue has a conflicting one in front. */
  lemma IneligibleHasAhead(s: State, t: nat, kind: LockType)
    requires LockInv(s) && t < |s.threads| && s.threads[t].pc == Locking(kind)
    requires !Eligible(s.mon.queue[RecOf(s.threads[t], kind)], Req(s.threads[t], t, kind))
    ensures HasAhead(s.mon.queue[RecOf(s.threads[t], kind)], t)
  {
    var q := s.mon.queue[RecOf(s.threads[t], kind)];
    var b := Locate(s, t, kind);
    hide LockInv;
    var a :| 0 <= a < b && !(q[a].kind == R && (kind == R || q[a].getLock));
    assert Behind(q, t, q[a].tid);
  }

  /** A thread that holds a writer's lock has `writing` set. */
  lemma WriterWrites(s: State, t: nat, kind: LockType)
    requires LockInv(s) && t < |s.threads| && Has(s.threads[t].pc, kind) && kind != R
    requires PhaseOf(s.threads[t].pc, kind) != Pending
    ensures s.rw[RecOf(s.threads[t], kind)].writing
  {
    var x := RecOf(s.threads[t], kind);
    var b := Locate(s, t, kind);
    var q := s.mon.queue[x];
    assert RecInv(q, s.rw[x], s.threads, x);
    assert Phases(q, s.threads)[b] == PhaseOf(s.threads[t].pc, kind);
  }

  lemma WriterBlocks(q: seq<LockInfo>, ph: seq<Phase>, rw: RW, b: nat)
    requires QueueInv(q, ph, rw) && b < |q| && ph[b] == Pending && rw.writing
    ensures HasAhead(q, q[b].tid)
  {
    var a :| 0 <= a < |q| && q[a].kind != R && ph[a] != Pending;
    assert b < a ==> MayPass(q[b], q[a], ph[a]);
    assert Behind(q, q[b].tid, q[a].tid);
  }

  /** While a writer is inside or has claimed the lock, whoever waits has a request in front. */
  lemma WritingHasAhead(s: State, t: nat, kind: LockType)
    requires LockInv(s) && t < |s.threads| && s.threads[t].pc == Locking(kind)
    requires s.rw[RecOf(s.threads[t], kind)].writing
    ensures HasAhead(s.mon.queue[RecOf(s.threads[t], kind)], t)
  {
    var x := RecOf(s.threads[t], kind);
    var q := s.mon.queue[x];
    var b := Locate(s, t, kind);
    assert RecInv(q, s.rw[x], s.threads, x);
    hide LockInv, QueueInv;
    WriterBlocks(q, Phases(q, s.threads), s.rw[x], b);
  }

  lemma CountersNat(s: State, x: nat)
    requires LockInv(s) && x < |s.rw|
    ensures s.rw[x].numReader >= 0
  {
    assert RecInv(s.mon.queue[x], s.rw[x], s.threads, x);
  }

  lemma AheadAppend(q: seq<LockInfo>, req: LockInfo, t: nat)
    requires HasAhead(q, t)
    ensures HasAhead(q + [req], t)
  {
    var u :| Behind(q, t, u);
    BehindAppend(q, req, t, u);
  }

  lemma AheadFlag(q: seq<LockInfo>, req: LockInfo, t: nat)
    requires HasAhead(q, t)
    ensures HasAhead(Flag(q, req), t)
  {
    var u :| Behind(q, t, u);
    BehindFlag(q, req, t, u);
  }

  /** A grant flag cannot take the turn away from anybody. */
  lemma EligibleFlag(q: seq<LockInfo>, req: LockInfo, r: LockInfo)
    requires Eligible(q, r)
    ensures Eligible(Flag(q, req), r)
  {
    var q' := Flag(q, req);
    assert forall a :: 0 <= a < |q| ==> Same(q'[a], q[a]) && (q[a].getLock ==> q'[a].getLock);
    assert Pos(q', r) == Pos(q, r);
  }
}
