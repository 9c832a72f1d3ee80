/** Queues, locks and program counters agree in every reachable state. */
module EngineLocks {
  import opened LockManager
  import opened Engine
  import opened QueueOrder

  function Lo(pc: Pc): nat {
    if pc.Release? then pc.m else 0
  }

  function Hi(pc: Pc): nat {
    match pc
    case Top => 0
    case Done => 0
    case Request(s) => Rank(s)
    case Finish => 3
    case Release(_, n) => n
    case _ => Rank(pc.s) + 1
  }

  /** The thread has a request of this kind in a queue. */
  predicate Has(pc: Pc, kind: LockType) {
    Lo(pc) <= Rank(kind) < Hi(pc)
  }

  function PhaseOf(pc: Pc, kind: LockType): Phase {
    match pc
    case Locking(s) => if s == kind then Pending else Granted
    case Draining(s) => if s == kind then Claimed else Granted
    case Flagging(s) => if s == kind then Taken else Granted
    case _ => Granted
  }

  predicate Listed(e: LockInfo, ths: seq<Thread>, x: nat) {
    e.index == x && e.tid < |ths| && Has(ths[e.tid].pc, e.kind) && RecOf(ths[e.tid], e.kind) == x
  }

  predicate AllListed(q: seq<LockInfo>, ths: seq<Thread>, x: nat) {
    forall a :: 0 <= a < |q| ==> Listed(q[a], ths, x)
  }

  function Phases(q: seq<LockInfo>, ths: seq<Thread>): (ph: seq<Phase>)
    requires forall a :: 0 <= a < |q| ==> q[a].tid < |ths|
  {
    seq(|q|, a requires 0 <= a < |q| => PhaseOf(ths[q[a].tid].pc, q[a].kind))
  }

  ghost predicate RecInv(q: seq<LockInfo>, rw: RW, ths: seq<Thread>, x: nat) {
    AllListed(q, ths, x) && QueueInv(q, Phases(q, ths), rw)
  }

  ghost predicate InQueue(q: seq<LockInfo>, t: nat, kind: LockType) {
    exists a :: 0 <= a < |q| && q[a].tid == t && q[a].kind == kind
  }

  ghost predicate Complete(s: State)
    requires Shape(s)
  {
    forall t, kind :: 0 <= t < |s.threads| && Has(s.threads[t].pc, kind) ==>
      InQueue(s.mon.queue[RecOf(s.threads[t], kind)], t, kind)
  }

  ghost predicate LockInv(s: State) {
    && Shape(s)
    && (forall x :: 0 <= x < |s.rw| ==> RecInv(s.mon.queue[x], s.rw[x], s.threads, x))
    && Complete(s)
  }

  /** Two thread states look the same from the queues, except perhaps for one kind. */
  predicate SameStanding(th: Thread, th': Thread, kind: LockType) {
    && Has(th.pc, kind) == Has(th'.pc, kind)
    && (Has(th.pc, kind) ==> RecOf(th, kind) == RecOf(th', kind) && PhaseOf(th.pc, kind) == PhaseOf(th'.pc, kind))
  }

  /** Where a thread's request stands; the search of the source finds it there. */
  lemma Locate(s: State, t: nat, kind: LockType) returns (b: nat)
    requires LockInv(s) && t < |s.threads| && Has(s.threads[t].pc, kind)
    ensures var q := s.mon.queue[RecOf(s.threads[t], kind)];
            && b < |q| && q[b].tid == t && q[b].kind == kind
            && b == Pos(q, Req(s.threads[t], t, kind))
            && (forall a :: 0 <= a < |q| && a != b ==> q[a].tid != t)
  {
    var x := RecOf(s.threads[t], kind);
    var q := s.mon.queue[x];
    assert RecInv(q, s.rw[x], s.threads, x);
    b :| 0 <= b < |q| && q[b].tid == t && q[b].kind == kind;
    assert Same(q[b], Req(s.threads[t], t, kind)) by { assert Listed(q[b], s.threads, x); }
  }

  lemma RecFrame(q: seq<LockInfo>, rw: RW, ths: seq<Thread>, t: nat, th': Thread, x: nat)
    requires RecInv(q, rw, ths, x) && t < |ths|
    requires forall a :: 0 <= a < |q| && q[a].tid == t ==> SameStanding(ths[t], th', q[a].kind)
    ensures RecInv(q, rw, ths[t := th'], x)
  {
    var ths' := ths[t := th'];
    forall a | 0 <= a < |q|
      ensures Listed(q[a], ths', x) && PhaseOf(ths'[q[a].tid].pc, q[a].kind) == PhaseOf(ths[q[a].tid].pc, q[a].kind)
    {
      assert Listed(q[a], ths, x);
    }
    assert Phases(q, ths') == Phases(q, ths);
  }

  /** A step that touches neither queues nor locks and keeps the thread's standing. */
  lemma PcOnly(s: State, s': State, t: nat, th': Thread)
    requires LockInv(s) && Shape(s') && t < |s.threads|
    requires s'.mon.queue == s.mon.queue && s'.rw == s.rw && s'.threads == s.threads[t := th']
    requires forall kind :: SameStanding(s.threads[t], th', kind)
    ensures LockInv(s')
  {
    hide QueueInv;
    forall x | 0 <= x < |s.rw| ensures RecInv(s'.mon.queue[x], s'.rw[x], s'.threads, x) {
      assert RecInv(s.mon.queue[x], s.rw[x], s.threads, x);
      RecFrame(s.mon.queue[x], s.rw[x], s.threads, t, th', x);
    }
    forall u, k | 0 <= u < |s'.threads| && Has(s'.threads[u].pc, k)
      ensures InQueue(s'.mon.queue[RecOf(s'.threads[u], k)], u, k)
    {
      assert u == t ==> SameStanding(s.threads[t], th', k);
      assert InQueue(s.mon.queue[RecOf(s.threads[u], k)], u, k);
    }
  }

  /** A step that works on the queue and the lock of one record only. */
  lemma OneRecord(s: State, s': State, t: nat, th': Thread, kind: LockType, x: nat, q': seq<LockInfo>, rw': RW)
    requires LockInv(s) && Shape(s') && t < |s.threads|
    requires x == RecOf(s.threads[t], kind) == RecOf(th', kind) && x < |s.rw|
    requires s'.mon.queue == s.mon.queue[x := q'] && s'.rw == s.rw[x := rw'] && s'.threads == s.threads[t := th']
    requires forall other :: other != kind ==> SameStanding(s.threads[t], th', other)
    requires RecInv(q', rw', s'.threads, x)
    requires forall a :: 0 <= a < |s.mon.queue[x]| && s.mon.queue[x][a].tid != t ==>
               InQueue(q', s.mon.queue[x][a].tid, s.mon.queue[x][a].kind)
    requires Has(th'.pc, kind) ==> InQueue(q', t, kind)
    ensures LockInv(s')
  {
    hide QueueInv;
    forall y | 0 <= y < |s.rw| ensures RecInv(s'.mon.queue[y], s'.rw[y], s'.threads, y) {
      if y != x {
        var q := s.mon.queue[y];
        assert RecInv(q, s.rw[y], s.threads, y);
        assert forall a :: 0 <= a < |q| && q[a].tid == t ==> Listed(q[a], s.threads, y);
        RecFrame(q, s.rw[y], s.threads, t, th', y);
      }
    }
    forall u, k | 0 <= u < |s'.threads| && Has(s'.threads[u].pc, k)
      ensures InQueue(s'.mon.queue[RecOf(s'.threads[u], k)], u, k)
    {
      if u != t {
        assert InQueue(s.mon.queue[RecOf(s.threads[u], k)], u, k);
      } else if k != kind {
        assert SameStanding(s.threads[t], th', k);
        assert InQueue(s.mon.queue[RecOf(s.threads[t], k)], t, k);
        assert ThreadShape(s.threads[t], |s.value|);
        assert RecOf(s.threads[t], k) != x;
      }
    }
  }

  /** A step that only moves one request to another phase, and the lock with it. */
  lemma Rephase(s: State, s': State, t: nat, kind: LockType, b: nat, rw': RW)
    requires LockInv(s) && Shape(s') && t < |s.threads| && Has(s.threads[t].pc, kind)
    requires |s'.threads| == |s.threads| && s'.threads == s.threads[t := s'.threads[t]]
    requires RecOf(s'.threads[t], kind) == RecOf(s.threads[t], kind)
    requires forall other :: other != kind ==> SameStanding(s.threads[t], s'.threads[t], other)
    requires Has(s'.threads[t].pc, kind)
    requires var x := RecOf(s.threads[t], kind); var q := s.mon.queue[x];
             && s'.mon.queue == s.mon.queue && s'.rw == s.rw[x := rw']
             && b < |q| && q[b].tid == t && q[b].kind == kind
             && (forall a :: 0 <= a < |q| && a != b ==> q[a].tid != t)
             && (forall a :: 0 <= a < |q| ==> q[a].tid < |s.threads|)
             && QueueInv(q, Phases(q, s.threads)[b := PhaseOf(s'.threads[t].pc, kind)], rw')
    ensures LockInv(s')
  {
    hide QueueInv;
    var x := RecOf(s.threads[t], kind);
    var q := s.mon.queue[x];
    assert RecInv(q, s.rw[x], s.threads, x);
    assert Phases(q, s'.threads) == Phases(q, s.threads)[b := PhaseOf(s'.threads[t].pc, kind)];
    assert AllListed(q, s'.threads, x) by {
      forall a | 0 <= a < |q| ensures Listed(q[a], s'.threads, x) { assert Listed(q[a], s.threads, x); }
    }
    assert InQueue(q, t, kind);
    assert s'.mon.queue == s.mon.queue[x := q];
    OneRecord(s, s', t, s'.threads[t], kind, x, q, rw');
  }

  /** The queue invariant once the request at b has been let in. */
  lemma LetIn(q: seq<LockInfo>, ph: seq<Phase>, rw: RW, b: nat)
    requires QueueInv(q, ph, rw) && b < |q| && ph[b] == Pending && !rw.writing
    requires forall a :: 0 <= a < b ==> q[a].kind == R && (q[b].kind == R || q[a].getLock)
    ensures QueueInv(q, ph[b := if q[b].kind == R then Taken else Claimed], Admit(rw, q[b].kind))
  {
    hide QueueInv;
    if q[b].kind == R {
      GrantReader(q, ph, rw, b);
    } else {
      ClaimWriter(q, ph, rw, b);
    }
  }

  lemma LockingShape(s: State, t: nat, kind: LockType)
    requires Shape(s) && t < |s.threads| && s.threads[t].pc == Locking(kind)
    ensures var s' := DoLocking(s, t, kind); var x := RecOf(s.threads[t], kind);
            && s'.mon == s.mon && s'.rw == s.rw[x := Admit(s.rw[x], kind)] && |s'.threads| == |s.threads|
            && s'.threads == s.threads[t := s'.threads[t]] && RecOf(s'.threads[t], kind) == x
            && Has(s.threads[t].pc, kind) && Has(s'.threads[t].pc, kind)
            && PhaseOf(s'.threads[t].pc, kind) == (if kind == R then Taken else Claimed)
            && forall other :: other != kind ==> SameStanding(s.threads[t], s'.threads[t], other)
  {
  }

  lemma LockingKept(s: State, t: nat, kind: LockType)
    requires LockInv(s) && t < |s.threads| && s.threads[t].pc == Locking(kind) && Enabled(s, t)
    ensures LockInv(DoLocking(s, t, kind))
  {
    hide QueueInv;
    var x := RecOf(s.threads[t], kind);
    var q := s.mon.queue[x];
    var b := Locate(s, t, kind);
    assert RecInv(q, s.rw[x], s.threads, x);
    assert Phases(q, s.threads)[b] == Pending;
    LetIn(q, Phases(q, s.threads), s.rw[x], b);
    assert forall a :: 0 <= a < |q| ==> Listed(q[a], s.threads, x);
    LockingShape(s, t, kind);
    hide LockInv, RecInv, DoLocking, SameStanding, Has, PhaseOf, Phases, Admit;
    Rephase(s, DoLocking(s, t, kind), t, kind, b, Admit(s.rw[x], kind));
  }

  lemma DrainingKept(s: State, t: nat, kind: LockType)
    requires LockInv(s) && t < |s.threads| && s.threads[t].pc == Draining(kind) && Enabled(s, t)
    ensures LockInv(Goto(s, t, Flagging(kind)))
  {
    hide QueueInv;
    var x := RecOf(s.threads[t], kind);
    var q := s.mon.queue[x];
    var b := Locate(s, t, kind);
    assert RecInv(q, s.rw[x], s.threads, x);
    assert Phases(q, s.threads)[b] == Claimed;
    FinishWriter(q, Phases(q, s.threads), s.rw[x], b);
    Rephase(s, Goto(s, t, Flagging(kind)), t, kind, b, s.rw[x]);
  }

  /** What the queue of record x looks like after the request at b got its flag. */
  lemma FlagQueue(q: seq<LockInfo>, rw: RW, ths: seq<Thread>, t: nat, kind: LockType, x: nat, b: nat)
    requires RecInv(q, rw, ths, x) && t < |ths| && ths[t].pc == Flagging(kind) && RecOf(ths[t], kind) == x
    requires b < |q| && q[b].tid == t && q[b].kind == kind && forall a :: 0 <= a < |q| && a != b ==> q[a].tid != t
    ensures var q' := Flag(q, Req(ths[t], t, kind));
            && RecInv(q', rw, ths[t := ths[t].(pc := Rejoin(kind))], x)
            && (forall a :: 0 <= a < |q| ==> InQueue(q', q[a].tid, q[a].kind))
  {
    hide QueueInv;
    var ph, q', ths' := Phases(q, ths), Flag(q, Req(ths[t], t, kind)), ths[t := ths[t].(pc := Rejoin(kind))];
    assert forall a :: 0 <= a < |q| ==> Listed(q[a], ths, x);
    assert q' == q[b := q[b].(getLock := true)];
    assert Phases(q', ths') == ph[b := Granted];
    SetFlag(q, ph, rw, b);
    assert AllListed(q', ths', x);
    assert forall a :: 0 <= a < |q| ==> q'[a].tid == q[a].tid && q'[a].kind == q[a].kind;
  }

  lemma FlaggingKept(s: State, s': State, t: nat, kind: LockType)
    requires LockInv(s) && t < |s.threads| && s.threads[t].pc == Flagging(kind)
    requires var x := RecOf(s.threads[t], kind);
             s' == Goto(s.(mon := s.mon.(queue := s.mon.queue[x := Flag(s.mon.queue[x], Req(s.threads[t], t, kind))])),
                        t, Rejoin(kind))
    ensures LockInv(s')
  {
    hide QueueInv, RecInv, Flag;
    var x := RecOf(s.threads[t], kind);
    var q := s.mon.queue[x];
    var b := Locate(s, t, kind);
    assert RecInv(q, s.rw[x], s.threads, x);
    FlagQueue(q, s.rw[x], s.threads, t, kind, x, b);
    OneRecord(s, s', t, s'.threads[t], kind, x, Flag(q, Req(s.threads[t], t, kind)), s.rw[x]);
  }

  /** The queue of the requested record after a request that found no cycle. */
  lemma AppendQueue(q: seq<LockInfo>, rw: RW, ths: seq<Thread>, t: nat, kind: LockType, x: nat)
    requires RecInv(q, rw, ths, x) && t < |ths| && ths[t].pc == Request(kind) && RecOf(ths[t], kind) == x
    requires forall other :: RecOf(ths[t], other) == x ==> other == kind
    ensures var q' := q + [Req(ths[t], t, kind)];
            && RecInv(q', rw, ths[t := ths[t].(pc := Locking(kind))], x)
            && (forall a :: 0 <= a < |q| ==> InQueue(q', q[a].tid, q[a].kind)) && InQueue(q', t, kind)
  {
    var req, ths' := Req(ths[t], t, kind), ths[t := ths[t].(pc := Locking(kind))];
    var q' := q + [req];
    assert forall a :: 0 <= a < |q| ==> Listed(q[a], ths, x);
    Append(q, Phases(q, ths), rw, req);
    hide QueueInv;
    assert Phases(q', ths') == Phases(q, ths) + [Pending];
    assert AllListed(q', ths', x);
    assert q'[|q|] == req && forall a :: 0 <= a < |q| ==> q'[a] == q[a];
  }

  lemma EnqueueKept(s: State, s': State, t: nat, kind: LockType)
    requires LockInv(s) && Shape(s') && t < |s.threads| && s.threads[t].pc == Request(kind)
    requires s'.threads == s.threads[t := s.threads[t].(pc := Locking(kind))] && s'.rw == s.rw
    requires var req := Req(s.threads[t], t, kind);
             s'.mon.queue == s.mon.queue[req.index := s.mon.queue[req.index] + [req]]
    ensures LockInv(s')
  {
    hide QueueInv;
    var x := RecOf(s.threads[t], kind);
    var q := s.mon.queue[x];
    assert ThreadShape(s.threads[t], |s.value|);
    assert RecInv(q, s.rw[x], s.threads, x);
    AppendQueue(q, s.rw[x], s.threads, t, kind, x);
    OneRecord(s, s', t, s'.threads[t], kind, x, q + [Req(s.threads[t], t, kind)], s.rw[x]);
  }

  /** What erasing entry b does to the listing and the phases of a queue. */
  lemma CutListing(q: seq<LockInfo>, ths: seq<Thread>, t: nat, th': Thread, x: nat, b: nat)
    requires AllListed(q, ths, x) && t < |ths| && b < |q| && q[b].tid == t
    requires forall a :: 0 <= a < |q| && a != b ==> q[a].tid != t
    ensures AllListed(Cut(q, b), ths[t := th'], x)
    ensures Phases(Cut(q, b), ths[t := th']) == Cut(Phases(q, ths), b)
    ensures forall a :: 0 <= a < |q| && q[a].tid != t ==> InQueue(Cut(q, b), q[a].tid, q[a].kind)
  {
    var q', ths' := Cut(q, b), ths[t := th'];
    assert forall a :: 0 <= a < |q| ==> Listed(q[a], ths, x);
    assert forall a :: 0 <= a < |q'| ==> q'[a] == q[if a < b then a else a + 1];
    assert AllListed(q', ths', x);
    forall a | 0 <= a < |q| && q[a].tid != t ensures InQueue(q', q[a].tid, q[a].kind) {
      assert q'[if a < b then a else a - 1] == q[a];
    }
  }

  /** The queue and the lock of record x after the release of the lock held at b. */
  lemma EraseQueue(q: seq<LockInfo>, rw: RW, ths: seq<Thread>, t: nat, th': Thread, x: nat, b: nat)
    requires RecInv(q, rw, ths, x) && t < |ths|
    requires b < |q| && q[b].tid == t && PhaseOf(ths[t].pc, q[b].kind) == Granted
    requires forall a :: 0 <= a < |q| && a != b ==> q[a].tid != t
    ensures RecInv(Cut(q, b), Dismiss(rw, q[b].kind), ths[t := th'], x)
    ensures forall a :: 0 <= a < |q| && q[a].tid != t ==> InQueue(Cut(q, b), q[a].tid, q[a].kind)
  {
    EraseHeld(q, Phases(q, ths), rw, b);
    hide QueueInv, AllListed;
    CutListing(q, ths, t, th', x, b);
  }

  lemma ReleaseKept(s: State, t: nat, m: nat, n: nat)
    requires LockInv(s) && t < |s.threads| && s.threads[t].pc == Release(m, n) && m < n <= 3
    ensures LockInv(DoRelease(s, t, m, n))
  {
    hide QueueInv;
    var s' := DoRelease(s, t, m, n);
    var kind := KindAt(m);
    var x := RecOf(s.threads[t], kind);
    var q := s.mon.queue[x];
    var b := Locate(s, t, kind);
    assert RecInv(q, s.rw[x], s.threads, x);
    EraseQueue(q, s.rw[x], s.threads, t, s'.threads[t], x, b);
    OneRecord(s, s', t, s'.threads[t], kind, x, Cut(q, b), s'.rw[x]);
  }

  lemma LockInvInit(s: State)
    requires Initial(s)
    ensures LockInv(s)
  {
  }

  lemma RequestKept(s: State, t: nat, kind: LockType)
    requires LockInv(s) && t < |s.threads| && s.threads[t].pc == Request(kind)
    ensures LockInv(DoRequest(s, t, kind))
  {
    hide QueueInv, RecInv;
    var s' := DoRequest(s, t, kind);
    if Reaches(AddEdges(s.mon, Req(s.threads[t], t, kind)).depend, t, t) {
      PcOnly(s, s', t, s'.threads[t]);
    } else {
      EnqueueKept(s, s', t, kind);
    }
  }

  lemma OtherStanding(s: State, s': State, t: nat, c: (nat, nat, nat))
    requires Step(s, s', t, c)
    requires var pc := s.threads[t].pc;
             pc.Top? || pc.Rejoin? || pc.Reading? || pc.Writing? || pc.Finish? || (pc.Release? && pc.m == pc.n)
    ensures Shape(s') && s'.mon.queue == s.mon.queue && s'.rw == s.rw && |s'.threads| == |s.threads|
    ensures s'.threads == s.threads[t := s'.threads[t]]
    ensures forall kind :: SameStanding(s.threads[t], s'.threads[t], kind)
  {
    hide DoRequest, DoRelease, DoLocking, Eligible, Flag;
  }

  /** Steps that touch neither a queue nor a lock. */
  lemma OtherKept(s: State, s': State, t: nat, c: (nat, nat, nat))
    requires LockInv(s) && Step(s, s', t, c)
    requires var pc := s.threads[t].pc;
             pc.Top? || pc.Rejoin? || pc.Reading? || pc.Writing? || pc.Finish? || (pc.Release? && pc.m == pc.n)
    ensures LockInv(s')
  {
    OtherStanding(s, s', t, c);
    hide LockInv, Step, SameStanding;
    PcOnly(s, s', t, s'.threads[t]);
  }

  lemma LockInvStep(s: State, s': State, t: nat, c: (nat, nat, nat))
    requires LockInv(s) && Step(s, s', t, c)
    ensures LockInv(s')
  {
    hide QueueInv, RecInv, DoLocking, DoRequest, DoRelease, DoReading, DoDecide, Eligible, Pos;
    match s.threads[t].pc
    case Request(kind) => RequestKept(s, t, kind);
    case Locking(kind) => LockingKept(s, t, kind);
    case Draining(kind) => DrainingKept(s, t, kind);
    case Flagging(kind) => FlaggingKept(s, s', t, kind);
    case Release(m, n) => if m < n { ReleaseKept(s, t, m, n); } else { OtherKept(s, s', t, c); }
    case Done =>
    case _ => OtherKept(s, s', t, c);
  }
}
