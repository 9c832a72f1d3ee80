/** Record values, logged lines and the serial replay of the log agree. */
module SerialData {
  import opened Options
  import opened LockManager
  import opened Engine
  import opened QueueOrder
  import opened EngineLocks
  import opened WaitGraph

  /** The effect of one transaction run alone. */
  function Apply(records: seq<int>, i: nat, j: nat, k: nat): (after: seq<int>)
    requires i < |records| && j < |records| && k < |records|
    ensures |after| == |records|
  {
    var read := records[i];
    var records' := records[j := records[j] + read + 1];
    records'[k := records'[k] - read]
  }

  predicate InRange(e: Entry, size: nat) {
    e.i < size && e.j < size && e.k < size
  }

  /** The records after replaying the lines one after another from all-100. */
  function Replay(log: seq<Entry>, size: nat): (records: seq<int>)
    requires forall n :: 0 <= n < |log| ==> InRange(log[n], size)
    ensures |records| == size
  {
    if |log| == 0 then seq(size, x => 100) else
      var e := log[|log| - 1];
      assert InRange(e, size);
      Apply(Replay(log[..|log| - 1], size), e.i, e.j, e.k)
  }

  /** The values a line shows are those of the replay just after it. */
  predicate LineOk(e: Entry, records: seq<int>) {
    InRange(e, |records|) && e.vi == records[e.i] && e.vj == records[e.j] && e.vk == records[e.k]
  }

  ghost predicate LogOk(log: seq<Entry>, size: nat) {
    && (forall n :: 0 <= n < |log| ==> InRange(log[n], size) && log[n].cid == n + 1)
    && (forall n :: 0 <= n < |log| ==> LineOk(log[n], Replay(log[..n + 1], size)))
  }

  function Val(th: Thread, kind: LockType): int {
    match kind case R => th.iv case W1 => th.jv case W2 => th.kv
  }

  /** The thread relies on its lock of this kind: from the moment it has passed the
      global mutex until its transaction is settled. */
  predicate Protects(pc: Pc, kind: LockType) {
    match pc
    case Top => false
    case Done => false
    case Reading(s) => Rank(kind) <= Rank(s)
    case Writing(s) => Rank(kind) <= Rank(s)
    case Finish => true
    case Release(_, n) => n == 3
    case _ => Rank(kind) < Rank(pc.s)
  }

  predicate HasRead(pc: Pc, kind: LockType) {
    Protects(pc, kind) && !(pc.Reading? && pc.s == kind)
  }

  predicate Dirty(pc: Pc, kind: LockType) {
    kind != R && HasRead(pc, kind) && !(pc.Writing? && pc.s == kind)
  }

  ghost predicate Exclusive(ths: seq<Thread>) {
    forall t, u, kt, ku ::
      (&& 0 <= t < |ths| && 0 <= u < |ths| && t != u
       && Protects(ths[t].pc, kt) && Protects(ths[u].pc, ku) && RecOf(ths[t], kt) == RecOf(ths[u], ku))
      ==> kt == R && ku == R
  }

  ghost predicate DirtyAt(ths: seq<Thread>, x: nat) {
    exists t, kind :: 0 <= t < |ths| && Dirty(ths[t].pc, kind) && RecOf(ths[t], kind) == x
  }

  predicate Known(th: Thread, serial: seq<int>)
    requires ThreadShape(th, |serial|)
  {
    forall kind :: HasRead(th.pc, kind) ==> Val(th, kind) == serial[RecOf(th, kind)]
  }

  predicate Wrote(th: Thread, value: seq<int>)
    requires ThreadShape(th, |value|)
  {
    && (Dirty(th.pc, W1) ==> value[th.j] == th.jv + th.iv + 1)
    && (Dirty(th.pc, W2) ==> value[th.k] == th.kv - th.iv)
  }

  ghost predicate Values(value: seq<int>, serial: seq<int>, ths: seq<Thread>)
  {
    && |value| == |serial|
    && (forall t :: 0 <= t < |ths| ==> ThreadShape(ths[t], |value|) && Known(ths[t], serial) && Wrote(ths[t], value))
    && (forall x :: 0 <= x < |value| && !DirtyAt(ths, x) ==> value[x] == serial[x])
  }

  function Max(a: int, b: int): int { if a < b then b else a }

  ghost predicate DataInv(s: State) {
    && Shape(s)
    && LogOk(s.log, |s.value|)
    && 0 <= s.order && |s.log| == (if s.order <= s.limit then s.order else Max(s.limit, 0))
    && Exclusive(s.threads)
    && Values(s.value, Replay(s.log, |s.value|), s.threads)
  }

  lemma DataInvInit(s: State)
    requires Initial(s)
    ensures DataInv(s)
  {
  }

  /** Two granted requests on one record are both reads. */
  lemma BothGranted(s: State, t: nat, kt: LockType, u: nat, ku: LockType)
    requires LockInv(s) && t < |s.threads| && u < |s.threads| && t != u
    requires Has(s.threads[t].pc, kt) && PhaseOf(s.threads[t].pc, kt) == Granted
    requires Has(s.threads[u].pc, ku) && PhaseOf(s.threads[u].pc, ku) == Granted
    requires RecOf(s.threads[t], kt) == RecOf(s.threads[u], ku)
    ensures kt == R && ku == R
  {
  }

  /** A thread that passes the global mutex after a grant joins the protected ones:
      whoever still relies on a conflicting lock would have to hold the mutex. */
  lemma RejoinAlone(s: State, t: nat, kind: LockType, u: nat, ku: LockType)
    requires LockInv(s) && GraphInv(s) && t < |s.threads| && s.threads[t].pc == Rejoin(kind)
    requires s.mutex == None || s.mutex == Some(t)
    requires u < |s.threads| && u != t && Protects(s.threads[u].pc, ku)
    requires RecOf(s.threads[u], ku) == RecOf(s.threads[t], kind)
    ensures ku == R && kind == R
  {
    assert MutexInv(s);
    hide QueueInv, RecInv, GraphInv, Complete;
    assert ThreadShape(s.threads[u], |s.value|);
    BothGranted(s, t, kind, u, ku);
  }

  /** Exclusion after one thread extends its protection by one lock. */
  lemma ExclusiveExtend(ths: seq<Thread>, t: nat, th': Thread, kind: LockType)
    requires Exclusive(ths) && t < |ths|
    requires forall k :: RecOf(th', k) == RecOf(ths[t], k)
    requires forall k :: Protects(th'.pc, k) ==> k == kind || Protects(ths[t].pc, k)
    requires forall u, ku ::
               0 <= u < |ths| && u != t && Protects(ths[u].pc, ku) && RecOf(ths[u], ku) == RecOf(ths[t], kind) ==>
               ku == R && kind == R
    ensures Exclusive(ths[t := th'])
  {
  }

  lemma ExclusiveShrink(ths: seq<Thread>, t: nat, th': Thread)
    requires Exclusive(ths) && t < |ths|
    requires forall k :: Protects(th'.pc, k) ==> Protects(ths[t].pc, k) && RecOf(th', k) == RecOf(ths[t], k)
    ensures Exclusive(ths[t := th'])
  {
  }

  lemma RejoinExclusive(s: State, t: nat, kind: LockType)
    requires LockInv(s) && GraphInv(s) && Exclusive(s.threads) && t < |s.threads| && s.threads[t].pc == Rejoin(kind)
    requires s.mutex == None || s.mutex == Some(t)
    ensures Exclusive(s.threads[t := s.threads[t].(pc := Reading(kind))])
  {
    hide LockInv, GraphInv, Exclusive;
    forall u, ku | 0 <= u < |s.threads| && u != t && Protects(s.threads[u].pc, ku)
      && RecOf(s.threads[u], ku) == RecOf(s.threads[t], kind)
      ensures ku == R && kind == R
    {
      RejoinAlone(s, t, kind, u, ku);
    }
    ExclusiveExtend(s.threads, t, s.threads[t].(pc := Reading(kind)), kind);
  }

  /** A record that a thread may touch holds its committed value, unless the thread
      itself has changed it. */
  lemma SeesCommitted(value: seq<int>, serial: seq<int>, ths: seq<Thread>, t: nat, kind: LockType)
    requires Exclusive(ths) && Values(value, serial, ths) && t < |ths|
    requires Protects(ths[t].pc, kind) && !Dirty(ths[t].pc, kind)
    ensures RecOf(ths[t], kind) < |value| && value[RecOf(ths[t], kind)] == serial[RecOf(ths[t], kind)]
  {
  }
}
