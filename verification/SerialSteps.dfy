/** Every step keeps values, log and serial replay in agreement. */
module SerialSteps {
  import opened LockManager
  import opened Engine
  import opened QueueOrder
  import opened EngineLocks
  import opened WaitGraph
  import opened SerialData

  /** A record stays dirty unless the only thread that dirtied it moves on. */
  lemma DirtyElsewhere(ths: seq<Thread>, t: nat, th': Thread, x: nat)
    requires t < |ths|
    ensures DirtyAt(ths, x) ==>
              DirtyAt(ths[t := th'], x) || exists k :: Dirty(ths[t].pc, k) && RecOf(ths[t], k) == x
  {
    if DirtyAt(ths, x) {
      var u, k :| 0 <= u < |ths| && Dirty(ths[u].pc, k) && RecOf(ths[u], k) == x;
      if u != t {
        var ths' := ths[t := th'];
        assert Dirty(ths'[u].pc, k) && RecOf(ths'[u], k) == x;
      }
    }
  }

  lemma DirtyStill(ths: seq<Thread>, t: nat, th': Thread, x: nat)
    requires t < |ths|
    requires forall k :: Dirty(ths[t].pc, k) ==> Dirty(th'.pc, k) && RecOf(th', k) == RecOf(ths[t], k)
    ensures DirtyAt(ths, x) ==> DirtyAt(ths[t := th'], x)
  {
    DirtyElsewhere(ths, t, th', x);
    var ths' := ths[t := th'];
    assert forall k :: Dirty(ths[t].pc, k) && RecOf(ths[t], k) == x ==> Dirty(ths'[t].pc, k) && RecOf(ths'[t], k) == x;
  }

  /** A step of t that changes no value and adds nothing that was read or written. */
  lemma ValuesPc(value: seq<int>, serial: seq<int>, ths: seq<Thread>, t: nat, th': Thread)
    requires Values(value, serial, ths) && t < |ths| && ThreadShape(th', |value|)
    requires forall k :: HasRead(th'.pc, k) ==> HasRead(ths[t].pc, k)
    requires forall k :: HasRead(th'.pc, k) ==> RecOf(th', k) == RecOf(ths[t], k) && Val(th', k) == Val(ths[t], k)
    requires forall k :: Dirty(th'.pc, k) == Dirty(ths[t].pc, k)
    ensures Values(value, serial, ths[t := th'])
  {
    var ths' := ths[t := th'];
    var th := ths[t];
    assert ThreadShape(th, |value|) && Known(th, serial) && Wrote(th, value);
    assert Known(th', serial);
    assert Dirty(th'.pc, W1) ==> HasRead(th'.pc, W1) && HasRead(th'.pc, R);
    assert Dirty(th'.pc, W2) ==> HasRead(th'.pc, W2) && HasRead(th'.pc, R);
    assert Wrote(th', value);
    forall x | 0 <= x < |value| && !DirtyAt(ths', x) ensures value[x] == serial[x] {
      DirtyStill(ths, t, th', x);
    }
  }

  lemma ValuesRead(value: seq<int>, serial: seq<int>, ths: seq<Thread>, t: nat, kind: LockType, th': Thread)
    requires Exclusive(ths) && Values(value, serial, ths) && t < |ths| && ths[t].pc == Reading(kind)
    requires ThreadShape(ths[t], |value|)
    requires kind == R ==> th' == ths[t].(pc := Request(W1), iv := value[ths[t].i])
    requires kind == W1 ==> th' == ths[t].(pc := Writing(W1), jv := value[ths[t].j])
    requires kind == W2 ==> th' == ths[t].(pc := Writing(W2), kv := value[ths[t].k])
    ensures Values(value, serial, ths[t := th'])
  {
    SeesCommitted(value, serial, ths, t, kind);
    var ths' := ths[t := th'];
    assert Known(ths[t], serial) && Wrote(ths[t], value);
    assert forall k :: HasRead(th'.pc, k) ==> k == kind || HasRead(ths[t].pc, k);
    assert Known(th', serial);
    assert Wrote(th', value);
    forall x | 0 <= x < |value| && !DirtyAt(ths', x) ensures value[x] == serial[x] {
      DirtyStill(ths, t, th', x);
    }
  }

  /** A write to a record that t protects exclusively does not disturb what the others wrote. */
  lemma OthersWrote(value: seq<int>, ths: seq<Thread>, t: nat, kind: LockType, u: nat, v: int)
    requires Exclusive(ths) && t < |ths| && u < |ths| && t != u && Protects(ths[t].pc, kind)
    requires ThreadShape(ths[t], |value|) && ThreadShape(ths[u], |value|) && Wrote(ths[u], value)
    ensures RecOf(ths[t], kind) < |value| && Wrote(ths[u], value[RecOf(ths[t], kind) := v])
  {
  }

  lemma ValuesWrite(value: seq<int>, serial: seq<int>, ths: seq<Thread>, t: nat, kind: LockType, th': Thread, v: int)
    requires Exclusive(ths) && Values(value, serial, ths) && t < |ths| && kind != R && ths[t].pc == Writing(kind)
    requires ThreadShape(ths[t], |value|) && th' == ths[t].(pc := if kind == W1 then Request(W2) else Finish)
    requires v == if kind == W1 then ths[t].jv + ths[t].iv + 1 else ths[t].kv - ths[t].iv
    ensures Values(value[RecOf(ths[t], kind) := v], serial, ths[t := th'])
  {
    var x0 := RecOf(ths[t], kind);
    var ths', value' := ths[t := th'], value[x0 := v];
    assert Known(ths[t], serial) && Wrote(ths[t], value);
    assert forall k :: HasRead(th'.pc, k) ==> k == kind || HasRead(ths[t].pc, k);
    forall u | 0 <= u < |ths| && u != t ensures Wrote(ths[u], value') { OthersWrote(value, ths, t, kind, u, v); }
    hide Exclusive;
    assert Known(th', serial);
    assert Wrote(th', value');
    assert DirtyAt(ths', x0) by { assert Dirty(ths'[t].pc, kind) && RecOf(ths'[t], kind) == x0; }
    forall x | 0 <= x < |value| && !DirtyAt(ths', x) ensures value'[x] == serial[x] {
      DirtyStill(ths, t, th', x);
    }
  }

  /** Roll-back: t restores what it changed and relies on nothing any more. */
  lemma ValuesUndo(value: seq<int>, value': seq<int>, serial: seq<int>, ths: seq<Thread>, t: nat, th': Thread)
    requires Exclusive(ths) && Values(value, serial, ths) && t < |ths| && |value'| == |value|
    requires ThreadShape(th', |value|) && forall k :: !HasRead(th'.pc, k)
    requires forall x :: 0 <= x < |value| && value'[x] != value[x] ==>
               value'[x] == serial[x] && exists k :: Protects(ths[t].pc, k) && RecOf(ths[t], k) == x
    requires forall k :: Dirty(ths[t].pc, k) ==>
               RecOf(ths[t], k) < |value| && value'[RecOf(ths[t], k)] == serial[RecOf(ths[t], k)]
    ensures Values(value', serial, ths[t := th'])
  {
    var ths' := ths[t := th'];
    forall u | 0 <= u < |ths| && u != t ensures Wrote(ths[u], value') {
      assert ThreadShape(ths[u], |value|) && Wrote(ths[u], value);
      forall k | Dirty(ths[u].pc, k) ensures value'[RecOf(ths[u], k)] == value[RecOf(ths[u], k)] {
        var x := RecOf(ths[u], k);
        assert Protects(ths[u].pc, k);
        assert forall kt :: Protects(ths[t].pc, kt) ==> RecOf(ths[t], kt) != x;
      }
    }
    forall x | 0 <= x < |value| && !DirtyAt(ths', x) ensures value'[x] == serial[x] {
      DirtyElsewhere(ths, t, th', x);
    }
  }

  /** What the transaction wrote is what running it alone on the committed state writes. */
  lemma CommitOwn(th: Thread, value: seq<int>, serial: seq<int>)
    requires ThreadShape(th, |value|) && |serial| == |value| && Known(th, serial) && Wrote(th, value)
    requires (forall k :: HasRead(th.pc, k) && (k != R ==> Dirty(th.pc, k))) && value[th.i] == serial[th.i]
    ensures var serial' := Apply(serial, th.i, th.j, th.k);
            && value[th.i] == serial'[th.i] && value[th.j] == serial'[th.j] && value[th.k] == serial'[th.k]
            && forall x :: 0 <= x < |value| && x != th.j && x != th.k ==> serial'[x] == serial[x]
  {
    assert HasRead(th.pc, R) && HasRead(th.pc, W1) && HasRead(th.pc, W2);
    assert Val(th, R) == serial[RecOf(th, R)] && Val(th, W1) == serial[RecOf(th, W1)];
    assert Val(th, W2) == serial[RecOf(th, W2)];
  }

  /** A commit does not touch what another thread has read. */
  lemma CommitKnown(serial: seq<int>, serial': seq<int>, ths: seq<Thread>, t: nat, u: nat)
    requires Exclusive(ths) && t < |ths| && u < |ths| && u != t && |serial'| == |serial|
    requires Protects(ths[t].pc, W1) && Protects(ths[t].pc, W2)
    requires ThreadShape(ths[u], |serial|) && Known(ths[u], serial)
    requires forall x :: 0 <= x < |serial| && x != ths[t].j && x != ths[t].k ==> serial'[x] == serial[x]
    ensures Known(ths[u], serial')
  {
    forall k | HasRead(ths[u].pc, k) ensures RecOf(ths[u], k) != ths[t].j && RecOf(ths[u], k) != ths[t].k {
      assert Protects(ths[u].pc, k);
      assert RecOf(ths[t], W1) == ths[t].j && RecOf(ths[t], W2) == ths[t].k;
    }
  }

  /** Commit: the serial state moves to what t left in the records. */
  lemma ValuesCommit(value: seq<int>, serial: seq<int>, ths: seq<Thread>, t: nat, th': Thread)
    requires Exclusive(ths) && Values(value, serial, ths) && t < |ths| && ThreadShape(ths[t], |value|)
    requires forall k :: HasRead(ths[t].pc, k) && (k != R ==> Dirty(ths[t].pc, k))
    requires ThreadShape(th', |value|) && forall k :: !HasRead(th'.pc, k)
    ensures var serial' := Apply(serial, ths[t].i, ths[t].j, ths[t].k);
            && Values(value, serial', ths[t := th'])
            && value[ths[t].i] == serial'[ths[t].i] && value[ths[t].j] == serial'[ths[t].j]
            && value[ths[t].k] == serial'[ths[t].k]
  {
    var th := ths[t];
    var serial', ths' := Apply(serial, th.i, th.j, th.k), ths[t := th'];
    assert HasRead(th.pc, R) && HasRead(th.pc, W1) && HasRead(th.pc, W2);
    SeesCommitted(value, serial, ths, t, R);
    CommitOwn(th, value, serial);
    hide Exclusive, Apply;
    forall u | 0 <= u < |ths| && u != t ensures Known(ths[u], serial') {
      CommitKnown(serial, serial', ths, t, u);
    }
    hide Known, Wrote;
    assert Known(th', serial') && Wrote(th', value) by { OwesNothing(th', serial', value); }
    forall x | 0 <= x < |value| && !DirtyAt(ths', x) ensures value[x] == serial'[x] {
      DirtyElsewhere(ths, t, th', x);
    }
  }

  lemma OwesNothing(th: Thread, serial: seq<int>, value: seq<int>)
    requires |serial| == |value| && ThreadShape(th, |value|) && forall k :: !HasRead(th.pc, k)
    ensures Known(th, serial) && Wrote(th, value)
  {
  }

  lemma ReplayExtend(log: seq<Entry>, size: nat, e: Entry)
    requires (forall n :: 0 <= n < |log| ==> InRange(log[n], size)) && InRange(e, size)
    ensures forall n :: 0 <= n < |log + [e]| ==> InRange((log + [e])[n], size)
    ensures Replay(log + [e], size) == Apply(Replay(log, size), e.i, e.j, e.k)
  {
    hide Apply, InRange;
    assert (log + [e])[..|log|] == log;
  }

  lemma LogExtend(log: seq<Entry>, size: nat, e: Entry)
    requires LogOk(log, size) && InRange(e, size) && e.cid == |log| + 1
    requires LineOk(e, Apply(Replay(log, size), e.i, e.j, e.k))
    ensures LogOk(log + [e], size) && Replay(log + [e], size) == Apply(Replay(log, size), e.i, e.j, e.k)
  {
    ReplayExtend(log, size, e);
    hide Replay, Apply, InRange, LineOk;
    var log' := log + [e];
    assert log'[..|log| + 1] == log';
    forall n | 0 <= n < |log| ensures log'[n] == log[n] && log'[..n + 1] == log[..n + 1] {
    }
  }

  lemma CommitKept(s: State, t: nat)
    requires DataInv(s) && t < |s.threads| && s.threads[t].pc == Release(3, 3) && s.order + 1 <= s.limit
    ensures DataInv(DoDecide(s, t))
  {
    var s' := DoDecide(s, t);
    var th := s.threads[t];
    var serial := Replay(s.log, |s.value|);
    hide LogOk, Exclusive, Replay, Apply, Values;
    ExclusiveShrink(s.threads, t, s'.threads[t]);
    ValuesCommit(s.value, serial, s.threads, t, s'.threads[t]);
    LogExtend(s.log, |s.value|, s'.log[|s.log|]);
  }

  /** Restoring the three values read undoes exactly what the transaction changed. */
  lemma UndoFacts(th: Thread, value: seq<int>, serial: seq<int>)
    requires ThreadShape(th, |value|) && |value| == |serial| && th.pc == Release(3, 3) && Known(th, serial)
    ensures var value' := value[th.i := th.iv][th.j := th.jv][th.k := th.kv];
            && (forall x :: 0 <= x < |value| && value'[x] != value[x] ==>
                  value'[x] == serial[x] && exists k :: Protects(th.pc, k) && RecOf(th, k) == x)
            && (forall k :: Dirty(th.pc, k) ==> RecOf(th, k) < |value| && value'[RecOf(th, k)] == serial[RecOf(th, k)])
  {
    assert Val(th, R) == serial[RecOf(th, R)] && Val(th, W1) == serial[RecOf(th, W1)];
    assert Val(th, W2) == serial[RecOf(th, W2)];
    assert Protects(th.pc, R) && Protects(th.pc, W1) && Protects(th.pc, W2);
  }

  lemma OverLimitKept(s: State, t: nat)
    requires DataInv(s) && t < |s.threads| && s.threads[t].pc == Release(3, 3) && s.order + 1 > s.limit
    ensures DataInv(DoDecide(s, t))
  {
    var s' := DoDecide(s, t);
    var th := s.threads[t];
    var serial := Replay(s.log, |s.value|);
    UndoFacts(th, s.value, serial);
    hide LogOk, Exclusive, Replay, Apply, Values;
    ExclusiveShrink(s.threads, t, s'.threads[t]);
    ValuesUndo(s.value, s'.value, serial, s.threads, t, s'.threads[t]);
  }

  /** Giving up on the second write undoes the first. */
  lemma GiveUpFacts(th: Thread, kind: LockType, value: seq<int>, serial: seq<int>)
    requires ThreadShape(th, |value|) && |value| == |serial| && th.pc == Request(kind) && Known(th, serial)
    ensures var value' := if kind == W2 then value[th.j := th.jv] else value;
            && (forall x :: 0 <= x < |value| && value'[x] != value[x] ==>
                  value'[x] == serial[x] && exists k :: Protects(th.pc, k) && RecOf(th, k) == x)
            && (forall k :: Dirty(th.pc, k) ==> RecOf(th, k) < |value| && value'[RecOf(th, k)] == serial[RecOf(th, k)])
  {
    assert kind == W2 ==> HasRead(th.pc, W1) && Val(th, W1) == serial[RecOf(th, W1)] && Protects(th.pc, W1);
  }

  lemma RequestDataKept(s: State, t: nat, kind: LockType)
    requires DataInv(s) && t < |s.threads| && s.threads[t].pc == Request(kind)
    ensures DataInv(DoRequest(s, t, kind))
  {
    var s' := DoRequest(s, t, kind);
    var serial := Replay(s.log, |s.value|);
    GiveUpFacts(s.threads[t], kind, s.value, serial);
    hide LogOk, Exclusive, Replay, Reaches, Enqueue, Immediate, AddEdges, Values;
    ExclusiveShrink(s.threads, t, s'.threads[t]);
    if Reaches(AddEdges(s.mon, Req(s.threads[t], t, kind)).depend, t, t) {
      ValuesUndo(s.value, s'.value, serial, s.threads, t, s'.threads[t]);
    } else {
      ValuesPc(s.value, serial, s.threads, t, s'.threads[t]);
    }
  }

  /** Steps that neither write a record nor extend the log. */
  lemma PlainDataKept(s: State, s': State, t: nat)
    requires DataInv(s) && Shape(s') && t < |s.threads| == |s'.threads| && s'.threads == s.threads[t := s'.threads[t]]
    requires s'.value == s.value && s'.log == s.log && s'.order == s.order && s'.limit == s.limit
    requires Exclusive(s'.threads)
    requires var th, th' := s.threads[t], s'.threads[t];
             && (forall k :: HasRead(th'.pc, k) ==>
                 HasRead(th.pc, k) && RecOf(th', k) == RecOf(th, k) && Val(th', k) == Val(th, k))
             && (forall k :: Dirty(th'.pc, k) == Dirty(th.pc, k))
    ensures DataInv(s')
  {
    ValuesPc(s.value, Replay(s.log, |s.value|), s.threads, t, s'.threads[t]);
  }

  lemma WritingKept(s: State, t: nat, kind: LockType, v: int)
    requires DataInv(s) && t < |s.threads| && s.threads[t].pc == Writing(kind) && kind != R
    requires v == if kind == W1 then s.threads[t].jv + s.threads[t].iv + 1 else s.threads[t].kv - s.threads[t].iv
    ensures DataInv(Goto(s.(value := s.value[RecOf(s.threads[t], kind) := v]), t,
        if kind == W1 then Request(W2) else Finish))
  {
    var serial := Replay(s.log, |s.value|);
    var th := s.threads[t];
    var th' := th.(pc := if kind == W1 then Request(W2) else Finish);
    hide LogOk, Exclusive, Values, Replay;
    ExclusiveShrink(s.threads, t, th');
    ValuesWrite(s.value, serial, s.threads, t, kind, th', v);
  }

  lemma ReadingKept(s: State, t: nat, kind: LockType)
    requires DataInv(s) && t < |s.threads| && s.threads[t].pc == Reading(kind)
    ensures DataInv(DoReading(s, t, kind))
  {
    var s' := DoReading(s, t, kind);
    ExclusiveShrink(s.threads, t, s'.threads[t]);
    ValuesRead(s.value, Replay(s.log, |s.value|), s.threads, t, kind, s'.threads[t]);
  }

  lemma RejoinKept(s: State, s': State, t: nat, kind: LockType, c: (nat, nat, nat))
    requires LockInv(s) && GraphInv(s) && DataInv(s) && Step(s, s', t, c) && s.threads[t].pc == Rejoin(kind)
    ensures DataInv(s')
  {
    RejoinExclusive(s, t, kind);
    hide LockInv, GraphInv, DataInv, DoRequest, DoRelease, DoDecide, DoLocking, DoReading, Flag, Eligible;
    PlainDataKept(s, s', t);
  }

  lemma OtherDataKept(s: State, s': State, t: nat, c: (nat, nat, nat))
    requires DataInv(s) && Step(s, s', t, c)
    requires var pc := s.threads[t].pc;
             pc.Top? || pc.Locking? || pc.Draining? || pc.Flagging? || pc.Finish? || (pc.Release?
               && (pc.m < pc.n || pc.n < 3))
    ensures DataInv(s')
  {
    hide DataInv, Eligible, Pos, Flag, DeleteLock;
    var th' := s'.threads[t];
    assert s'.threads == s.threads[t := th'];
    assert s'.value == s.value && s'.log == s.log && s'.order == s.order;
    assert forall k :: Protects(th'.pc, k) == Protects(s.threads[t].pc, k);
    assert forall k :: Protects(th'.pc, k) ==>
        RecOf(th', k) == RecOf(s.threads[t], k) && Val(th', k) == Val(s.threads[t], k);
    assert Exclusive(s'.threads) by { OtherExclusive(s, t, th'); }
    PlainDataKept(s, s', t);
  }

  lemma OtherExclusive(s: State, t: nat, th': Thread)
    requires DataInv(s) && t < |s.threads|
    requires forall k :: Protects(th'.pc, k) ==> Protects(s.threads[t].pc, k) && RecOf(th', k) == RecOf(s.threads[t], k)
    ensures Exclusive(s.threads[t := th'])
  {
  }

  lemma DataInvStep(s: State, s': State, t: nat, c: (nat, nat, nat))
    requires LockInv(s) && GraphInv(s) && DataInv(s) && Step(s, s', t, c)
    ensures DataInv(s')
  {
    hide LockInv, GraphInv, DataInv, DoRequest, DoReading, DoDecide, DoRelease, DoLocking;
    match s.threads[t].pc
    case Request(kind) => RequestDataKept(s, t, kind);
    case Rejoin(kind) => RejoinKept(s, s', t, kind, c);
    case Reading(kind) => ReadingKept(s, t, kind);
    case Writing(kind) => WritingKept(s, t, kind,
        if kind == W1 then s.threads[t].jv + s.threads[t].iv + 1 else s.threads[t].kv - s.threads[t].iv);
    case Done =>
    case Release(m, n) =>
      if m < n || n < 3 {
        OtherDataKept(s, s', t, c);
      } else if s.order + 1 <= s.limit {
        CommitKept(s, t);
      } else {
        OverLimitKept(s, t);
      }
    case _ => OtherDataKept(s, s', t, c);
  }
}
