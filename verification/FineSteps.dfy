/** Each step of the fine engine keeps its invariant. */
module FineSteps {
  import opened Options
  import opened LockManager
  import opened Engine
  import opened QueueOrder
  import opened EngineLocks
  import opened WaitGraph
  import opened EngineTheorems
  import opened FineEngine
  import opened FineLocks
  import opened FineProof

  /** The queues took nothing away from those who wait. */
  ghost predicate QueuesGrow(queue: seq<seq<LockInfo>>, queue': seq<seq<LockInfo>>, stage: Stage) {
    && |queue'| == |queue|
    && (forall y, v :: 0 <= y < |queue| && HasAhead(queue[y], v) ==> HasAhead(queue'[y], v))
    && (stage != Whole ==> forall y, r :: 0 <= y < |queue| && Eligible(queue[y], r) ==> Eligible(queue'[y], r))
  }

  ghost predicate LocksGrow(rw: seq<RW>, rw': seq<RW>) {
    && |rw'| == |rw|
    && (forall y :: 0 <= y < |rw| ==> rw[y].numReader <= rw'[y].numReader && (rw[y].writing ==> rw'[y].writing))
  }

  /** Thread t moved and no release made progress. */
  ghost predicate Calm(f: Fine, f': Fine, t: nat) {
    && FineShape(f) && Staged(f) && FineShape(f') && Staged(f') && t < |f.base.threads| == |f'.base.threads|
    && f'.stage == f.stage && f'.base.threads == f.base.threads[t := f'.base.threads[t]] && |f'.spin| == |f.spin|
    && (f.stage != Whole ==> f'.base.mutex == f.base.mutex && f.base.mutex != Some(t))
    && QueuesGrow(f.base.mon.queue, f'.base.mon.queue, f.stage) && LocksGrow(f.base.rw, f'.base.rw)
  }

  lemma CalmRests(f: Fine, f': Fine, t: nat, v: nat)
    requires Calm(f, f', t) && v < |f.base.threads| && v != t && Rests(f, v)
    ensures Rests(f', v)
  {
    hide HasAhead, Eligible;
  }

  lemma CalmSpins(f: Fine, f': Fine, t: nat, y: nat, u: nat)
    requires Calm(f, f', t) && y < |f.spin| && u != t && Spins(f, y, u) && u !in f'.asleep
    ensures Spins(f', y, u)
  {
    hide HasAhead, Eligible;
  }

  lemma CalmKeeps(f: Fine, f': Fine, t: nat)
    requires Calm(f, f', t) && WindowInv(f) && SpinInv(f) && SleepInv(f)
    requires f'.asleep <= f.asleep + {t} && (t in f'.asleep ==> Rests(f', t))
    requires forall y :: 0 <= y < |f.spin| && f'.spin[y].Some? ==>
               if f'.spin[y] == Some(t) then Spins(f', y, t) else f'.spin[y] == f.spin[y]
    ensures WindowInv(f') && SpinInv(f') && SleepInv(f')
  {
    hide HasAhead, Eligible, Rests, Spins;
    forall v | v in f'.asleep ensures v < |f'.base.threads| && Rests(f', v) {
      if v != t { CalmRests(f, f', t, v); }
    }
    forall y | 0 <= y < |f'.spin| && f'.spin[y].Some? ensures Spins(f', y, f'.spin[y].value) {
      var u := f'.spin[y].value;
      if u != t {
        assert u !in f.asleep by { SpinsAwake(f, y, u); }
        CalmSpins(f, f', t, y, u);
      }
    }
  }

  lemma SpinsAwake(f: Fine, y: nat, u: nat)
    requires FineShape(f) && Staged(f) && y < |f.spin| && Spins(f, y, u)
    ensures u !in f.asleep && u < |f.base.threads| && f.base.threads[u].pc.Locking? && Site(f.base.threads[u]) == y
    ensures f.stage == Erased && ReleasesAt(f, y) && ReleasedKind(f) != R
  {
  }

  // ---- tests ----

  /** A thread that passes the queue test and finds the lock taken does so between the erase
      and the drop of a writer's lock. */
  lemma SpinWindow(f: Fine, t: nat, kind: LockType)
    requires FineShape(f) && Staged(f) && LockInv(Coarse(f)) && t < |f.base.threads|
    requires f.base.threads[t].pc == Locking(kind)
    requires f.stage != Whole ==> f.base.mutex.value != t
    requires var th := f.base.threads[t]; var x := RecOf(th, kind);
             Eligible(f.base.mon.queue[x], Req(th, t, kind)) && f.base.rw[x].writing
    ensures f.stage == Erased && ReleasesAt(f, RecOf(f.base.threads[t], kind)) && ReleasedKind(f) != R
  {
    hide LockInv, Eligible;
    EligibleIsFree(Coarse(f), t, kind);
  }

  lemma SleepIsDue(f: Fine, t: nat, kind: LockType)
    requires FineShape(f) && Staged(f) && LockInv(Coarse(f)) && t < |f.base.threads|
    requires f.base.threads[t].pc == Locking(kind)
    requires f.stage != Whole ==> f.base.mutex.value != t
    requires var th := f.base.threads[t]; !Eligible(f.base.mon.queue[RecOf(th, kind)], Req(th, t, kind))
    ensures HasAhead(f.base.mon.queue[RecOf(f.base.threads[t], kind)], t)
  {
    hide LockInv, Eligible, HasAhead;
    IneligibleHasAhead(Coarse(f), t, kind);
  }

  lemma TestIsCalm(f: Fine, t: nat, kind: LockType)
    requires FineShape(f) && Staged(f) && t < |f.base.threads| && f.base.threads[t].pc == Locking(kind)
    requires f.stage != Whole ==> f.base.mutex.value != t
    ensures Calm(f, DoTest(f, t, kind), t)
  {
    hide HasAhead, Eligible;
  }

  /** The test leaves its own thread in order: asleep with a reason, or spinning in the window. */
  lemma TestSafe(f: Fine, t: nat, kind: LockType)
    requires FineShape(f) && Staged(f) && LockInv(Coarse(f)) && t < |f.base.threads|
    requires f.base.threads[t].pc == Locking(kind) && t !in f.asleep && (f.stage != Whole ==> f.base.mutex.value != t)
    ensures var f' := DoTest(f, t, kind); var x := RecOf(f.base.threads[t], kind);
            && Staged(f') && f'.asleep <= f.asleep + {t} && (t in f'.asleep ==> Rests(f', t))
            && (forall y :: 0 <= y < |f.spin| && y != x ==> f'.spin[y] == f.spin[y])
            && (f'.spin[x].Some? ==> f'.spin[x] == Some(t) && Spins(f', x, t))
  {
    hide LockInv, Eligible, HasAhead, Coarse;
    var th, x := f.base.threads[t], RecOf(f.base.threads[t], kind);
    if !Eligible(f.base.mon.queue[x], Req(th, t, kind)) {
      SleepIsDue(f, t, kind);
    } else if f.base.rw[x].writing {
      SpinWindow(f, t, kind);
    }
  }

  lemma TestKeeps(f: Fine, t: nat, kind: LockType)
    requires FineInv(f) && t < |f.base.threads| && f.base.threads[t].pc == Locking(kind) && FineEnabled(f, t)
    ensures var f' := DoTest(f, t, kind); Staged(f') && WindowInv(f') && SpinInv(f') && SleepInv(f')
  {
    OneReleaser(f, t);
    TestIsCalm(f, t, kind);
    OwnSpin(f, t, kind);
    hide GraphInv, LockInv, Lines, Calm, SpinInv, SleepInv, WindowInv, Coarse, DoTest, Rests, Spins;
    TestSafe(f, t, kind);
    CalmKeeps(f, DoTest(f, t, kind), t);
  }

  /** A thread spins at its own site only. */
  lemma OwnSpin(f: Fine, t: nat, kind: LockType)
    requires FineShape(f) && Staged(f) && SpinInv(f) && t < |f.base.threads| && f.base.threads[t].pc == Locking(kind)
    ensures forall y :: 0 <= y < |f.spin| && f.spin[y] == Some(t) ==> y == RecOf(f.base.threads[t], kind)
  {
    hide Eligible;
  }

  lemma DrainIsCalm(f: Fine, t: nat, kind: LockType)
    requires FineShape(f) && Staged(f) && t < |f.base.threads| && f.base.threads[t].pc == Draining(kind)
    requires f.stage != Whole ==> f.base.mutex.value != t
    ensures Calm(f, DoDrain(f, t, kind), t)
  {
    hide HasAhead, Eligible;
  }

  /** Only threads that ask for a lock spin, and only those and draining ones sleep. */
  lemma SpinnersAsk(f: Fine, t: nat)
    requires FineShape(f) && Staged(f) && SpinInv(f) && SleepInv(f) && t < |f.base.threads|
    requires !f.base.threads[t].pc.Locking?
    ensures forall y :: 0 <= y < |f.spin| ==> f.spin[y] != Some(t)
    ensures !f.base.threads[t].pc.Draining? ==> t !in f.asleep
  {
    hide Eligible, HasAhead;
  }

  lemma DrainKeeps(f: Fine, t: nat, kind: LockType)
    requires FineInv(f) && t < |f.base.threads| && f.base.threads[t].pc == Draining(kind) && t !in f.asleep
    ensures var f' := DoDrain(f, t, kind); Staged(f') && WindowInv(f') && SpinInv(f') && SleepInv(f')
  {
    OneReleaser(f, t);
    hide Inv, Eligible, HasAhead;
    DrainIsCalm(f, t, kind);
    SpinnersAsk(f, t);
    hide Calm, Coarse, SpinInv, SleepInv;
    assert t in DoDrain(f, t, kind).asleep ==> Rests(DoDrain(f, t, kind), t);
    hide Rests, Spins;
    CalmKeeps(f, DoDrain(f, t, kind), t);
  }

  // ---- the steps of the engine itself ----

  lemma FlagGrows(queue: seq<seq<LockInfo>>, x: nat, req: LockInfo, stage: Stage)
    requires x < |queue|
    ensures QueuesGrow(queue, queue[x := Flag(queue[x], req)], stage)
  {
    hide Eligible, HasAhead, Flag;
    forall v | HasAhead(queue[x], v) ensures HasAhead(Flag(queue[x], req), v) { AheadFlag(queue[x], req, v); }
    forall r | Eligible(queue[x], r) ensures Eligible(Flag(queue[x], req), r) { EligibleFlag(queue[x], req, r); }
  }

  lemma AppendGrows(queue: seq<seq<LockInfo>>, x: nat, req: LockInfo)
    requires x < |queue|
    ensures QueuesGrow(queue, queue[x := queue[x] + [req]], Whole)
  {
    hide HasAhead;
    forall v | HasAhead(queue[x], v) ensures HasAhead(queue[x] + [req], v) { AheadAppend(queue[x], req, v); }
  }

  lemma SameGrows(queue: seq<seq<LockInfo>>, stage: Stage)
    ensures QueuesGrow(queue, queue, stage)
  {
    hide HasAhead, Eligible;
  }

  /** Which steps of the engine touch a queue, and how. */
  lemma PlainQueues(s: State, t: nat, c: (nat, nat, nat), stage: Stage)
    requires Shape(s) && t < |s.threads| && Distinct(c, |s.value|) && Plain(s.threads[t].pc)
    requires s.threads[t].pc.Request? ==> stage == Whole
    ensures var s' := Do(s, t, c);
            && QueuesGrow(s.mon.queue, s'.mon.queue, stage) && s'.rw == s.rw
            && s'.threads == s.threads[t := s'.threads[t]]
  {
    hide QueuesGrow, Flag, Reaches, Pos;
    SameGrows(s.mon.queue, stage);
    match s.threads[t].pc
    case Flagging(kind) => FlagGrows(s.mon.queue, RecOf(s.threads[t], kind), Req(s.threads[t], t, kind), stage);
    case Request(kind) => AppendGrows(s.mon.queue, RecOf(s.threads[t], kind), Req(s.threads[t], t, kind));
    case _ =>
  }

  lemma PlainIsCalm(f: Fine, t: nat, c: (nat, nat, nat))
    requires FineShape(f) && Staged(f) && t < |f.base.threads| && Distinct(c, |f.base.value|)
    requires Plain(f.base.threads[t].pc) && FineEnabled(f, t)
    requires f.stage != Whole ==> f.base.mutex.value != t && !f.base.threads[t].pc.Release?
    requires Staged(f.(base := Do(f.base, t, c)))
    ensures Calm(f, f.(base := Do(f.base, t, c)), t)
  {
    PlainQueues(f.base, t, c, f.stage);
    if f.stage != Whole {
      PlainMutex(f.base, t, c);
    }
    hide Do, QueuesGrow;
  }

  lemma PlainMutex(s: State, t: nat, c: (nat, nat, nat))
    requires Shape(s) && t < |s.threads| && Distinct(c, |s.value|) && Plain(s.threads[t].pc) && Enabled(s, t)
    requires s.mutex.Some? && s.mutex != Some(t) && !s.threads[t].pc.Release?
    ensures Do(s, t, c).mutex == s.mutex
  {
    hide Reaches, Flag;
  }

  lemma PlainKeeps(f: Fine, t: nat, c: (nat, nat, nat))
    requires FineInv(f) && t < |f.base.threads| && Distinct(c, |f.base.value|)
    requires Plain(f.base.threads[t].pc) && FineEnabled(f, t)
    ensures var f' := f.(base := Do(f.base, t, c)); Staged(f') && WindowInv(f') && SpinInv(f') && SleepInv(f')
  {
    OneReleaser(f, t);
    PlainRefines(f, t, c);
    SpinnersAsk(f, t);
    hide Inv, SpinInv, SleepInv, WindowInv, Do, Coarse, Step;
    PlainIsCalm(f, t, c);
    hide Calm;
    CalmKeeps(f, f.(base := Do(f.base, t, c)), t);
  }

  // ---- releases ----

  /** Nobody spins unless a writer's request is erased and its lock not dropped. */
  lemma SpinOnlyInWindow(f: Fine)
    requires FineShape(f) && Staged(f) && SpinInv(f)
    ensures forall y :: 0 <= y < |f.spin| && f.spin[y].Some? ==>
               f.stage == Erased && ReleasesAt(f, y) && ReleasedKind(f) != R
  {
    hide Eligible;
  }

  lemma EraseRests(f: Fine, t: nat, m: nat, n: nat, v: nat)
    requires Releasing(f, t, m, n) && f.stage == Whole && v < |f.base.threads| && v != t && Rests(f, v)
    ensures var f' := DoReleaseStage(f, t, m, n); Staged(f') && Rests(f', v)
  {
    hide HasAhead, Erase, Forget;
  }

  lemma EraseKeeps(f: Fine, t: nat, m: nat, n: nat)
    requires FineInv(f) && Releasing(f, t, m, n) && f.stage == Whole
    ensures var f' := DoReleaseStage(f, t, m, n); Staged(f') && WindowInv(f') && SpinInv(f') && SleepInv(f')
  {
    SpinOnlyInWindow(f);
    SpinnersAsk(f, t);
    if KindAt(m) != R {
      WriterWrites(f.base, t, KindAt(m));
    }
    hide Inv, DeleteLock, Eligible, Rests;
    var f' := DoReleaseStage(f, t, m, n);
    forall v | v in f'.asleep ensures v < |f'.base.threads| && Rests(f', v) {
      EraseRests(f, t, m, n, v);
    }
  }

  /** A reader that leaves while a writer waits to get in wakes only that writer; the others
      still have its request in front of theirs. */
  lemma DropRests(f: Fine, t: nat, m: nat, n: nat, v: nat)
    requires Releasing(f, t, m, n) && f.stage == Erased && LockInv(Coarse(f)) && v < |f.base.threads| && v != t
    requires Rests(f, v)
    ensures var f' := DoReleaseStage(f, t, m, n); Staged(f') && Rests(f', v)
  {
    var f', th, x := DoReleaseStage(f, t, m, n), f.base.threads[v], Site(f.base.threads[t]);
    if Site(th) == x && f'.stage != Dropped(WakeQueue) {
      assert KindAt(m) == R && Coarse(f).rw[x].writing && f'.base.rw[x] == Coarse(f).rw[x];
      if th.pc.Locking? {
        WritingHasAhead(Coarse(f), v, th.pc.s);
      } else {
        CountersNat(Coarse(f), x);
      }
    }
    hide HasAhead, LockInv;
    if Site(th) == x && f'.stage == Dropped(WakeQueue) && th.pc.Draining? {
      WriterWrites(Coarse(f), v, th.pc.s);
    }
  }

  lemma DropKeeps(f: Fine, t: nat, m: nat, n: nat)
    requires FineInv(f) && Releasing(f, t, m, n) && f.stage == Erased && FineEnabled(f, t)
    ensures var f' := DoReleaseStage(f, t, m, n); Staged(f') && WindowInv(f') && SpinInv(f') && SleepInv(f')
  {
    SpinOnlyInWindow(f);
    SpinnersAsk(f, t);
    hide GraphInv, LockInv, Lines, Eligible, Rests;
    var f' := DoReleaseStage(f, t, m, n);
    forall v | v in f'.asleep ensures v < |f'.base.threads| && Rests(f', v) {
      DropRests(f, t, m, n, v);
    }
  }

  lemma NotifyRests(f: Fine, t: nat, m: nat, n: nat, v: nat)
    requires Releasing(f, t, m, n) && f.stage.Dropped? && v < |f.base.threads| && v != t && Rests(f, v)
    requires v in f.asleep - Woken(f, Site(f.base.threads[t]), f.stage.wake)
    ensures var f' := DoReleaseStage(f, t, m, n); Staged(f') && Rests(f', v)
  {
    hide HasAhead;
  }

  lemma NotifyKeeps(f: Fine, t: nat, m: nat, n: nat)
    requires FineInv(f) && Releasing(f, t, m, n) && f.stage.Dropped?
    ensures var f' := DoReleaseStage(f, t, m, n); Staged(f') && WindowInv(f') && SpinInv(f') && SleepInv(f')
  {
    SpinOnlyInWindow(f);
    SpinnersAsk(f, t);
    hide Inv, Eligible, Rests, Woken;
    var f' := DoReleaseStage(f, t, m, n);
    forall v | v in f'.asleep ensures v < |f'.base.threads| && Rests(f', v) {
      NotifyRests(f, t, m, n, v);
    }
  }

  // ---- every step and every run ----

  lemma FineInvStep(f: Fine, f': Fine, t: nat, c: (nat, nat, nat))
    requires FineInv(f) && FineStep(f, f', t, c)
    ensures Simulates(f, f', t, c) && FineInv(f')
  {
    hide Inv, SpinInv, SleepInv, WindowInv, Coarse, DoTest, DoDrain, DoReleaseStage, Do, Step;
    match f.base.threads[t].pc {
      case Locking(kind) =>
        TestRefines(f, t, kind, c);
        TestKeeps(f, t, kind);
      case Draining(kind) =>
        DrainRefines(f, t, kind, c);
        DrainKeeps(f, t, kind);
      case Release(m, n) =>
        if m < n {
          OneReleaser(f, t);
          assert Releasing(f, t, m, n);
          ReleaseRefines(f, t, m, n, c);
          match f.stage
          case Whole => EraseKeeps(f, t, m, n);
          case Erased => DropKeeps(f, t, m, n);
          case Dropped(_) => NotifyKeeps(f, t, m, n);
        } else {
          PlainRefines(f, t, c);
          PlainKeeps(f, t, c);
        }
      case _ =>
        PlainRefines(f, t, c);
        PlainKeeps(f, t, c);
    }
    if Coarse(f') != Coarse(f) {
      InvStep(Coarse(f), Coarse(f'), t, c);
    }
  }

  lemma FineInvInit(f: Fine)
    requires FineInitial(f)
    ensures FineInv(f)
  {
    hide Inv;
    InvInit(f.base);
  }

  lemma {:induction false} FineRunInv(run: seq<Fine>, n: nat)
    requires IsFineRun(run) && n < |run|
    ensures FineInv(run[n])
    ensures |run[n].base.value| == |run[0].base.value| && |run[n].base.threads| == |run[0].base.threads|
    ensures run[n].base.limit == run[0].base.limit
  {
    hide FineInv, FineStep;
    if n == 0 {
      FineInvInit(run[0]);
    } else {
      FineRunInv(run, n - 1);
      assert FineNext(run[n - 1], run[n - 1 + 1]);
      var t: nat, c: (nat, nat, nat) :| FineStep(run[n - 1], run[n], t, c);
      FineInvStep(run[n - 1], run[n], t, c);
      SizesKept(run[n - 1], run[n], t, c);
    }
  }

  lemma SizesKept(f: Fine, f': Fine, t: nat, c: (nat, nat, nat))
    requires FineStep(f, f', t, c)
    ensures |f'.base.value| == |f.base.value| && |f'.base.threads| == |f.base.threads| && f'.base.limit == f.base.limit
  {
    hide Eligible, Do, Woken;
  }
}
