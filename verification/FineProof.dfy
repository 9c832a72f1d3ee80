/** The fine engine refines the engine, and what it adds: sleepers are woken in time, and only
    a test made between the erase and the drop of a writer's lock can spin. */
module FineProof {
  import opened Options
  import opened LockManager
  import opened Engine
  import opened QueueOrder
  import opened EngineLocks
  import opened WaitGraph
  import opened EngineTheorems
  import opened FineEngine
  import opened FineLocks

  /** A release of a lock of record x is in progress. */
  predicate ReleasesAt(f: Fine, x: nat)
    requires Staged(f)
  {
    f.stage != Whole && Site(f.base.threads[f.base.mutex.value]) == x
  }

  function ReleasedKind(f: Fine): LockType
    requires Staged(f) && f.stage != Whole
  {
    KindAt(f.base.threads[f.base.mutex.value].pc.m)
  }

  /** While a writer's request is erased but its lock not dropped, `writing` is set. */
  predicate WindowInv(f: Fine)
    requires FineShape(f) && Staged(f)
  {
    f.stage == Erased && ReleasedKind(f) != R ==>
      f.base.rw[Site(f.base.threads[f.base.mutex.value])].writing
  }

  /** Thread u spins with the mutex of record x: it passed the queue test, and the lock is
      still to be dropped by the writer that left the queue. */
  predicate Spins(f: Fine, x: nat, u: nat)
    requires FineShape(f) && Staged(f) && x < |f.spin|
  {
    && u < |f.base.threads| && u !in f.asleep
    && f.base.threads[u].pc.Locking? && Site(f.base.threads[u]) == x
    && Eligible(f.base.mon.queue[x], Req(f.base.threads[u], u, f.base.threads[u].pc.s))
    && f.stage == Erased && ReleasesAt(f, x) && ReleasedKind(f) != R
  }

  ghost predicate SpinInv(f: Fine)
    requires FineShape(f) && Staged(f)
  {
    forall x :: 0 <= x < |f.spin| && f.spin[x].Some? ==> Spins(f, x, f.spin[x].value)
  }

  /** The release in progress at x will wake the threads waiting for their turn. */
  predicate WakeComing(f: Fine, x: nat)
    requires Staged(f)
  {
    ReleasesAt(f, x) && (f.stage == Erased || f.stage == Dropped(WakeQueue))
  }

  /** A sleeper has a reason to sleep, or is about to be woken. */
  ghost predicate Rests(f: Fine, t: nat)
    requires FineShape(f) && Staged(f) && t < |f.base.threads|
  {
    var th := f.base.threads[t];
    var x := Site(th);
    if th.pc.Locking? then HasAhead(f.base.mon.queue[x], t) || WakeComing(f, x)
    else th.pc.Draining? && (f.base.rw[x].numReader > 0 || (ReleasesAt(f, x) && f.stage == Dropped(WakeDrain)))
  }

  ghost predicate SleepInv(f: Fine)
    requires FineShape(f) && Staged(f)
  {
    forall t :: t in f.asleep ==> t < |f.base.threads| && Rests(f, t)
  }

  ghost predicate FineInv(f: Fine) {
    FineShape(f) && Staged(f) && Inv(Coarse(f)) && WindowInv(f) && SpinInv(f) && SleepInv(f)
  }

  // ---- refinement ----

  /** A step of the fine engine is a step of the engine or none. */
  ghost predicate Simulates(f: Fine, f': Fine, t: nat, c: (nat, nat, nat)) {
    && FineShape(f) && Staged(f) && FineShape(f') && Staged(f')
    && (Coarse(f') == Coarse(f) || Step(Coarse(f), Coarse(f'), t, c))
  }

  /** Only the holder of the global mutex releases. */
  lemma OneReleaser(f: Fine, t: nat)
    requires FineShape(f) && Staged(f) && Inv(Coarse(f)) && t < |f.base.threads|
    ensures f.base.threads[t].pc.Release? ==> f.base.mutex == Some(t)
    ensures f.stage != Whole ==>
               f.base.mutex.Some? && (t != f.base.mutex.value ==> Coarse(f).threads[t] == f.base.threads[t])
  {
    hide LockInv, Lines;
    assert MutexInv(Coarse(f));
    assert Coarse(f).mutex == f.base.mutex;
    assert f.base.threads[t].pc.Release? ==> Coarse(f).threads[t].pc.Release?;
  }

  lemma Reorder<T>(s: seq<T>, a: nat, x: T, b: nat, y: T)
    requires a < |s| && b < |s| && a != b
    ensures s[a := x][b := y] == s[b := y][a := x]
  {
  }

  /** Letting somebody in and somebody else out, on the same lock or on two. */
  lemma CountersCommute(rw: seq<RW>, x: nat, kind: LockType, y: nat, out: LockType)
    requires x < |rw| && y < |rw| && (x == y ==> out == R)
    ensures var come := rw[x := Admit(rw[x], kind)]; var go := rw[y := Dismiss(rw[y], out)];
            come[y := Dismiss(come[y], out)] == go[x := Admit(go[x], kind)]
  {
  }

  lemma CoarseParts(f: Fine)
    requires FineShape(f) && Staged(f) && f.stage != Whole
    ensures var r := f.base.mutex.value; var th := f.base.threads[r];
            Coarse(f) == f.base.(threads := f.base.threads[r := th.(pc := Release(th.pc.m + 1, th.pc.n))],
                                 rw := if f.stage == Erased
                                       then f.base.rw[Site(th) := Dismiss(f.base.rw[Site(th)], KindAt(th.pc.m))]
                                       else f.base.rw)
  {
  }

  /** Letting a thread in commutes with finishing the release in progress. */
  lemma EnterCommutes(f: Fine, t: nat, kind: LockType, spin: seq<Option<nat>>)
    requires FineShape(f) && Staged(f) && WindowInv(f) && f.stage != Whole && t < |f.base.threads|
    requires f.base.mutex.value != t && |spin| == |f.spin| && !f.base.rw[RecOf(f.base.threads[t], kind)].writing
    ensures var f' := f.(base := DoLocking(f.base, t, kind), spin := spin);
            FineShape(f') && Staged(f') && Coarse(f') == DoLocking(Coarse(f), t, kind)
  {
    var r, th := f.base.mutex.value, f.base.threads[t];
    var f' := f.(base := DoLocking(f.base, t, kind), spin := spin);
    var pc := if kind == R then Flagging(kind) else Draining(kind);
    var done := f.base.threads[r].(pc := Release(f.base.threads[r].pc.m + 1, f.base.threads[r].pc.n));
    Reorder(f.base.threads, t, th.(pc := pc), r, done);
    assert Staged(f');
    CoarseParts(f);
    CoarseParts(f');
    if f.stage == Erased {
      CountersCommute(f.base.rw, RecOf(th, kind), kind, Site(f.base.threads[r]), ReleasedKind(f));
    }
    hide Coarse, Admit, Dismiss;
  }

  lemma EnterRefines(f: Fine, t: nat, kind: LockType, spin: seq<Option<nat>>, c: (nat, nat, nat))
    requires FineShape(f) && Staged(f) && WindowInv(f) && t < |f.base.threads| && |spin| == |f.spin|
    requires f.base.threads[t].pc == Locking(kind) && Distinct(c, |f.base.value|)
    requires f.stage != Whole ==> f.base.mutex.value != t
    requires var th := f.base.threads[t]; var x := RecOf(th, kind);
             Eligible(f.base.mon.queue[x], Req(th, t, kind)) && !f.base.rw[x].writing
    ensures Simulates(f, f.(base := DoLocking(f.base, t, kind), spin := spin), t, c)
  {
    CoarseGuard(f, t, kind);
    LockingStep(Coarse(f), t, kind, c);
    if f.stage != Whole {
      EnterCommutes(f, t, kind, spin);
    }
    hide Step, Eligible, Enabled;
  }

  lemma SameCoarse(f: Fine, f': Fine, t: nat, c: (nat, nat, nat))
    requires FineShape(f) && Staged(f) && f'.base == f.base && f'.stage == f.stage && |f'.spin| == |f.spin|
    ensures Simulates(f, f', t, c)
  {
    hide Step;
  }

  lemma TestRefines(f: Fine, t: nat, kind: LockType, c: (nat, nat, nat))
    requires FineInv(f) && t < |f.base.threads| && f.base.threads[t].pc == Locking(kind) && Distinct(c, |f.base.value|)
    ensures Simulates(f, DoTest(f, t, kind), t, c)
  {
    OneReleaser(f, t);
    hide Inv, SpinInv, SleepInv, Eligible, Step, Coarse, WindowInv, Simulates, DoLocking;
    var x := RecOf(f.base.threads[t], kind);
    if Eligible(f.base.mon.queue[x], Req(f.base.threads[t], t, kind)) && !f.base.rw[x].writing {
      EnterRefines(f, t, kind, f.spin[x := None], c);
    } else {
      SameCoarse(f, DoTest(f, t, kind), t, c);
    }
  }

  lemma LockingStep(s: State, t: nat, kind: LockType, c: (nat, nat, nat))
    requires Shape(s) && t < |s.threads| && s.threads[t].pc == Locking(kind) && Enabled(s, t) && Distinct(c, |s.value|)
    ensures Step(s, DoLocking(s, t, kind), t, c)
  {
  }

  lemma CoarseGuard(f: Fine, t: nat, kind: LockType)
    requires FineShape(f) && Staged(f) && t < |f.base.threads| && f.base.threads[t].pc == Locking(kind)
    requires f.stage != Whole ==> f.base.mutex.value != t
    requires var th := f.base.threads[t]; var x := RecOf(th, kind);
             Eligible(f.base.mon.queue[x], Req(th, t, kind)) && !f.base.rw[x].writing
    ensures Enabled(Coarse(f), t) && Coarse(f).threads[t] == f.base.threads[t]
  {
  }

  /** A step of another thread that leaves the locks alone commutes with the release in progress. */
  lemma GotoCommutes(f: Fine, t: nat, pc: Pc)
    requires FineShape(f) && Staged(f) && f.stage != Whole && t < |f.base.threads| && f.base.mutex.value != t
    requires ThreadShape(f.base.threads[t].(pc := pc), |f.base.value|)
    ensures var f' := f.(base := Goto(f.base, t, pc));
            FineShape(f') && Staged(f') && Coarse(f') == Goto(Coarse(f), t, pc)
  {
    var r := f.base.mutex.value;
    Reorder(f.base.threads, t, f.base.threads[t].(pc := pc), r,
            f.base.threads[r].(pc := Release(f.base.threads[r].pc.m + 1, f.base.threads[r].pc.n)));
  }

  lemma DrainStep(s: State, t: nat, kind: LockType, c: (nat, nat, nat))
    requires Shape(s) && t < |s.threads| && s.threads[t].pc == Draining(kind) && Distinct(c, |s.value|)
    requires s.rw[RecOf(s.threads[t], kind)].numReader == 0
    ensures Step(s, Goto(s, t, Flagging(kind)), t, c)
  {
  }

  lemma DrainRefines(f: Fine, t: nat, kind: LockType, c: (nat, nat, nat))
    requires FineInv(f) && t < |f.base.threads| && f.base.threads[t].pc == Draining(kind) && Distinct(c, |f.base.value|)
    ensures Simulates(f, DoDrain(f, t, kind), t, c)
  {
    OneReleaser(f, t);
    var x := RecOf(f.base.threads[t], kind);
    CountersNat(Coarse(f), x);
    hide Inv, SpinInv, SleepInv, Step, WindowInv;
    if f.base.rw[x].numReader > 0 {
      SameCoarse(f, DoDrain(f, t, kind), t, c);
    } else {
      DrainStep(Coarse(f), t, kind, c);
      if f.stage != Whole {
        GotoCommutes(f, t, Flagging(kind));
      }
    }
  }

  lemma ReleaseStep(s: State, t: nat, m: nat, n: nat, c: (nat, nat, nat))
    requires Shape(s) && t < |s.threads| && s.threads[t].pc == Release(m, n) && m < n && Distinct(c, |s.value|)
    ensures Step(s, DoRelease(s, t, m, n), t, c)
  {
  }

  /** What the release of lock m by t needs of the state. */
  predicate Releasing(f: Fine, t: nat, m: nat, n: nat) {
    && FineShape(f) && Staged(f) && t < |f.base.threads| && f.base.mutex == Some(t)
    && f.base.threads[t].pc == Release(m, n) && m < n <= 3
  }

  lemma EraseRefines(f: Fine, t: nat, m: nat, n: nat)
    requires Releasing(f, t, m, n) && f.stage == Whole
    ensures var f' := DoReleaseStage(f, t, m, n); Staged(f') && Coarse(f') == DoRelease(f.base, t, m, n)
  {
    hide DeleteLock;
  }

  lemma DropRefines(f: Fine, t: nat, m: nat, n: nat)
    requires Releasing(f, t, m, n) && f.stage == Erased
    ensures var f' := DoReleaseStage(f, t, m, n); Staged(f') && Coarse(f') == Coarse(f)
  {
  }

  lemma NotifyRefines(f: Fine, t: nat, m: nat, n: nat)
    requires Releasing(f, t, m, n) && f.stage.Dropped?
    ensures var f' := DoReleaseStage(f, t, m, n); Staged(f') && Coarse(f') == Coarse(f)
  {
    hide Woken;
  }

  lemma ReleaseRefines(f: Fine, t: nat, m: nat, n: nat, c: (nat, nat, nat))
    requires FineInv(f) && t < |f.base.threads| && f.base.threads[t].pc == Release(m, n) && m < n
    requires Distinct(c, |f.base.value|)
    ensures Simulates(f, DoReleaseStage(f, t, m, n), t, c)
  {
    OneReleaser(f, t);
    hide Inv, SpinInv, SleepInv, Step, WindowInv, DoReleaseStage;
    assert Releasing(f, t, m, n);
    match f.stage {
      case Whole =>
        ReleaseStep(f.base, t, m, n, c);
        EraseRefines(f, t, m, n);
      case Erased =>
        DropRefines(f, t, m, n);
      case Dropped(_) =>
        NotifyRefines(f, t, m, n);
    }
    hide DoRelease;
  }

  /** The steps that are those of the engine itself. */
  predicate Plain(pc: Pc) {
    !pc.Locking? && !pc.Draining? && (pc.Release? ==> pc.m >= pc.n)
  }

  /** An update by another thread commutes with the release in progress. */
  lemma UpdateCommutes(f: Fine, t: nat, mon: Mon, value: seq<int>, th': Thread)
    requires FineShape(f) && Staged(f) && f.stage != Whole && t < |f.base.threads| && f.base.mutex.value != t
    requires ThreadShape(th', |f.base.value|) && |value| == |f.base.value|
    requires |mon.queue| == |f.base.mon.queue| && |mon.depend| == |f.base.mon.depend|
    ensures var f' := f.(base := Put(f.base.(mon := mon, value := value), t, th'));
            FineShape(f') && Staged(f') && Coarse(f') == Put(Coarse(f).(mon := mon, value := value), t, th')
  {
    var r := f.base.mutex.value;
    Reorder(f.base.threads, t, th', r,
            f.base.threads[r].(pc := Release(f.base.threads[r].pc.m + 1, f.base.threads[r].pc.n)));
  }

  /** Top, Flagging, Reading and Writing read and change only these parts of the state. */
  lemma PlainIsUpdate(s: State, t: nat, c: (nat, nat, nat))
    requires Shape(s) && t < |s.threads| && Distinct(c, |s.value|)
    requires var pc := s.threads[t].pc; pc.Top? || pc.Flagging? || pc.Reading? || pc.Writing?
    ensures var s' := Do(s, t, c);
            s' == Put(s.(mon := s'.mon, value := s'.value), t, s'.threads[t])
            && ThreadShape(s'.threads[t], |s.value|) && |s'.mon.queue| == |s.mon.queue|
            && |s'.mon.depend| == |s.mon.depend|
  {
    hide Flag, Pos;
  }

  lemma PlainSame(s: State, q: State, t: nat, c: (nat, nat, nat))
    requires Shape(s) && Shape(q) && t < |s.threads| == |q.threads| && Distinct(c, |s.value|)
    requires q.mon == s.mon && q.value == s.value && q.threads[t] == s.threads[t] && q.order == s.order
    requires q.limit == s.limit
    requires var pc := s.threads[t].pc; pc.Top? || pc.Flagging? || pc.Reading? || pc.Writing?
    ensures var s', q' := Do(s, t, c), Do(q, t, c);
            q'.mon == s'.mon && q'.value == s'.value && q'.threads[t] == s'.threads[t]
  {
    hide Flag, Pos;
  }

  lemma PlainCommutes(f: Fine, t: nat, c: (nat, nat, nat))
    requires FineShape(f) && Staged(f) && f.stage != Whole && t < |f.base.threads| && f.base.mutex.value != t
    requires Distinct(c, |f.base.value|)
    requires var pc := f.base.threads[t].pc; pc.Top? || pc.Flagging? || pc.Reading? || pc.Writing?
    ensures var f' := f.(base := Do(f.base, t, c));
            FineShape(f') && Staged(f') && Coarse(f') == Do(Coarse(f), t, c)
  {
    PlainSame(f.base, Coarse(f), t, c);
    hide Do;
    var s' := Do(f.base, t, c);
    PlainIsUpdate(f.base, t, c);
    PlainIsUpdate(Coarse(f), t, c);
    UpdateCommutes(f, t, s'.mon, s'.value, s'.threads[t]);
  }

  lemma PlainRefines(f: Fine, t: nat, c: (nat, nat, nat))
    requires FineInv(f) && t < |f.base.threads| && Plain(f.base.threads[t].pc) && FineEnabled(f, t)
    requires Distinct(c, |f.base.value|)
    ensures Simulates(f, f.(base := Do(f.base, t, c)), t, c)
  {
    OneReleaser(f, t);
    hide Inv, SpinInv, SleepInv, WindowInv, Do;
    if f.stage != Whole {
      PlainCommutes(f, t, c);
    }
  }
}
