/** What holds in every run of the fine engine. */
module FineTheorems {
  import opened Options
  import opened LockManager
  import opened Engine
  import opened QueueOrder
  import opened EngineLocks
  import opened WaitGraph
  import opened SerialData
  import opened EngineTheorems
  import opened FineEngine
  import opened FineLocks
  import opened FineProof
  import opened FineSteps

  // ---- safety ----

  /** Every run of the fine engine is a run of the engine with pauses. */
  lemma {:induction false} FineRunRefines(run: seq<Fine>, n: nat) returns (coarse: seq<State>)
    requires IsFineRun(run) && n < |run|
    ensures IsRun(coarse) && coarse[0] == run[0].base
    ensures FineShape(run[n]) && Staged(run[n]) && coarse[|coarse| - 1] == Coarse(run[n])
  {
    hide FineInv, FineStep, Step, Coarse;
    FineRunInv(run, n);
    if n == 0 {
      FirstCoarse(run[0]);
      return [run[0].base];
    }
    coarse := FineRunRefines(run, n - 1);
    FineRunInv(run, n - 1);
    assert FineNext(run[n - 1], run[n - 1 + 1]);
    var t: nat, c: (nat, nat, nat) :| FineStep(run[n - 1], run[n], t, c);
    FineInvStep(run[n - 1], run[n], t, c);
    if Coarse(run[n]) != Coarse(run[n - 1]) {
      coarse := Extend(coarse, Coarse(run[n]), t, c);
    }
  }

  lemma FirstCoarse(f: Fine)
    requires FineInitial(f)
    ensures FineShape(f) && Staged(f) && Coarse(f) == f.base
  {
  }

  lemma Extend(run: seq<State>, s: State, t: nat, c: (nat, nat, nat)) returns (run': seq<State>)
    requires IsRun(run) && Step(run[|run| - 1], s, t, c)
    ensures run' == run + [s] && IsRun(run')
  {
    hide Step;
    run' := run + [s];
    forall n | 0 <= n < |run'| - 1 ensures Next(run'[n], run'[n + 1]) {
      if n < |run| - 1 { assert Next(run[n], run[n + 1]); }
    }
  }

  /** Commit order is serial order, also with releases in three steps. */
  lemma FineSerializable(run: seq<Fine>, n: nat)
    requires IsFineRun(run) && n < |run|
    ensures LogOk(run[n].base.log, |run[0].base.value|)
    ensures |run[n].base.log| <= Max(run[0].base.limit, 0)
  {
    var coarse := FineRunRefines(run, n);
    CommitOrderSerializable(coarse, |coarse| - 1);
  }

  lemma SameLines(f: Fine)
    requires FineShape(f) && Staged(f)
    ensures Lines(Coarse(f).threads) == Lines(f.base.threads)
  {
    if f.stage != Whole {
      var r := f.base.mutex.value;
      LinesUpdate(f.base.threads, r, Coarse(f).threads[r], []);
    }
  }

  /** The log checker accepts the files of every run of the fine engine. */
  lemma FineLogCheckSucceeds(run: seq<Fine>, n: nat, lines: seq<Entry>)
    requires IsFineRun(run) && n < |run|
    requires multiset(lines) == Lines(run[n].base.threads) && SortedByCid(lines)
    ensures forall m :: 0 <= m < |lines| ==> InRange(lines[m], |run[0].base.value| + 1)
    ensures forall m :: 0 <= m < |lines| ==> LineOk(lines[m], Replay(lines[..m + 1], |run[0].base.value| + 1))
  {
    hide Coarse, Replay, Lines, IsFineRun;
    var coarse := FineRunRefines(run, n);
    SameLines(run[n]);
    LogCheckSucceeds(coarse, |coarse| - 1, lines);
  }

  /** Reader/writer safety: with a release in progress counted as over, nobody is inside
      beside a writer and nobody passed a conflicting request; the lock's counters still count
      the thread that has left the queue and not dropped its lock. */
  lemma FineReaderWriterSafety(run: seq<Fine>, n: nat, x: nat)
    requires IsFineRun(run) && n < |run| && x < |run[n].base.rw|
    ensures FineShape(run[n]) && Staged(run[n])
    ensures var f := run[n]; var s := Coarse(f); var q := f.base.mon.queue[x];
            && AllListed(q, s.threads, x)
            && var ph := Phases(q, s.threads);
            && (forall a, b :: 0 <= a < b < |q| && Holds(ph[b]) ==> !Conflict(q[a], q[b]))
            && (forall a, b :: 0 <= a < b < |q| && Holds(ph[a]) && Holds(ph[b]) ==> q[a].kind == R && q[b].kind == R)
            && var erased := f.stage == Erased && ReleasesAt(f, x);
            var rw := if erased then Dismiss(f.base.rw[x], ReleasedKind(f)) else f.base.rw[x];
            && rw.numReader == |Readers(q, ph)|
            && (rw.writing <==> exists a :: 0 <= a < |q| && q[a].kind != R && ph[a] != Pending)
  {
    var coarse := FineRunRefines(run, n);
    ReaderWriterSafety(coarse, |coarse| - 1, x);
  }

  // ---- progress ----

  /** Thread t can do work: not a test that fails, and not another turn of a spinning loop. */
  predicate Moves(f: Fine, t: nat)
    requires FineShape(f)
  {
    && t < |f.base.threads| && FineEnabled(f, t)
    && var th := f.base.threads[t];
       match th.pc
       case Locking(kind) => Enabled(f.base, t)
       case Draining(kind) => Enabled(f.base, t)
       case _ => true
  }

  predicate NobodySpins(f: Fine) {
    forall x :: 0 <= x < |f.spin| ==> f.spin[x] == None
  }

  /** With nothing in front and no release in progress a thread is awake. */
  lemma ClearIsAwake(f: Fine, t: nat)
    requires FineShape(f) && Staged(f) && SleepInv(f) && f.stage == Whole && t < |f.base.threads|
    requires f.base.threads[t].pc.Locking? ==> !HasAhead(f.base.mon.queue[Site(f.base.threads[t])], t)
    requires f.base.threads[t].pc.Draining? ==> Enabled(f.base, t)
    ensures t !in f.asleep
  {
    hide HasAhead;
  }

  lemma HolderMoves(f: Fine, t: nat)
    requires FineInv(f) && NobodySpins(f) && f.base.mutex == Some(t)
    ensures Moves(f, t)
  {
    hide LockInv, DataInv, Lines, SpinInv, WindowInv, Eligible, Faithful, Ranked, Closed;
    var s := Coarse(f);
    assert MutexInv(s);
    assert t < |f.base.threads|;
    if !f.base.threads[t].pc.Release? {
      assert f.stage == Whole && s == f.base;
      HolderEnabled(s, t);
      assert GetInv(s);
      ClearIsAwake(f, t);
    }
  }

  lemma FreeMoves(f: Fine) returns (t: nat)
    requires FineInv(f) && NobodySpins(f) && f.base.mutex == None
    requires exists v :: 0 <= v < |f.base.threads| && f.base.threads[v].pc != Done
    ensures Moves(f, t)
  {
    hide LockInv, DataInv, Lines, SpinInv, WindowInv, Eligible, Faithful, Ranked, Closed, GetInv;
    var s := f.base;
    assert f.stage == Whole && Coarse(f) == s && MutexInv(s);
    if v :| 0 <= v < |s.threads| && Unguarded(s.threads[v].pc) {
      t := v;
    } else {
      t := SomeWaiterRuns(s);
      ClearIsAwake(f, t);
    }
  }

  /** Deadlock freedom with sleeping and waking: unless a thread spins, some unfinished thread
      is awake and can do work. */
  lemma FineProgress(run: seq<Fine>, n: nat) returns (t: nat)
    requires IsFineRun(run) && n < |run| && NobodySpins(run[n])
    requires exists v :: 0 <= v < |run[n].base.threads| && run[n].base.threads[v].pc != Done
    ensures FineShape(run[n]) && Moves(run[n], t)
  {
    FineRunInv(run, n);
    hide Inv, SpinInv, SleepInv, WindowInv, IsFineRun;
    if run[n].base.mutex.Some? {
      t := run[n].base.mutex.value;
      HolderMoves(run[n], t);
    } else {
      t := FreeMoves(run[n]);
    }
  }

  /** A sleeper wakes only when a lock of its record is dropped: a request that waits for its
      turn by the notice to the queue, a draining writer by the notice to it. */
  lemma WakesOnlyByNotice(f: Fine, f': Fine, t: nat, c: (nat, nat, nat), u: nat)
    requires FineStep(f, f', t, c) && u in f.asleep && u !in f'.asleep
    ensures f.stage.Dropped? && f.base.threads[t].pc.Release? && u < |f.base.threads|
    ensures Site(f.base.threads[u]) == Site(f.base.threads[t])
    ensures f.stage.wake == if f.base.threads[u].pc.Locking? then WakeQueue else WakeDrain
    ensures f.base.threads[u].pc.Locking? || f.base.threads[u].pc.Draining?
  {
    hide Eligible, Do, DeleteLock;
  }

  // ---- spinning ----

  /** Exactly when a test spins: it passes the queue between the erase and the drop of a
      writer's lock of that record. */
  lemma TestSpinsIff(run: seq<Fine>, n: nat, t: nat)
    requires IsFineRun(run) && n < |run| && t < |run[n].base.threads| && run[n].base.threads[t].pc.Locking?
    ensures FineShape(run[n]) && Staged(run[n])
    ensures var f := run[n]; var th := f.base.threads[t]; var x := Site(th);
            Eligible(f.base.mon.queue[x], Req(th, t, th.pc.s)) ==>
              (f.base.rw[x].writing <==> f.stage == Erased && ReleasesAt(f, x) && ReleasedKind(f) != R)
  {
    FineRunInv(run, n);
    var f := run[n];
    OneReleaser(f, t);
    hide GraphInv, LockInv, Lines, SpinInv, SleepInv, Eligible, IsFineRun;
    var th := f.base.threads[t];
    if Eligible(f.base.mon.queue[Site(th)], Req(th, t, th.pc.s)) && f.base.rw[Site(th)].writing {
      SpinWindow(f, t, th.pc.s);
    }
  }

  /** What a spinning thread freezes: itself, the thread that releases, the global mutex, the
      commit counter and the log. */
  ghost predicate Frozen(f: Fine, f': Fine, x: nat) {
    && x < |f.spin| == |f'.spin| && f.spin[x].Some? && f'.spin[x] == f.spin[x] && f'.stage == f.stage == Erased
    && f'.base.mutex == f.base.mutex && f'.base.order == f.base.order && f'.base.log == f.base.log
    && |f'.base.threads| == |f.base.threads| && f.base.mutex.Some? && f.base.mutex.value < |f.base.threads|
    && f'.base.threads[f.base.mutex.value] == f.base.threads[f.base.mutex.value]
  }

  /** The thread that releases waits for the mutex that the spinning thread holds. */
  lemma ReleaserBlocked(f: Fine, x: nat)
    requires FineInv(f) && x < |f.spin| && f.spin[x].Some?
    ensures f.base.mutex.Some? && f.base.mutex.value < |f.base.threads| && !FineEnabled(f, f.base.mutex.value)
    ensures f.stage == Erased && f.base.rw[x].writing
  {
    hide Inv, SleepInv, Eligible;
    SpinsAwake(f, x, f.spin[x].value);
  }

  lemma PlainFrozen(s: State, t: nat, c: (nat, nat, nat))
    requires Shape(s) && t < |s.threads| && Distinct(c, |s.value|) && Plain(s.threads[t].pc) && Enabled(s, t)
    requires s.mutex.Some? && s.mutex != Some(t) && !s.threads[t].pc.Release?
    ensures var s' := Do(s, t, c);
            s'.mutex == s.mutex && s'.order == s.order && s'.log == s.log && s'.threads == s.threads[t := s'.threads[t]]
  {
    hide Reaches, Flag;
  }

  lemma SpinTest(f: Fine, t: nat, kind: LockType, x: nat)
    requires FineShape(f) && t < |f.base.threads| && f.base.threads[t].pc == Locking(kind) && FineEnabled(f, t)
    requires x < |f.spin| && f.spin[x].Some? && f.base.rw[x].writing
    requires f.spin[x] == Some(t) ==>
               x == Site(f.base.threads[t]) && Eligible(f.base.mon.queue[x], Req(f.base.threads[t], t, kind))
    ensures var f' := DoTest(f, t, kind);
            && f'.spin[x] == f.spin[x] && f'.stage == f.stage && f'.base.mutex == f.base.mutex
            && f'.base.order == f.base.order && f'.base.log == f.base.log
            && f'.base.threads == f.base.threads[t := f'.base.threads[t]]
  {
    hide Eligible;
  }

  lemma SpinDrain(f: Fine, t: nat, kind: LockType)
    requires FineShape(f) && t < |f.base.threads| && f.base.threads[t].pc == Draining(kind)
    ensures var f' := DoDrain(f, t, kind);
            && f'.spin == f.spin && f'.stage == f.stage && f'.base.mutex == f.base.mutex
            && f'.base.order == f.base.order && f'.base.log == f.base.log
            && f'.base.threads == f.base.threads[t := f'.base.threads[t]]
  {
  }

  lemma SpinStep(f: Fine, f': Fine, t: nat, c: (nat, nat, nat), x: nat)
    requires FineInv(f) && FineStep(f, f', t, c) && x < |f.spin| && f.spin[x].Some?
    ensures Frozen(f, f', x) && t != f.base.mutex.value
  {
    ReleaserBlocked(f, x);
    OneReleaser(f, t);
    SpinPasses(f, x);
    hide FineInv, Coarse, Do, DoTest, DoDrain, DoReleaseStage, Eligible;
    assert !f.base.threads[t].pc.Release?;
    match f.base.threads[t].pc {
      case Locking(kind) => SpinTest(f, t, kind, x);
      case Draining(kind) => SpinDrain(f, t, kind);
      case _ => PlainFrozen(f.base, t, c);
    }
  }

  lemma SpinPasses(f: Fine, x: nat)
    requires FineInv(f) && x < |f.spin| && f.spin[x].Some?
    ensures var u := f.spin[x].value;
            && u < |f.base.threads| && f.base.threads[u].pc.Locking? && Site(f.base.threads[u]) == x
            && Eligible(f.base.mon.queue[x], Req(f.base.threads[u], u, f.base.threads[u].pc.s))
  {
    hide Inv, SleepInv, Eligible;
  }

  /** Once a thread spins it spins for ever, the release in progress never ends, nobody gets the
      global mutex and nothing is committed any more. */
  lemma {:induction false} SpinsForEver(run: seq<Fine>, n: nat, k: nat, x: nat)
    requires IsFineRun(run) && n <= k < |run| && x < |run[n].spin| && run[n].spin[x].Some?
    ensures Frozen(run[n], run[k], x) && FineShape(run[k]) && !FineEnabled(run[k], run[k].base.mutex.value)
    decreases k - n
  {
    hide FineInv, FineStep, FineEnabled;
    FineRunInv(run, k);
    if n < k {
      SpinsForEver(run, n, k - 1, x);
      FineRunInv(run, k - 1);
      assert FineNext(run[k - 1], run[k - 1 + 1]);
      var t: nat, c: (nat, nat, nat) :| FineStep(run[k - 1], run[k], t, c);
      SpinStep(run[k - 1], run[k], t, c, x);
    }
    ReleaserBlocked(run[k], x);
    assert FineShape(run[k]) by { ShapeOf(run[k]); }
  }

  lemma ShapeOf(f: Fine)
    requires FineInv(f)
    ensures FineShape(f)
  {
  }

  /** How many steps a thread can still make before it needs the global mutex or sleeps. */
  function Work(f: Fine, t: nat): nat
    requires t < |f.base.threads|
  {
    match f.base.threads[t].pc
    case Top => 1
    case Locking(_) => if t in f.asleep then 0 else 4
    case Draining(_) => if t in f.asleep then 0 else 3
    case Flagging(_) => 2
    case Reading(_) => 2
    case Writing(_) => 1
    case _ => 0
  }

  function Fuel(f: Fine, k: nat): nat
    requires k <= |f.base.threads|
  {
    if k == 0 then 0 else Fuel(f, k - 1) + Work(f, k - 1)
  }

  lemma {:induction false} FuelMoves(f: Fine, f': Fine, t: nat, k: nat)
    requires k <= |f.base.threads| == |f'.base.threads| && t < |f.base.threads| && Work(f', t) < Work(f, t)
    requires forall v :: 0 <= v < |f.base.threads| && v != t ==> Work(f', v) == Work(f, v)
    ensures if t < k then Fuel(f', k) < Fuel(f, k) else Fuel(f', k) == Fuel(f, k)
  {
    if k > 0 {
      FuelMoves(f, f', t, k - 1);
    }
  }

  /** Thread t used up some of its work, the others kept theirs. */
  ghost predicate Spends(f: Fine, f': Fine, t: nat) {
    && t < |f.base.threads| == |f'.base.threads| && Work(f', t) < Work(f, t)
    && forall v :: 0 <= v < |f.base.threads| && v != t ==> Work(f', v) == Work(f, v)
  }

  lemma PlainSpends(f: Fine, t: nat, c: (nat, nat, nat))
    requires FineShape(f) && t < |f.base.threads| && Distinct(c, |f.base.value|) && Plain(f.base.threads[t].pc)
    requires Enabled(f.base, t) && f.base.mutex.Some? && f.base.mutex != Some(t) && !f.base.threads[t].pc.Release?
    ensures Spends(f, f.(base := Do(f.base, t, c)), t)
  {
    hide Reaches, Flag;
  }

  lemma TestSpends(f: Fine, t: nat, kind: LockType)
    requires FineShape(f) && t < |f.base.threads| && f.base.threads[t].pc == Locking(kind) && t !in f.asleep
    requires var th := f.base.threads[t]; var x := RecOf(th, kind);
             !(Eligible(f.base.mon.queue[x], Req(th, t, kind)) && f.base.rw[x].writing)
    ensures Spends(f, DoTest(f, t, kind), t)
  {
    hide Eligible;
  }

  lemma DrainSpends(f: Fine, t: nat, kind: LockType)
    requires FineShape(f) && t < |f.base.threads| && f.base.threads[t].pc == Draining(kind) && t !in f.asleep
    ensures Spends(f, DoDrain(f, t, kind), t)
  {
  }

  lemma SpinnerStays(f: Fine, t: nat, kind: LockType)
    requires FineShape(f) && t < |f.base.threads| && f.base.threads[t].pc == Locking(kind)
    requires var th := f.base.threads[t]; var x := RecOf(th, kind);
             f.spin[x] == Some(t) && Eligible(f.base.mon.queue[x], Req(th, t, kind)) && f.base.rw[x].writing
    ensures DoTest(f, t, kind) == f
  {
    hide Eligible;
    var x := RecOf(f.base.threads[t], kind);
    assert f.spin[x := Some(t)] == f.spin;
  }

  lemma TestWork(f: Fine, t: nat, kind: LockType, x: nat)
    requires FineInv(f) && t < |f.base.threads| && f.base.threads[t].pc == Locking(kind) && FineEnabled(f, t)
    requires x < |f.spin| && f.spin[x].Some?
    ensures DoTest(f, t, kind) == f || Spends(f, DoTest(f, t, kind), t)
  {
    ReleaserBlocked(f, x);
    SpinsAwake(f, x, f.spin[x].value);
    SpinPasses(f, x);
    OneReleaser(f, t);
    hide GraphInv, LockInv, Lines, SpinInv, SleepInv, WindowInv, Eligible, DoTest, Spends, Coarse;
    var th := f.base.threads[t];
    var y := RecOf(th, kind);
    if f.spin[x] == Some(t) {
      SpinnerStays(f, t, kind);
    } else {
      if Eligible(f.base.mon.queue[y], Req(th, t, kind)) && f.base.rw[y].writing {
        SpinWindow(f, t, kind);
        assert false;
      }
      TestSpends(f, t, kind);
    }
  }

  lemma SpinWork(f: Fine, f': Fine, t: nat, c: (nat, nat, nat), x: nat)
    requires FineInv(f) && FineStep(f, f', t, c) && x < |f.spin| && f.spin[x].Some?
    ensures f' == f || Spends(f, f', t)
  {
    SpinStep(f, f', t, c, x);
    ReleaserBlocked(f, x);
    OneReleaser(f, t);
    hide Inv, SpinInv, SleepInv, WindowInv, Do, DoTest, DoDrain, Frozen, Spends, Coarse;
    match f.base.threads[t].pc {
      case Locking(kind) => TestWork(f, t, kind, x);
      case Draining(kind) => DrainSpends(f, t, kind);
      case Release(_, _) =>
      case _ => PlainSpends(f, t, c);
    }
  }

  /** And soon everything stands still: while a thread spins, every step either changes nothing
      or uses up fuel. */
  lemma SpinHalts(run: seq<Fine>, n: nat, x: nat)
    requires IsFineRun(run) && n + 1 < |run| && x < |run[n].spin| && run[n].spin[x].Some?
    ensures |run[n + 1].base.threads| == |run[n].base.threads|
    ensures var k := |run[n].base.threads|; run[n + 1] == run[n] || Fuel(run[n + 1], k) < Fuel(run[n], k)
  {
    FineRunInv(run, n);
    hide FineInv, FineStep;
    assert FineNext(run[n], run[n + 1]);
    var t: nat, c: (nat, nat, nat) :| FineStep(run[n], run[n + 1], t, c);
    SpinWork(run[n], run[n + 1], t, c, x);
    if run[n + 1] != run[n] {
      FuelMoves(run[n], run[n + 1], t, |run[n].base.threads|);
    }
  }
}
