/** The fine engine gets its work done too: no thread stops early, and a thread that runs alone
    is neither asleep nor kept waiting by a spinning one, and commits. */
module FineSolo {
  import opened Options
  import opened LockManager
  import opened Engine
  import opened QueueOrder
  import opened EngineLocks
  import opened WaitGraph
  import opened SerialData
  import opened EngineTheorems
  import opened Trails
  import opened EngineProgress
  import opened FineEngine
  import opened FineLocks
  import opened FineProof
  import opened FineSteps
  import opened FineTheorems

  lemma DoneInCoarse(f: Fine, t: nat)
    requires FineShape(f) && Staged(f) && t < |f.base.threads| && f.base.threads[t].pc == Done
    ensures Coarse(f).threads[t].pc == Done && Coarse(f).log == f.base.log
  {
  }

  /** A thread stops only when all commit ids up to the limit are logged, also with releases in
      three steps. */
  lemma FineStopsOnlyWhenFull(run: seq<Fine>, n: nat, t: nat)
    requires IsFineRun(run) && n < |run| && t < |run[n].base.threads| && run[n].base.threads[t].pc == Done
    ensures |run[n].base.log| == Max(run[0].base.limit, 0)
  {
    hide Coarse, IsFineRun;
    var coarse := FineRunRefines(run, n);
    DoneInCoarse(run[n], t);
    StopsOnlyWhenFull(coarse, |coarse| - 1, t);
  }

  // ---- alone ----

  /** Steps to the end of the transaction; a release counts its three parts. */
  function FineLeft(f: Fine, t: nat): nat
    requires t < |f.base.threads|
  {
    var pc := f.base.threads[t].pc;
    var parts := if !pc.Release? then 0 else match f.stage case Whole => 2 case Erased => 1 case Dropped(_) => 0;
    4 * Left(pc) + parts
  }

  /** A release in progress is the thread's own. */
  lemma OwnRelease(f: Fine, t: nat)
    requires FineShape(f) && Staged(f) && Alone(f.base, t)
    ensures f.stage != Whole ==> f.base.mutex == Some(t) && f.base.threads[t].pc.Release?
  {
  }

  lemma AloneNobodySpins(f: Fine, t: nat)
    requires FineInv(f) && Alone(f.base, t)
    ensures NobodySpins(f)
  {
    hide Inv, Coarse, SleepInv, WindowInv, Eligible;
    OwnRelease(f, t);
    assert forall x :: 0 <= x < |f.spin| && f.spin[x].Some? ==> Spins(f, x, f.spin[x].value);
  }

  lemma NobodyAhead(f: Fine, t: nat)
    requires LockInv(f.base) && Alone(f.base, t) && f.base.threads[t].pc.Locking?
    ensures !HasAhead(f.base.mon.queue[Site(f.base.threads[t])], t)
  {
    OnlyMine(f.base, t, Site(f.base.threads[t]));
    hide LockInv;
  }

  /** A thread alone is awake and its test succeeds. */
  lemma AloneMoves(f: Fine, t: nat)
    requires FineInv(f) && Alone(f.base, t) && f.base.threads[t].pc != Done
    ensures Moves(f, t)
  {
    OwnRelease(f, t);
    AloneNobodySpins(f, t);
    hide LockInv, GraphInv, DataInv, Lines, SleepInv, WindowInv, SpinInv, Alone;
    if !f.base.threads[t].pc.Release? {
      assert Coarse(f) == f.base;
      AloneEnabled(f.base, t);
      if f.base.threads[t].pc.Locking? { NobodyAhead(f, t); }
      hide HasAhead;
      ClearIsAwake(f, t);
    }
  }

  /** A successful test is the step of the engine. */
  lemma MovesAsEngine(f: Fine, t: nat, c: (nat, nat, nat))
    requires FineShape(f) && Moves(f, t) && Distinct(c, |f.base.value|)
    requires f.base.threads[t].pc.Release? ==> f.base.threads[t].pc.m >= f.base.threads[t].pc.n
    ensures Step(f.base, FineDo(f, t, c).base, t, c) && FineDo(f, t, c).stage == f.stage
  {
    hide Eligible, Flag, Reaches;
  }

  lemma ReleasePart(f: Fine, t: nat, m: nat, n: nat)
    requires FineShape(f) && t < |f.base.threads| && f.base.threads[t].pc == Release(m, n) && m < n <= 3
    ensures var f' := DoReleaseStage(f, t, m, n);
            && FineLeft(f', t) < FineLeft(f, t) && f'.base.threads[t].pc != Done
            && f'.base.log == f.base.log && f'.base.order == f.base.order && f'.base.limit == f.base.limit
            && f'.base.threads == f.base.threads[t := f'.base.threads[t]]
  {
    hide DeleteLock, Woken;
  }

  /** What a step of a thread alone comes to: a commit, or less left to do. */
  ghost predicate Nearer(f: Fine, f': Fine, t: nat) {
    && t < |f.base.threads| == |f'.base.threads| && f'.base.limit == f.base.limit
    && |f'.base.value| == |f.base.value|
    && (if |f'.base.log| == |f.base.log| + 1
        then f'.base.threads[t].pc == Top && f'.base.order == f.base.order + 1
        else f'.base.log == f.base.log && f'.base.order == f.base.order && f'.base.threads[t].pc != Done
             && FineLeft(f', t) < FineLeft(f, t))
  }

  lemma EngineStepNearer(f: Fine, f': Fine, t: nat, c: (nat, nat, nat))
    requires Step(f.base, f'.base, t, c) && f'.stage == f.stage == Whole && !GivesUp(f.base, t)
    requires f.base.threads[t].pc != Done && f.base.order < f.base.limit
    ensures Nearer(f, f', t)
  {
    EveryStepCounts(f.base, f'.base, t, c);
    AloneCounters(f.base, t, c);
    hide Do, Enabled, Left, GivesUp;
  }

  lemma AloneKept(f: Fine, f': Fine, t: nat)
    requires Alone(f.base, t) && |f'.base.threads| == |f.base.threads|
    requires forall u :: 0 <= u < |f.base.threads| && u != t ==> f'.base.threads[u] == f.base.threads[u]
    ensures Alone(f'.base, t)
  {
  }

  lemma FineAloneStep(f: Fine, t: nat, c: (nat, nat, nat)) returns (f': Fine)
    requires FineInv(f) && Alone(f.base, t) && f.base.threads[t].pc != Done
    requires f.base.order < f.base.limit && Distinct(c, |f.base.value|)
    ensures FineStep(f, f', t, c) && FineInv(f') && Alone(f'.base, t) && Nearer(f, f', t)
  {
    AloneMoves(f, t);
    ShapeOf(f);
    f' := FineDo(f, t, c);
    FineInvStep(f, f', t, c);
    hide FineInv, Simulates, Alone, FineDo, FineEnabled;
    var pc := f.base.threads[t].pc;
    if pc.Release? && pc.m < pc.n {
      ReleaseNearer(f, t, pc.m, pc.n, c);
    } else {
      WorkNearer(f, t, c);
    }
  }

  lemma ReleaseNearer(f: Fine, t: nat, m: nat, n: nat, c: (nat, nat, nat))
    requires FineShape(f) && Alone(f.base, t) && Distinct(c, |f.base.value|)
    requires f.base.threads[t].pc == Release(m, n) && m < n <= 3
    ensures var f' := FineDo(f, t, c); Alone(f'.base, t) && Nearer(f, f', t)
  {
    ReleasePart(f, t, m, n);
    hide Alone, FineLeft;
    AloneKept(f, FineDo(f, t, c), t);
  }

  lemma WorkNearer(f: Fine, t: nat, c: (nat, nat, nat))
    requires FineInv(f) && Alone(f.base, t) && Moves(f, t) && f.base.threads[t].pc != Done
    requires f.base.order < f.base.limit && Distinct(c, |f.base.value|)
    requires f.base.threads[t].pc.Release? ==> f.base.threads[t].pc.m >= f.base.threads[t].pc.n
    ensures var f' := FineDo(f, t, c); Alone(f'.base, t) && Nearer(f, f', t)
  {
    var f' := FineDo(f, t, c);
    MovesAsEngine(f, t, c);
    OwnRelease(f, t);
    if f.base.threads[t].pc.Request? { AloneFineNeverGivesUp(f, t); }
    assert f.stage == Whole;
    hide FineInv, Alone, FineDo, Do, Enabled, Moves;
    EngineStepNearer(f, f', t, c);
    AloneKept(f, f', t);
  }

  lemma AloneFineNeverGivesUp(f: Fine, t: nat)
    requires FineInv(f) && Alone(f.base, t) && f.base.threads[t].pc.Request?
    ensures !GivesUp(f.base, t)
  {
    OwnRelease(f, t);
    hide LockInv, GraphInv, Alone, GivesUp;
    assert Coarse(f) == f.base;
    AloneNeverGivesUp(f.base, t);
  }

  /** A step of thread t, whatever it chooses. */
  ghost function FineBy(t: nat): (Fine, Fine) -> bool {
    (f, f') => exists c: (nat, nat, nat) :: FineStep(f, f', t, c)
  }

  lemma {:induction false} FineAloneTrail(f: Fine, t: nat, c: (nat, nat, nat)) returns (trail: seq<Fine>)
    requires FineInv(f) && Alone(f.base, t) && f.base.threads[t].pc != Done
    requires f.base.order < f.base.limit && Distinct(c, |f.base.value|)
    ensures Trail(FineBy(t), f, trail) && 0 < |trail| <= FineLeft(f, t) + 1
    ensures |Last(f, trail).base.log| == |f.base.log| + 1
    decreases FineLeft(f, t)
  {
    hide FineInv, FineStep, FineLeft;
    var f' := FineAloneStep(f, t, c);
    One(FineBy(t), f, f');
    trail := [f'];
    if |f'.base.log| != |f.base.log| + 1 {
      var rest := FineAloneTrail(f', t, c);
      Join(FineBy(t), f, [f'], rest);
      trail := [f'] + rest;
    }
  }

  lemma FineRunGoesOn(run: seq<Fine>, n: nat, trail: seq<Fine>, t: nat)
    requires IsFineRun(run) && n < |run| && Trail(FineBy(t), run[n], trail)
    ensures IsFineRun(run[..n + 1] + trail)
  {
    hide FineStep, Trail;
    GoesOn(FineNext, FineBy(t), run, n, trail);
  }

  lemma LeftBound(f: Fine, t: nat)
    requires FineInv(f) && t < |f.base.threads|
    ensures FineLeft(f, t) < 143
  {
    hide Inv, SpinInv, SleepInv, WindowInv, Coarse;
    assert ThreadShape(f.base.threads[t], |f.base.value|);
  }

  /** From any reachable state of the fine engine: all other threads between transactions, an
      unfinished thread commits by its own steps; nobody has to wake it. */
  lemma FineAloneCommits(run: seq<Fine>, n: nat, t: nat, c: (nat, nat, nat)) returns (trail: seq<Fine>)
    requires IsFineRun(run) && n < |run| && Alone(run[n].base, t) && Distinct(c, |run[n].base.value|)
    requires run[n].base.threads[t].pc != Done && run[n].base.order < run[n].base.limit
    ensures Trail(FineBy(t), run[n], trail) && IsFineRun(run[..n + 1] + trail) && 0 < |trail| <= 143
    ensures |trail[|trail| - 1].base.log| == |run[n].base.log| + 1
  {
    FineRunInv(run, n);
    LeftBound(run[n], t);
    hide FineInv, FineStep, Trail, Alone, FineLeft, IsFineRun;
    trail := FineAloneTrail(run[n], t, c);
    FineRunGoesOn(run, n, trail, t);
  }
}
