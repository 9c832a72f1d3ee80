/** The engine gets its work done: every step brings a transaction closer to its end, a thread
    that runs alone commits, and nobody stops before the last commit id is used up. */
module EngineProgress {
  import opened Options
  import opened LockManager
  import opened Engine
  import opened QueueOrder
  import opened EngineLocks
  import opened WaitGraph
  import opened SerialData
  import opened EngineTheorems
  import opened Trails

  // ---- nobody stops early ----

  ghost predicate StopInv(s: State) {
    forall t :: 0 <= t < |s.threads| && s.threads[t].pc == Done ==> s.limit <= s.order
  }

  lemma StopInvStep(s: State, s': State, t: nat, c: (nat, nat, nat))
    requires StopInv(s) && Step(s, s', t, c)
    ensures StopInv(s')
  {
    hide Eligible, Pos, Flag, DeleteLock, Reaches, Immediate;
    assert s.order <= s'.order && s'.limit == s.limit;
    assert s'.threads[t].pc == Done ==> s'.limit <= s'.order;
  }

  lemma {:induction false} StopInvRun(run: seq<State>, n: nat)
    requires IsRun(run) && n < |run|
    ensures StopInv(run[n])
  {
    hide Step;
    if n > 0 {
      StopInvRun(run, n - 1);
      assert Next(run[n - 1], run[n - 1 + 1]);
      var t: nat, c: (nat, nat, nat) :| Step(run[n - 1], run[n], t, c);
      StopInvStep(run[n - 1], run[n], t, c);
    }
  }

  /** A thread stops only when all commit ids up to the limit are logged. */
  lemma StopsOnlyWhenFull(run: seq<State>, n: nat, t: nat)
    requires IsRun(run) && n < |run| && t < |run[n].threads| && run[n].threads[t].pc == Done
    ensures |run[n].log| == Max(run[0].limit, 0)
  {
    StopInvRun(run, n);
    RunInv(run, n);
  }

  // ---- every step counts ----

  /** How many steps a transaction is away from its end if nothing stands in its way. A
      transaction that has to give up is behind the start of a new one. */
  function Left(pc: Pc): nat {
    match pc
    case Done => 0
    case Release(m, n) => if m > n then 0 else if n < 3 then 32 + (n - m) else 5 + (n - m)
    case Finish => 9
    case Top => 31
    case Request(s) => 30 - 7 * Rank(s)
    case Locking(s) => 29 - 7 * Rank(s)
    case Draining(s) => 28 - 7 * Rank(s)
    case Flagging(s) => 27 - 7 * Rank(s)
    case Rejoin(s) => 26 - 7 * Rank(s)
    case Reading(s) => 25 - 7 * Rank(s)
    case Writing(s) => 24 - 7 * Rank(s)
  }

  /** The request of thread t closes a cycle. */
  ghost predicate GivesUp(s: State, t: nat)
    requires Shape(s) && t < |s.threads|
  {
    var pc := s.threads[t].pc;
    pc.Request? && Reaches(AddEdges(s.mon, Req(s.threads[t], t, pc.s)).depend, t, t)
  }

  /** No step is idle: it shortens the way of its transaction, commits it, or gives it up. */
  lemma EveryStepCounts(s: State, s': State, t: nat, c: (nat, nat, nat))
    requires Step(s, s', t, c)
    ensures Left(s'.threads[t].pc) < Left(s.threads[t].pc) || |s'.log| == |s.log| + 1 || GivesUp(s, t)
    ensures forall u :: 0 <= u < |s.threads| && u != t ==> s'.threads[u] == s.threads[u]
  {
    hide Eligible, Pos, Flag, DeleteLock, Reaches, Immediate, AddEdges, Enqueue, Admit, Dismiss;
    if s.threads[t].pc.Request? {
      RequestCounts(s, t, s.threads[t].pc.s);
    }
    hide DoRequest, GivesUp;
  }

  lemma RequestCounts(s: State, t: nat, kind: LockType)
    requires Shape(s) && t < |s.threads| && s.threads[t].pc == Request(kind)
    ensures Left(DoRequest(s, t, kind).threads[t].pc) < Left(s.threads[t].pc) || GivesUp(s, t)
  {
    hide Reaches, Immediate, AddEdges, Enqueue;
  }

  // ---- alone ----

  /** All other threads are between transactions. */
  ghost predicate Alone(s: State, t: nat) {
    t < |s.threads| && forall u :: 0 <= u < |s.threads| && u != t ==> Idle(s.threads[u].pc)
  }

  lemma TwoDiffer(q: seq<LockInfo>, ph: seq<Phase>, rw: RW)
    requires QueueInv(q, ph, rw)
    ensures |q| > 1 ==> q[0].tid != q[1].tid
  {
  }

  lemma OnlyMine(s: State, t: nat, x: nat)
    requires LockInv(s) && Alone(s, t) && x < |s.rw|
    ensures |s.mon.queue[x]| <= 1 && forall a :: 0 <= a < |s.mon.queue[x]| ==> s.mon.queue[x][a].tid == t
  {
    var q := s.mon.queue[x];
    assert RecInv(q, s.rw[x], s.threads, x);
    TwoDiffer(q, Phases(q, s.threads), s.rw[x]);
    hide LockInv, QueueInv;
    forall a | 0 <= a < |q| ensures q[a].tid == t {
      assert Listed(q[a], s.threads, x);
    }
  }

  /** Nobody asks for the record that t asks for next. */
  lemma NobodyAsks(s: State, t: nat, kind: LockType)
    requires LockInv(s) && Alone(s, t) && s.threads[t].pc == Request(kind)
    ensures s.mon.queue[RecOf(s.threads[t], kind)] == []
  {
    var x := RecOf(s.threads[t], kind);
    OnlyMine(s, t, x);
    var q := s.mon.queue[x];
    assert RecInv(q, s.rw[x], s.threads, x);
    hide LockInv, QueueInv;
    assert |q| > 0 ==> Listed(q[0], s.threads, x);
  }

  lemma MutexMine(s: State, t: nat)
    requires GraphInv(s) && Alone(s, t)
    ensures s.mutex == None || s.mutex == Some(t)
    ensures !InSection(s.threads[t].pc) ==> s.mutex == None
  {
  }

  lemma AloneNeverGivesUp(s: State, t: nat)
    requires LockInv(s) && GraphInv(s) && Alone(s, t)
    ensures !GivesUp(s, t)
  {
    hide QueueInv;
    if s.threads[t].pc.Request? {
      var kind := s.threads[t].pc.s;
      MutexMine(s, t);
      NobodyAsks(s, t, kind);
      var req := Req(s.threads[t], t, kind);
      assert ConflictTids([], req) == {};
      assert s.mon.depend[t] + {} == s.mon.depend[t];
      assert AddEdges(s.mon, req).depend == s.mon.depend;
      var rank :| Ranked(s.mon.depend, rank, -1);
      RankedIsAcyclic(s.mon.depend, rank);
    }
  }

  lemma AloneEnabled(s: State, t: nat)
    requires LockInv(s) && GraphInv(s) && Alone(s, t) && s.threads[t].pc != Done
    ensures Enabled(s, t)
  {
    MutexMine(s, t);
    if s.threads[t].pc.Locking? || s.threads[t].pc.Draining? {
      OnlyMine(s, t, RecOf(s.threads[t], s.threads[t].pc.s));
      hide LockInv, GraphInv;
      ClearAhead(s, t);
    }
  }

  /** A thread alone makes its next step, and the others stay where they are. */
  lemma AloneStep(s: State, t: nat, c: (nat, nat, nat)) returns (s': State)
    requires Inv(s) && Alone(s, t) && s.threads[t].pc != Done && s.order < s.limit && Distinct(c, |s.value|)
    ensures Step(s, s', t, c) && Inv(s') && Alone(s', t) && s'.limit == s.limit && |s'.value| == |s.value|
    ensures (|s'.log| == |s.log| + 1 && s'.threads[t].pc == Top && s'.order == s.order + 1)
            || (&& s'.log == s.log && s'.order == s.order && s'.threads[t].pc != Done
                && Left(s'.threads[t].pc) < Left(s.threads[t].pc))
  {
    AloneEnabled(s, t);
    AloneNeverGivesUp(s, t);
    s' := Do(s, t, c);
    AloneAfter(s, s', t);
    AloneCounters(s, t, c);
    assert Step(s, s', t, c);
    hide Inv, Do, Enabled, Alone, Left, GivesUp, Framed;
    InvStep(s, s', t, c);
    EveryStepCounts(s, s', t, c);
  }

  lemma AloneAfter(s: State, s': State, t: nat)
    requires Alone(s, t) && Framed(s, s', t)
    ensures Alone(s', t) && s'.limit == s.limit && |s'.value| == |s.value|
  {
  }

  lemma AloneCounters(s: State, t: nat, c: (nat, nat, nat))
    requires Shape(s) && t < |s.threads| && Distinct(c, |s.value|) && s.order < s.limit && s.threads[t].pc != Done
    ensures var s' := Do(s, t, c);
            || (|s'.log| == |s.log| + 1 && s'.threads[t].pc == Top && s'.order == s.order + 1)
            || (s'.log == s.log && s'.order == s.order && s'.threads[t].pc != Done)
  {
    hide Eligible, Pos, Flag, DeleteLock, Reaches, Immediate;
  }

  /** A step of thread t, whatever it chooses. */
  ghost function By(t: nat): (State, State) -> bool {
    (s, s') => exists c: (nat, nat, nat) :: Step(s, s', t, c)
  }

  lemma RunGoesOn(run: seq<State>, n: nat, trail: seq<State>, t: nat)
    requires IsRun(run) && n < |run| && Trail(By(t), run[n], trail)
    ensures IsRun(run[..n + 1] + trail)
  {
    hide Step, Trail;
    GoesOn(Next, By(t), run, n, trail);
  }

  /** A thread left alone commits within a few steps, whatever records it chooses. */
  lemma {:induction false} AloneTrail(s: State, t: nat, c: (nat, nat, nat)) returns (trail: seq<State>)
    requires Inv(s) && Alone(s, t) && s.threads[t].pc != Done && s.order < s.limit && Distinct(c, |s.value|)
    ensures Trail(By(t), s, trail) && 0 < |trail| <= Left(s.threads[t].pc) + 1
    ensures var s' := Last(s, trail);
            && Inv(s') && Alone(s', t) && s'.limit == s.limit && |s'.value| == |s.value|
            && |s'.log| == |s.log| + 1 && s'.order == s.order + 1 && s'.threads[t].pc == Top
    decreases Left(s.threads[t].pc)
  {
    hide Inv, Step;
    var s' := AloneStep(s, t, c);
    One(By(t), s, s');
    trail := [s'];
    if |s'.log| != |s.log| + 1 {
      var rest := AloneTrail(s', t, c);
      Join(By(t), s, [s'], rest);
      trail := [s'] + rest;
    }
  }

  /** From any reachable state: all other threads between transactions, an unfinished thread
      commits by its own steps, at most 36 of them. */
  lemma AloneCommits(run: seq<State>, n: nat, t: nat, c: (nat, nat, nat)) returns (trail: seq<State>)
    requires IsRun(run) && n < |run| && Alone(run[n], t) && Distinct(c, |run[n].value|)
    requires run[n].threads[t].pc != Done && run[n].order < run[n].limit
    ensures Trail(By(t), run[n], trail) && IsRun(run[..n + 1] + trail) && 0 < |trail| <= 36
    ensures |trail[|trail| - 1].log| == |run[n].log| + 1
  {
    RunInv(run, n);
    hide Inv, Step, Trail, Alone;
    trail := AloneTrail(run[n], t, c);
    RunGoesOn(run, n, trail, t);
  }

  /** With all ids used up and nothing in hand a thread stops. */
  lemma StopStep(s: State, t: nat, c: (nat, nat, nat)) returns (s': State)
    requires Shape(s) && t < |s.threads| && s.threads[t].pc == Top && s.limit <= s.order && Distinct(c, |s.value|)
    ensures Step(s, s', t, c) && s'.threads[t].pc == Done && s'.log == s.log
  {
    s' := Do(s, t, c);
  }

  /** A thread left alone commits all that is left and stops. */
  lemma {:induction false} AloneTrailToEnd(s: State, t: nat, c: (nat, nat, nat)) returns (trail: seq<State>)
    requires Inv(s) && Alone(s, t) && s.threads[t].pc != Done && s.order < s.limit && Distinct(c, |s.value|)
    ensures Trail(By(t), s, trail)
    ensures var s' := Last(s, trail); |s'.log| == s.limit && t < |s'.threads| && s'.threads[t].pc == Done
    decreases s.limit - s.order
  {
    var one := AloneTrail(s, t, c);
    var mid := Last(s, one);
    assert DataInv(mid);
    hide Inv, Step, Alone, DataInv, Trail;
    var two;
    if mid.order < mid.limit {
      two := AloneTrailToEnd(mid, t, c);
    } else {
      two := LastSteps(mid, t, c);
    }
    Join(By(t), s, one, two);
    trail := one + two;
  }

  lemma LastSteps(s: State, t: nat, c: (nat, nat, nat)) returns (trail: seq<State>)
    requires DataInv(s) && t < |s.threads| && s.threads[t].pc == Top && s.order == s.limit && Distinct(c, |s.value|)
    ensures Trail(By(t), s, trail)
    ensures var s' := Last(s, trail); |s'.log| == s.limit && t < |s'.threads| && s'.threads[t].pc == Done
  {
    var s' := StopStep(s, t, c);
    One(By(t), s, s');
    trail := [s'];
  }

  /** All E transactions can be committed: from any reachable state with ids left, an unfinished
      thread that is left alone uses up the rest and stops. */
  lemma AloneCommitsAll(run: seq<State>, n: nat, t: nat, c: (nat, nat, nat)) returns (trail: seq<State>)
    requires IsRun(run) && n < |run| && Alone(run[n], t) && Distinct(c, |run[n].value|)
    requires run[n].threads[t].pc != Done && run[n].order < run[n].limit
    ensures Trail(By(t), run[n], trail) && IsRun(run[..n + 1] + trail)
    ensures var s := Last(run[n], trail); |s.log| == run[0].limit && t < |s.threads| && s.threads[t].pc == Done
  {
    RunInv(run, n);
    hide Inv, Step, Alone, Trail;
    trail := AloneTrailToEnd(run[n], t, c);
    RunGoesOn(run, n, trail, t);
  }
}
