/** The calls of the hand-over-hand list come to an end: a call that runs alone returns the right
    answer. */
module HandSolo {
  import opened Options
  import opened ListSpec
  import opened SortedChain
  import opened HandList
  import opened HandInv
  import opened HandProof
  import opened HandTheorems
  import opened Trails

  /** A step of thread t, whatever call it starts. */
  ghost function By(t: nat): (State, State) -> bool {
    (s, s') => exists op: Op, key: int, a: int :: Step(s, s', t, op, key, a)
  }

  lemma RunGoesOn(run: seq<State>, n: nat, trail: seq<State>, t: nat)
    requires IsRun(run) && n < |run| && Trail(By(t), run[n], trail)
    ensures IsRun(run[..n + 1] + trail)
  {
    hide Step, Trail;
    GoesOn(Next, By(t), run, n, trail);
  }

  /** All other threads are between calls. */
  ghost predicate Alone(s: State, t: nat) {
    t < |s.threads| && forall u :: 0 <= u < |s.threads| && u != t ==> s.threads[u].pc == Idle
  }

  function AheadOf(h: Heap, n: int): (r: nat)
    ensures r <= |h.key|
  {
    if Valid(h, n) then Above(h.key, h.key[n]) else 0
  }

  /** How many steps a call is away from its end. */
  function Left(h: Heap, th: Thread): (r: nat)
    ensures r <= 3 * |h.key| + 10
  {
    match th.pc
    case Idle => 0
    case Dispose => 1
    case UnlockCurr => 2
    case UnlockPrev => 3
    case SetNode => 4
    case Decide => 5
    case Advance => 6 + 3 * AheadOf(h, th.curr)
    case Walk => 7 + 3 * AheadOf(h, th.curr)
    case LockCurr => 8 + 3 * AheadOf(h, th.curr)
    case ReadFirst => 9 + 3 * |h.key|
    case LockHead => 10 + 3 * |h.key|
  }

  /** Alone, a thread finds every lock free that it does not hold itself. */
  lemma FreeLock(s: State, t: nat, n: int)
    requires Inv(s) && Alone(s, t) && 0 <= n < |s.heap.owner| && !Holding(s.threads[t], n)
    ensures s.heap.owner[n] == None
  {
    if s.heap.owner[n].Some? {
      OwnerHolds(s, n);
    }
  }

  lemma AloneEnabled(s: State, t: nat)
    requires Inv(s) && Alone(s, t)
    ensures Safe(s, t) && Enabled(s, t)
  {
    SafeInv(s, t);
    if s.threads[t].pc == LockHead {
      FreeLock(s, t, HEAD);
    } else if s.threads[t].pc == LockCurr {
      KeysRise(s, t);
      FreeLock(s, t, s.threads[t].curr);
    }
  }

  lemma AdvanceNearer(s: State, t: nat, op: Op, key: int, a: int)
    requires Inv(s) && t < |s.threads| && s.threads[t].pc == Advance && Safe(s, t) && Available(s.heap, a)
    ensures var s' := Do(s, t, op, key, a); Left(s'.heap, s'.threads[t]) < Left(s.heap, s.threads[t])
  {
    Facts(s, t);
    hide Inv, After, Legal, Keys, OwnRight, Above, Gapless, Injective;
    var h, curr := s.heap, s.threads[t].curr;
    assert curr in Listed(h);
    FewerAhead(h.key, curr, h.next[curr]);
  }

  lemma PlainNearer(s: State, t: nat, op: Op, key: int, a: int)
    requires t < |s.threads| && Safe(s, t) && Available(s.heap, a)
    requires s.threads[t].pc != Idle && s.threads[t].pc != Advance
    ensures var s' := Do(s, t, op, key, a); Left(s'.heap, s'.threads[t]) < Left(s.heap, s.threads[t])
  {
    hide Above;
  }

  lemma NodesKept(s: State, t: nat, op: Op, key: int, a: int)
    requires t < |s.threads| && Safe(s, t) && Available(s.heap, a) && s.threads[t].pc != Idle
    ensures var s' := Do(s, t, op, key, a); |s'.threads| == |s.threads| && |s'.heap.key| == |s.heap.key|
  {
  }

  /** Every step of a call brings it nearer to its end. */
  lemma Nearer(s: State, s': State, t: nat, op: Op, key: int, a: int)
    requires Inv(s) && Step(s, s', t, op, key, a) && s.threads[t].pc != Idle
    ensures t < |s'.threads| && Left(s'.heap, s'.threads[t]) < Left(s.heap, s.threads[t])
    ensures |s'.heap.key| == |s.heap.key|
  {
    NodesKept(s, t, op, key, a);
    hide Inv, Do, Safe, Enabled, Left;
    if s.threads[t].pc == Advance {
      AdvanceNearer(s, t, op, key, a);
    } else {
      PlainNearer(s, t, op, key, a);
    }
  }

  /** What a call running alone has done so far: nothing yet, or all it was asked to. */
  ghost predicate Served(s: State, s': State, t: nat)
    requires t < |s.threads| && t < |s'.threads|
  {
    var th, th' := s.threads[t], s'.threads[t];
    && th'.op == th.op && th'.key == th.key
    && if Settled(th.pc) then s'.hist == s.hist && th'.result == th.result && (Settled(th'.pc) || th'.pc == Idle)
       else if Settled(th'.pc) || th'.pc == Idle then s'.hist == s.hist + [Call(t, th.op, th.key, th'.result)]
       else s'.hist == s.hist
  }

  lemma ServedStep(s: State, s': State, t: nat, op: Op, key: int, a: int)
    requires Step(s, s', t, op, key, a) && s.threads[t].pc != Idle
    ensures t < |s'.threads| && Served(s, s', t)
  {
  }

  lemma AloneKept(s: State, s': State, t: nat, op: Op, key: int, a: int)
    requires Step(s, s', t, op, key, a) && Alone(s, t)
    ensures Alone(s', t)
  {
    RecordedOnce(s, s', t, op, key, a);
    hide Step;
  }

  lemma AloneStep(s: State, t: nat) returns (s': State)
    requires Inv(s) && Alone(s, t) && s.threads[t].pc != Idle
    ensures By(t)(s, s') && Inv(s') && t < |s'.threads| && Alone(s', t) && Served(s, s', t)
    ensures Left(s'.heap, s'.threads[t]) < Left(s.heap, s.threads[t])
  {
    AloneEnabled(s, t);
    var a := |s.heap.key|;
    s' := Do(s, t, Contains, 0, a);
    assert Step(s, s', t, Contains, 0, a);
    hide Inv, Do, Safe, Enabled, Alone, Left;
    InvStep(s, s', t, Contains, 0, a);
    Nearer(s, s', t, Contains, 0, a);
    ServedStep(s, s', t, Contains, 0, a);
    AloneKept(s, s', t, Contains, 0, a);
  }

  /** A call alone runs to its end. */
  lemma {:induction false} AloneTrail(s: State, t: nat) returns (trail: seq<State>)
    requires Inv(s) && Alone(s, t) && s.threads[t].pc != Idle
    ensures Trail(By(t), s, trail) && |trail| <= Left(s.heap, s.threads[t])
    ensures var s' := Last(s, trail); Inv(s') && t < |s'.threads| && s'.threads[t].pc == Idle && Served(s, s', t)
    decreases Left(s.heap, s.threads[t])
  {
    hide Inv, Alone, Left, Step;
    var s' := AloneStep(s, t);
    One(By(t), s, s');
    trail := [s'];
    if s'.threads[t].pc != Idle {
      var rest := AloneTrail(s', t);
      Join(By(t), s, [s'], rest);
      trail := [s'] + rest;
    }
  }

  /** What the call of thread t has come to in s', seen from s: if it had not taken effect it is
      recorded now, with the answer that the set gives, and the set has changed as it says. */
  ghost predicate Completed(s: State, s': State, t: nat) {
    && t < |s.threads| && t < |s'.threads| && s'.threads[t].pc == Idle
    && var th := s.threads[t];
       if Settled(th.pc) then s'.hist == s.hist && s'.threads[t].result == th.result && Keys(s'.heap) == Keys(s.heap)
       else
         && s'.threads[t].result == Answer(th.op, th.key, Keys(s.heap))
         && s'.hist == s.hist + [Call(t, th.op, th.key, s'.threads[t].result)]
         && Keys(s'.heap) == Effect(th.op, th.key, Keys(s.heap))
  }

  lemma ServedIsCompleted(s: State, s': State, t: nat)
    requires Inv(s) && Inv(s') && t < |s.threads| && t < |s'.threads| && Served(s, s', t) && s'.threads[t].pc == Idle
    ensures Completed(s, s', t)
  {
    Facts(s, t);
    Facts(s', t);
    hide Inv, HeapInv, ThreadInv, OwnRight, Keys, After, Answer, Effect;
    if !Settled(s.threads[t].pc) {
      var c := s'.hist[|s.hist|];
      assert s'.hist[..|s.hist|] == s.hist;
      AfterExtend(s.hist, c);
    }
  }

  /** From any reachable state: all other threads between calls, a call in progress returns
      after a number of its own steps linear in the number of nodes, and is recorded. */
  lemma SoloCompletes(run: seq<State>, n: nat, t: nat) returns (trail: seq<State>)
    requires IsRun(run) && n < |run| && Alone(run[n], t) && run[n].threads[t].pc != Idle
    ensures Trail(By(t), run[n], trail) && IsRun(run[..n + 1] + trail) && |trail| <= 3 * |run[n].heap.key| + 10
    ensures Completed(run[n], Last(run[n], trail), t)
  {
    RunInv(run, n);
    hide Inv, Step, Trail, Alone, Completed, Served;
    trail := AloneTrail(run[n], t);
    ServedIsCompleted(run[n], Last(run[n], trail), t);
    RunGoesOn(run, n, trail, t);
  }
}
