/** The calls of the optimistic list come to an end: a validation that has nothing to object to
    succeeds, and a call that runs alone returns the right answer. */
module OptimisticSolo {
  import opened Options
  import opened ListSpec
  import opened SortedChain
  import opened OptimisticList
  import opened OptimisticInv
  import opened OptimisticSteps
  import opened OptimisticProof
  import opened OptimisticTheorems
  import opened Trails

  /** A step of thread t, whatever call it starts. */
  ghost function By(t: nat): (State, State) -> bool {
    (s, s') => exists op: Op, key: int :: Step(s, s', t, op, key)
  }

  lemma RunGoesOn(run: seq<State>, n: nat, trail: seq<State>, t: nat)
    requires IsRun(run) && n < |run| && Trail(By(t), run[n], trail)
    ensures IsRun(run[..n + 1] + trail)
  {
    hide Step, Trail;
    GoesOn(Next, By(t), run, n, trail);
  }

  // ---- validation ----

  /** Pointers lead to larger keys. */
  lemma {:induction false} PathAscends(h: Heap, p: seq<int>, a: int, b: int)
    requires NodesInv(h) && Linked(h, a) && Linked(h, b) && IsPath(h.next, p, a, b)
    ensures h.key[a] <= h.key[b] && (a != b ==> |p| > 1 && a != TAIL && IsPath(h.next, p[1..], h.next[a], b))
    decreases |p|
  {
    if |p| > 1 {
      assert h.next[p[0]] == p[0 + 1];
      var q := p[1..];
      assert forall k :: 0 <= k < |q| ==> q[k] == p[k + 1];
      assert IsPath(h.next, q, h.next[a], b);
      if a == TAIL {
        assert false;
      }
      PathAscends(h, q, h.next[a], b);
    }
  }

  /** Nothing speaks against the place that thread t has locked. */
  ghost predicate Sound(s: State, t: nat)
    requires t < |s.threads|
  {
    var h, th := s.heap, s.threads[t];
    Shape(h) && Valid(h, th.prev) && h.next[th.prev] == th.curr && LeadsTo(h.next, th.it, th.prev)
  }

  /** One step of a validation that will succeed. */
  lemma ValidateGoesOn(s: State, t: nat)
    requires Inv(s) && t < |s.threads| && s.threads[t].pc == Validate && Sound(s, t)
    ensures Safe(s, t)
    ensures var th := s.threads[t];
            if th.it == th.prev then DoValidate(s, t) == Put(s, t, th.(pc := Decide)) else
            && Valid(s.heap, th.it) && th.it != TAIL && Valid(s.heap, s.heap.next[th.it])
            && DoValidate(s, t) == Put(s, t, th.(it := s.heap.next[th.it]))
            && s.heap.key[th.it] < s.heap.key[s.heap.next[th.it]] && Sound(DoValidate(s, t), t)
  {
    SafeInv(s, t);
    Facts(s, t);
    var h, th := s.heap, s.threads[t];
    var p: seq<int> :| IsPath(h.next, p, th.it, th.prev);
    PathAscends(h, p, th.it, th.prev);
    hide Inv, Chain, After, Legal, Keys, NoWayBack, OwnsRight;
    assert Linked(h, th.it);
  }

  /** The steps of thread t stay in the validation until it succeeds. */
  lemma {:induction false} ValidateTrail(s: State, t: nat) returns (trail: seq<State>)
    requires Inv(s) && t < |s.threads| && s.threads[t].pc == Validate && Sound(s, t) && Valid(s.heap, s.threads[t].it)
    ensures Trail(By(t), s, trail) && |trail| <= Above(s.heap.key, s.heap.key[s.threads[t].it]) + 1
    ensures var s' := Last(s, trail);
            s' == Put(s, t, s.threads[t].(pc := Decide, it := s.threads[t].prev))
    decreases Above(s.heap.key, s.heap.key[s.threads[t].it])
  {
    hide Inv, Sound, DoDecide, DoValidate, Above;
    ValidateGoesOn(s, t);
    var h, th := s.heap, s.threads[t];
    var s' := DoValidate(s, t);
    assert Step(s, s', t, Contains, 0);
    One(By(t), s, s');
    trail := [s'];
    if th.it == th.prev {
      assert s' == Put(s, t, th.(pc := Decide, it := th.prev));
    } else {
      InvStep(s, s', t, Contains, 0);
      FewerAhead(h.key, th.it, h.next[th.it]);
      var rest := ValidateTrail(s', t);
      Join(By(t), s, [s'], rest);
      trail := [s'] + rest;
    }
  }

  /** Validation is complete: if the walk of thread t still leads to `prev` and `curr` is still
      its successor, the thread's own steps end in success, with nothing changed. */
  lemma ValidationSucceeds(run: seq<State>, n: nat, t: nat) returns (trail: seq<State>)
    requires IsRun(run) && n < |run| && t < |run[n].threads| && run[n].threads[t].pc == Validate
    requires var h, th := run[n].heap, run[n].threads[t];
             Shape(h) && Valid(h, th.prev) && h.next[th.prev] == th.curr && LeadsTo(h.next, th.it, th.prev)
    ensures Trail(By(t), run[n], trail) && IsRun(run[..n + 1] + trail) && |trail| <= |run[n].heap.key| + 1
    ensures var s' := Last(run[n], trail);
            && s'.heap == run[n].heap && s'.hist == run[n].hist
            && t < |s'.threads| && s'.threads[t].pc == Decide
  {
    RunInv(run, n);
    SafeInv(run[n], t);
    hide Inv, IsPath, Step, Trail;
    assert run[n].threads[t].it in Follows(run[n].threads[t]);
    trail := ValidateTrail(run[n], t);
    RunGoesOn(run, n, trail, t);
  }

  // ---- alone ----

  /** All other threads are between calls. */
  ghost predicate Alone(s: State, t: nat) {
    t < |s.threads| && forall u :: 0 <= u < |s.threads| && u != t ==> s.threads[u].pc == Idle
  }

  /** The round that thread t is in will succeed if nobody interferes. */
  ghost predicate Good(s: State, t: nat)
    requires t < |s.threads|
  {
    var h, th := s.heap, s.threads[t];
    match th.pc
    case Walk => Shape(h) && In(h, th.prev) && h.next[th.prev] == th.curr
    case LockPrev => Shape(h) && In(h, th.prev) && h.next[th.prev] == th.curr
    case LockCurr => Shape(h) && In(h, th.prev) && h.next[th.prev] == th.curr
    case Validate => Sound(s, t)
    case _ => true
  }

  function AheadOf(h: Heap, n: int): (r: nat)
    ensures r <= |h.key|
  {
    if Valid(h, n) then Above(h.key, h.key[n]) else 0
  }

  /** How many steps a call is away from its end, in this round. */
  function Left(h: Heap, th: Thread): nat {
    var nodes := |h.key|;
    match th.pc
    case Idle => 0
    case OkCurr => 1
    case OkPrev => 2
    case Link => 3
    case Decide => 4
    case Validate => 5 + AheadOf(h, th.it)
    case LockCurr => 6 + nodes
    case LockPrev => 7 + nodes
    case Walk => 8 + nodes + AheadOf(h, th.curr)
    case Start => 9 + 2 * nodes
    case FailCurr => 10 + 2 * nodes
    case FailPrev => 11 + 2 * nodes
  }

  /** A round that may fail is followed by one that succeeds. */
  ghost function Rank(s: State, t: nat): (r: nat)
    requires t < |s.threads|
    ensures r <= 4 * |s.heap.key| + 20
  {
    Left(s.heap, s.threads[t]) + if Good(s, t) then 0 else 12 + 2 * |s.heap.key|
  }

  /** Alone, a thread finds every lock free that it does not hold itself. */
  lemma FreeLock(s: State, t: nat, n: int)
    requires Inv(s) && Alone(s, t) && 0 <= n < |s.heap.owner| && !Holding(s.threads[t], n)
    ensures s.heap.owner[n] == None
  {
    if s.heap.owner[n].Some? {
      OwnerHolds(s, n);
    }
  }

  lemma AloneEnabled(s: State, t: nat)
    requires Inv(s) && Alone(s, t)
    ensures Safe(s, t) && Enabled(s, t)
  {
    SafeInv(s, t);
    Facts(s, t);
    hide Inv, Chain, After, Legal, Keys, NoWayBack, Ascending, OwnsRight, NodesInv;
    if s.threads[t].pc == LockPrev {
      FreeLock(s, t, s.threads[t].prev);
    } else if s.threads[t].pc == LockCurr {
      FreeLock(s, t, s.threads[t].curr);
    }
  }

  lemma WalkNearer(s: State, t: nat, op: Op, key: int)
    requires Inv(s) && t < |s.threads| && s.threads[t].pc == Walk && Safe(s, t)
    ensures Rank(Do(s, t, op, key), t) < Rank(s, t)
  {
    Facts(s, t);
    var h, th := s.heap, s.threads[t];
    hide Inv, After, Legal, Keys, NoWayBack, OwnsRight, Above, Gapless, Injective;
    if h.key[th.curr] < th.key {
      FewerAhead(h.key, th.curr, h.next[th.curr]);
      assert In(h, th.prev) ==> th.prev in Listed(h);
      assert Good(s, t) ==> In(h, th.curr);
    }
  }

  lemma SoundNearer(s: State, t: nat)
    requires Inv(s) && t < |s.threads| && s.threads[t].pc == Validate && Safe(s, t) && Sound(s, t)
    ensures Rank(DoValidate(s, t), t) < Rank(s, t)
  {
    var h, th := s.heap, s.threads[t];
    ValidateGoesOn(s, t);
    hide Inv, Sound, DoValidate, Above;
    if th.it != th.prev { FewerAhead(h.key, th.it, h.next[th.it]); }
  }

  lemma UnsoundNearer(s: State, t: nat)
    requires Inv(s) && t < |s.threads| && s.threads[t].pc == Validate && Safe(s, t) && !Sound(s, t)
    ensures Rank(DoValidate(s, t), t) < Rank(s, t)
  {
    var h, th := s.heap, s.threads[t];
    Facts(s, t);
    hide Inv, Chain, After, Legal, Keys, NoWayBack, OwnsRight, Above, Sound;
    if h.key[th.it] <= h.key[th.prev] && th.it != th.prev {
      assert Linked(h, h.next[th.it]);
      FewerAhead(h.key, th.it, h.next[th.it]);
    }
  }

  lemma LockNearer(s: State, t: nat, op: Op, key: int)
    requires Inv(s) && t < |s.threads| && s.threads[t].pc == LockCurr && Safe(s, t)
    ensures Rank(Do(s, t, op, key), t) < Rank(s, t)
  {
    Facts(s, t);
    var h, th := s.heap, s.threads[t];
    if In(h, th.prev) {
      assert th.prev in Listed(h);
      ListedIsReachable(h.key, h.next, Listed(h), th.prev);
    }
    hide Inv, Chain, After, Legal, Keys, NoWayBack, OwnsRight, Above, Ascending, LeadsTo, Gone;
  }

  lemma StartNearer(s: State, t: nat, op: Op, key: int)
    requires Inv(s) && t < |s.threads| && s.threads[t].pc == Start && Safe(s, t)
    ensures Rank(Do(s, t, op, key), t) < Rank(s, t)
  {
    Facts(s, t);
    hide Inv, After, Legal, Keys, NoWayBack, OwnsRight, Above, Ascending;
    assert HEAD in Listed(s.heap);
  }

  lemma PlainNearer(s: State, t: nat, op: Op, key: int)
    requires t < |s.threads| && Safe(s, t)
    requires var pc := s.threads[t].pc;
             pc != Idle && pc != Start && pc != Walk && pc != LockCurr && pc != Validate
    ensures Rank(Do(s, t, op, key), t) < Rank(s, t)
  {
    hide AheadOf, LeadsTo;
  }

  lemma NodesKept(s: State, t: nat, op: Op, key: int)
    requires t < |s.threads| && Safe(s, t) && s.threads[t].pc != Idle
    ensures var s' := Do(s, t, op, key); |s'.threads| == |s.threads| && |s'.heap.key| == |s.heap.key|
  {
  }

  /** Every step of a call brings it nearer to its end, whatever round it is in. */
  lemma Nearer(s: State, s': State, t: nat, op: Op, key: int)
    requires Inv(s) && Step(s, s', t, op, key) && s.threads[t].pc != Idle
    ensures t < |s'.threads| && Rank(s', t) < Rank(s, t) && |s'.heap.key| == |s.heap.key|
  {
    NodesKept(s, t, op, key);
    assert s.threads[t].pc == Validate ==> s' == DoValidate(s, t);
    hide Inv, Do, Safe, Enabled, Rank, Sound, DoValidate;
    match s.threads[t].pc {
      case Start => StartNearer(s, t, op, key);
      case Walk => WalkNearer(s, t, op, key);
      case LockCurr => LockNearer(s, t, op, key);
      case Validate => if Sound(s, t) { SoundNearer(s, t); } else { UnsoundNearer(s, t); }
      case _ => PlainNearer(s, t, op, key);
    }
  }

  /** What a call running alone has done so far: nothing yet, or all it was asked to. */
  ghost predicate Served(s: State, s': State, t: nat)
    requires t < |s.threads| && t < |s'.threads|
  {
    var th, th' := s.threads[t], s'.threads[t];
    && th'.op == th.op && th'.key == th.key
    && if Settled(th.pc) then s'.hist == s.hist && th'.result == th.result && (Settled(th'.pc) || th'.pc == Idle)
       else if Settled(th'.pc) || th'.pc == Idle then s'.hist == s.hist + [Call(t, th.op, th.key, th'.result)]
       else s'.hist == s.hist
  }

  lemma ServedStep(s: State, s': State, t: nat, op: Op, key: int)
    requires Step(s, s', t, op, key) && s.threads[t].pc != Idle
    ensures t < |s'.threads| && Served(s, s', t)
  {
  }

  lemma AloneKept(s: State, s': State, t: nat, op: Op, key: int)
    requires Step(s, s', t, op, key) && Alone(s, t)
    ensures Alone(s', t)
  {
    RecordedOnce(s, s', t, op, key);
    hide Step;
  }

  /** A call alone runs to its end. */
  lemma {:induction false} AloneTrail(s: State, t: nat) returns (trail: seq<State>)
    requires Inv(s) && Alone(s, t) && s.threads[t].pc != Idle
    ensures Trail(By(t), s, trail) && |trail| <= Rank(s, t)
    ensures var s' := Last(s, trail); Inv(s') && t < |s'.threads| && s'.threads[t].pc == Idle && Served(s, s', t)
    decreases Rank(s, t)
  {
    AloneEnabled(s, t);
    var s' := Do(s, t, Contains, 0);
    assert Step(s, s', t, Contains, 0);
    hide Inv, Do, Safe, Enabled, Alone, Rank;
    InvStep(s, s', t, Contains, 0);
    Nearer(s, s', t, Contains, 0);
    ServedStep(s, s', t, Contains, 0);
    AloneKept(s, s', t, Contains, 0);
    One(By(t), s, s');
    trail := [s'];
    if s'.threads[t].pc != Idle {
      var rest := AloneTrail(s', t);
      Join(By(t), s, [s'], rest);
      trail := [s'] + rest;
    }
  }

  /** What the call of thread t has come to in s', seen from s: if it had not taken effect it is
      recorded now, with the answer that the set gives, and the set has changed as it says. */
  ghost predicate Completed(s: State, s': State, t: nat) {
    && t < |s.threads| && t < |s'.threads| && s'.threads[t].pc == Idle
    && var th := s.threads[t];
       if Settled(th.pc) then s'.hist == s.hist && s'.threads[t].result == th.result && Keys(s'.heap) == Keys(s.heap)
       else
         && s'.threads[t].result == Answer(th.op, th.key, Keys(s.heap))
         && s'.hist == s.hist + [Call(t, th.op, th.key, s'.threads[t].result)]
         && Keys(s'.heap) == Effect(th.op, th.key, Keys(s.heap))
  }

  lemma ServedIsCompleted(s: State, s': State, t: nat)
    requires Inv(s) && Inv(s') && t < |s.threads| && t < |s'.threads| && Served(s, s', t) && s'.threads[t].pc == Idle
    ensures Completed(s, s', t)
  {
    Facts(s, t);
    Facts(s', t);
    hide Inv, NodesInv, ThreadInv, OwnsRight, Keys, After, Answer, Effect;
    if !Settled(s.threads[t].pc) {
      var c := s'.hist[|s.hist|];
      assert s'.hist[..|s.hist|] == s.hist;
      AfterExtend(s.hist, c);
    }
  }

  /** From any reachable state: all other threads between calls, a call in progress returns
      after a number of its own steps linear in the number of nodes, and is recorded. */
  lemma SoloCompletes(run: seq<State>, n: nat, t: nat) returns (trail: seq<State>)
    requires IsRun(run) && n < |run| && Alone(run[n], t) && run[n].threads[t].pc != Idle
    ensures Trail(By(t), run[n], trail) && IsRun(run[..n + 1] + trail) && |trail| <= 4 * |run[n].heap.key| + 20
    ensures Completed(run[n], Last(run[n], trail), t)
  {
    RunInv(run, n);
    hide Inv, Step, Trail, Alone, Completed, Served;
    trail := AloneTrail(run[n], t);
    ServedIsCompleted(run[n], Last(run[n], trail), t);
    RunGoesOn(run, n, trail, t);
  }
}
