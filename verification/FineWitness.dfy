/** A run of the fine engine that ends with a spinning thread: two threads and three records
    are enough. */
module FineWitness {
  import opened Options
  import opened LockManager
  import opened Engine
  import opened FineEngine

  ghost predicate Reached(f: Fine) {
    exists run :: IsFineRun(run) && run[|run| - 1] == f
  }

  lemma ReachStep(f: Fine, f': Fine, t: nat, c: (nat, nat, nat))
    requires Reached(f) && FineStep(f, f', t, c)
    ensures Reached(f')
  {
    hide FineStep;
    var run :| IsFineRun(run) && run[|run| - 1] == f;
    var run' := run + [f'];
    forall n | 0 <= n < |run'| - 1 ensures FineNext(run'[n], run'[n + 1]) {
      if n < |run| - 1 { assert FineNext(run[n], run[n + 1]); }
    }
    assert IsFineRun(run') && run'[|run'| - 1] == f';
  }

  /** Nothing is in anybody's way: no mutex, no release, no sleeper, no edge. */
  predicate Quiet(f: Fine) {
    && FineShape(f) && f.stage == Whole && f.asleep == {} && f.base.mutex == None
    && (forall x :: 0 <= x < |f.spin| ==> f.spin[x] == None)
    && (forall v :: 0 <= v < |f.base.mon.depend| ==> f.base.mon.depend[v] == {})
  }

  lemma PathBegins(d: seq<set<nat>>, p: seq<nat>, u: nat, v: nat)
    ensures IsPath(d, p, u, v) ==>
              && |p| >= 2 && u < |d| && p[1] in d[u] && (|p| == 2 ==> p[1] == v)
              && (|p| > 2 ==> p[1] < |d| && p[2] in d[p[1]])
  {
    assert IsPath(d, p, u, v) ==> p[0 + 1] in d[p[0]] && (|p| > 2 ==> p[1 + 1] in d[p[1]]);
  }

  /** Edges out of one thread only, and none to itself, make no cycle. */
  lemma NoEdges(d: seq<set<nat>>, t: nat)
    requires forall v :: 0 <= v < |d| && v != t ==> d[v] == {}
    requires t < |d| ==> t !in d[t]
    ensures !Reaches(d, t, t)
  {
    forall p ensures !IsPath(d, p, t, t) {
      PathBegins(d, p, t, t);
    }
  }

  /** The request of a thread for a record nobody has asked for. */
  lemma RequestAlone(f: Fine, t: nat, kind: LockType, c: (nat, nat, nat)) returns (f': Fine)
    requires Quiet(f) && t < |f.base.threads| && f.base.threads[t].pc == Request(kind) && Distinct(c, |f.base.value|)
    requires f.base.mon.queue[RecOf(f.base.threads[t], kind)] == []
    ensures FineStep(f, f', t, c)
    ensures var th := f.base.threads[t]; var x := RecOf(th, kind);
            f' == f.(base := Goto(f.base.(mon := f.base.mon.(queue := f.base.mon.queue[x := [Req(th, t, kind)]]),
                                          mutex := Some(t)), t, Locking(kind)))
  {
    var s, th := f.base, f.base.threads[t];
    var req := Req(th, t, kind);
    var edges := AddEdges(s.mon, req);
    assert ConflictTids([], req) == {};
    assert s.mon.depend[t] + {} == s.mon.depend[t] && edges.depend == s.mon.depend;
    NoEdges(s.mon.depend, t);
    assert [] + [req] == [req];
    f' := FineDo(f, t, c);
  }

  lemma EnterAlone(f: Fine, t: nat, kind: LockType, c: (nat, nat, nat)) returns (f': Fine)
    requires FineShape(f) && t < |f.base.threads| && f.base.threads[t].pc == Locking(kind)
    requires Distinct(c, |f.base.value|)
    requires t !in f.asleep && forall x :: 0 <= x < |f.spin| ==> f.spin[x] == None
    requires var th := f.base.threads[t]; var x := RecOf(th, kind);
             f.base.mon.queue[x] == [Req(th, t, kind)] && !f.base.rw[x].writing
    ensures FineStep(f, f', t, c) && f' == f.(base := DoLocking(f.base, t, kind))
  {
    f' := FineDo(f, t, c);
    var x := RecOf(f.base.threads[t], kind);
    assert f.spin[x := None] == f.spin;
  }

  /** The state while t gets record x: the engine's state with this queue, counters and so on. */
  function Getting(f: Fine, t: nat, x: nat, req: LockInfo, rw: RW, mutex: Option<nat>, pc: Pc): Fine
    requires FineShape(f) && t < |f.base.threads| && x < |f.base.rw|
  {
    f.(base := f.base.(mon := f.base.mon.(queue := f.base.mon.queue[x := [req]]), rw := f.base.rw[x := rw],
                       mutex := mutex, threads := f.base.threads[t := f.base.threads[t].(pc := pc)]))
  }

  lemma AcquireFirst(f: Fine, t: nat, kind: LockType, c: (nat, nat, nat)) returns (f': Fine)
    requires Reached(f) && Quiet(f) && t < |f.base.threads| && f.base.threads[t].pc == Request(kind)
    requires Distinct(c, |f.base.value|)
    requires var x := RecOf(f.base.threads[t], kind); f.base.mon.queue[x] == [] && f.base.rw[x] == RW(0, false)
    ensures Reached(f')
    ensures var th := f.base.threads[t];
            f' == Getting(f, t, RecOf(th, kind), Req(th, t, kind), Admit(RW(0, false), kind), Some(t),
                          if kind == R then Flagging(kind) else Draining(kind))
  {
    hide Reached, FineStep;
    var f1 := RequestAlone(f, t, kind, c);
    ReachStep(f, f1, t, c);
    f' := EnterAlone(f1, t, kind, c);
    ReachStep(f1, f', t, c);
  }

  lemma DrainedStep(f: Fine, t: nat, kind: LockType, rw: RW, c: (nat, nat, nat))
    requires Quiet(f) && t < |f.base.threads| && Distinct(c, |f.base.value|) && rw.numReader == 0 && kind != R
    ensures var req := Req(f.base.threads[t], t, kind); var x := RecOf(f.base.threads[t], kind);
            FineStep(Getting(f, t, x, req, rw, Some(t), Draining(kind)),
                Getting(f, t, x, req, rw, Some(t), Flagging(kind)), t, c)
  {
  }

  lemma FlagStep(f: Fine, t: nat, kind: LockType, rw: RW, c: (nat, nat, nat))
    requires Quiet(f) && t < |f.base.threads| && Distinct(c, |f.base.value|)
    ensures var req := Req(f.base.threads[t], t, kind); var x := RecOf(f.base.threads[t], kind);
            FineStep(Getting(f, t, x, req, rw, Some(t), Flagging(kind)),
                     Getting(f, t, x, req.(getLock := true), rw, Some(t), Rejoin(kind)), t, c)
  {
    var req := Req(f.base.threads[t], t, kind);
    assert Flag([req], req) == [req.(getLock := true)];
  }

  lemma RejoinStep(f: Fine, t: nat, kind: LockType, rw: RW, c: (nat, nat, nat))
    requires Quiet(f) && t < |f.base.threads| && Distinct(c, |f.base.value|)
    ensures var req := Req(f.base.threads[t], t, kind).(getLock := true); var x := RecOf(f.base.threads[t], kind);
            FineStep(Getting(f, t, x, req, rw, Some(t), Rejoin(kind)),
                Getting(f, t, x, req, rw, None, Reading(kind)), t, c)
  {
  }

  /** A thread that asks for a free record ends up reading it, with everything else as before. */
  lemma AcquireAlone(f: Fine, t: nat, kind: LockType, c: (nat, nat, nat)) returns (f': Fine)
    requires Reached(f) && Quiet(f) && t < |f.base.threads| && f.base.threads[t].pc == Request(kind)
    requires Distinct(c, |f.base.value|)
    requires var x := RecOf(f.base.threads[t], kind); f.base.mon.queue[x] == [] && f.base.rw[x] == RW(0, false)
    ensures Reached(f') && Quiet(f')
    ensures var th := f.base.threads[t];
            f' == Getting(f, t, RecOf(th, kind), Req(th, t, kind).(getLock := true), Admit(RW(0, false), kind), None,
                          Reading(kind))
  {
    hide Reached, FineStep;
    var x, req, rw := RecOf(f.base.threads[t], kind), Req(f.base.threads[t], t, kind), Admit(RW(0, false), kind);
    var g := AcquireFirst(f, t, kind, c);
    if kind != R {
      DrainedStep(f, t, kind, rw, c);
      ReachStep(g, Getting(f, t, x, req, rw, Some(t), Flagging(kind)), t, c);
      g := Getting(f, t, x, req, rw, Some(t), Flagging(kind));
    }
    FlagStep(f, t, kind, rw, c);
    RejoinStep(f, t, kind, rw, c);
    var g' := Getting(f, t, x, req.(getLock := true), rw, Some(t), Rejoin(kind));
    f' := Getting(f, t, x, req.(getLock := true), rw, None, Reading(kind));
    ReachStep(g, g', t, c);
    ReachStep(g', f', t, c);
  }

  // ---- the run ----

  /** Thread 0 works on records 0, 1, 2 and holds the first `held` of its locks; thread 1 has
      not started. */
  ghost predicate Scene(f: Fine, pc: Pc, held: nat) {
    && Reached(f) && Quiet(f) && |f.base.threads| == 2 && |f.base.value| == 3 && f.base.order < f.base.limit
    && f.base.threads[0].i == 0 && f.base.threads[0].j == 1 && f.base.threads[0].k == 2
    && f.base.threads[0].pc == pc && f.base.threads[1].pc == Top
    && forall x {:trigger f.base.mon.queue[x]} {:trigger f.base.rw[x]} :: 0 <= x < 3 ==>
         if x < held
         then f.base.mon.queue[x] == [LockInfo(x, KindAt(x), 0, true)] && f.base.rw[x] == Admit(RW(0, false), KindAt(x))
         else f.base.mon.queue[x] == [] && f.base.rw[x] == RW(0, false)
  }

  lemma FirstReached(f: Fine)
    requires FineInitial(f)
    ensures Reached(f)
  {
    hide FineInitial, FineNext;
    assert IsFineRun([f]) && [f][|[f]| - 1] == f;
  }

  lemma Start() returns (f: Fine)
    ensures FineInitial(f) && |f.base.threads| == 2 && |f.base.value| == 3 && f.base.limit == 1
  {
    var th := Thread(Top, 0, 1, 2, 0, 0, 0, []);
    var rw := RW(0, false);
    f := Fine(State(Mon([[], [], []], [{}, {}]), [rw, rw, rw], [100, 100, 100], None, 0, 1, [th, th], []), Whole,
              [None, None, None], {});
  }

  lemma Opening() returns (f: Fine)
    ensures Scene(f, Request(R), 0)
  {
    var f0 := Start();
    FirstReached(f0);
    f := FineDo(f0, 0, (0, 1, 2));
    ReachStep(f0, f, 0, (0, 1, 2));
    hide Reached;
  }

  lemma Gain(f: Fine, m: nat) returns (f': Fine)
    requires m < 3 && Scene(f, Request(KindAt(m)), m)
    ensures Scene(f', Reading(KindAt(m)), m + 1)
  {
    hide Reached;
    assert RecOf(f.base.threads[0], KindAt(m)) == m;
    assert f.base.mon.queue[m] == [] && f.base.rw[m] == RW(0, false);
    f' := AcquireAlone(f, 0, KindAt(m), (0, 1, 2));
  }

  /** A step of thread 0 that touches neither queues nor locks. */
  predicate Passes(pc: Pc, pc': Pc) {
    || (pc == Reading(R) && pc' == Request(W1)) || (pc == Reading(W1) && pc' == Writing(W1))
    || (pc == Writing(W1) && pc' == Request(W2)) || (pc == Reading(W2) && pc' == Writing(W2))
    || (pc == Writing(W2) && pc' == Finish)
  }

  lemma PassStep(f: Fine, pc': Pc)
    requires FineShape(f) && |f.base.threads| > 0 && Passes(f.base.threads[0].pc, pc')
    requires Distinct((0, 1, 2), |f.base.value|)
    ensures var f' := FineDo(f, 0, (0, 1, 2)); var th, th' := f.base.threads[0], f'.base.threads[0];
            && FineStep(f, f', 0, (0, 1, 2)) && f' == f.(base := f'.base) && |f'.base.value| == |f.base.value|
            && f'.base == f.base.(value := f'.base.value, threads := f.base.threads[0 := th'])
            && th'.pc == pc' && th'.i == th.i && th'.j == th.j && th'.k == th.k
  {
  }

  lemma Onward(f: Fine, pc: Pc, held: nat, pc': Pc) returns (f': Fine)
    requires Scene(f, pc, held) && Passes(pc, pc')
    ensures Scene(f', pc', held)
  {
    hide Reached, FineStep, FineDo, Passes;
    PassStep(f, pc');
    f' := FineDo(f, 0, (0, 1, 2));
    ReachStep(f, f', 0, (0, 1, 2));
  }

  lemma Middle() returns (f: Fine)
    ensures Scene(f, Finish, 3)
  {
    hide Scene;
    f := Opening();
    f := Gain(f, 0);
    f := Onward(f, Reading(R), 1, Request(W1));
    f := Gain(f, 1);
    f := Onward(f, Reading(W1), 2, Writing(W1));
    f := Onward(f, Writing(W1), 2, Request(W2));
    f := Gain(f, 2);
    f := Onward(f, Reading(W2), 3, Writing(W2));
    f := Onward(f, Writing(W2), 3, Finish);
  }

  const WRITER := LockInfo(1, W1, 0, true)
  const READER := LockInfo(1, R, 1, false)

  /** Thread 1 is awake and waits for record 1, behind the writer or, once it has left, alone. */
  ghost predicate Late(f: Fine, pc: Pc, stage: Stage, queue: seq<LockInfo>) {
    && Reached(f) && FineShape(f) && |f.base.threads| == 2 && |f.base.value| == 3 && f.asleep == {} && f.stage == stage
    && (forall x :: 0 <= x < |f.spin| ==> f.spin[x] == None)
    && f.base.threads[0].i == 0 && f.base.threads[0].j == 1 && f.base.threads[0].k == 2 && f.base.threads[0].pc == pc
    && f.base.threads[1].i == 1 && f.base.threads[1].pc == Locking(R)
    && f.base.mutex == (if pc == Finish then None else Some(0))
    && f.base.mon.queue[1] == queue && f.base.rw[1].writing
  }

  lemma Arrive(f: Fine) returns (f': Fine)
    requires Scene(f, Finish, 3)
    ensures Reached(f')
    ensures f' == f.(base := Put(f.base, 1, f.base.threads[1].(pc := Request(R), i := 1, j := 0, k := 2)))
  {
    f' := FineDo(f, 1, (1, 0, 2));
    ReachStep(f, f', 1, (1, 0, 2));
  }

  /** Thread 1 asks for the record that thread 0 writes: no cycle, and it has to wait. */
  lemma RequestBehind(s: State)
    requires Shape(s) && |s.threads| == 2 && s.mutex == None && s.threads[1].pc == Request(R) && s.threads[1].i == 1
    requires s.mon.queue[1] == [WRITER] && s.mon.depend == [{}, {}]
    ensures DoRequest(s, 1, R)
            == Goto(s.(mon := Mon(s.mon.queue[1 := [WRITER, READER]], [{}, {0}])), 1, Locking(R))
  {
    var edges := AddEdges(s.mon, READER);
    assert ConflictTids([WRITER], READER) == {0} by { assert [WRITER][0].tid == 0; }
    assert s.mon.depend[1] + {0} == {0} && edges.depend == [{}, {0}];
    NoEdges(edges.depend, 1);
    assert [WRITER] + [READER] == [WRITER, READER];
    assert Pos([WRITER, READER], READER) == 1;
  }

  lemma RequestFine(g: Fine, c: (nat, nat, nat))
    requires FineShape(g) && |g.base.threads| == 2 && g.base.mutex == None && g.base.threads[1].pc == Request(R)
    requires Distinct(c, |g.base.value|)
    ensures FineStep(g, g.(base := DoRequest(g.base, 1, R)), 1, c)
  {
    hide DoRequest;
  }

  lemma QueueUp(f: Fine, g: Fine) returns (f': Fine)
    requires Scene(f, Finish, 3) && Reached(g)
    requires g == f.(base := Put(f.base, 1, f.base.threads[1].(pc := Request(R), i := 1, j := 0, k := 2)))
    ensures Late(f', Finish, Whole, [WRITER, READER])
  {
    assert g.base.mon.queue[1] == [WRITER] && g.base.rw[1].writing && g.base.mon.depend == [{}, {}];
    RequestBehind(g.base);
    RequestFine(g, (1, 0, 2));
    assert g.stage == Whole && g.asleep == {} && g.base.mutex == None && g.base.threads[0] == f.base.threads[0];
    hide DoRequest, Reached, FineStep, Scene;
    f' := g.(base := DoRequest(g.base, 1, R));
    ReachStep(g, f', 1, (1, 0, 2));
  }

  lemma Finishing(f: Fine) returns (f': Fine)
    requires Late(f, Finish, Whole, [WRITER, READER])
    ensures Late(f', Release(0, 3), Whole, [WRITER, READER])
  {
    f' := FineDo(f, 0, (0, 1, 2));
    ReachStep(f, f', 0, (0, 1, 2));
    hide Reached;
  }

  lemma FirstErase(f: Fine) returns (f': Fine)
    requires Late(f, Release(0, 3), Whole, [WRITER, READER])
    ensures Late(f', Release(0, 3), Erased, [WRITER, READER])
  {
    f' := FineDo(f, 0, (0, 1, 2));
    ReachStep(f, f', 0, (0, 1, 2));
    hide Reached;
  }

  lemma FirstDrop(f: Fine) returns (f': Fine)
    requires Late(f, Release(0, 3), Erased, [WRITER, READER])
    ensures f'.stage.Dropped? && Late(f', Release(0, 3), f'.stage, [WRITER, READER])
  {
    f' := FineDo(f, 0, (0, 1, 2));
    ReachStep(f, f', 0, (0, 1, 2));
    hide Reached;
  }

  lemma FirstNotify(f: Fine) returns (f': Fine)
    requires f.stage.Dropped? && Late(f, Release(0, 3), f.stage, [WRITER, READER])
    ensures Late(f', Release(1, 3), Whole, [WRITER, READER])
  {
    f' := FineDo(f, 0, (0, 1, 2));
    ReachStep(f, f', 0, (0, 1, 2));
    hide Reached;
  }

  lemma SecondErase(f: Fine) returns (f': Fine)
    requires Late(f, Release(1, 3), Whole, [WRITER, READER])
    ensures Late(f', Release(1, 3), Erased, [READER])
  {
    hide Reached;
    assert Pos([WRITER, READER], Req(f.base.threads[0], 0, W1)) == 0;
    assert [WRITER, READER][..0] + [WRITER, READER][1..] == [READER];
    hide Eligible, Do, DoTest, DoDrain, Woken, Pos;
    f' := FineDo(f, 0, (0, 1, 2));
    ReachStep(f, f', 0, (0, 1, 2));
    hide Reached;
  }

  /** The reader, first in its queue now, tests before the writer has dropped the lock. */
  lemma LastTest(f: Fine) returns (f': Fine)
    requires Late(f, Release(1, 3), Erased, [READER])
    ensures Reached(f') && f'.spin == [None, Some(1), None]
  {
    assert Pos([READER], READER) == 0;
    f' := FineDo(f, 1, (1, 0, 2));
    ReachStep(f, f', 1, (1, 0, 2));
  }

  /** The engine can come to a standstill: some run ends with a thread that spins. */
  lemma SomeRunSpins() returns (run: seq<Fine>)
    ensures IsFineRun(run) && |run[|run| - 1].spin| == 3 && run[|run| - 1].spin[1] == Some(1)
  {
    hide Scene, Late;
    var f := Middle();
    var g := Arrive(f);
    g := QueueUp(f, g);
    g := Finishing(g);
    g := FirstErase(g);
    g := FirstDrop(g);
    g := FirstNotify(g);
    g := SecondErase(g);
    g := LastTest(g);
    run :| IsFineRun(run) && run[|run| - 1] == g;
  }
}
