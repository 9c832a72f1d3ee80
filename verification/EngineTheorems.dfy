/** What holds in every state of every run of the transaction engine. */
module EngineTheorems {
  import opened Options
  import opened LockManager
  import opened Engine
  import opened QueueOrder
  import opened EngineLocks
  import opened WaitGraph
  import opened GraphSteps
  import opened SerialData
  import opened SerialSteps
  import opened FineLocks

  /** All lines of all output files. */
  function Lines(ths: seq<Thread>): multiset<Entry> {
    if |ths| == 0 then multiset{} else Lines(ths[..|ths| - 1]) + multiset(ths[|ths| - 1].file)
  }

  ghost predicate Inv(s: State) {
    LockInv(s) && GraphInv(s) && DataInv(s) && Lines(s.threads) == multiset(s.log)
  }

  lemma {:induction false} LinesUpdate(ths: seq<Thread>, t: nat, th': Thread, more: seq<Entry>)
    requires t < |ths| && th'.file == ths[t].file + more
    ensures Lines(ths[t := th']) == Lines(ths) + multiset(more)
    decreases |ths|
  {
    var n := |ths| - 1;
    if t == n {
      assert ths[t := th'][..n] == ths[..n];
      assert multiset(th'.file) == multiset(ths[t].file) + multiset(more);
    } else {
      assert ths[t := th'][..n] == ths[..n][t := th'];
      LinesUpdate(ths[..n], t, th', more);
    }
  }

  lemma {:induction false} LinesEmpty(ths: seq<Thread>)
    requires forall t :: 0 <= t < |ths| ==> ths[t].file == []
    ensures Lines(ths) == multiset{}
    decreases |ths|
  {
    if |ths| > 0 {
      LinesEmpty(ths[..|ths| - 1]);
    }
  }

  lemma DecideLines(s: State, t: nat)
    requires Shape(s) && t < |s.threads| && Lines(s.threads) == multiset(s.log)
    ensures Lines(DoDecide(s, t).threads) == multiset(DoDecide(s, t).log)
  {
    var s' := DoDecide(s, t);
    if s.order + 1 <= s.limit {
      LinesUpdate(s.threads, t, s'.threads[t], [s'.log[|s.log|]]);
    } else {
      LinesUpdate(s.threads, t, s'.threads[t], []);
    }
  }

  lemma PlainLines(s: State, s': State, t: nat)
    requires t < |s.threads| == |s'.threads| && s'.threads == s.threads[t := s'.threads[t]]
    requires s'.threads[t].file == s.threads[t].file && s'.log == s.log && Lines(s.threads) == multiset(s.log)
    ensures Lines(s'.threads) == multiset(s'.log)
  {
    LinesUpdate(s.threads, t, s'.threads[t], []);
  }

  lemma LinesStep(s: State, s': State, t: nat, c: (nat, nat, nat))
    requires Step(s, s', t, c) && Lines(s.threads) == multiset(s.log)
    ensures Lines(s'.threads) == multiset(s'.log)
  {
    hide Eligible, Pos, Flag, DeleteLock, Reaches, Immediate, Lines;
    if s.threads[t].pc == Release(3, 3) {
      DecideLines(s, t);
    } else {
      PlainLines(s, s', t);
    }
  }

  lemma InvStep(s: State, s': State, t: nat, c: (nat, nat, nat))
    requires Inv(s) && Step(s, s', t, c)
    ensures Inv(s')
  {
    hide LockInv, GraphInv, DataInv, Step, Lines;
    LockInvStep(s, s', t, c);
    GraphInvStep(s, s', t, c);
    DataInvStep(s, s', t, c);
    LinesStep(s, s', t, c);
  }

  lemma InvInit(s: State)
    requires Initial(s)
    ensures Inv(s)
  {
    LockInvInit(s);
    GraphInvInit(s);
    DataInvInit(s);
    LinesEmpty(s.threads);
  }

  /** Every state of every run satisfies the invariant; sizes and limit never change. */
  lemma {:induction false} RunInv(run: seq<State>, n: nat)
    requires IsRun(run) && n < |run|
    ensures Inv(run[n]) && Shape(run[n])
    ensures |run[n].value| == |run[0].value| && |run[n].threads| == |run[0].threads| && run[n].limit == run[0].limit
  {
    if n == 0 {
      InvInit(run[0]);
    } else {
      RunInv(run, n - 1);
      assert Next(run[n - 1], run[n - 1 + 1]);
      var t: nat, c: (nat, nat, nat) :| Step(run[n - 1], run[n], t, c);
      InvStep(run[n - 1], run[n], t, c);
    }
  }

  // ---- reader/writer safety ----

  /** In every reachable state a record has one granted writer and nobody else inside,
      or readers only, and nobody passed a conflicting request in front of it; the two
      counters agree with the granted requests. */
  lemma ReaderWriterSafety(run: seq<State>, n: nat, x: nat)
    requires IsRun(run) && n < |run| && x < |run[n].rw|
    ensures Shape(run[n])
    ensures var s := run[n]; var q := s.mon.queue[x];
            && AllListed(q, s.threads, x)
            && var ph := Phases(q, s.threads);
            && s.rw[x].numReader == |Readers(q, ph)|
            && (s.rw[x].writing <==> exists a :: 0 <= a < |q| && q[a].kind != R && ph[a] != Pending)
            && (forall a, b :: 0 <= a < b < |q| && Holds(ph[b]) ==> !Conflict(q[a], q[b]))
            && (forall a, b :: 0 <= a < b < |q| && Holds(ph[a]) && Holds(ph[b]) ==> q[a].kind == R && q[b].kind == R)
  {
    RunInv(run, n);
    var s := run[n];
    assert RecInv(s.mon.queue[x], s.rw[x], s.threads, x);
    hide GraphInv, DataInv, LockInv, Lines;
    var q, ph := s.mon.queue[x], Phases(s.mon.queue[x], s.threads);
    assert forall a, b :: 0 <= a < b < |q| && ph[b] != Pending ==> MayPass(q[a], q[b], ph[b]);
  }

  // ---- deadlock freedom ----

  /** A thread with no conflicting request in front of its own can take the lock. */
  lemma ClearAhead(s: State, t: nat)
    requires LockInv(s) && t < |s.threads|
    requires s.threads[t].pc.Locking? || s.threads[t].pc.Draining?
    requires forall u :: !Behind(s.mon.queue[RecOf(s.threads[t], s.threads[t].pc.s)], t, u)
    ensures Enabled(s, t)
  {
    var kind := s.threads[t].pc.s;
    var x := RecOf(s.threads[t], kind);
    var q := s.mon.queue[x];
    var b := Locate(s, t, kind);
    assert RecInv(q, s.rw[x], s.threads, x);
    forall a | 0 <= a < b ensures !Conflict(q[a], q[b]) {
      assert !Behind(q, t, q[a].tid);
    }
    NotBlocked(q, Phases(q, s.threads), s.rw[x], b);
    hide QueueInv, LockInv;
    assert q[b].kind != R ==> Conflict(q[0], q[b]);
    assert Phases(q, s.threads)[b] == PhaseOf(s.threads[t].pc, kind);
  }

  /** A request that passes the queue test finds the lock free: the wait loops never spin. */
  lemma NeverSpins(run: seq<State>, n: nat, t: nat)
    requires IsRun(run) && n < |run| && t < |run[n].threads| && run[n].threads[t].pc.Locking?
    ensures Shape(run[n])
    ensures var s := run[n]; var kind := s.threads[t].pc.s; var x := RecOf(s.threads[t], kind);
            Eligible(s.mon.queue[x], Req(s.threads[t], t, kind)) ==> !s.rw[x].writing
  {
    RunInv(run, n);
    hide GraphInv, DataInv, Lines, LockInv;
    var s := run[n];
    var kind := s.threads[t].pc.s;
    if Eligible(s.mon.queue[RecOf(s.threads[t], kind)], Req(s.threads[t], t, kind)) {
      EligibleIsFree(s, t, kind);
    }
  }

  /** `get` is honest: a thread that holds the global mutex is never blocked. */
  lemma MutexHolderRuns(run: seq<State>, n: nat, t: nat)
    requires IsRun(run) && n < |run| && run[n].mutex == Some(t)
    ensures Shape(run[n]) && t < |run[n].threads| && Enabled(run[n], t)
  {
    RunInv(run, n);
    HolderEnabled(run[n], t);
  }

  lemma HolderEnabled(s: State, t: nat)
    requires Inv(s) && s.mutex == Some(t)
    ensures Shape(s) && t < |s.threads| && Enabled(s, t)
  {
    hide DataInv, LockInv, Lines, Faithful, Ranked;
    assert MutexInv(s) && GetInv(s);
    if s.threads[t].pc.Locking? || s.threads[t].pc.Draining? {
      ClearAhead(s, t);
    }
  }

  /** While the global mutex is free, the graph is exactly the order of the queues and
      has no cycle. */
  lemma MutexFreeAcyclic(run: seq<State>, n: nat)
    requires IsRun(run) && n < |run| && run[n].mutex == None
    ensures Acyclic(run[n].mon.depend)
    ensures Shape(run[n])
    ensures forall t, u :: 0 <= t < |run[n].threads| && 0 <= u < |run[n].threads| ==>
              (u in run[n].mon.depend[t] <==> Waits(run[n].mon.queue, t, u))
  {
    RunInv(run, n);
    var s := run[n];
    var rank :| Ranked(s.mon.depend, rank, -1);
    RankedIsAcyclic(s.mon.depend, rank);
  }

  lemma {:induction false} LeastRank(rank: seq<nat>, c: set<nat>) returns (t: nat)
    requires c != {} && forall u :: u in c ==> u < |rank|
    ensures t in c && forall u :: u in c ==> rank[t] <= rank[u]
    decreases |c|
  {
    t :| t in c;
    if c != {t} {
      assert c == (c - {t}) + {t};
      var v := LeastRank(rank, c - {t});
      if rank[v] < rank[t] { t := v; }
    }
  }

  /** Every edge of the graph leads to a thread with a request, hence to an unfinished one. */
  lemma WaitedForIsUnfinished(s: State, t: nat, u: nat)
    requires LockInv(s) && u < |s.threads| && Waits(s.mon.queue, t, u)
    ensures s.threads[u].pc != Done
  {
  }

  /** If every unfinished thread waits for a record lock, the one of least rank is not blocked. */
  lemma SomeWaiterRuns(s: State) returns (t: nat)
    requires Inv(s) && s.mutex == None
    requires exists v :: 0 <= v < |s.threads| && s.threads[v].pc != Done
    requires forall v :: 0 <= v < |s.threads| && s.threads[v].pc != Done ==>
               s.threads[v].pc.Locking? || s.threads[v].pc.Draining?
    ensures Shape(s) && t < |s.threads| && Enabled(s, t)
    ensures s.threads[t].pc.Locking? || s.threads[t].pc.Draining?
    ensures forall u :: !Behind(s.mon.queue[RecOf(s.threads[t], s.threads[t].pc.s)], t, u)
  {
    hide DataInv, LockInv, Lines, Behind;
    var d := s.mon.depend;
    var rank :| Ranked(d, rank, -1);
    var c := set v | v in Below(|s.threads|) && s.threads[v].pc != Done;
    var v0 :| 0 <= v0 < |s.threads| && s.threads[v0].pc != Done;
    assert v0 in c;
    t := LeastRank(rank, c);
    var x := RecOf(s.threads[t], s.threads[t].pc.s);
    forall u ensures !Behind(s.mon.queue[x], t, u) {
      if Behind(s.mon.queue[x], t, u) {
        BehindInRange(s, t, u, x);
        assert Waits(s.mon.queue, t, u);
        WaitedForIsUnfinished(s, t, u);
        assert false;
      }
    }
    ClearAhead(s, t);
  }

  lemma BehindInRange(s: State, t: nat, u: nat, x: nat)
    requires LockInv(s) && x < |s.rw| && Behind(s.mon.queue[x], t, u)
    ensures u < |s.threads|
  {
  }

  /** The next step waits for no record lock. */
  predicate Unguarded(pc: Pc) { pc != Done && !pc.Locking? && !pc.Draining? }

  /** Deadlock freedom: as long as some thread is unfinished, some thread can step. */
  lemma DeadlockFreedom(run: seq<State>, n: nat) returns (t: nat)
    requires IsRun(run) && n < |run|
    requires exists v :: 0 <= v < |run[n].threads| && run[n].threads[v].pc != Done
    ensures Shape(run[n]) && t < |run[n].threads| && Enabled(run[n], t)
  {
    RunInv(run, n);
    var s := run[n];
    hide LockInv, DataInv, Lines, GraphInv;
    if s.mutex.Some? {
      t := s.mutex.value;
      HolderEnabled(s, t);
    } else if v :| 0 <= v < |s.threads| && Unguarded(s.threads[v].pc) {
      t := v;
    } else {
      t := SomeWaiterRuns(s);
    }
  }

  /** A transaction's first request never reports a deadlock: the branch that would keep
      the global mutex is dead. */
  lemma FirstRequestNeverDeadlocks(run: seq<State>, n: nat, t: nat)
    requires IsRun(run) && n < |run| && t < |run[n].threads|
    requires run[n].threads[t].pc == Request(R) && run[n].mutex == None
    ensures Shape(run[n]) && !Reaches(AddEdges(run[n].mon, Req(run[n].threads[t], t, R)).depend, t, t)
  {
    RunInv(run, n);
    FirstReadIsFree(run[n], t);
  }

  /** A thread has no request yet on the record that it asks for. */
  lemma NotQueuedYet(s: State, t: nat, kind: LockType)
    requires LockInv(s) && t < |s.threads| && s.threads[t].pc == Request(kind)
    ensures forall a :: 0 <= a < |s.mon.queue[RecOf(s.threads[t], kind)]| ==>
              s.mon.queue[RecOf(s.threads[t], kind)][a].tid != t
  {
    var x := RecOf(s.threads[t], kind);
    var q := s.mon.queue[x];
    assert RecInv(q, s.rw[x], s.threads, x);
    hide QueueInv, LockInv;
    forall a | 0 <= a < |q| ensures q[a].tid != t {
      assert Listed(q[a], s.threads, x);
    }
  }

  /** What a request leads to: if it closes a cycle the thread keeps the global mutex and gives
      up what it has; otherwise it is queued, and the thread keeps the mutex exactly if nothing
      queued before conflicts. */
  lemma RequestAnswer(run: seq<State>, n: nat, s': State, t: nat, c: (nat, nat, nat))
    requires IsRun(run) && n < |run| && Step(run[n], s', t, c) && run[n].threads[t].pc.Request?
    ensures var s := run[n]; var kind := s.threads[t].pc.s; var req := Req(s.threads[t], t, kind);
            var q := s.mon.queue[req.index];
            if Reaches(AddEdges(s.mon, req).depend, t, t) then
              && s'.mutex == Some(t) && s'.mon.queue == s.mon.queue
              && s'.threads[t].pc == (match kind case R => Top case W1 => Release(0, 1) case W2 => Release(0, 2))
            else
              && s'.mon.queue == s.mon.queue[req.index := q + [req]] && s'.threads[t].pc == Locking(kind)
              && s'.mutex == if exists a :: 0 <= a < |q| && Conflict(q[a], req) then None else Some(t)
  {
    RunInv(run, n);
    var s := run[n];
    var kind := s.threads[t].pc.s;
    hide GraphInv, DataInv, Lines, LockInv, Reaches, Immediate, IsRun;
    NotQueuedYet(s, t, kind);
    ImmediateIff(s.mon.queue[RecOf(s.threads[t], kind)], Req(s.threads[t], t, kind));
  }

  // ---- serializability ----

  /** The lines of the log show exactly what a serial replay in commit order computes,
      and the commit ids are 1, 2, ... without gap or repetition, none over the limit. */
  lemma CommitOrderSerializable(run: seq<State>, n: nat)
    requires IsRun(run) && n < |run|
    ensures LogOk(run[n].log, |run[0].value|)
    ensures |run[n].log| <= Max(run[0].limit, 0)
  {
    RunInv(run, n);
  }

  ghost predicate SortedByCid(lines: seq<Entry>) {
    forall a, b :: 0 <= a < b < |lines| ==> lines[a].cid <= lines[b].cid
  }

  lemma LastLine(lines: seq<Entry>, log: seq<Entry>)
    requires multiset(lines) == multiset(log) && SortedByCid(lines) && |lines| == |log| > 0
    requires forall n :: 0 <= n < |log| ==> log[n].cid == n + 1
    ensures lines[|log| - 1] == log[|log| - 1]
  {
    var n := |log| - 1;
    assert log[n] in multiset(lines) && lines[n] in multiset(log);
    var p :| 0 <= p < |lines| && lines[p] == log[n];
    var m :| 0 <= m < |log| && log[m] == lines[n];
    assert lines[p].cid <= lines[n].cid;
  }

  lemma DropLast<T>(s: seq<T>)
    requires |s| > 0
    ensures multiset(s[..|s| - 1]) == multiset(s) - multiset{s[|s| - 1]}
  {
    assert s == s[..|s| - 1] + [s[|s| - 1]];
  }

  lemma DropBoth<T>(s: seq<T>, r: seq<T>)
    requires |s| == |r| > 0 && multiset(s) == multiset(r) && s[|s| - 1] == r[|r| - 1]
    ensures multiset(s[..|s| - 1]) == multiset(r[..|r| - 1])
  {
    DropLast(s);
    DropLast(r);
  }

  lemma SameLength<T>(s: seq<T>, r: seq<T>)
    requires multiset(s) == multiset(r)
    ensures |s| == |r|
  {
    assert |s| == |multiset(s)| == |multiset(r)| == |r|;
  }

  /** The files, merged and sorted by commit id, are the log. */
  lemma {:induction false} SortedLinesAreLog(lines: seq<Entry>, log: seq<Entry>)
    requires multiset(lines) == multiset(log) && SortedByCid(lines)
    requires forall n :: 0 <= n < |log| ==> log[n].cid == n + 1
    ensures lines == log
    decreases |log|
  {
    SameLength(lines, log);
    if |log| > 0 {
      var n := |log| - 1;
      LastLine(lines, log);
      DropBoth(lines, log);
      var front, front' := lines[..n], log[..n];
      SortedLinesAreLog(front, front');
      forall m | 0 <= m < n ensures lines[m] == log[m] {
        assert lines[m] == front[m] && log[m] == front'[m];
      }
    }
  }

  /** The check of the log succeeds on every line: whatever order a sort by commit id
      leaves the lines of all files in, each shows the values of the serial replay. */
  lemma LogCheckSucceeds(run: seq<State>, n: nat, lines: seq<Entry>)
    requires IsRun(run) && n < |run|
    requires multiset(lines) == Lines(run[n].threads) && SortedByCid(lines)
    ensures forall m :: 0 <= m < |lines| ==> InRange(lines[m], |run[0].value| + 1)
    ensures forall m :: 0 <= m < |lines| ==> LineOk(lines[m], Replay(lines[..m + 1], |run[0].value| + 1))
  {
    hide *;
    RunInv(run, n);
    CommitOrderSerializable(run, n);
    LogLinesOk(run[n], lines, |run[0].value|);
  }

  lemma LogLinesOk(s: State, lines: seq<Entry>, size: nat)
    requires LogOk(s.log, size) && Lines(s.threads) == multiset(s.log)
    requires multiset(lines) == Lines(s.threads) && SortedByCid(lines)
    ensures forall m :: 0 <= m < |lines| ==> InRange(lines[m], size + 1)
    ensures forall m :: 0 <= m < |lines| ==> LineOk(lines[m], Replay(lines[..m + 1], size + 1))
  {
    hide Lines, Replay;
    SortedLinesAreLog(lines, s.log);
    forall m | 0 <= m < |lines| ensures LineOk(lines[m], Replay(lines[..m + 1], size + 1)) {
      assert LineOk(lines[m], Replay(lines[..m + 1], size));
      ReplayWiden(lines[..m + 1], size);
    }
  }

  /** An unused extra record does not disturb the replay. */
  lemma {:induction false} ReplayWiden(log: seq<Entry>, size: nat)
    requires forall n :: 0 <= n < |log| ==> InRange(log[n], size)
    ensures forall n :: 0 <= n < |log| ==> InRange(log[n], size + 1)
    ensures forall x :: 0 <= x < size ==> Replay(log, size + 1)[x] == Replay(log, size)[x]
    decreases |log|
  {
    if |log| > 0 {
      assert InRange(log[|log| - 1], size);
      ReplayWiden(log[..|log| - 1], size);
    }
  }

  // ---- conservation ----

  function Sum(records: seq<int>): int {
    if |records| == 0 then 0 else Sum(records[..|records| - 1]) + records[|records| - 1]
  }

  lemma {:induction false} SumUpdate(records: seq<int>, x: nat, v: int)
    requires x < |records|
    ensures Sum(records[x := v]) == Sum(records) - records[x] + v
    decreases |records|
  {
    var n := |records| - 1;
    if x == n {
      assert records[x := v][..n] == records[..n];
    } else {
      assert records[x := v][..n] == records[..n][x := v];
      SumUpdate(records[..n], x, v);
    }
  }

  lemma {:induction false} SumOfHundreds(size: nat)
    ensures Sum(seq(size, x => 100)) == 100 * size
  {
    if size > 0 {
      SumOfHundreds(size - 1);
      assert seq(size, x => 100)[..size - 1] == seq(size - 1, x => 100);
    }
  }

  lemma SumAdd(records: seq<int>, x: nat, d: int)
    requires x < |records|
    ensures Sum(records[x := records[x] + d]) == Sum(records) + d
  {
    SumUpdate(records, x, records[x] + d);
  }

  lemma ApplyIs(records: seq<int>, i: nat, j: nat, k: nat)
    requires i < |records| && j < |records| && k < |records|
    ensures var records' := records[j := records[j] + (records[i] + 1)];
            Apply(records, i, j, k) == records'[k := records'[k] + -records[i]]
  {
  }

  /** A transaction adds one to the sum. */
  lemma ApplySum(records: seq<int>, i: nat, j: nat, k: nat)
    requires i < |records| && j < |records| && k < |records|
    ensures Sum(Apply(records, i, j, k)) == Sum(records) + 1
  {
    hide Sum, Apply;
    var records' := records[j := records[j] + (records[i] + 1)];
    ApplyIs(records, i, j, k);
    SumAdd(records, j, records[i] + 1);
    SumAdd(records', k, -records[i]);
  }

  lemma {:induction false} ReplaySum(log: seq<Entry>, size: nat)
    requires forall n :: 0 <= n < |log| ==> InRange(log[n], size)
    ensures Sum(Replay(log, size)) == 100 * size + |log|
    decreases |log|
  {
    if |log| == 0 {
      SumOfHundreds(size);
    } else {
      hide Sum, Apply;
      var e := log[|log| - 1];
      assert InRange(e, size);
      ReplaySum(log[..|log| - 1], size);
      ApplySum(Replay(log[..|log| - 1], size), e.i, e.j, e.k);
    }
  }

  /** A thread that is between transactions. */
  predicate Idle(pc: Pc) { pc.Top? || pc.Done? || pc == Request(R) }

  /** In every state the committed records add up to 100 per record plus one per commit, and
      a record that no transaction in flight has written holds its committed value. */
  lemma CommittedState(run: seq<State>, n: nat)
    requires IsRun(run) && n < |run|
    ensures LogOk(run[n].log, |run[n].value|)
    ensures Sum(Replay(run[n].log, |run[n].value|)) == 100 * |run[0].value| + |run[n].log|
    ensures forall x :: 0 <= x < |run[n].value| && !DirtyAt(run[n].threads, x) ==>
              run[n].value[x] == Replay(run[n].log, |run[n].value|)[x]
  {
    RunInv(run, n);
    hide LockInv, GraphInv, Lines, Replay;
    ReplaySum(run[n].log, |run[n].value|);
  }

  /** Conservation: whenever no transaction is in flight, whatever was rolled back before,
      the records hold the serial state and add up to 100 per record plus one per commit. */
  lemma Conservation(run: seq<State>, n: nat)
    requires IsRun(run) && n < |run|
    requires forall t :: 0 <= t < |run[n].threads| ==> Idle(run[n].threads[t].pc)
    ensures LogOk(run[n].log, |run[n].value|)
    ensures run[n].value == Replay(run[n].log, |run[n].value|)
    ensures Sum(run[n].value) == 100 * |run[0].value| + |run[n].log|
  {
    CommittedState(run, n);
    var s := run[n];
    hide Replay, LogOk;
    assert forall x :: !DirtyAt(s.threads, x);
    assert s.value == Replay(s.log, |s.value|);
  }
}
