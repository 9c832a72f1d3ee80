/** The transaction engine with a finer grain: releasing a lock is three steps (erase the
    request, drop the lock, notify), a failed test puts a thread to sleep until it is notified,
    and a test that passes the queue but finds the lock taken spins with the lock's mutex. */
module FineEngine {
  import opened Options
  import opened LockManager
  import opened Engine

  /** How far the release in progress has come: not begun, request erased, lock dropped with
      the notification still to be sent. */
  datatype Stage = Whole | Erased | Dropped(wake: Wake)

  /** `base` is the engine's state with the counters as they are; `spin` says which thread
      spins with the mutex of a record's lock; `asleep` are the threads in a wait. */
  datatype Fine = Fine(base: State, stage: Stage, spin: seq<Option<nat>>, asleep: set<nat>)

  predicate FineShape(f: Fine) {
    Shape(f.base) && |f.spin| == |f.base.rw|
  }

  predicate FineInitial(f: Fine) {
    && Initial(f.base) && f.stage == Whole && f.asleep == {}
    && |f.spin| == |f.base.rw| && forall x :: 0 <= x < |f.spin| ==> f.spin[x] == None
  }

  /** The record whose lock thread t is at: asking for it, draining it, or releasing it. */
  function Site(th: Thread): nat {
    match th.pc
    case Locking(kind) => RecOf(th, kind)
    case Draining(kind) => RecOf(th, kind)
    case Release(m, n) => RecOf(th, KindAt(m))
    case _ => 0
  }

  /** Can thread t run at all? A sleeper cannot, nor can a thread that needs a mutex held by a
      spinning one. */
  predicate FineEnabled(f: Fine, t: nat)
    requires FineShape(f) && t < |f.base.threads|
  {
    var th := f.base.threads[t];
    match th.pc
    case Locking(_) => t !in f.asleep && (f.spin[Site(th)] == None || f.spin[Site(th)] == Some(t))
    case Draining(_) => t !in f.asleep && f.spin[Site(th)] == None
    case Release(m, n) => m < n && f.stage == Erased ==> f.spin[Site(th)] == None
    case _ => Enabled(f.base, t)
  }

  /** One evaluation of the wait loop of lockShared or lockExclusive. */
  function DoTest(f: Fine, t: nat, kind: LockType): (f': Fine)
    requires FineShape(f) && t < |f.base.threads|
    ensures FineShape(f')
  {
    var th := f.base.threads[t];
    var x := RecOf(th, kind);
    if !Eligible(f.base.mon.queue[x], Req(th, t, kind)) then
      f.(spin := f.spin[x := None], asleep := f.asleep + {t})
    else if f.base.rw[x].writing then
      f.(spin := f.spin[x := Some(t)])
    else
      f.(base := DoLocking(f.base, t, kind), spin := f.spin[x := None])
  }

  function DoDrain(f: Fine, t: nat, kind: LockType): (f': Fine)
    requires FineShape(f) && t < |f.base.threads|
    ensures FineShape(f')
  {
    if f.base.rw[RecOf(f.base.threads[t], kind)].numReader > 0 then f.(asleep := f.asleep + {t})
    else f.(base := Goto(f.base, t, Flagging(kind)))
  }

  /** The threads that a notification on record x wakes. At most one thread drains a lock, so
      waking one of them is waking all. */
  function Woken(f: Fine, x: nat, wake: Wake): set<nat> {
    set t | t in f.asleep && t < |f.base.threads| && Site(f.base.threads[t]) == x
            && if wake == WakeQueue then f.base.threads[t].pc.Locking?
               else wake == WakeDrain && f.base.threads[t].pc.Draining?
  }

  function DoReleaseStage(f: Fine, t: nat, m: nat, n: nat): (f': Fine)
    requires FineShape(f) && t < |f.base.threads| && m < n <= 3
    ensures FineShape(f')
  {
    var th := f.base.threads[t];
    var kind := KindAt(m);
    var x := RecOf(th, kind);
    match f.stage
    case Whole =>
      f.(base := f.base.(mon := DeleteLock(f.base.mon, Req(th, t, kind))), stage := Erased)
    case Erased =>
      var rw := Dismiss(f.base.rw[x], kind);
      f.(base := f.base.(rw := f.base.rw[x := rw]), stage := Dropped(Notice(rw, kind)))
    case Dropped(wake) =>
      f.(base := Goto(f.base, t, Release(m + 1, n)), stage := Whole, asleep := f.asleep - Woken(f, x, wake))
  }

  ghost function FineDo(f: Fine, t: nat, c: (nat, nat, nat)): (f': Fine)
    requires FineShape(f) && t < |f.base.threads| && Distinct(c, |f.base.value|)
    ensures FineShape(f')
  {
    var pc := f.base.threads[t].pc;
    match pc
    case Locking(kind) => DoTest(f, t, kind)
    case Draining(kind) => DoDrain(f, t, kind)
    case Release(m, n) => if m < n then DoReleaseStage(f, t, m, n) else f.(base := Do(f.base, t, c))
    case _ => f.(base := Do(f.base, t, c))
  }

  ghost predicate FineStep(f: Fine, f': Fine, t: nat, c: (nat, nat, nat)) {
    && FineShape(f) && t < |f.base.threads| && Distinct(c, |f.base.value|)
    && FineEnabled(f, t) && f' == FineDo(f, t, c)
  }

  ghost predicate FineNext(f: Fine, f': Fine) {
    exists t: nat, c: (nat, nat, nat) :: FineStep(f, f', t, c)
  }

  ghost predicate IsFineRun(run: seq<Fine>) {
    && |run| > 0 && FineInitial(run[0])
    && forall n :: 0 <= n < |run| - 1 ==> FineNext(run[n], run[n + 1])
  }

  // ---- the engine's view of a fine state ----

  predicate Staged(f: Fine) {
    f.stage != Whole ==>
      && f.base.mutex.Some? && f.base.mutex.value < |f.base.threads|
      && var pc := f.base.threads[f.base.mutex.value].pc; pc.Release? && pc.m < pc.n
  }

  /** As the engine sees it, a release is over as soon as the request is erased. */
  function Coarse(f: Fine): (s: State)
    requires FineShape(f) && Staged(f)
    ensures Shape(s) && |s.threads| == |f.base.threads| && |s.value| == |f.base.value|
  {
    if f.stage == Whole then f.base else
      var r := f.base.mutex.value;
      var pc := f.base.threads[r].pc;
      var x := Site(f.base.threads[r]);
      var s := Goto(f.base, r, Release(pc.m + 1, pc.n));
      if f.stage == Erased then s.(rw := s.rw[x := Dismiss(s.rw[x], KindAt(pc.m))]) else s
  }
}
