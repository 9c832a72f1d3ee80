/** When a clean scan returns what the memory held at one instant. */
module SnapshotTheorems {
  import opened SnapshotScan

  /** A clean pair of collects: no stamp changed between collects c - 1 and c. */
  ghost predicate Still(mem: Memory, when: Schedule, n: nat, c: nat) {
    Sized(mem, n) && c > 0 && Mover(mem, when, n, c) == n
  }

  /** The values of collect c were in memory together at time t. */
  ghost predicate InstantAt(mem: Memory, when: Schedule, n: nat, c: nat, t: nat) {
    Sized(mem, n) && forall i :: 0 <= i < n ==> mem(when(c, i))[i].value == mem(t)[i].value
  }

  // ---- the intended stamps ----

  /** Every write raises the stamp of its slot. */
  ghost predicate Raises(mem: Memory, n: nat) {
    Sized(mem, n) && forall t: nat, i :: 0 <= i < n ==>
      mem(t + 1)[i] == mem(t)[i] || mem(t + 1)[i].stamp > mem(t)[i].stamp
  }

  lemma {:induction false} StampsRise(mem: Memory, n: nat, i: nat, t: nat, u: nat)
    requires Raises(mem, n) && i < n && t <= u
    ensures mem(t)[i].stamp <= mem(u)[i].stamp
    ensures mem(t)[i].stamp == mem(u)[i].stamp ==> mem(t)[i] == mem(u)[i]
    decreases u - t
  {
    if t < u {
      StampsRise(mem, n, i, t, u - 1);
      assert mem((u - 1) + 1)[i] == mem(u)[i];
    }
  }

  /** With rising stamps a clean scan returns the memory at any instant between its last two
      collects. */
  lemma CleanScanIsInstant(mem: Memory, when: Schedule, n: nat, c: nat, t: nat)
    requires Raises(mem, n) && Ordered(when, n) && Still(mem, when, n, c)
    requires forall i :: 0 <= i < n ==> when(c - 1, i) <= t <= when(c, i)
    ensures InstantAt(mem, when, n, c, t)
  {
    forall i | 0 <= i < n ensures mem(when(c, i))[i] == mem(t)[i] {
      assert CollectAt(mem, when, n, c - 1)[i].stamp == CollectAt(mem, when, n, c)[i].stamp;
      StampsRise(mem, n, i, when(c - 1, i), t);
      StampsRise(mem, n, i, t, when(c, i));
    }
  }

  // ---- the stamps of the class ----

  datatype Write = Write(slot: nat, value: int, snap: seq<int>)

  /** The copy constructor keeps everything but the stamp. */
  function Copy(cell: Cell): Cell {
    cell.(stamp := 0)
  }

  /** The write at the end of an update. */
  function Apply(cells: seq<Cell>, w: Write): seq<Cell> {
    if w.slot < |cells| then
      var oldValue := Copy(cells[w.slot]);
      cells[w.slot := Cell(w.value, oldValue.stamp + 1, w.snap)]
    else cells
  }

  /** Memory after the first t updates; nothing happens after the last one. */
  function After(n: nat, ws: seq<Write>, t: nat): (cells: seq<Cell>)
    ensures |cells| == n
  {
    if t == 0 then seq(n, _ => Cell(0, 0, []))
    else if t <= |ws| then Apply(After(n, ws, t - 1), ws[t - 1])
    else After(n, ws, t - 1)
  }

  function History(n: nat, ws: seq<Write>): (mem: Memory)
    ensures Sized(mem, n)
  {
    (t: nat) => After(n, ws, t)
  }

  function Slots(ws: seq<Write>): (w: seq<nat>)
    ensures |w| == |ws|
  {
    seq(|ws|, p requires 0 <= p < |ws| => ws[p].slot)
  }

  ghost predicate Touched(w: seq<nat>, i: nat, t: nat, u: nat) {
    exists p :: t <= p < u && p < |w| && w[p] == i
  }

  /** An earlier slot i is updated, then a later slot j, and in between no slot from j on is
      updated for the first time. */
  ghost predicate TearAt(w: seq<nat>, n: nat, x: nat, y: nat) {
    && x < y < |w| && w[x] < w[y] < n
    && forall p :: x < p <= y && w[y] <= w[p] < n ==> w[p] in w[..x]
  }

  ghost predicate Tears(w: seq<nat>, n: nat) {
    exists x, y :: TearAt(w, n, x, y)
  }

  lemma {:induction false} StampTells(n: nat, ws: seq<Write>, t: nat, i: nat)
    requires i < n
    ensures After(n, ws, t)[i].stamp == if Touched(Slots(ws), i, 0, t) then 1 else 0
  {
    if t > 0 {
      StampTells(n, ws, t - 1, i);
      if t <= |ws| && ws[t - 1].slot == i {
        assert Slots(ws)[t - 1] == i;
      }
    }
  }

  lemma {:induction false} Untouched(n: nat, ws: seq<Write>, i: nat, t: nat, u: nat)
    requires i < n && t <= u && !Touched(Slots(ws), i, t, u)
    ensures After(n, ws, t)[i] == After(n, ws, u)[i]
    decreases u - t
  {
    if t < u {
      Untouched(n, ws, i, t, u - 1);
      assert u <= |ws| ==> Slots(ws)[u - 1] != i;
    }
  }

  /** One past the last update of slot i before time t, or 0. */
  function LastWrite(w: seq<nat>, i: nat, t: nat): (lo: nat)
    ensures lo <= t && lo <= |w|
    ensures lo > 0 ==> w[lo - 1] == i
    ensures forall p :: lo <= p < t && p < |w| ==> w[p] != i
  {
    if t == 0 then 0 else if t <= |w| && w[t - 1] == i then t else LastWrite(w, i, t - 1)
  }

  /** A slot holds what its last update wrote, or its initial contents. */
  lemma {:induction false} LastUpdateStays(n: nat, ws: seq<Write>, t: nat, i: nat)
    requires i < n
    ensures var lo, cell := LastWrite(Slots(ws), i, t), After(n, ws, t)[i];
            if lo == 0 then cell.value == 0 && cell.snap == []
            else cell.value == ws[lo - 1].value && cell.snap == ws[lo - 1].snap
  {
    if t > 0 {
      LastUpdateStays(n, ws, t - 1, i);
      assert t <= |ws| ==> Slots(ws)[t - 1] == ws[t - 1].slot;
    }
  }

  ghost predicate Between(w: seq<nat>, i: nat, t: nat, u: nat) {
    !Touched(w, i, t, u) && !Touched(w, i, u, t)
  }

  /** If slot i changed after it was read and slot j before it was read, later, then the
      updates tear. */
  lemma ChangedTears(n: nat, ws: seq<Write>, when: Schedule, c: nat, i: nat, j: nat, x: nat, y: nat)
    requires Ordered(when, n) && Still(History(n, ws), when, n, c)
    requires i < j < n && when(c, i) <= x < y < when(c, j) && y < |ws|
    requires Slots(ws)[x] == i && Slots(ws)[y] == j
    ensures TearAt(Slots(ws), n, x, y)
  {
    var w, mem := Slots(ws), History(n, ws);
    forall p | x < p <= y && j <= w[p] < n ensures w[p] in w[..x] {
      var m := w[p];
      StampTells(n, ws, when(c, m), m);
      StampTells(n, ws, when(c - 1, m), m);
      assert p < when(c, m);
      assert CollectAt(mem, when, n, c - 1)[m].stamp == CollectAt(mem, when, n, c)[m].stamp;
      assert Touched(w, m, 0, when(c - 1, m));
      var q :| 0 <= q < when(c - 1, m) && q < |w| && w[q] == m;
      assert q < x && w[..x][q] == m;
    }
  }

  /** Without a tear an earlier slot is not updated between its reading and the last update of a
      later slot that was read. */
  lemma NotLater(n: nat, ws: seq<Write>, when: Schedule, c: nat, i: nat, j: nat)
    requires Ordered(when, n) && Still(History(n, ws), when, n, c) && i < j < n && !Tears(Slots(ws), n)
    ensures !Touched(Slots(ws), i, when(c, i), LastWrite(Slots(ws), j, when(c, j)))
  {
    var w, lo := Slots(ws), LastWrite(Slots(ws), j, when(c, j));
    if x: nat :| when(c, i) <= x < lo && x < |w| && w[x] == i {
      ChangedTears(n, ws, when, c, i, j, x, lo - 1);
    }
  }

  /** A time at which the first k slots held what collect c read. */
  lemma {:induction false} Meet(n: nat, ws: seq<Write>, when: Schedule, c: nat, k: nat) returns (t: nat)
    requires Ordered(when, n) && Still(History(n, ws), when, n, c) && 0 < k <= n
    requires !Tears(Slots(ws), n)
    ensures when(c, 0) <= t <= when(c, k - 1)
    ensures forall i :: 0 <= i < k ==> Between(Slots(ws), i, t, when(c, i))
    decreases k
  {
    hide Still, Tears, Slots;
    if k == 1 {
      return when(c, 0);
    }
    var w := Slots(ws);
    var t0 := Meet(n, ws, when, c, k - 1);
    var j := k - 1;
    assert when(c, j - 1) <= when(c, j);
    var lo := LastWrite(w, j, when(c, j));
    if lo <= t0 {
      return t0;
    }
    t := lo;
    forall i | 0 <= i < j ensures Between(w, i, lo, when(c, i)) {
      NotLater(n, ws, when, c, i, j);
    }
  }

  /** Without a tear every clean scan returns the memory at an instant of its last collect. */
  lemma TearFreeIsInstant(n: nat, ws: seq<Write>, when: Schedule, c: nat) returns (t: nat)
    requires Ordered(when, n) && Still(History(n, ws), when, n, c)
    requires !Tears(Slots(ws), n)
    ensures InstantAt(History(n, ws), when, n, c, t)
    ensures n > 0 ==> when(c, 0) <= t <= when(c, n - 1)
  {
    if n == 0 {
      return 0;
    }
    t := Meet(n, ws, when, c, n);
    forall i | 0 <= i < n ensures After(n, ws, when(c, i))[i] == After(n, ws, t)[i] {
      if t <= when(c, i) {
        Untouched(n, ws, i, t, when(c, i));
      } else {
        Untouched(n, ws, i, when(c, i), t);
      }
    }
  }

  /** The updates of `w` in order, each writing its own number. */
  function Numbered(w: seq<nat>): (ws: seq<Write>)
    ensures |ws| == |w| && Slots(ws) == w
  {
    seq(|w|, p requires 0 <= p < |w| => Write(w[p], p + 1, []))
  }

  lemma {:induction false} NumberedValue(n: nat, w: seq<nat>, t: nat, i: nat)
    requires i < n
    ensures After(n, Numbered(w), t)[i].value == LastWrite(w, i, t)
  {
    if t > 0 {
      NumberedValue(n, w, t - 1, i);
      assert t <= |w| ==> Numbered(w)[t - 1].slot == w[t - 1];
    }
  }

  /** Slots below j are read before update x, the others after update y. */
  function TornSchedule(j: nat, x: nat, y: nat): Schedule {
    (c: nat, m: nat) => if c == 0 || (c == 1 && m < j) then x else y + 1
  }

  lemma TearKeepsStamp(n: nat, ws: seq<Write>, x: nat, y: nat, m: nat)
    requires TearAt(Slots(ws), n, x, y) && Slots(ws)[y] <= m < n
    ensures After(n, ws, x)[m].stamp == After(n, ws, y + 1)[m].stamp
  {
    var w := Slots(ws);
    StampTells(n, ws, x, m);
    StampTells(n, ws, y + 1, m);
    if p: nat :| p < y + 1 && p < |w| && w[p] == m {
      if p > x {
        var q :| 0 <= q < x && w[..x][q] == m;
        assert w[q] == m;
      }
      assert Touched(w, m, 0, x);
    }
  }

  lemma TearIsNoInstant(w: seq<nat>, n: nat, x: nat, y: nat, t: nat)
    requires x < y < |w| && w[x] < w[y] < n
    ensures !InstantAt(History(n, Numbered(w)), TornSchedule(w[y], x, y), n, 1, t)
  {
    hide Numbered, After;
    var i, j := w[x], w[y];
    var mem, when := History(n, Numbered(w)), TornSchedule(j, x, y);
    var read := CollectAt(mem, when, n, 1);
    NumberedValue(n, w, x, i);
    NumberedValue(n, w, y + 1, j);
    NumberedValue(n, w, t, i);
    NumberedValue(n, w, t, j);
    assert Values(read)[i] == LastWrite(w, i, x) <= x;
    assert Values(read)[j] == LastWrite(w, j, y + 1) == y + 1;
    assert Values(mem(t))[i] == LastWrite(w, i, t) && Values(mem(t))[j] == LastWrite(w, j, t);
    assert t > x ==> LastWrite(w, i, t) > x;
  }

  /** At a tear some scan is clean at once and returns values never in memory together. */
  lemma TearShows(w: seq<nat>, n: nat, x: nat, y: nat)
    requires TearAt(w, n, x, y)
    ensures var mem, when := History(n, Numbered(w)), TornSchedule(w[y], x, y);
            Ordered(when, n) && Still(mem, when, n, 1) && forall t :: !InstantAt(mem, when, n, 1, t)
  {
    var j := w[y];
    var mem, when := History(n, Numbered(w)), TornSchedule(j, x, y);
    TearIsStill(w, n, x, y);
    forall t: nat ensures !InstantAt(mem, when, n, 1, t) {
      TearIsNoInstant(w, n, x, y, t);
    }
  }

  lemma TearIsStill(w: seq<nat>, n: nat, x: nat, y: nat)
    requires TearAt(w, n, x, y)
    ensures Still(History(n, Numbered(w)), TornSchedule(w[y], x, y), n, 1)
  {
    var j := w[y];
    var mem, when := History(n, Numbered(w)), TornSchedule(j, x, y);
    forall m | j <= m < n ensures mem(x)[m].stamp == mem(y + 1)[m].stamp {
      TearKeepsStamp(n, Numbered(w), x, y, m);
    }
    assert forall m :: 0 <= m < n ==> mem(when(0, m))[m].stamp == mem(when(1, m))[m].stamp;
  }

  /** A slot is seen to move at most once: its stamp goes from 0 to 1 and stays. */
  lemma MovesOnce(n: nat, ws: seq<Write>, when: Schedule, c: nat, d: nat)
    requires Ordered(when, n) && 0 < c < d
    ensures var mem := History(n, ws);
            Mover(mem, when, n, c) < n ==> Mover(mem, when, n, c) != Mover(mem, when, n, d)
  {
    var mem, w := History(n, ws), Slots(ws);
    var i := Mover(mem, when, n, c);
    if i < n {
      StampTells(n, ws, when(c - 1, i), i);
      StampTells(n, ws, when(c, i), i);
      StampTells(n, ws, when(d - 1, i), i);
      StampTells(n, ws, when(d, i), i);
      assert CollectAt(mem, when, n, c - 1)[i].stamp != CollectAt(mem, when, n, c)[i].stamp;
      assert Touched(w, i, 0, when(c, i));
      assert Touched(w, i, 0, when(d - 1, i)) && Touched(w, i, 0, when(d, i));
    }
  }

  /** With the stamps of the class no scan ever borrows a snapshot: every scan is clean. */
  method ScanOfClass(n: nat, ws: seq<Write>, when: Schedule) returns (r: Outcome)
    requires Ordered(when, n)
    ensures r.Clean? && 2 <= r.collects <= n + 2
    ensures Still(History(n, ws), when, n, r.collects - 1)
    ensures |r.values| == n
    ensures forall i :: 0 <= i < n ==> r.values[i] == History(n, ws)(when(r.collects - 1, i))[i].value
  {
    hide Mover, CollectAt, Values, Ordered;
    r := Scan(History(n, ws), when, n);
    if r.Borrowed? {
      assert IsBorrowed(History(n, ws), when, n, r);
      ghost var c :| 1 <= c < r.collects - 1
                     && Mover(History(n, ws), when, n, c) == Mover(History(n, ws), when, n, r.collects - 1) < n;
      MovesOnce(n, ws, when, c, r.collects - 1);
      assert false;
    }
  }

  /** Every clean scan, over updates in this order with any values, is an instant of memory. */
  ghost predicate ScansAreInstants(w: seq<nat>, n: nat) {
    forall ws: seq<Write>, when: Schedule, c: nat ::
      Slots(ws) == w && Ordered(when, n) && Still(History(n, ws), when, n, c) ==>
      exists t :: InstantAt(History(n, ws), when, n, c, t)
  }

  lemma ScansAreInstantsIff(w: seq<nat>, n: nat)
    ensures ScansAreInstants(w, n) <==> !Tears(w, n)
  {
    if Tears(w, n) {
      var x, y :| TearAt(w, n, x, y);
      TearShows(w, n, x, y);
      assert Slots(Numbered(w)) == w;
    } else {
      forall ws: seq<Write>, when: Schedule, c: nat
        | Slots(ws) == w && Ordered(when, n) && Still(History(n, ws), when, n, c)
        ensures exists t :: InstantAt(History(n, ws), when, n, c, t)
      {
        var t := TearFreeIsInstant(n, ws, when, c);
      }
    }
  }

  /** Three updates by two threads are enough to go wrong, and nothing less is. */
  lemma SmallestTear(w: seq<nat>, n: nat)
    ensures !ScansAreInstants([1, 0, 1], 2)
    ensures |w| < 3 || n < 2 ==> ScansAreInstants(w, n)
  {
    hide ScansAreInstants;
    var v: seq<nat> := [1, 0, 1];
    assert v[..1] == [1];
    assert TearAt(v, 2, 1, 2);
    ScansAreInstantsIff(v, 2);
    ScansAreInstantsIff(w, n);
    forall x: nat, y: nat ensures TearAt(w, n, x, y) ==> |w| >= 3 && n >= 2 {
      assert TearAt(w, n, x, y) ==> w[y] in w[..x];
    }
  }
}
