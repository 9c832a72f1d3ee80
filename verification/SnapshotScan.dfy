/** The double-collect scan of the wait-free snapshot, run against arbitrary interference: the
    memory is any function of time and the reads happen at any ordered times. */
module SnapshotScan {

  datatype Cell = Cell(value: int, stamp: int, snap: seq<int>)

  type Memory = nat -> seq<Cell>

  /** When collect number `c` reads slot `i`. */
  type Schedule = (nat, nat) -> nat

  ghost predicate Sized(mem: Memory, n: nat) {
    forall t :: |mem(t)| == n
  }

  ghost predicate Ordered(when: Schedule, n: nat) {
    forall c: nat, i: nat, d: nat, j: nat ::
      i < n && j < n && (c < d || (c == d && i <= j)) ==> when(c, i) <= when(d, j)
  }

  ghost function CollectAt(mem: Memory, when: Schedule, n: nat, c: nat): (copy: seq<Cell>)
    requires Sized(mem, n)
    ensures |copy| == n
  {
    seq(n, i requires 0 <= i < n => mem(when(c, i))[i])
  }

  function Values(cells: seq<Cell>): (v: seq<int>)
    ensures |v| == |cells|
  {
    seq(|cells|, i requires 0 <= i < |cells| => cells[i].value)
  }

  /** The first slot whose stamp changed, or the number of slots. */
  function FirstMoved(before: seq<Cell>, after: seq<Cell>): (i: nat)
    requires |before| == |after|
    ensures i <= |after|
    ensures forall k :: 0 <= k < i ==> before[k].stamp == after[k].stamp
    ensures i < |after| ==> before[i].stamp != after[i].stamp
  {
    if before == [] || before[0].stamp != after[0].stamp then 0 else 1 + FirstMoved(before[1..], after[1..])
  }

  /** What the scan sees change between collects c - 1 and c. */
  ghost function Mover(mem: Memory, when: Schedule, n: nat, c: nat): nat
    requires Sized(mem, n) && c > 0
  {
    FirstMoved(CollectAt(mem, when, n, c - 1), CollectAt(mem, when, n, c))
  }

  datatype Outcome = Clean(values: seq<int>, collects: nat) | Borrowed(snap: seq<int>, collects: nat)

  method Collect(mem: Memory, when: Schedule, n: nat, c: nat) returns (copy: array<Cell>)
    requires Sized(mem, n)
    ensures fresh(copy) && copy[..] == CollectAt(mem, when, n, c)
    ensures copy.Length == n && forall i :: 0 <= i < n ==> copy[i] == mem(when(c, i))[i]
  {
    copy := new Cell[n](_ => Cell(0, 0, []));
    for i := 0 to n
      invariant forall k :: 0 <= k < i ==> copy[k] == mem(when(c, k))[k]
    {
      copy[i] := mem(when(c, i))[i];
    }
  }

  /** Slot by slot, the values of a collect are those in memory when each slot was read. */
  lemma ValuesRead(mem: Memory, when: Schedule, n: nat, c: nat)
    requires Sized(mem, n)
    ensures var v := Values(CollectAt(mem, when, n, c));
            |v| == n && forall i :: 0 <= i < n ==> v[i] == mem(when(c, i))[i].value
  {
  }

  /** The inner loop: the first slot whose stamp differs. */
  method Compare(before: array<Cell>, after: array<Cell>) returns (i: nat)
    requires before.Length == after.Length
    ensures i == FirstMoved(before[..], after[..])
  {
    i := 0;
    while i < after.Length && before[i].stamp == after[i].stamp
      invariant i <= after.Length
      invariant forall k :: 0 <= k < i ==> before[k].stamp == after[k].stamp
    {
      i := i + 1;
    }
  }

  ghost predicate Distinct(s: seq<nat>) {
    forall i, j :: 0 <= i < j < |s| ==> s[i] != s[j]
  }

  lemma {:induction false} AtMost(s: seq<nat>, n: nat)
    requires Distinct(s) && forall i :: i in s ==> i < n
    ensures |s| <= n
    decreases n
  {
    if s != [] {
      var k := |s| - 1;
      var rest := seq(k, i requires 0 <= i < k => if s[i] == n - 1 then s[k] else s[i]);
      assert s[k] in s;
      assert forall i :: 0 <= i < k ==> s[i] in s;
      AtMost(rest, n - 1);
    }
  }

  lemma DistinctPush(s: seq<nat>, i: nat)
    requires Distinct(s) && i !in s
    ensures Distinct(s + [i])
  {
  }

  lemma MoverSeen(mem: Memory, when: Schedule, n: nat, c: nat)
    requires Sized(mem, n) && c > 0
    ensures Mover(mem, when, n, c) == FirstMoved(CollectAt(mem, when, n, c - 1), CollectAt(mem, when, n, c)) <= n
  {
  }

  ghost predicate IsBorrowed(mem: Memory, when: Schedule, n: nat, r: Outcome)
    requires Sized(mem, n) && r.Borrowed? && r.collects >= 2
  {
    exists c :: 1 <= c < r.collects - 1 && Mover(mem, when, n, c) == Mover(mem, when, n, r.collects - 1) < n
                && r.snap == CollectAt(mem, when, n, r.collects - 2)[Mover(mem, when, n, c)].snap
  }

  /** At most n + 2 collects whatever the interference. It stops at the first pair of collects
      with equal stamps, or at the first pair whose mover has moved before. */
  method Scan(mem: Memory, when: Schedule, n: nat) returns (r: Outcome)
    requires Sized(mem, n)
    ensures 2 <= r.collects <= n + 2
    ensures r.Clean? <==> Mover(mem, when, n, r.collects - 1) == n
    ensures forall c :: 1 <= c < r.collects - 1 ==> Mover(mem, when, n, c) < n
    ensures forall c, d :: 1 <= c < d < r.collects - 1 ==> Mover(mem, when, n, c) != Mover(mem, when, n, d)
    ensures r.Clean? ==> r.values == Values(CollectAt(mem, when, n, r.collects - 1))
    ensures r.Clean? ==>
              |r.values| == n && forall i :: 0 <= i < n ==> r.values[i] == mem(when(r.collects - 1, i))[i].value
    ensures r.Borrowed? ==> IsBorrowed(mem, when, n, r)
  {
    hide CollectAt, FirstMoved, Values, Mover;
    var moved := new bool[n](_ => false);
    var before := Collect(mem, when, n, 0);
    var c := 1;
    ghost var movers: seq<nat> := [];
    while true
      invariant fresh(moved) && fresh(before) && moved.Length == n
      invariant c >= 1 && before[..] == CollectAt(mem, when, n, c - 1)
      invariant |movers| == c - 1 && Distinct(movers) && forall i :: i in movers ==> i < n
      invariant forall i :: 0 <= i < n ==> (moved[i] <==> i in movers)
      invariant forall d :: 1 <= d < c ==> movers[d - 1] == Mover(mem, when, n, d) < n
      decreases n + 1 - c
    {
      AtMost(movers, n);
      var after := Collect(mem, when, n, c);
      var i := Compare(before, after);
      assert i == Mover(mem, when, n, c) by { MoverSeen(mem, when, n, c); }
      if i == n {
        ValuesRead(mem, when, n, c);
        return Clean(Values(after[..]), c + 1);
      }
      if moved[i] {
        ghost var k :| 0 <= k < |movers| && movers[k] == i;
        assert Mover(mem, when, n, k + 1) == i;
        return Borrowed(before[i].snap, c + 1);
      }
      DistinctPush(movers, i);
      moved[i] := true;
      movers := movers + [i];
      AtMost(movers, n);
      before := after;
      c := c + 1;
    }
  }
}
