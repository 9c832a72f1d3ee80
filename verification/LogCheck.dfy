/** The checking script: replay the merged log in place and compare every line. */
module LogCheck {
  import opened Engine
  import opened SerialData
  import opened EngineTheorems

  method ReplayLine(records: array<int>, e: Entry)
    requires InRange(e, records.Length)
    modifies records
    ensures records[..] == Apply(old(records[..]), e.i, e.j, e.k)
    ensures forall x :: 0 <= x < records.Length ==>
              records[x] == old(records[x]) + (if x == e.j then old(records[e.i]) + 1 else 0)
                            - (if x == e.k then old(records[e.i]) else 0)
  {
    var read := records[e.i];
    records[e.j] := records[e.j] + read + 1;
    records[e.k] := records[e.k] - read;
  }

  lemma ReplayNone(records: seq<int>)
    requires forall x :: 0 <= x < |records| ==> records[x] == 100
    ensures Replay([], |records|) == records
  {
  }

  lemma ReplayNext(lines: seq<Entry>, n: nat, size: nat)
    requires n < |lines| && forall m :: 0 <= m < |lines| ==> InRange(lines[m], size)
    ensures Replay(lines[..n + 1], size) == Apply(Replay(lines[..n], size), lines[n].i, lines[n].j, lines[n].k)
  {
    assert lines[..n + 1][..n] == lines[..n];
  }

  /** Verdict m says whether line m shows the values of the serial replay of lines 0..m. */
  method Check(lines: seq<Entry>, numRecords: nat) returns (verdicts: seq<bool>)
    requires forall n :: 0 <= n < |lines| ==> InRange(lines[n], numRecords + 1)
    ensures |verdicts| == |lines|
    ensures forall n :: 0 <= n < |lines| ==> (verdicts[n] <==> LineOk(lines[n], Replay(lines[..n + 1], numRecords + 1)))
  {
    hide Replay, Apply;
    var records := new int[numRecords + 1](_ => 100);
    ReplayNone(records[..]);
    assert lines[..0] == [];
    verdicts := [];
    var n := 0;
    while n < |lines|
      invariant n <= |lines| && |verdicts| == n
      invariant records[..] == Replay(lines[..n], numRecords + 1)
      invariant forall m :: 0 <= m < n ==> (verdicts[m] <==> LineOk(lines[m], Replay(lines[..m + 1], numRecords + 1)))
    {
      var e := lines[n];
      assert InRange(e, numRecords + 1);
      ReplayNext(lines, n, numRecords + 1);
      ReplayLine(records, e);
      verdicts := verdicts + [e.vi == records[e.i] && e.vj == records[e.j] && e.vk == records[e.k]];
      n := n + 1;
    }
  }

  /** Run on the files of any state of any run, the script reports success on every line. */
  method CheckRun(lines: seq<Entry>, ghost run: seq<State>, ghost n: nat, numRecords: nat) returns (verdicts: seq<bool>)
    requires IsRun(run) && n < |run| && numRecords == |run[0].value|
    requires multiset(lines) == Lines(run[n].threads) && SortedByCid(lines)
    ensures |verdicts| == |lines| && forall m :: 0 <= m < |lines| ==> verdicts[m]
  {
    LogCheckSucceeds(run, n, lines);
    hide LineOk, Replay, IsRun;
    verdicts := Check(lines, numRecords);
  }
}
