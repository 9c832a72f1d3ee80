/** One record's request queue together with its reader/writer lock: the invariant that
    ties queue order, grant flags and lock counters, and what each lock operation does
    to it. */
module QueueOrder {
  import opened LockManager
  import opened Engine

  /** How far a queued request has come: waiting; a writer that has claimed the lock but
      waits for readers; holding the lock; holding it with the grant flag set. */
  datatype Phase = Pending | Claimed | Taken | Granted

  predicate Holds(p: Phase) { p == Taken || p == Granted }

  /** The readers that are inside the lock. */
  function Readers(q: seq<LockInfo>, ph: seq<Phase>): set<nat>
    requires |q| == |ph|
  {
    set a | 0 <= a < |q| && q[a].kind == R && Holds(ph[a]) :: q[a].tid
  }

  lemma ReadersGrant(q: seq<LockInfo>, ph: seq<Phase>, b: nat)
    requires |q| == |ph| && b < |q| && q[b].kind == R && ph[b] == Pending
    requires forall a, b :: 0 <= a < b < |q| ==> q[a].tid != q[b].tid
    ensures |Readers(q, ph[b := Taken])| == |Readers(q, ph)| + 1
  {
    assert q[b].tid !in Readers(q, ph);
    assert Readers(q, ph[b := Taken]) == Readers(q, ph) + {q[b].tid} by {
      assert ph[b := Taken][b] == Taken;
      assert forall a :: 0 <= a < |q| && a != b ==> ph[b := Taken][a] == ph[a];
    }
  }

  /** `b` may have left the waiting state although `a` stands in front of it. */
  predicate MayPass(a: LockInfo, b: LockInfo, pb: Phase) {
    a.kind == R && (b.kind == R || (pb == Claimed && a.getLock))
  }

  ghost predicate QueueInv(q: seq<LockInfo>, ph: seq<Phase>, rw: RW) {
    && |q| == |ph|
    && (forall a, b :: 0 <= a < b < |q| ==> q[a].tid != q[b].tid)
    && (forall a :: 0 <= a < |q| ==> q[a].getLock == (ph[a] == Granted))
    && (forall a :: 0 <= a < |q| && ph[a] == Claimed ==> q[a].kind != R)
    && (forall a, b :: 0 <= a < b < |q| && ph[b] != Pending ==> MayPass(q[a], q[b], ph[b]))
    && rw.numReader == |Readers(q, ph)|
    && (rw.writing <==> exists a :: 0 <= a < |q| && q[a].kind != R && ph[a] != Pending)
  }

  lemma ReadersMember(q: seq<LockInfo>, ph: seq<Phase>, a: nat)
    requires |q| == |ph| && a < |q| && q[a].kind == R && Holds(ph[a])
    ensures q[a].tid in Readers(q, ph) && |Readers(q, ph)| > 0
  {
  }

  lemma Append(q: seq<LockInfo>, ph: seq<Phase>, rw: RW, req: LockInfo)
    requires QueueInv(q, ph, rw)
    requires !req.getLock && forall a :: 0 <= a < |q| ==> q[a].tid != req.tid
    ensures QueueInv(q + [req], ph + [Pending], rw)
  {
    var q', ph' := q + [req], ph + [Pending];
    assert forall a :: 0 <= a < |q| ==> q'[a] == q[a] && ph'[a] == ph[a];
    assert Readers(q', ph') == Readers(q, ph);
  }

  lemma GrantOrder(q: seq<LockInfo>, ph: seq<Phase>, b: nat)
    requires |q| == |ph| && b < |q| && q[b].kind == R && ph[b] == Pending && forall a :: 0 <= a < b ==> q[a].kind == R
    requires forall a, d :: 0 <= a < d < |q| && ph[d] != Pending ==> MayPass(q[a], q[d], ph[d])
    ensures var ph' := ph[b := Taken];
            forall a, d :: 0 <= a < d < |q| && ph'[d] != Pending ==> MayPass(q[a], q[d], ph'[d])
  {
  }

  lemma GrantReader(q: seq<LockInfo>, ph: seq<Phase>, rw: RW, b: nat)
    requires QueueInv(q, ph, rw) && b < |q| && q[b].kind == R && ph[b] == Pending && !rw.writing
    requires forall a :: 0 <= a < b ==> q[a].kind == R
    ensures QueueInv(q, ph[b := Taken], Admit(rw, R))
  {
    ReadersGrant(q, ph, b);
    GrantOrder(q, ph, b);
    hide Readers, MayPass;
    assert forall a :: 0 <= a < |q| && q[a].kind != R ==> ph[a] == Pending;
  }

  lemma ClaimWriter(q: seq<LockInfo>, ph: seq<Phase>, rw: RW, b: nat)
    requires QueueInv(q, ph, rw) && b < |q| && q[b].kind != R && ph[b] == Pending && !rw.writing
    requires forall a :: 0 <= a < b ==> q[a].kind == R && q[a].getLock
    ensures QueueInv(q, ph[b := Claimed], Admit(rw, q[b].kind))
  {
    var ph' := ph[b := Claimed];
    assert ph'[b] == Claimed;
    assert Readers(q, ph') == Readers(q, ph);
  }

  lemma FinishWriter(q: seq<LockInfo>, ph: seq<Phase>, rw: RW, b: nat)
    requires QueueInv(q, ph, rw) && b < |q| && ph[b] == Claimed && rw.numReader == 0
    ensures b == 0
    ensures QueueInv(q, ph[b := Taken], rw)
  {
    assert b > 0 ==> MayPass(q[0], q[b], ph[b]);
    assert q[0].tid !in Readers(q, ph);
    var ph' := ph[b := Taken];
    assert Readers(q, ph') == Readers(q, ph);
    assert ph'[b] == Taken;
  }

  lemma SetFlag(q: seq<LockInfo>, ph: seq<Phase>, rw: RW, b: nat)
    requires QueueInv(q, ph, rw) && b < |q| && ph[b] == Taken
    ensures QueueInv(q[b := q[b].(getLock := true)], ph[b := Granted], rw)
  {
    var q', ph' := q[b := q[b].(getLock := true)], ph[b := Granted];
    assert Readers(q', ph') == Readers(q, ph) by {
      forall t | t in Readers(q, ph) ensures t in Readers(q', ph') {
        var a :| 0 <= a < |q| && q[a].kind == R && Holds(ph[a]) && q[a].tid == t;
        assert q'[a].tid == t && Holds(ph'[a]) && q'[a].kind == R;
      }
    }
    if rw.writing {
      var a :| 0 <= a < |q| && q[a].kind != R && ph[a] != Pending;
      assert q'[a].kind != R && ph'[a] != Pending;
    }
  }

  function Cut<T>(q: seq<T>, b: nat): seq<T>
    requires b < |q|
  {
    q[..b] + q[b + 1..]
  }

  lemma CutReaders(q: seq<LockInfo>, ph: seq<Phase>, b: nat)
    requires |q| == |ph| && b < |q|
    requires forall a, c :: 0 <= a < c < |q| ==> q[a].tid != q[c].tid
    ensures Readers(Cut(q, b), Cut(ph, b)) == Readers(q, ph) - {q[b].tid}
  {
    var q', ph' := Cut(q, b), Cut(ph, b);
    forall t | t in Readers(q, ph) - {q[b].tid} ensures t in Readers(q', ph') {
      var a :| 0 <= a < |q| && q[a].kind == R && Holds(ph[a]) && q[a].tid == t;
      var a' := if a < b then a else a - 1;
      assert q'[a'] == q[a] && ph'[a'] == ph[a];
    }
  }

  /** Erasing an entry keeps everything but the two counters. */
  lemma CutOrder(q: seq<LockInfo>, ph: seq<Phase>, rw: RW, b: nat)
    requires QueueInv(q, ph, rw) && b < |q|
    ensures var q', ph' := Cut(q, b), Cut(ph, b);
            && (forall a, c :: 0 <= a < c < |q'| ==> q'[a].tid != q'[c].tid)
            && (forall a :: 0 <= a < |q'| ==> q'[a].getLock == (ph'[a] == Granted))
            && (forall a :: 0 <= a < |q'| && ph'[a] == Claimed ==> q'[a].kind != R)
            && (forall a, c :: 0 <= a < c < |q'| && ph'[c] != Pending ==> MayPass(q'[a], q'[c], ph'[c]))
  {
  }

  lemma CutWriter(q: seq<LockInfo>, ph: seq<Phase>, b: nat)
    requires |q| == |ph| && b < |q|
    ensures (exists a :: 0 <= a < |q| - 1 && Cut(q, b)[a].kind != R && Cut(ph, b)[a] != Pending) <==>
            (exists a :: 0 <= a < |q| && a != b && q[a].kind != R && ph[a] != Pending)
  {
    var q', ph' := Cut(q, b), Cut(ph, b);
    if exists a :: 0 <= a < |q| && a != b && q[a].kind != R && ph[a] != Pending {
      var a :| 0 <= a < |q| && a != b && q[a].kind != R && ph[a] != Pending;
      var a' := if a < b then a else a - 1;
      assert q'[a'] == q[a] && ph'[a'] == ph[a];
    }
  }

  /** Releasing a held lock: the entry leaves the queue, the matching counter drops. */
  lemma EraseHeld(q: seq<LockInfo>, ph: seq<Phase>, rw: RW, b: nat)
    requires QueueInv(q, ph, rw) && b < |q| && Holds(ph[b])
    ensures QueueInv(Cut(q, b), Cut(ph, b),
                     Dismiss(rw, q[b].kind))
  {
    CutOrder(q, ph, rw, b);
    CutReaders(q, ph, b);
    CutWriter(q, ph, b);
    if q[b].kind == R {
      ReadersMember(q, ph, b);
    } else {
      WriterAlone(q, ph, rw, b);
    }
  }

  /** A granted writer is alone: first in its queue, no reader inside, nobody else past
      the waiting state. */
  lemma WriterAlone(q: seq<LockInfo>, ph: seq<Phase>, rw: RW, b: nat)
    requires QueueInv(q, ph, rw) && b < |q| && q[b].kind != R && Holds(ph[b])
    ensures b == 0 && rw.writing && rw.numReader == 0 && Readers(q, ph) == {}
    ensures forall a :: 0 <= a < |q| && a != b ==> ph[a] == Pending
  {
    assert b > 0 ==> MayPass(q[0], q[b], ph[b]);
    assert forall a :: 0 < a < |q| && ph[a] != Pending ==> MayPass(q[0], q[a], ph[a]);
    assert Readers(q, ph) == {};
  }

  /** A request that passes the queue test never finds `writing` set: the lock does not
      spin with its mutex held. */
  lemma NoSpin(q: seq<LockInfo>, ph: seq<Phase>, rw: RW, b: nat)
    requires QueueInv(q, ph, rw) && b < |q| && ph[b] == Pending
    requires forall a :: 0 <= a < b ==> q[a].kind == R && (q[b].kind == R || q[a].getLock)
    ensures !rw.writing
  {
  }

  /** A request with no conflicting request in front of it is not blocked. */
  lemma NotBlocked(q: seq<LockInfo>, ph: seq<Phase>, rw: RW, b: nat)
    requires QueueInv(q, ph, rw) && b < |q|
    requires forall a :: 0 <= a < b ==> !Conflict(q[a], q[b])
    ensures ph[b] == Pending ==> !rw.writing
    ensures ph[b] == Claimed ==> rw.numReader == 0
  {
  }

  /** Were a writer's release two steps, then between erasing its request and clearing
      `writing` a queued request would pass the queue test and find the lock still taken,
      exactly when any other request is queued. */
  lemma SplitReleaseSpins(q: seq<LockInfo>, ph: seq<Phase>, rw: RW, b: nat)
    requires QueueInv(q, ph, rw) && b < |q| && q[b].kind != R && ph[b] == Granted
    ensures rw.writing
    ensures var q' := Erase(q, q[b]);
            (exists a :: 0 <= a < |q'| && Eligible(q', q'[a])) <==> |q| > 1
  {
    var q' := Erase(q, q[b]);
    if |q'| > 0 {
      assert Pos(q', q'[0]) == 0;
      assert Eligible(q', q'[0]);
    }
  }
}
