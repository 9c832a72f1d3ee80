/** A sorted singly linked chain between two sentinels, described pointwise: no listed key
    lies strictly between a listed node and its successor. The fields of the nodes are
    sequences indexed by node. */
module SortedChain {
  import opened ListSpec

  const HEAD: int := 0
  const TAIL: int := 1
  const NULL: int := -1

  ghost predicate Placed(key: seq<int>, succ: seq<int>, listed: set<int>) {
    && |succ| == |key| >= 2 && (forall n :: n in listed ==> 0 <= n < |key|)
    && HEAD in listed && TAIL in listed && key[HEAD] == MIN_KEY && key[TAIL] == MAX_KEY
    && (forall n :: n in listed && n != HEAD && n != TAIL ==> InnerKey(key[n]))
  }

  ghost predicate Rising(key: seq<int>, succ: seq<int>, listed: set<int>)
    requires Placed(key, succ, listed)
  {
    forall n {:trigger succ[n]} :: n in listed && n != TAIL ==> succ[n] in listed && key[n] < key[succ[n]]
  }

  ghost predicate Gapless(key: seq<int>, succ: seq<int>, listed: set<int>)
    requires Placed(key, succ, listed) && Rising(key, succ, listed)
  {
    forall n, m {:trigger succ[n], m in listed} ::
      n in listed && m in listed && n != TAIL && key[n] < key[m] ==> key[succ[n]] <= key[m]
  }

  ghost predicate Injective(key: seq<int>, listed: set<int>)
    requires forall n :: n in listed ==> 0 <= n < |key|
  {
    forall n, m {:trigger n in listed, m in listed} :: n in listed && m in listed && key[n] == key[m] ==> n == m
  }

  ghost predicate Chain(key: seq<int>, succ: seq<int>, listed: set<int>) {
    && Placed(key, succ, listed) && Rising(key, succ, listed)
    && Gapless(key, succ, listed) && Injective(key, listed)
  }

  /** The keys between the sentinels. */
  function KeysOf(key: seq<int>, listed: set<int>): set<int> {
    set n | n in listed && n != HEAD && n != TAIL && 0 <= n < |key| :: key[n]
  }

  /** Unlisted nodes do not matter. */
  lemma Frame(key: seq<int>, succ: seq<int>, listed: set<int>, key': seq<int>, succ': seq<int>)
    requires Chain(key, succ, listed) && |key| <= |key'| == |succ'|
    requires forall n :: n in listed ==> key'[n] == key[n] && succ'[n] == succ[n]
    ensures Chain(key', succ', listed) && KeysOf(key', listed) == KeysOf(key, listed)
  {
  }

  /** z may be put between p and the successor of p. */
  ghost predicate Fits(key: seq<int>, succ: seq<int>, listed: set<int>, p: int, z: int) {
    && Chain(key, succ, listed) && p in listed && p != TAIL && 2 <= z < |key| && z !in listed
    && succ[p] in listed && key[p] < key[z] < key[succ[p]]
  }

  lemma Insert(key: seq<int>, succ: seq<int>, listed: set<int>, p: int, z: int)
    requires Fits(key, succ, listed, p, z)
    ensures Chain(key, succ[z := succ[p]][p := z], listed + {z})
    ensures key[z] !in KeysOf(key, listed) && KeysOf(key, listed + {z}) == KeysOf(key, listed) + {key[z]}
  {
  }

  /** c is the successor of p and no sentinel. */
  ghost predicate Adjacent(key: seq<int>, succ: seq<int>, listed: set<int>, p: int, c: int) {
    Chain(key, succ, listed) && p in listed && p != TAIL && succ[p] == c && c in listed && 2 <= c && key[p] < key[c]
  }

  /** A listed node has one listed predecessor. */
  lemma OnePredecessor(key: seq<int>, succ: seq<int>, listed: set<int>, p: int, q: int)
    requires Chain(key, succ, listed) && p in listed && q in listed && p != TAIL && q != TAIL && succ[p] == succ[q]
    ensures p == q
  {
  }

  lemma Delete(key: seq<int>, succ: seq<int>, listed: set<int>, p: int, c: int)
    requires Adjacent(key, succ, listed, p, c)
    ensures Chain(key, succ[p := succ[c]], listed - {c})
    ensures key[c] in KeysOf(key, listed) && KeysOf(key, listed - {c}) == KeysOf(key, listed) - {key[c]}
  {
  }

  /** Between two neighbours, a key is in the set iff the right one carries it. */
  lemma Found(key: seq<int>, succ: seq<int>, listed: set<int>, p: int, k: int)
    requires Chain(key, succ, listed) && p in listed && p != TAIL && InnerKey(k)
    requires succ[p] in listed && key[p] < k <= key[succ[p]]
    ensures k in KeysOf(key, listed) <==> key[succ[p]] == k
  {
  }

  // ---- reachability ----

  /** A chain of pointers from a to b. */
  ghost predicate IsPath(succ: seq<int>, p: seq<int>, a: int, b: int) {
    && |p| > 0 && p[0] == a && p[|p| - 1] == b
    && forall k :: 0 <= k < |p| - 1 ==> 0 <= p[k] < |succ| && succ[p[k]] == p[k + 1]
  }

  ghost predicate LeadsTo(succ: seq<int>, a: int, b: int) {
    exists p: seq<int> :: IsPath(succ, p, a, b)
  }

  lemma LeadsToSelf(succ: seq<int>, a: int)
    ensures LeadsTo(succ, a, a)
  {
    assert IsPath(succ, [a], a, a);
  }

  lemma LeadsToFirst(succ: seq<int>, a: int, b: int)
    requires 0 <= a < |succ| && LeadsTo(succ, succ[a], b)
    ensures LeadsTo(succ, a, b)
  {
    var p: seq<int> :| IsPath(succ, p, succ[a], b);
    var p' := [a] + p;
    assert forall k :: 0 <= k < |p| ==> p'[k + 1] == p[k];
    assert IsPath(succ, p', a, b);
  }

  lemma LeadsToLast(succ: seq<int>, a: int, b: int)
    requires 0 <= b < |succ| && LeadsTo(succ, a, b)
    ensures LeadsTo(succ, a, succ[b])
  {
    var p: seq<int> :| IsPath(succ, p, a, b);
    assert IsPath(succ, p + [succ[b]], a, succ[b]);
  }

  /** Of the listed nodes among the first m with a key below k, one with the largest key. */
  lemma {:induction false} LargestBelow(key: seq<int>, succ: seq<int>, listed: set<int>, k: int,
                                        m: nat) returns (p: int)
    requires Placed(key, succ, listed) && MIN_KEY < k && 1 <= m <= |key|
    ensures p in listed && key[p] < k
    ensures forall q :: q in listed && q < m && key[q] < k ==> key[q] <= key[p]
  {
    if m == 1 {
      p := HEAD;
    } else {
      p := LargestBelow(key, succ, listed, k, m - 1);
      if m - 1 in listed && key[p] < key[m - 1] < k { p := m - 1; }
    }
  }

  lemma Predecessor(key: seq<int>, succ: seq<int>, listed: set<int>, n: int) returns (p: int)
    requires Chain(key, succ, listed) && n in listed && n != HEAD
    ensures p in listed && p != TAIL && succ[p] == n && key[p] < key[n]
  {
    p := LargestBelow(key, succ, listed, key[n], |key|);
    assert key[succ[p]] <= key[n];
    assert succ[p] in listed;
  }

  /** Every listed node is on the chain from the head. */
  lemma {:induction false} ListedIsReachable(key: seq<int>, succ: seq<int>, listed: set<int>, n: int)
    requires Chain(key, succ, listed) && n in listed
    ensures LeadsTo(succ, HEAD, n)
    decreases key[n] - MIN_KEY
  {
    if n == HEAD {
      LeadsToSelf(succ, n);
    } else {
      var p := Predecessor(key, succ, listed, n);
      ListedIsReachable(key, succ, listed, p);
      LeadsToLast(succ, HEAD, p);
    }
  }

  /** And nothing else is. */
  lemma {:induction false} ReachableIsListed(key: seq<int>, succ: seq<int>, listed: set<int>, p: seq<int>, n: int)
    requires Chain(key, succ, listed) && succ[TAIL] == NULL && IsPath(succ, p, HEAD, n) && n != NULL
    ensures n in listed
    decreases |p|
  {
    if |p| > 1 {
      var m := p[|p| - 2];
      assert succ[m] == p[|p| - 2 + 1];
      assert IsPath(succ, p[..|p| - 1], HEAD, m);
      ReachableIsListed(key, succ, listed, p[..|p| - 1], m);
    }
  }

  /** The listed nodes are exactly the nodes reached from the head, so the set of keys can be
      read off by walking. */
  lemma ListedIffReachable(key: seq<int>, succ: seq<int>, listed: set<int>, m: int)
    requires Chain(key, succ, listed) && succ[TAIL] == NULL && m != NULL
    ensures LeadsTo(succ, HEAD, m) <==> m in listed
  {
    hide Chain;
    if m in listed {
      ListedIsReachable(key, succ, listed, m);
    }
    if p: seq<int> :| IsPath(succ, p, HEAD, m) {
      ReachableIsListed(key, succ, listed, p, m);
    }
  }

  /** The key stands on an inner node reached from the head. */
  ghost predicate OnTheWay(key: seq<int>, succ: seq<int>, k: int) {
    exists m :: 2 <= m < |key| && LeadsTo(succ, HEAD, m) && key[m] == k
  }

  lemma KeysAreOnTheWay(key: seq<int>, succ: seq<int>, listed: set<int>, k: int)
    requires Chain(key, succ, listed) && succ[TAIL] == NULL
    ensures k in KeysOf(key, listed) <==> OnTheWay(key, succ, k)
  {
    if k in KeysOf(key, listed) {
      var m :| m in listed && m != HEAD && m != TAIL && 0 <= m < |key| && key[m] == k;
      ListedIffReachable(key, succ, listed, m);
    }
    if m :| 2 <= m < |key| && LeadsTo(succ, HEAD, m) && key[m] == k {
      ListedIffReachable(key, succ, listed, m);
    }
  }

  // ---- the way ahead ----

  /** How many nodes have a key above k. */
  function Above(key: seq<int>, k: int): (r: nat)
    ensures r <= |key|
  {
    if |key| == 0 then 0 else Above(key[..|key| - 1], k) + if key[|key| - 1] > k then 1 else 0
  }

  lemma {:induction false} AboveFalls(key: seq<int>, k: int, k': int)
    requires k <= k'
    ensures Above(key, k') <= Above(key, k)
    ensures forall n :: 0 <= n < |key| && k < key[n] <= k' ==> Above(key, k') < Above(key, k)
    decreases |key|
  {
    if |key| > 0 {
      AboveFalls(key[..|key| - 1], k, k');
    }
  }

  /** Following a pointer to a larger key leaves fewer nodes ahead. */
  lemma FewerAhead(key: seq<int>, a: int, b: int)
    requires 0 <= a < |key| && 0 <= b < |key| && key[a] < key[b]
    ensures Above(key, key[b]) < Above(key, key[a])
  {
    AboveFalls(key, key[a], key[b]);
  }
}
