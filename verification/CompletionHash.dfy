/** The prefix index behind tab completion: a chained hash table whose buckets list the words
    that share a prefix, newest first. A C string is its characters before the terminator. */
module CompletionHash {
  import opened Options

  datatype Bucket = Bucket(h: nat, key: string, count: nat, data: seq<string>)

  // ---- what the index should answer ----

  /** The words that start with `key`, newest first. */
  function Matching(words: seq<string>, key: string): seq<string> {
    if words == [] then [] else
      var last := words[|words| - 1];
      (if key <= last then [last] else []) + Matching(words[..|words| - 1], key)
  }

  ghost predicate CommonPrefix(p: string, words: seq<string>) {
    forall w :: w in words ==> p <= w
  }

  lemma {:induction false} MatchingCounts(words: seq<string>, key: string, w: string)
    ensures multiset(Matching(words, key))[w] == if key <= w then multiset(words)[w] else 0
  {
    if words != [] {
      var front := words[..|words| - 1];
      assert words == front + [words[|words| - 1]];
      MatchingCounts(front, key, w);
    }
  }

  lemma MatchingIn(words: seq<string>, key: string, w: string)
    ensures w in Matching(words, key) <==> w in words && key <= w
  {
  }

  /** `at` are the positions in `words` of the listed words, the last one first; no position of a
      word that starts with `key` is missing. */
  ghost predicate FoundAt(at: seq<nat>, words: seq<string>, key: string, listed: seq<string>) {
    && |at| == |listed|
    && (forall i :: 0 <= i < |at| ==> at[i] < |words| && words[at[i]] == listed[i])
    && (forall i, j :: 0 <= i < j < |at| ==> at[j] < at[i])
    && (forall p :: 0 <= p < |words| && key <= words[p] ==> p in at)
  }

  lemma FoundFirst(at: seq<nat>, words: seq<string>, key: string, listed: seq<string>, w: string)
    requires FoundAt(at, words, key, listed)
    ensures FoundAt([|words|] + at, words + [w], key, [w] + listed)
  {
    var at', words', listed' := [|words|] + at, words + [w], [w] + listed;
    FallingPush(at, |words|);
    FoundPush(at, words, key, w);
    forall i | 0 <= i < |at'| ensures at'[i] < |words'| && words'[at'[i]] == listed'[i] {
      assert i > 0 ==> at'[i] == at[i - 1] && listed'[i] == listed[i - 1];
    }
  }

  lemma FallingPush(at: seq<nat>, n: nat)
    requires forall i, j :: 0 <= i < j < |at| ==> at[j] < at[i]
    requires forall i :: 0 <= i < |at| ==> at[i] < n
    ensures var at' := [n] + at; forall i, j :: 0 <= i < j < |at'| ==> at'[j] < at'[i]
  {
    var at' := [n] + at;
    forall i, j | 0 <= i < j < |at'| ensures at'[j] < at'[i] {
      assert at'[j] == at[j - 1];
    }
  }

  lemma FoundPush(at: seq<nat>, words: seq<string>, key: string, w: string)
    requires forall p :: 0 <= p < |words| && key <= words[p] ==> p in at
    ensures var words' := words + [w]; forall p :: 0 <= p < |words'| && key <= words'[p] ==> p in [|words|] + at
  {
    var words' := words + [w];
    forall p | 0 <= p < |words'| && key <= words'[p] ensures p in [|words|] + at {
      if p < |words| { assert words'[p] == words[p]; }
    }
  }

  lemma FoundNone(at: seq<nat>, words: seq<string>, key: string, listed: seq<string>, w: string)
    requires FoundAt(at, words, key, listed) && !(key <= w)
    ensures FoundAt(at, words + [w], key, listed)
  {
    var words' := words + [w];
    forall p | 0 <= p < |words'| && key <= words'[p] ensures p in at {
      assert words'[p] == words[p];
    }
  }

  /** The index lists the words that start with `key` from the newest to the oldest. */
  lemma {:induction false} NewestFirst(words: seq<string>, key: string) returns (at: seq<nat>)
    ensures FoundAt(at, words, key, Matching(words, key))
    decreases |words|
  {
    if words == [] {
      return [];
    }
    var w, front := words[|words| - 1], words[..|words| - 1];
    at := NewestFirst(front, key);
    assert words == front + [w];
    hide FoundAt;
    if key <= w {
      FoundFirst(at, front, key, Matching(front, key), w);
      at := [|front|] + at;
    } else {
      FoundNone(at, front, key, Matching(front, key), w);
    }
  }

  /** A longer prefix keeps all the words or has fewer. */
  lemma {:induction false} MatchingShrinks(words: seq<string>, p: string, q: string)
    requires p <= q
    ensures |Matching(words, q)| <= |Matching(words, p)|
    ensures |Matching(words, q)| == |Matching(words, p)| ==> Matching(words, q) == Matching(words, p)
  {
    if words != [] {
      MatchingShrinks(words[..|words| - 1], p, q);
    }
  }

  lemma {:induction false} MatchingSame(words: seq<string>, p: string, q: string)
    requires p <= q && CommonPrefix(q, Matching(words, p))
    ensures Matching(words, q) == Matching(words, p)
  {
    if words != [] {
      var last, front := words[|words| - 1], words[..|words| - 1];
      var rest := Matching(front, p);
      assert Matching(words, p) == (if p <= last then [last] else []) + rest;
      assert CommonPrefix(q, rest) by {
        assert forall w :: w in rest ==> w in Matching(words, p);
      }
      MatchingSame(front, p, q);
      assert p <= last ==> last in Matching(words, p);
      assert p <= last <==> q <= last;
    }
  }

  /** `s` is one of the words; its prefix of length `lm` still has all of them, and it cannot be
      lengthened without losing one. */
  lemma LongestCommon(words: seq<string>, str: string, s: string, lm: nat)
    requires s in Matching(words, str) && |str| <= lm <= |s| && str <= s[..lm]
    requires Matching(words, s[..lm]) == Matching(words, str)
    requires lm < |s| ==> |Matching(words, s[..lm + 1])| < |Matching(words, str)|
    ensures CommonPrefix(s[..lm], Matching(words, str))
    ensures forall q :: CommonPrefix(q, Matching(words, str)) ==> |q| <= lm
  {
    hide Matching;
    forall w | w in Matching(words, str) ensures s[..lm] <= w {
      MatchingIn(words, s[..lm], w);
    }
    forall q | CommonPrefix(q, Matching(words, str)) ensures |q| <= lm {
      assert q <= s;
      if lm < |q| {
        NoLonger(words, str, s, lm, q);
      }
    }
  }

  lemma NoLonger(words: seq<string>, str: string, s: string, lm: nat, q: string)
    requires |str| <= lm < |s| && str <= s[..lm] && lm < |q| && q <= s && CommonPrefix(q, Matching(words, str))
    ensures |Matching(words, s[..lm + 1])| == |Matching(words, str)|
  {
    hide Matching;
    var longer := s[..lm + 1];
    assert longer == q[..lm + 1];
    assert CommonPrefix(longer, Matching(words, str));
    assert str == s[..|str|] == longer[..|str|];
    MatchingSame(words, str, longer);
  }

  /** What the table holds under `key`: the empty key is never filed. */
  function Filed(words: seq<string>, key: string): seq<string> {
    if key == [] then [] else Matching(words, key)
  }

  /** Filing `str` under its first i - 1 prefixes. */
  function Filing(words: seq<string>, str: string, i: nat, key: string): seq<string> {
    (if 0 < |key| < i && key <= str then [str] else []) + Filed(words, key)
  }

  lemma FilingStep(words: seq<string>, str: string, i: nat, key: string)
    requires 0 < i <= |str|
    ensures Filing(words, str, i + 1, key) == (if key == str[..i] then [str] else []) + Filing(words, str, i, key)
  {
    hide Matching, Filed;
    assert key == str[..i] <==> |key| == i && key <= str;
  }

  lemma FilingEnds(words: seq<string>, str: string, key: string)
    ensures Filing(words, str, 1, key) == Filed(words, key)
    ensures Filing(words, str, |str| + 1, key) == Filed(words + [str], key)
  {
  }

  // ---- bucket chains ----

  function InChain(chain: seq<Bucket>, key: string): seq<string> {
    if chain == [] then [] else if chain[0].key == key then chain[0].data else InChain(chain[1..], key)
  }

  ghost predicate ChainOk(chain: seq<Bucket>, hash: string -> nat) {
    && (forall i :: 0 <= i < |chain| ==>
          && chain[i].h == hash(chain[i].key) && chain[i].key != []
          && chain[i].count == |chain[i].data| > 0)
    && (forall i, j :: 0 <= i < j < |chain| ==> chain[i].key != chain[j].key)
  }

  lemma {:induction false} InChainAt(chain: seq<Bucket>, hash: string -> nat, p: nat)
    requires ChainOk(chain, hash) && p < |chain|
    ensures InChain(chain, chain[p].key) == chain[p].data
  {
    if p > 0 {
      assert ChainOk(chain[1..], hash);
      InChainAt(chain[1..], hash, p - 1);
    }
  }

  lemma {:induction false} InChainAbsent(chain: seq<Bucket>, key: string)
    requires forall i :: 0 <= i < |chain| ==> chain[i].key != key
    ensures InChain(chain, key) == []
  {
    if chain != [] {
      InChainAbsent(chain[1..], key);
    }
  }

  lemma InChainPush(chain: seq<Bucket>, b: Bucket, key: string)
    ensures InChain([b] + chain, key) == if key == b.key then b.data else InChain(chain, key)
  {
  }

  lemma {:induction false} InChainUpdate(chain: seq<Bucket>, p: nat, b: Bucket, key: string)
    requires p < |chain| && b.key == chain[p].key
    requires forall i :: 0 <= i < p ==> chain[i].key != b.key
    ensures InChain(chain[p := b], key) == if key == b.key then b.data else InChain(chain, key)
  {
    if p > 0 {
      assert chain[p := b][1..] == chain[1..][p - 1 := b];
      InChainUpdate(chain[1..], p - 1, b, key);
    } else {
      assert chain[p := b][1..] == chain[1..];
    }
  }

  class HashTable {
    const hash: string -> nat
    const buckets: array<seq<Bucket>>

    ghost predicate Valid()
      reads buckets
    {
      && buckets.Length > 0
      && forall n :: 0 <= n < buckets.Length ==>
           ChainOk(buckets[n], hash) && forall b :: b in buckets[n] ==> b.h % buckets.Length == n
    }

    ghost function Data(key: string): seq<string>
      requires buckets.Length > 0
      reads buckets
    {
      InChain(buckets[hash(key) % buckets.Length], key)
    }

    /** The table indexes exactly `words`: every non-empty prefix has its words, newest first. */
    ghost predicate Represents(words: seq<string>)
      reads buckets
    {
      Valid() && forall key :: Data(key) == Filed(words, key)
    }

    constructor (size: nat, hash: string -> nat)
      requires size > 0
      ensures Represents([]) && this.hash == hash && fresh(buckets)
    {
      this.hash := hash;
      buckets := new seq<Bucket>[size](_ => []);
    }

    /** Position in the chain of the bucket for `key`, or the chain's length. */
    method Locate(chain: seq<Bucket>, h: nat, key: string) returns (p: nat)
      requires ChainOk(chain, hash) && h == hash(key)
      ensures p <= |chain| && forall i :: 0 <= i < p ==> chain[i].key != key
      ensures p < |chain| ==> chain[p].key == key && InChain(chain, key) == chain[p].data
      ensures p == |chain| ==> InChain(chain, key) == []
    {
      p := 0;
      while p < |chain| && !(chain[p].h == h && |chain[p].key| == |key| && chain[p].key == key)
        invariant p <= |chain| && forall i :: 0 <= i < p ==> chain[i].key != key
      {
        p := p + 1;
      }
      if p < |chain| {
        InChainAt(chain, hash, p);
      } else {
        InChainAbsent(chain, key);
      }
    }

    /** Puts `str` in front of the key's list; an empty key is refused. */
    method Update(key: string, str: string) returns (ok: bool)
      requires Valid()
      modifies buckets
      ensures Valid() && (ok <==> key != [])
      ensures forall k :: Data(k) == (if ok && k == key then [str] else []) + old(Data(k))
    {
      hide InChain;
      var h := hash(key);
      var n := h % buckets.Length;
      if key == [] {
        return false;
      }
      var chain := buckets[n];
      var p := Locate(chain, h, key);
      if p < |chain| {
        var b := chain[p].(count := chain[p].count + 1, data := [str] + chain[p].data);
        forall k ensures InChain(chain[p := b], k) == if k == key then b.data else InChain(chain, k) {
          InChainUpdate(chain, p, b, k);
        }
        buckets[n] := chain[p := b];
      } else {
        var chain' := [Bucket(h, key, 1, [str])] + chain;
        forall k ensures InChain(chain', k) == if k == key then [str] else InChain(chain, k) {
          InChainPush(chain, chain'[0], k);
        }
        buckets[n] := chain';
      }
      ok := true;
    }

    /** The bucket of `key`, absent if no list was started for it. */
    method Find(key: string) returns (r: Option<Bucket>)
      requires Valid()
      ensures r.None? <==> Data(key) == []
      ensures r.Some? ==> r.value.key == key && r.value.data == Data(key) && r.value.count == |Data(key)|
    {
      var h := hash(key);
      var chain := buckets[h % buckets.Length];
      var p := Locate(chain, h, key);
      if p < |chain| {
        return Some(chain[p]);
      }
      return None;
    }

    method FindAllMatches(str: string, ghost words: seq<string>) returns (r: Option<Bucket>, length: nat)
      requires Represents(words)
      ensures r.None? <==> str == [] || forall w :: w in words ==> !(str <= w)
      ensures r.None? ==> length == 0
      ensures r.Some? ==> length == |str| && r.value.key == str && r.value.data == Matching(words, str)
      ensures r.Some? ==> r.value.count == |r.value.data| > 0
    {
      r := Find(str);
      length := if r.None? then 0 else |str|;
      forall w ensures w in Matching(words, str) <==> w in words && str <= w {
        MatchingIn(words, str, w);
      }
      if str != [] && Matching(words, str) != [] {
        assert Matching(words, str)[0] in Matching(words, str);
      }
    }

    /** Files the word under each of its non-empty prefixes. */
    method AddWord(str: string, ghost words: seq<string>)
      requires Represents(words)
      modifies buckets
      ensures Represents(words + [str])
    {
      hide Filing, Filed, Data;
      forall key ensures Filing(words, str, 1, key) == Filed(words, key)
                      && Filing(words, str, |str| + 1, key) == Filed(words + [str], key) {
        FilingEnds(words, str, key);
      }
      var i := 1;
      while i <= |str|
        invariant 1 <= i <= |str| + 1 && Valid()
        invariant forall key :: Data(key) == Filing(words, str, i, key)
      {
        forall key ensures Filing(words, str, i + 1, key) ==
                           (if key == str[..i] then [str] else []) + Filing(words, str, i, key) {
          FilingStep(words, str, i, key);
        }
        var _ := Update(str[..i], str);
        i := i + 1;
      }
    }

    /** How far completion can go: the bucket and the length of the longest common prefix of
        the words that start with `str`. */
    method FindLongestMatch(str: string, ghost words: seq<string>) returns (r: Option<Bucket>, length: nat)
      requires Represents(words)
      ensures r.None? <==> str == [] || forall w :: w in words ==> !(str <= w)
      ensures r.None? ==> length == 0
      ensures r.Some? ==>
                && r.value.data == Matching(words, str) && r.value.count == |r.value.data|
                && length == |r.value.key| && str <= r.value.key && CommonPrefix(r.value.key, Matching(words, str))
                && forall q :: CommonPrefix(q, Matching(words, str)) ==> |q| <= length
    {
      var b;
      b, length := FindAllMatches(str, words);
      if b.None? {
        return None, 0;
      }
      hide Matching, CommonPrefix;
      var count := b.value.count;
      var s := b.value.data[0];
      ghost var all := Matching(words, str);
      var lm := |str|;
      assert s in all;
      MatchingIn(words, str, s);
      r := b;
      while lm < |s|
        invariant |str| <= lm <= |s| && str <= s[..lm] && r.Some? && r.value.key == s[..lm] && r.value.data == all
        invariant r.value.count == count && b.Some?
        invariant Matching(words, s[..lm]) == all
      {
        b := Find(s[..lm + 1]);
        MatchingIn(words, s[..lm + 1], s);
        MatchingShrinks(words, str, s[..lm + 1]);
        if b.None? || b.value.count < count {
          break;
        }
        r := b;
        lm := lm + 1;
      }
      length := lm;
      LongestCommon(words, str, s, lm);
    }
  }
}
