/** The second solution of the matcher: one Knuth-Morris-Pratt search per word. */
module Kmp {
  import opened Trie
  import opened Occurrence

  /** The first k letters of s are also its last k, and k is not all of s. */
  predicate Border(s: Word, k: int) {
    0 <= k < |s| && s[..k] == s[|s| - k..]
  }

  ghost predicate LongestBorder(s: Word, k: int) {
    Border(s, k) && forall j :: Border(s, j) ==> j <= k
  }

  /** pi holds the longest proper border of every prefix of p up to length n. */
  ghost predicate Failure(p: Word, pi: seq<int>, n: nat) {
    n <= |p| == |pi| && forall i :: 0 <= i < n ==> LongestBorder(p[..i + 1], pi[i])
  }

  /** w[..k] ends the text s. */
  predicate Suffix(s: Word, w: Word, k: int) {
    0 <= k <= |w| && k <= |s| && s[|s| - k..] == w[..k]
  }

  lemma SuffixGrow(s: Word, c: Letter, w: Word, k: int)
    ensures 0 < k ==> (Suffix(s + [c], w, k) <==> Suffix(s, w, k - 1) && k <= |w| && w[k - 1] == c)
  {
    if 0 < k <= |w| && k <= |s| + 1 {
      assert (s + [c])[|s| + 1 - k..] == s[|s| - (k - 1)..] + [c];
      assert w[..k] == w[..k - 1] + [w[k - 1]];
      assert Suffix(s + [c], w, k) ==> (s[|s| - (k - 1)..] + [c])[k - 1] == w[..k][k - 1];
      assert Suffix(s + [c], w, k) ==> (s[|s| - (k - 1)..] + [c])[..k - 1] == w[..k][..k - 1];
    }
  }

  /** Of two prefixes of w that end s, the shorter is a border of the longer. */
  lemma SuffixNested(s: Word, w: Word, j: int, k: int)
    requires Suffix(s, w, j) && 0 <= k < j
    ensures Suffix(s, w, k) <==> Border(w[..j], k)
  {
  }

  /** j is the longest prefix of w, shorter than `bound`, that ends s. */
  ghost predicate Longest(s: Word, w: Word, j: int, bound: int) {
    0 <= j < bound && Suffix(s, w, j) && forall k :: j < k < bound ==> !Suffix(s, w, k)
  }

  /** While the fallback loop runs: nothing longer than j can be extended by c. */
  ghost predicate Candidate(s: Word, w: Word, j: int, c: Letter, bound: int) {
    0 <= j < bound && Suffix(s, w, j) && forall k :: j < k < bound && k < |w| && w[k] == c ==> !Suffix(s, w, k)
  }

  lemma FallBack(s: Word, w: Word, pi: seq<int>, n: nat, j: int, c: Letter, bound: int)
    requires Failure(w, pi, n) && 0 < j <= n && bound <= |w| && Candidate(s, w, j, c, bound) && w[j] != c
    ensures 0 <= pi[j - 1] < j && Candidate(s, w, pi[j - 1], c, bound)
  {
    var j' := pi[j - 1];
    assert LongestBorder(w[..j - 1 + 1], j');
    SuffixNested(s, w, j, j');
    forall k | j' < k < bound && w[k] == c ensures !Suffix(s, w, k) {
      if k < j {
        SuffixNested(s, w, j, k);
        assert Border(w[..j], k) ==> k <= j';
      }
    }
  }

  /** After the fallback: the longest prefix that ends the text extended by c. */
  lemma Settle(s: Word, w: Word, j: int, c: Letter, bound: int)
    requires bound <= |w| && Candidate(s, w, j, c, bound) && (j == 0 || w[j] == c)
    ensures Longest(s + [c], w, if w[j] == c then j + 1 else j, bound + 1)
  {
    var j' := if w[j] == c then j + 1 else j;
    SuffixGrow(s, c, w, j');
    forall k | j' < k <= bound ensures !Suffix(s + [c], w, k) {
      SuffixGrow(s, c, w, k);
    }
  }

  /** A proper prefix of p that ends p[..i] is a border of it. */
  lemma SuffixIsBorder(p: Word, i: nat, k: int)
    requires 0 < i <= |p| && k < i
    ensures Suffix(p[..i], p, k) <==> Border(p[..i], k)
  {
  }

  /** The failure function: the longest proper border of every prefix. */
  method GetPi(p: Word) returns (pi: seq<int>)
    ensures Failure(p, pi, |p|)
  {
    var m := |p|;
    var j := 0;
    pi := seq(m, _ => 0);
    if m > 0 {
      assert Border(p[..1], 0);
    }
    var i := 1;
    while i < m
      invariant 1 <= i && (m > 0 ==> i <= m) && |pi| == m && 0 <= j
      invariant m > 0 ==> Failure(p, pi, i) && j == pi[i - 1]
      invariant forall x :: i <= x < m ==> pi[x] == 0
    {
      BorderIsLongest(p, pi, i, p[i]);
      assert j < i;
      while j > 0 && p[i] != p[j]
        invariant 0 <= j < i && Failure(p, pi, i) && Candidate(p[..i], p, j, p[i], i)
        decreases j
      {
        FallBack(p[..i], p, pi, i, j, p[i], i);
        j := pi[j - 1];
      }
      Settle(p[..i], p, j, p[i], i);
      assert p[..i + 1] == p[..i] + [p[i]];
      if p[i] == p[j] {
        j := j + 1;
        pi := pi[i := j];
      }
      BorderFound(p, pi, i);
      i := i + 1;
    }
  }

  lemma BorderIsLongest(p: Word, pi: seq<int>, i: nat, c: Letter)
    requires Failure(p, pi, i) && 0 < i < |p|
    ensures Candidate(p[..i], p, pi[i - 1], c, i)
  {
    assert LongestBorder(p[..i - 1 + 1], pi[i - 1]);
    SuffixIsBorder(p, i, pi[i - 1]);
    forall k | pi[i - 1] < k < i ensures !Suffix(p[..i], p, k) {
      SuffixIsBorder(p, i, k);
    }
  }

  lemma BorderFound(p: Word, pi: seq<int>, i: nat)
    requires 0 < i < |p| == |pi| && Failure(p, pi, i)
    requires Longest(p[..i + 1], p, pi[i], i + 1)
    ensures Failure(p, pi, i + 1)
  {
    var s := p[..i + 1];
    SuffixIsBorder(p, i + 1, pi[i]);
    forall k | Border(s, k) ensures k <= pi[i] {
      SuffixIsBorder(p, i + 1, k);
    }
  }

  /** A match that ends at e is the whole word ending the text read so far. */
  lemma MatchEnds(w: Word, text: Word, e: nat)
    requires e <= |text|
    ensures MatchAt(w, text, e - |w|) <==> Suffix(text[..e], w, |w|)
  {
  }

  ghost predicate NoMatchUpTo(w: Word, text: Word, e: nat) {
    forall j :: MatchAt(w, text, j) ==> j + |w| > e
  }

  lemma NoMatchNext(w: Word, text: Word, e: nat)
    requires e < |text| && NoMatchUpTo(w, text, e) && !Suffix(text[..e + 1], w, |w|)
    ensures NoMatchUpTo(w, text, e + 1)
  {
  }

  /** What the string's terminator contributes: reading just past the end gives no letter. */
  function LetterAt(w: Word, j: nat): int
    requires j <= |w|
  {
    if j < |w| then w[j] else -1
  }

  /** The position of the first match of a non-empty word, -1 if there is none; the empty
      word is never found. */
  method Search(word: Word, input: Word) returns (pos: int)
    ensures pos == if word == [] then -1 else First(word, input)
  {
    var pi := GetPi(word);
    var n, m, j := |input|, |word|, 0;
    var i := 0;
    while i < n
      invariant 0 <= i <= n && 0 <= j && (m == 0 ==> j == 0)
      invariant m > 0 ==> Longest(input[..i], word, j, m) && NoMatchUpTo(word, input, i)
    {
      ghost var s := input[..i];
      assert input[..i + 1] == s + [input[i]];
      while j > 0 && input[i] != LetterAt(word, j)
        invariant 0 <= j && (m == 0 ==> j == 0)
        invariant m > 0 ==> Candidate(s, word, j, input[i], m)
        decreases j
      {
        FallBack(s, word, pi, m, j, input[i], m);
        j := pi[j - 1];
      }
      if m > 0 {
        Settle(s, word, j, input[i], m);
      }
      if input[i] == LetterAt(word, j) {
        if j == m - 1 {
          FoundFirst(word, input, i);
          return i - m + 1;
        } else {
          j := j + 1;
        }
      }
      if m > 0 {
        NoMatchNext(word, input, i);
      }
      i := i + 1;
    }
    if m > 0 {
      assert forall k :: !MatchAt(word, input, k);
    }
    pos := -1;
  }

  lemma FoundFirst(w: Word, text: Word, i: nat)
    requires 0 < |w| && i < |text| && NoMatchUpTo(w, text, i) && Suffix(text[..i + 1], w, |w|)
    ensures First(w, text) == i - |w| + 1
  {
    MatchEnds(w, text, i + 1);
  }

  /** One search per word of the list; the results are kept per word. */
  method SearchAll(wordList: set<Word>, input: Word) returns (result: map<Word, int>)
    ensures result.Keys == wordList
    ensures forall w :: w in wordList ==> result[w] == if w == [] then -1 else First(w, input)
  {
    result := map[];
    var rest := wordList;
    while rest != {}
      invariant rest <= wordList && result.Keys == wordList - rest
      invariant forall w :: w in result ==> result[w] == if w == [] then -1 else First(w, input)
    {
      var w :| w in rest;
      var pos := Search(w, input);
      result := result[w := pos];
      rest := rest - {w};
    }
  }
}
