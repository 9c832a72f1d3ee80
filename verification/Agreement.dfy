/** The trie search and the per-word searches give the same ordered answer. */
module Agreement {
  import opened Trie
  import opened Occurrence
  import opened Matcher
  import Kmp

  /** The order of strings: first difference decides, a proper prefix comes first. */
  predicate Lex(u: Word, v: Word) {
    v != [] && (u == [] || u[0] < v[0] || (u[0] == v[0] && Lex(u[1..], v[1..])))
  }

  type Hit = (Word, int)

  /** The comparison handed to the sort: position first, then the word. */
  predicate Less(a: Hit, b: Hit) {
    if a.1 != b.1 then a.1 < b.1 else Lex(a.0, b.0)
  }

  /** What a sort with this comparison may return for the entries of the map. */
  ghost predicate SortedEntries(v: seq<Hit>, result: map<Word, int>) {
    && (forall a :: 0 <= a < |v| ==> v[a].0 in result && result[v[a].0] == v[a].1)
    && (forall w :: w in result ==> exists a :: 0 <= a < |v| && v[a].0 == w)
    && (forall a, b :: 0 <= a < b < |v| ==> v[a].0 != v[b].0)
    && (forall a, b :: 0 <= a < b < |v| ==> !Less(v[b], v[a]))
  }

  /** The words printed: entries with a position, in order. */
  function Printed(v: seq<Hit>): seq<Word> {
    if |v| == 0 then [] else
      Printed(v[..|v| - 1]) + if v[|v| - 1].1 != -1 then [v[|v| - 1].0] else []
  }

  lemma {:induction false} LexOfPrefix(u: Word, v: Word)
    requires u <= v && u != v
    ensures Lex(u, v)
    decreases |u|
  {
    if u != [] {
      LexOfPrefix(u[1..], v[1..]);
    }
  }

  /** Two different words found first at the same place: the shorter is a prefix of the
      longer, so alphabetical order is order by length. */
  lemma SamePlace(u: Word, v: Word, text: Word)
    requires First(u, text) == First(v, text) != -1 && u != v && !Lex(v, u)
    ensures |u| < |v|
  {
    var i := First(u, text);
    if |v| <= |u| {
      assert text[i..i + |u|][..|v|] == text[i..i + |v|];
      assert v <= u;
      LexOfPrefix(v, u);
    }
  }

  lemma {:induction false} PrintedMember(v: seq<Hit>, w: Word)
    ensures w in Printed(v) <==> exists a :: 0 <= a < |v| && v[a].0 == w && v[a].1 != -1
    decreases |v|
  {
    if |v| > 0 {
      var n := |v| - 1;
      PrintedMember(v[..n], w);
      assert forall a :: 0 <= a < n ==> v[..n][a] == v[a];
      if w in Printed(v[..n]) {
        var a :| 0 <= a < n && v[..n][a].0 == w && v[..n][a].1 != -1;
        assert v[a].0 == w;
      }
      if exists a :: 0 <= a < |v| && v[a].0 == w && v[a].1 != -1 {
        var a :| 0 <= a < |v| && v[a].0 == w && v[a].1 != -1;
        if a < n { assert v[..n][a].0 == w && v[..n][a].1 != -1; }
      }
    }
  }

  ghost predicate HitsOf(v: seq<Hit>, text: Word) {
    && (forall a :: 0 <= a < |v| ==> v[a].0 != [] && v[a].1 == First(v[a].0, text))
    && (forall a, b :: 0 <= a < b < |v| ==> v[a].0 != v[b].0)
    && (forall a, b :: 0 <= a < b < |v| ==> !Less(v[b], v[a]))
  }

  /** A hit printed before the last one comes earlier in the order of the trie. */
  lemma PrintedEarlier(v: seq<Hit>, text: Word, w: Word)
    requires |v| > 0 && HitsOf(v, text) && v[|v| - 1].1 != -1 && w in Printed(v[..|v| - 1])
    ensures Earlier(w, v[|v| - 1].0, text)
  {
    hide First, MatchAt;
    var n := |v| - 1;
    PrintedMember(v[..n], w);
    var a :| 0 <= a < n && v[..n][a].0 == w && v[..n][a].1 != -1;
    assert v[a] == v[..n][a] && !Less(v[n], v[a]);
    if v[a].1 == v[n].1 { SamePlace(v[a].0, v[n].0, text); }
  }

  lemma {:induction false} PrintedInOrder(v: seq<Hit>, text: Word)
    requires HitsOf(v, text)
    ensures InOrder(Printed(v), text)
    decreases |v|
  {
    if |v| > 0 {
      var n := |v| - 1;
      var front := Printed(v[..n]);
      PrintedInOrder(v[..n], text);
      if v[n].1 != -1 {
        forall w | w in front ensures Earlier(w, v[n].0, text) {
          PrintedEarlier(v, text, w);
        }
      }
    }
  }

  /** There is only one ordered list of given words. */
  lemma {:induction false} OrderIsUnique(r: seq<Word>, s: seq<Word>, text: Word)
    requires InOrder(r, text) && InOrder(s, text) && forall w :: w in r <==> w in s
    ensures r == s
    decreases |r|
  {
    if |r| > 0 { HasFirst(r, s); }
    if |s| > 0 { HasFirst(s, r); }
    if |r| > 0 {
      SameFirst(r, s, text);
      TailMembers(r, s, text);
      OrderIsUnique(r[1..], s[1..], text);
      assert r == [r[0]] + r[1..] && s == [s[0]] + s[1..];
    }
  }

  lemma HasFirst(r: seq<Word>, s: seq<Word>)
    requires |r| > 0 && forall w :: w in r ==> w in s
    ensures |s| > 0 && r[0] in s
  {
  }

  lemma SameFirst(r: seq<Word>, s: seq<Word>, text: Word)
    requires InOrder(r, text) && InOrder(s, text) && |r| > 0 && |s| > 0 && r[0] in s && s[0] in r
    ensures r[0] == s[0]
  {
  }

  lemma TailMembers(r: seq<Word>, s: seq<Word>, text: Word)
    requires InOrder(r, text) && InOrder(s, text) && |r| > 0 && |s| > 0 && r[0] == s[0]
    requires forall w :: w in r <==> w in s
    ensures InOrder(r[1..], text) && InOrder(s[1..], text) && forall w :: w in r[1..] <==> w in s[1..]
  {
    assert r == [r[0]] + r[1..] && s == [s[0]] + s[1..];
    assert forall k :: 0 < k < |r| ==> Earlier(r[0], r[k], text);
    assert forall k :: 0 < k < |s| ==> Earlier(s[0], s[k], text);
    assert r[0] !in r[1..] && s[0] !in s[1..];
    assert forall w :: w in r <==> w == r[0] || w in r[1..];
    assert forall w :: w in s <==> w == s[0] || w in s[1..];
  }

  /** For the same live dictionary and query, whatever order the sort leaves the entries in,
      the words printed from the per-word searches are the answer of the trie search. */
  lemma MatchersAgree(res: seq<Word>, live: set<Word>, text: Word, result: map<Word, int>, v: seq<Hit>)
    requires Answers(res, live, text) && forall w :: w in live ==> w != []
    requires result.Keys == live && forall w :: w in live ==> result[w] == First(w, text)
    requires SortedEntries(v, result)
    ensures Printed(v) == res
  {
    PrintedInOrder(v, text);
    forall w ensures w in Printed(v) <==> w in res {
      PrintedMember(v, w);
      if w in res {
        var a :| 0 <= a < |v| && v[a].0 == w;
      }
    }
    OrderIsUnique(Printed(v), res, text);
  }

  /** The two programs side by side on one query. */
  method BothAnswers(trie: AhoCorasick, input: Word) returns (res: seq<Word>, result: map<Word, int>)
    requires trie.Valid()
    modifies trie`result
    ensures result.Keys == Live(trie.words, trie.del)
    ensures forall v :: SortedEntries(v, result) ==> Printed(v) == res
  {
    res := trie.Search(input);
    result := Kmp.SearchAll(Live(trie.words, trie.del), input);
    forall v | SortedEntries(v, result) ensures Printed(v) == res {
      MatchersAgree(res, Live(trie.words, trie.del), input, result, v);
    }
  }
}
