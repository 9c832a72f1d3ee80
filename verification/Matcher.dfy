/** The dictionary matcher: words are added and deleted, and a search reports the live
    words of the dictionary that occur in the input. */
module Matcher {
  import opened Trie
  import opened Occurrence

  function TotalLength(ws: seq<Word>): nat {
    if |ws| == 0 then 0 else TotalLength(ws[..|ws| - 1]) + |ws[|ws| - 1]|
  }

  lemma {:induction false} TotalLengthAppend(ws: seq<Word>, more: seq<Word>)
    ensures TotalLength(ws + more) == TotalLength(ws) + TotalLength(more)
    decreases |more|
  {
    if |more| == 0 {
      assert ws + more == ws;
    } else {
      var n := |more| - 1;
      assert (ws + more)[..|ws| + n] == ws + more[..n];
      TotalLengthAppend(ws, more[..n]);
    }
  }

  lemma {:induction false} TotalLengthPrefix(ws: seq<Word>, q: nat)
    requires q < |ws|
    ensures TotalLength(ws[..q + 1]) == TotalLength(ws[..q]) + |ws[q]| <= TotalLength(ws)
    decreases |ws|
  {
    assert ws[..q + 1][..q] == ws[..q];
    if q == |ws| - 1 {
      assert ws[..q + 1] == ws;
    } else {
      var n := |ws| - 1;
      TotalLengthPrefix(ws[..n], q);
      assert ws[..n][..q] == ws[..q] && ws[..n][..q + 1] == ws[..q + 1];
    }
  }

  /** The words whose last occurrence has not been deleted. */
  function Live(words: seq<Word>, del: set<int>): set<Word> {
    set w | w in words && LastIndex(words, w) !in del
  }

  ghost predicate IsPrefixOfWord(words: seq<Word>, s: Word) {
    s == [] || exists i :: 0 <= i < |words| && s <= words[i]
  }

  /** What the table is for: from `|words|` a string stays on the table iff it is a prefix of
      a word, and ends on a state below `|words|` iff it is a word, namely on its last index. */
  ghost predicate Recognizes(g: seq<Row>, words: seq<Word>) {
    && Sound(g) && |words| < |g|
    && (forall s: Word :: Walk(g, |words|, s) != -1 <==> IsPrefixOfWord(words, s))
    && (forall s: Word :: 0 <= Walk(g, |words|, s) < |words| <==> s in words)
    && (forall s: Word :: s in words ==> Walk(g, |words|, s) == LastIndex(words, s))
  }

  lemma TrieRecognizes(g: seq<Row>, place: map<Word, int>, words: seq<Word>, used: nat)
    requires IsTrie(g, place, |words|, |words|, used) && Content(place, words, |words|, 0, |words|)
    ensures Recognizes(g, words)
  {
    TrieIsSound(g, place, |words|, |words|, used);
    assert words[..|words|] == words;
    forall s: Word
      ensures Walk(g, |words|, s) == if s in place then place[s] else -1
    {
      WalkPlaced(g, place, |words|, |words|, used, [], s);
      assert [] + s == s;
    }
    forall s: Word ensures s in place <==> IsPrefixOfWord(words, s) {
      assert s in place <==> Stored(words, |words|, 0, s);
    }
    hide IsTrie;
    forall s: Word | s in words ensures s in place {
      var i :| 0 <= i < |words| && words[i] == s;
      assert s <= words[i];
    }
    assert forall p :: p in place ==> (place[p] < |words| <==> p in words);
  }

  /** One word is reported before another: at an earlier position, or shorter. */
  predicate Earlier(u: Word, v: Word, text: Word) {
    First(u, text) < First(v, text) || (First(u, text) == First(v, text) && |u| < |v|)
  }

  predicate InOrder(res: seq<Word>, text: Word) {
    forall a, b :: 0 <= a < b < |res| ==> Earlier(res[a], res[b], text)
  }

  /** The answer to a query: exactly the live words that occur, each once, ordered by first
      occurrence and then length. */
  ghost predicate Answers(res: seq<Word>, live: set<Word>, text: Word) {
    && (forall w :: w in res <==> w in live && First(w, text) != -1)
    && InOrder(res, text)
  }

  /** The words to be reported by the time the scan from `start` has read `n` letters. */
  predicate Due(w: Word, live: set<Word>, text: Word, start: nat, n: nat) {
    w in live && First(w, text) != -1 && (First(w, text) < start || (First(w, text) == start && |w| <= n))
  }

  ghost predicate Progress(res: seq<Word>, live: set<Word>, text: Word, start: nat, n: nat) {
    && (forall w :: w in res <==> Due(w, live, text, start, n))
    && InOrder(res, text)
  }

  ghost predicate Marks(check: map<Word, bool>, res: seq<Word>) {
    forall w :: w in res <==> w in check && check[w]
  }

  lemma FirstAtMost(w: Word, text: Word, i: nat)
    requires MatchAt(w, text, i)
    ensures 0 <= First(w, text) <= i
  {
  }

  /** A word first found at `start` with n letters is the text read so far. */
  lemma DueNext(w: Word, live: set<Word>, text: Word, start: nat, n: nat)
    requires start + n < |text|
    ensures Due(w, live, text, start, n + 1) <==>
            Due(w, live, text, start, n) || (w == text[start..start + n + 1] && w in live && First(w, text) == start)
  {
  }

  class AhoCorasick {
    var graph: seq<Row>
    var words: seq<Word>
    var result: seq<Word>
    var del: set<int>
    var initState: int
    var patternNum: int
    var stateNum: int
    var curSize: int
    var patternLen: int
    /** The state of every stored prefix. */
    ghost var place: map<Word, int>

    ghost predicate Sizes()
      reads this
    {
      && curSize == |graph| >= 1 && patternLen == TotalLength(words)
      && (forall w :: w in words ==> |w| > 0)
      && (forall r :: 0 <= r < |graph| ==> |graph[r]| == MAX_ALPHA)
    }

    /** The table is the trie of all words, and word ends carry the last index of their word. */
    ghost predicate Built()
      reads this
    {
      && initState == |words| && stateNum >= 0
      && IsTrie(graph, place, |words|, |words|, stateNum)
      && Content(place, words, |words|, 0, |words|)
    }

    ghost predicate Valid()
      reads this
    {
      && Sizes() && Built()
      && forall i :: i in del ==> 0 <= i < |words|
    }

    constructor ()
      ensures Valid() && words == [] && del == {}
    {
      graph := [seq(MAX_ALPHA, _ => -1)];
      initState, patternNum, stateNum, curSize, patternLen := 0, 0, 1, 1, 0;
      words, result, del := [], [], {};
      place := map[[] := 0];
      new;
      EmptyTrie(graph, words);
    }

    constructor WithCapacity(patternNum: nat, patternLen: nat)
      ensures Valid() && words == [] && del == {}
    {
      graph := seq(patternNum + patternLen * 2 + 1, _ => seq(MAX_ALPHA, _ => -1));
      initState, this.patternNum, stateNum := 0, 0, 1;
      curSize, this.patternLen := patternNum + patternLen * 2 + 1, 0;
      words, result, del := [], [], {};
      place := map[[] := 0];
      new;
      EmptyTrie(graph, words);
    }

    /** Adds words to the dictionary: they are live from now on, deleted before or not. */
    method AddWord(word: seq<Word>)
      requires Valid() && forall w :: w in word ==> |w| > 0
      modifies this
      ensures Valid() && words == old(words) + word && del == old(del)
      ensures Live(words, del) == old(Live(words, del)) + (set w | w in word)
    {
      hide IsTrie, Content, Recognizes;
      var i := 0;
      while i < |word|
        invariant 0 <= i <= |word|
        invariant words == old(words) + word[..i] && del == old(del) && graph == old(graph) && curSize == old(curSize)
        invariant patternLen == TotalLength(words)
      {
        TotalLengthAppend(words, [word[i]]);
        assert old(words) + word[..i + 1] == old(words) + word[..i] + [word[i]];
        words := words + [word[i]];
        patternLen := patternLen + |word[i]|;
        i := i + 1;
      }
      assert word[..i] == word;
      LiveAfterAdd(old(words), word, del);
      MakeGraph();
    }

    method MakeGraph()
      requires Sizes()
      modifies this`graph, this`initState, this`patternNum, this`stateNum, this`curSize, this`place
      ensures Sizes() && Built() && Recognizes(graph, words)
    {
      hide Recognizes, IsTrie, Content;
      initState := |words|;
      patternNum := |words|;
      stateNum := initState + 1;
      if curSize < patternNum + patternLen + 1 {
        curSize := patternNum + patternLen * 2 + 1;
      }
      graph := seq(curSize, _ => seq(MAX_ALPHA, _ => -1));
      place := map[[] := initState];
      BlankTrie(graph, words);
      var q := 0;
      while q < |words|
        invariant 0 <= q <= |words| == initState && Sizes() && |graph| >= |words| + patternLen + 1
        invariant 0 <= stateNum <= initState + 1 + TotalLength(words[..q])
        invariant IsTrie(graph, place, initState, q, stateNum) && Content(place, words, q, 0, initState)
      {
        InsertWord(q);
        q := q + 1;
      }
      assert words[..q] == words;
      TrieRecognizes(graph, place, words, stateNum);
    }

    /** The loop over the letters of one word; q is also the next word-end row. */
    method InsertWord(q: nat)
      requires Sizes() && q < |words| == initState && |graph| >= |words| + patternLen + 1
      requires 0 <= stateNum <= initState + 1 + TotalLength(words[..q])
      requires IsTrie(graph, place, initState, q, stateNum) && Content(place, words, q, 0, initState)
      modifies this`graph, this`stateNum, this`place
      ensures Sizes() && |graph| == |old(graph)|
      ensures 0 <= stateNum <= initState + 1 + TotalLength(words[..q + 1])
      ensures IsTrie(graph, place, initState, q + 1, stateNum) && Content(place, words, q + 1, 0, initState)
    {
      TotalLengthPrefix(words, q);
      var curState := initState;
      var finalState := q;
      var index := 0;
      assert words[q] in words && words[q][..0] == [];
      while index < |words[q]|
        invariant 0 <= index <= |words[q]| && Sizes() && |graph| == |old(graph)|
        invariant 0 <= stateNum <= initState + 1 + TotalLength(words[..q]) + index
        invariant index < |words[q]| ==>
                    && finalState == q && IsTrie(graph, place, initState, q, stateNum)
                    && Content(place, words, q, index, initState)
                    && words[q][..index] in place && curState == place[words[q][..index]]
        invariant index == |words[q]| ==>
                    IsTrie(graph, place, initState, q + 1, stateNum) && Content(place, words, q + 1, 0, initState)
      {
        curState, finalState := InsertLetter(q, index, curState, finalState);
        index := index + 1;
      }
    }

    /** One letter: follow the edge or make one; the last letter claims the word-end row. */
    method InsertLetter(q: nat, index: nat, cur: nat, final: nat) returns (curState: int, finalState: nat)
      requires Sizes() && q < |words| == initState && index < |words[q]| && final == q
      requires 0 <= stateNum < |graph|
      requires IsTrie(graph, place, initState, q, stateNum) && Content(place, words, q, index, initState)
      requires words[q][..index] in place && cur == place[words[q][..index]]
      modifies this`graph, this`stateNum, this`place
      ensures Sizes() && |graph| == |old(graph)| && old(stateNum) <= stateNum <= old(stateNum) + 1
      ensures index + 1 < |words[q]| ==>
                && finalState == final && IsTrie(graph, place, initState, q, stateNum)
                && Content(place, words, q, index + 1, initState)
                && words[q][..index + 1] in place && curState == place[words[q][..index + 1]]
      ensures index + 1 == |words[q]| ==>
                IsTrie(graph, place, initState, q + 1, stateNum) && Content(place, words, q + 1, 0, initState)
    {
      hide IsTrie, Content;
      var c := words[q][index];
      ghost var p := words[q][..index];
      assert words[q][..index + 1] == p + [c];
      EdgeTells(graph, place, initState, q, stateNum, p, c);
      finalState := final;
      if graph[cur][c] == -1 {
        if index + 1 == |words[q]| {
          NewWordEnd(q, index, cur);
          finalState := finalState + 1;
          curState := stateNum;
          stateNum := stateNum + 1;
        } else {
          NewInnerState(q, index, cur);
          curState := stateNum;
          stateNum := stateNum + 1;
        }
      } else {
        if index + 1 == |words[q]| {
          OldStateEnds(q, index, cur);
          finalState := finalState + 1;
        } else {
          ContentStay(place, words, q, index, initState);
        }
        curState := graph[cur][c];
      }
    }

    /** No edge, last letter: the edge leads to the next word-end row. */
    method NewWordEnd(q: nat, index: nat, cur: nat)
      requires Sizes() && q < |words| == initState && index + 1 == |words[q]| && 0 <= stateNum < |graph|
      requires IsTrie(graph, place, initState, q, stateNum) && Content(place, words, q, index, initState)
      requires words[q][..index] in place && cur == place[words[q][..index]]
      requires words[q][..index + 1] !in place
      modifies this`graph, this`place
      ensures Sizes() && |graph| == |old(graph)|
      ensures IsTrie(graph, place, initState, q + 1, stateNum + 1) && Content(place, words, q + 1, 0, initState)
    {
      hide IsTrie, Content;
      var c := words[q][index];
      assert words[q][..index + 1] == words[q];
      NewWordEndKept(graph, place, words, q, stateNum);
      graph := SetEdge(graph, cur, c, stateNum);
      graph := SetEdge(graph, cur, c, q);
      graph := SwapRows(graph, stateNum, q);
      place := place[words[q] := q];
    }

    /** No edge, inner letter: the edge leads to a new row. */
    method NewInnerState(q: nat, index: nat, cur: nat)
      requires Sizes() && q < |words| == initState && index + 1 < |words[q]| && 0 <= stateNum < |graph|
      requires IsTrie(graph, place, initState, q, stateNum) && Content(place, words, q, index, initState)
      requires words[q][..index] in place && cur == place[words[q][..index]]
      requires words[q][..index + 1] !in place
      modifies this`graph, this`place
      ensures Sizes() && |graph| == |old(graph)|
      ensures IsTrie(graph, place, initState, q, stateNum + 1) && Content(place, words, q, index + 1, initState)
      ensures words[q][..index + 1] in place && place[words[q][..index + 1]] == stateNum
    {
      var c := words[q][index];
      assert words[q][..index + 1] == words[q][..index] + [c];
      AddState(graph, place, initState, q, stateNum, words[q][..index], c, stateNum, q, stateNum + 1);
      ContentGrow(place, words, q, index, initState, stateNum);
      graph := SetEdge(graph, cur, c, stateNum);
      place := place[words[q][..index + 1] := stateNum];
    }

    /** An edge exists and the word ends behind it: the row moves to the word-end row. */
    method OldStateEnds(q: nat, index: nat, cur: nat)
      requires Sizes() && q < |words| == initState && index + 1 == |words[q]| && 0 <= stateNum < |graph|
      requires IsTrie(graph, place, initState, q, stateNum) && Content(place, words, q, index, initState)
      requires words[q][..index] in place && cur == place[words[q][..index]]
      requires words[q][..index + 1] in place
      modifies this`graph, this`place
      ensures Sizes() && |graph| == |old(graph)|
      ensures IsTrie(graph, place, initState, q + 1, stateNum) && Content(place, words, q + 1, 0, initState)
    {
      hide IsTrie, Content;
      var c := words[q][index];
      assert words[q][..index + 1] == words[q];
      OldStateEndsKept(graph, place, words, q, stateNum);
      var next := graph[cur][c];
      graph := SwapRows(graph, next, q);
      graph := SetEdge(graph, cur, c, q);
      place := place[words[q] := q];
    }

    /** The live words that occur in the input, by first occurrence and then length. */
    method Search(input: Word) returns (r: seq<Word>)
      requires Valid()
      modifies this`result
      ensures Valid() && r == result
      ensures Answers(r, Live(words, del), input)
    {
      hide Progress, Marks, Answers, First, Recognizes, IsTrie, Content;
      TrieRecognizes(graph, place, words, stateNum);
      var check: map<Word, bool> := map w | w in words :: false;
      result := [];
      var start := 0;
      ghost var live := Live(words, del);
      assert forall w :: w in live ==> |w| > 0;
      SearchBegins(check, live, input);
      assert Valid();
      hide Valid, Live;
      while start < |input|
        invariant 0 <= start <= |input| && Valid()
        invariant Progress(result, live, input, start, 0) && Marks(check, result)
      {
        check := ScanFrom(input, start, check);
        NextStart(result, live, input, start);
        start := start + 1;
      }
      AllFound(result, live, input);
      r := result;
    }

    /** The inner loop: follow the table from one starting position. */
    method ScanFrom(input: Word, start: nat, check: map<Word, bool>) returns (check': map<Word, bool>)
      requires Valid() && Recognizes(graph, words) && start < |input|
      requires Progress(result, Live(words, del), input, start, 0) && Marks(check, result)
      modifies this`result
      ensures Valid()
      ensures Progress(result, Live(words, del), input, start, |input| - start) && Marks(check', result)
    {
      hide First, InOrder, IsTrie, Content, Progress, Marks, Recognizes, Walk;
      check' := check;
      var s: Word := [];
      var curState := initState;
      var index := start;
      ghost var live := Live(words, del);
      WalkStarts(graph, words);
      assert Valid() && initState == |words|;
      hide Valid;
      while index < |input|
        invariant start <= index <= |input| && s == input[start..index] && Valid()
        invariant Sound(graph) && 0 <= curState < |graph| && curState == Walk(graph, |words|, s)
        invariant Progress(result, live, input, start, index - start) && Marks(check', result)
      {
        StepFacts(graph, words, s, input[index]);
        curState := graph[curState][input[index]];
        s := s + [input[index]];
        assert s == input[start..index + 1];
        if curState == -1 {
          DeadEnd(graph, words, live, del, result, input, start, index - start);
          return;
        } else if curState < initState {
          MarksMeaning(check', result, s);
          if !(s in check' && check'[s]) && curState !in del {
            Report(result, live, input, start, index - start);
            MarksPush(check', result, s);
            result := result + [s];
            check' := check'[s := true];
          } else {
            SkipOld(result, live, input, start, index - start);
          }
          index := index + 1;
        } else {
          SkipOld(result, live, input, start, index - start);
          index := index + 1;
        }
      }
    }

    method DeleteWord(word: Word)
      requires Valid()
      modifies this`del
      ensures Valid()
      ensures Live(words, del) == old(Live(words, del)) - {word}
    {
      var i := 0;
      while i < |words|
        invariant 0 <= i <= |words|
        invariant forall j :: j in del <==> j in old(del) || (0 <= j < i && words[j] == word)
      {
        if words[i] == word {
          del := del + {i};
        }
        i := i + 1;
      }
      LiveAfterDelete(words, old(del), del, word);
    }
  }

  lemma WalkStarts(g: seq<Row>, words: seq<Word>)
    requires Recognizes(g, words)
    ensures Sound(g) && |words| < |g| && Walk(g, |words|, []) == |words|
  {
  }

  /** One edge further along a string: off the table, at a word end, or inside. */
  lemma StepFacts(g: seq<Row>, words: seq<Word>, s: Word, c: Letter)
    requires Recognizes(g, words) && Walk(g, |words|, s) != -1
    ensures var st := g[Walk(g, |words|, s)][c];
            && st == Walk(g, |words|, s + [c]) && -1 <= st < |g|
            && (0 <= st < |words| ==> s + [c] in words && st == LastIndex(words, s + [c]))
            && (|words| <= st ==> s + [c] !in words)
  {
    hide LastIndex, IsPrefixOfWord, Walk;
    WalkAppend(g, |words|, s, c);
    assert 0 <= Walk(g, |words|, s + [c]) < |words| <==> s + [c] in words;
  }

  lemma MarksMeaning(check: map<Word, bool>, res: seq<Word>, w: Word)
    requires Marks(check, res)
    ensures w in res <==> w in check && check[w]
  {
  }

  lemma MarksPush(check: map<Word, bool>, res: seq<Word>, w: Word)
    requires Marks(check, res)
    ensures Marks(check[w := true], res + [w])
  {
  }

  /** All words first found at `start` have been reported. */
  lemma SearchBegins(check: map<Word, bool>, live: set<Word>, text: Word)
    requires (forall w :: w in check ==> !check[w]) && forall w :: w in live ==> |w| > 0
    ensures Progress([], live, text, 0, 0) && Marks(check, [])
  {
  }

  lemma NextStart(res: seq<Word>, live: set<Word>, text: Word, start: nat)
    requires start < |text| && Progress(res, live, text, start, |text| - start) && forall w :: w in live ==> |w| > 0
    ensures Progress(res, live, text, start + 1, 0)
  {
  }

  lemma AllFound(res: seq<Word>, live: set<Word>, text: Word)
    requires Progress(res, live, text, |text|, 0) && forall w :: w in live ==> |w| > 0
    ensures Answers(res, live, text)
  {
  }

  /** The text read is no prefix of a word: no longer match starts here. */
  lemma DeadEnd(g: seq<Row>, words: seq<Word>, live: set<Word>, del: set<int>, res: seq<Word>, text: Word, start: nat,
                n: nat)
    requires Recognizes(g, words) && live == Live(words, del) && start + n < |text|
    requires Progress(res, live, text, start, n)
    requires Walk(g, |words|, text[start..start + n + 1]) == -1
    ensures Progress(res, live, text, start, |text| - start)
  {
  }

  /** A live word that is not yet reported is reported now. */
  lemma Report(res: seq<Word>, live: set<Word>, text: Word, start: nat, n: nat)
    requires start + n < |text| && Progress(res, live, text, start, n)
    requires text[start..start + n + 1] in live && text[start..start + n + 1] !in res
    ensures Progress(res + [text[start..start + n + 1]], live, text, start, n + 1)
  {
    var s := text[start..start + n + 1];
    assert MatchAt(s, text, start);
    FirstAtMost(s, text, start);
    assert First(s, text) == start;
    forall w ensures w in res + [s] <==> Due(w, live, text, start, n + 1) { DueNext(w, live, text, start, n); }
    forall a, b | 0 <= a < b < |res + [s]| ensures Earlier((res + [s])[a], (res + [s])[b], text) {
      if b == |res| {
        assert res[a] in res;
        assert Due(res[a], live, text, start, n);
      } else {
        assert (res + [s])[a] == res[a] && (res + [s])[b] == res[b];
      }
    }
  }

  /** What was read is no live word, or has been reported before. */
  lemma SkipOld(res: seq<Word>, live: set<Word>, text: Word, start: nat, n: nat)
    requires start + n < |text| && Progress(res, live, text, start, n)
    requires text[start..start + n + 1] !in live || text[start..start + n + 1] in res
    ensures Progress(res, live, text, start, n + 1)
  {
  }

  lemma SpareRowsEqual(g: seq<Row>, place: map<Word, int>, init: nat, q: nat, used: nat)
    requires IsTrie(g, place, init, q, used) && q < init && used < |g|
    ensures g[used] == g[q] && forall p :: p in place ==> place[p] != used && place[p] != q
  {
  }

  /** Swapping two spare rows after redirecting the edge changes nothing. */
  lemma SwapSpareRows(g: seq<Row>, cur: nat, c: Letter, used: nat, q: nat)
    requires cur < |g| && used < |g| && q < |g| && |g[cur]| == MAX_ALPHA && g[used] == g[q] && cur != used && cur != q
    ensures SwapRows(SetEdge(SetEdge(g, cur, c, used), cur, c, q), used, q) == SetEdge(g, cur, c, q)
  {
    var g1 := SetEdge(SetEdge(g, cur, c, used), cur, c, q);
    assert g1[cur] == g[cur][c := q];
    assert g1 == SetEdge(g, cur, c, q);
    assert g1[used] == g1[q];
  }

  lemma NewWordEndKept(g: seq<Row>, place: map<Word, int>, words: seq<Word>, q: nat, used: nat)
    requires q < |words| && |words[q]| > 0 && used < |g|
    requires IsTrie(g, place, |words|, q, used) && Content(place, words, q, |words[q]| - 1, |words|)
    requires words[q][..|words[q]| - 1] in place && words[q] !in place
    ensures var cur, c := place[words[q][..|words[q]| - 1]], words[q][|words[q]| - 1];
            && 0 <= cur < |g| && q < |g| && |g[cur]| == MAX_ALPHA
            && var g' := SwapRows(SetEdge(SetEdge(g, cur, c, used), cur, c, q), used, q);
            && (forall r :: 0 <= r < |g'| ==> |g'[r]| == MAX_ALPHA)
            && IsTrie(g', place[words[q] := q], |words|, q + 1, used + 1)
            && Content(place[words[q] := q], words, q + 1, 0, |words|)
  {
    var p, c := words[q][..|words[q]| - 1], words[q][|words[q]| - 1];
    assert words[q] == p + [c];
    ContentFinish(place, words, q, |words|);
    AddState(g, place, |words|, q, used, p, c, q, q + 1, used + 1);
    SpareRowsEqual(g, place, |words|, q, used);
    SwapSpareRows(g, place[p], c, used, q);
  }

  lemma OldStateEndsKept(g: seq<Row>, place: map<Word, int>, words: seq<Word>, q: nat, used: nat)
    requires q < |words| && |words[q]| > 0 && used < |g|
    requires IsTrie(g, place, |words|, q, used) && Content(place, words, q, |words[q]| - 1, |words|)
    requires words[q][..|words[q]| - 1] in place && words[q] in place
    ensures var cur, c := place[words[q][..|words[q]| - 1]], words[q][|words[q]| - 1];
            && 0 <= cur < |g| && q < |g| && |g[cur]| == MAX_ALPHA && 0 <= g[cur][c] < |g|
            && var g1 := SwapRows(g, g[cur][c], q);
            && |g1[cur]| == MAX_ALPHA
            && var g' := SetEdge(g1, cur, c, q);
            && (forall r :: 0 <= r < |g'| ==> |g'[r]| == MAX_ALPHA)
            && IsTrie(g', place[words[q] := q], |words|, q + 1, used)
            && Content(place[words[q] := q], words, q + 1, 0, |words|)
  {
    var p, c := words[q][..|words[q]| - 1], words[q][|words[q]| - 1];
    assert words[q] == p + [c];
    assert g[place[p]][c] == Target(place, p, c);
    ContentFinish(place, words, q, |words|);
    MoveState(g, place, |words|, q, used, p, c);
  }

  lemma EmptyTrie(g: seq<Row>, words: seq<Word>)
    requires words == [] && |g| >= 1 && forall r :: 0 <= r < |g| ==> Blank(g[r])
    ensures IsTrie(g, map[[] := 0], 0, 0, 1) && Content(map[[] := 0], words, 0, 0, 0)
  {
  }

  lemma BlankTrie(g: seq<Row>, words: seq<Word>)
    requires |g| >= |words| + 1 && forall r :: 0 <= r < |g| ==> Blank(g[r])
    requires forall w :: w in words ==> |w| > 0
    ensures IsTrie(g, map[[] := |words|], |words|, 0, |words| + 1) && Content(map[[] := |words|], words, 0, 0, |words|)
  {
  }

  lemma LiveAfterAdd(words: seq<Word>, more: seq<Word>, del: set<int>)
    requires forall i :: i in del ==> 0 <= i < |words|
    ensures Live(words + more, del) == Live(words, del) + (set w | w in more)
  {
    forall w ensures w in Live(words + more, del) <==> w in Live(words, del) + (set w | w in more) {
      var i := LastIndex(words + more, w);
      if w in more {
        var k :| 0 <= k < |more| && more[k] == w;
        assert (words + more)[|words| + k] == w;
        assert i >= |words| + k;
      } else if w in words {
        var j := LastIndex(words, w);
        assert (words + more)[j] == w && (words + more)[i] == w;
        assert i < |words|;
        assert i == j;
      }
    }
  }

  lemma LiveAfterDelete(words: seq<Word>, del: set<int>, del': set<int>, word: Word)
    requires forall j :: j in del' <==> j in del || (0 <= j < |words| && words[j] == word)
    ensures Live(words, del') == Live(words, del) - {word}
  {
  }
}
