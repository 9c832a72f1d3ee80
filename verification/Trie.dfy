/** The word trie of the matcher, kept in a table of rows: states below `init` are the ends
    of words, and a row swap renumbers a state when a word ends in it. Letters are 0..25. */
module Trie {

  type Letter = c: int | 0 <= c < 26
  type Word = seq<Letter>
  type Row = seq<int>

  const MAX_ALPHA: nat := 26

  predicate Blank(row: Row) { |row| == MAX_ALPHA && forall c :: 0 <= c < MAX_ALPHA ==> row[c] == -1 }

  /** Index of the last occurrence of a word, -1 if there is none. */
  function LastIndex(ws: seq<Word>, w: Word): (i: int)
    ensures -1 <= i < |ws|
    ensures i >= 0 <==> w in ws
    ensures i >= 0 ==> ws[i] == w && forall j :: i < j < |ws| ==> ws[j] != w
  {
    if |ws| == 0 then -1
    else if ws[|ws| - 1] == w then |ws| - 1
    else LastIndex(ws[..|ws| - 1], w)
  }

  /** Where an edge labelled c leads from the state of prefix p. */
  function Target(place: map<Word, int>, p: Word, c: Letter): int {
    if p + [c] in place then place[p + [c]] else -1
  }

  ghost predicate PrefixClosed(place: map<Word, int>) {
    forall q: Word, d: Letter {:trigger q + [d]} :: q + [d] in place ==> q in place
  }

  ghost predicate Placed(g: seq<Row>, place: map<Word, int>, init: nat, final: nat, used: nat) {
    && final <= init < used <= |g|
    && [] in place && place[[]] == init && PrefixClosed(place)
    && (forall p :: p in place ==> 0 <= place[p] < final || init <= place[p] < used)
    && (forall p, p' {:trigger place[p], place[p']} :: p in place && p' in place && place[p] == place[p'] ==> p == p')
  }

  ghost predicate Edges(g: seq<Row>, place: map<Word, int>) {
    && (forall r :: 0 <= r < |g| ==> |g[r]| == MAX_ALPHA)
    && (forall p :: p in place ==> 0 <= place[p] < |g|)
    && (forall p, c: Letter {:trigger g[place[p]][c]} :: p in place ==> g[place[p]][c] == Target(place, p, c))
  }

  ghost predicate SpareBlank(g: seq<Row>, place: map<Word, int>) {
    forall r :: 0 <= r < |g| && r !in place.Values ==> Blank(g[r])
  }

  /** The table is the trie of the prefixes in `place`: `final` word ends and `used - init`
      other rows are taken, all other rows are blank. */
  ghost predicate IsTrie(g: seq<Row>, place: map<Word, int>, init: nat, final: nat, used: nat) {
    Placed(g, place, init, final, used) && Edges(g, place) && SpareBlank(g, place)
  }

  function SetEdge(g: seq<Row>, state: nat, c: Letter, to: int): seq<Row>
    requires state < |g| && |g[state]| == MAX_ALPHA
  {
    g[state := g[state][c := to]]
  }

  function SwapRows(g: seq<Row>, a: nat, b: nat): seq<Row>
    requires a < |g| && b < |g|
  {
    g[a := g[b]][b := g[a]]
  }

  lemma NotPlaced(place: map<Word, int>, r: int)
    requires forall p :: p in place ==> place[p] != r
    ensures r !in place.Values
  {
  }

  lemma ValuesAfter(place: map<Word, int>, p: Word, st: int)
    ensures place[p := st].Values <= place.Values + {st}
    ensures p !in place ==> place[p := st].Values == place.Values + {st}
  {
    var place' := place[p := st];
    if p !in place {
      forall v | v in place.Values + {st} ensures v in place'.Values {
        if v in place.Values {
          var k :| k in place && place[k] == v;
          assert place'[k] == v;
        } else {
          assert place'[p] == st;
        }
      }
    }
  }

  lemma ValuesKept(place: map<Word, int>, p: Word, st: int, v: int)
    requires p in place && v != place[p]
    ensures v in place.Values ==> v in place[p := st].Values
  {
    if v in place.Values {
      var k :| k in place && place[k] == v;
      assert place[p := st][k] == v;
    }
  }

  lemma ClosedAfter(place: map<Word, int>, p: Word, c: Letter, st: int)
    requires PrefixClosed(place) && p in place
    ensures PrefixClosed(place[p + [c] := st])
  {
    forall q: Word, d: Letter | q + [d] in place[p + [c] := st] ensures q in place[p + [c] := st] {
      if q + [d] == p + [c] {
        assert q == (q + [d])[..|q|] == (p + [c])[..|p|] == p;
      }
    }
  }

  /** What an entry of the table says about a string one letter longer. */
  lemma EdgeTells(g: seq<Row>, place: map<Word, int>, init: nat, final: nat, used: nat, p: Word, c: Letter)
    requires IsTrie(g, place, init, final, used) && p in place
    ensures 0 <= place[p] < |g| && |g[place[p]]| == MAX_ALPHA
    ensures g[place[p]][c] == (if p + [c] in place then place[p + [c]] else -1)
    ensures p + [c] in place ==> place[p + [c]] >= 0
  {
  }

  /** A new state `st` for the prefix p + [c], entered from the state of p. */
  lemma AddState(g: seq<Row>, place: map<Word, int>, init: nat, final: nat, used: nat, p: Word, c: Letter, st: nat,
                 final': nat, used': nat)
    requires IsTrie(g, place, init, final, used) && p in place && p + [c] !in place
    requires final <= final' <= init && used <= used' <= |g|
    requires (final <= st < final') || (used <= st < used')
    ensures IsTrie(SetEdge(g, place[p], c, st), place[p + [c] := st], init, final', used')
  {
    var place' := place[p + [c] := st];
    var g' := SetEdge(g, place[p], c, st);
    assert forall q :: q in place ==> place[q] != st;
    NotPlaced(place, st);
    ValuesAfter(place, p + [c], st);
    assert Blank(g[st]);
    ClosedAfter(place, p, c, st);
    forall q, d: Letter | q in place' ensures g'[place'[q]][d] == Target(place', q, d) {
      AddStateEdge(g, place, p, c, st, q, d);
    }
    forall r | 0 <= r < |g'| && r !in place'.Values ensures Blank(g'[r]) {
      assert place'[p] == place[p];
      assert place[p] in place'.Values;
      assert g'[r] == g[r];
    }
  }

  lemma AddStateEdge(g: seq<Row>, place: map<Word, int>, p: Word, c: Letter, st: nat, q: Word, d: Letter)
    requires Edges(g, place) && p in place && p + [c] !in place && st < |g| && Blank(g[st])
    requires forall q :: q in place ==> place[q] != st
    requires forall p, p' {:trigger place[p], place[p']} :: p in place && p' in place && place[p] == place[p'] ==>
               p == p'
    requires PrefixClosed(place)
    requires q in place[p + [c] := st]
    ensures var place' := place[p + [c] := st]; SetEdge(g, place[p], c, st)[place'[q]][d] == Target(place', q, d)
  {
    var place' := place[p + [c] := st];
    if q == p + [c] {
      assert q + [d] != p + [c];
      assert q + [d] !in place;
    } else {
      assert g[place[q]][d] == Target(place, q, d);
      if q + [d] == p + [c] {
        assert q == (q + [d])[..|q|] == p && d == c;
      }
    }
  }

  /** A word ends in an existing state: its row moves to the next word-end row and the edge
      that leads to it is redirected. */
  lemma MoveState(g: seq<Row>, place: map<Word, int>, init: nat, final: nat, used: nat, p: Word, c: Letter)
    requires IsTrie(g, place, init, final, used) && p in place && p + [c] in place && final < init
    ensures 0 <= place[p + [c]] < |g| && 0 <= place[p] < |g|
    ensures IsTrie(SetEdge(SwapRows(g, place[p + [c]], final), place[p], c, final), place[p + [c] := final], init,
        final + 1, used)
  {
    var w := p + [c];
    var next := place[w];
    var place' := place[w := final];
    var g' := SetEdge(SwapRows(g, next, final), place[p], c, final);
    assert forall q :: q in place ==> place[q] != final;
    NotPlaced(place, final);
    assert Blank(g[final]);
    ClosedAfter(place, p, c, final);
    forall q, d: Letter | q in place' ensures g'[place'[q]][d] == Target(place', q, d) {
      MoveStateEdge(g, place, p, c, final, q, d);
    }
    MoveSpare(g, place, p, c, final);
  }

  /** Rows that carry no state stay blank. */
  lemma MoveSpare(g: seq<Row>, place: map<Word, int>, p: Word, c: Letter, final: nat)
    requires SpareBlank(g, place) && p in place && p + [c] in place && final < |g| && final !in place.Values
    requires forall r :: 0 <= r < |g| ==> |g[r]| == MAX_ALPHA
    requires 0 <= place[p] < |g| && 0 <= place[p + [c]] < |g| && place[p] != place[p + [c]]
    ensures SpareBlank(SetEdge(SwapRows(g, place[p + [c]], final), place[p], c, final), place[p + [c] := final])
  {
    var w := p + [c];
    var place' := place[w := final];
    var g' := SetEdge(SwapRows(g, place[w], final), place[p], c, final);
    assert Blank(g[final]);
    forall r | 0 <= r < |g'| && r !in place'.Values ensures Blank(g'[r]) {
      assert place'[p] == place[p] && place'[w] == final;
      assert r != place[p] && r != final;
      if r != place[w] {
        ValuesKept(place, w, final, r);
      }
    }
  }

  lemma MoveStateEdge(g: seq<Row>, place: map<Word, int>, p: Word, c: Letter, final: nat, q: Word, d: Letter)
    requires Edges(g, place) && p in place && p + [c] in place && final < |g|
    requires forall q :: q in place ==> place[q] != final
    requires forall p, p' {:trigger place[p], place[p']} :: p in place && p' in place && place[p] == place[p'] ==>
               p == p'
    requires q in place
    ensures var place' := place[p + [c] := final];
            SetEdge(SwapRows(g, place[p + [c]], final), place[p], c, final)[place'[q]][d] == Target(place', q, d)
  {
    var w := p + [c];
    assert g[place[q]][d] == Target(place, q, d);
    assert place[q] == place[w] ==> q == w;
    assert place[q] == place[p] ==> q == p;
    if q + [d] == w {
      assert q == (q + [d])[..|q|] == p && d == c;
    }
  }

  // ---- walking the table ----

  /** Every entry of the table is an edge or -1. */
  ghost predicate Sound(g: seq<Row>) {
    forall r :: 0 <= r < |g| ==> |g[r]| == MAX_ALPHA && forall c :: 0 <= c < MAX_ALPHA ==> -1 <= g[r][c] < |g|
  }

  /** The state reached from `st` along s, or -1 when an edge is missing. */
  ghost function Walk(g: seq<Row>, st: nat, s: Word): (r: int)
    requires Sound(g) && st < |g|
    ensures -1 <= r < |g|
    decreases |s|
  {
    if s == [] then st
    else if g[st][s[0]] == -1 then -1
    else Walk(g, g[st][s[0]], s[1..])
  }

  lemma TrieIsSound(g: seq<Row>, place: map<Word, int>, init: nat, final: nat, used: nat)
    requires IsTrie(g, place, init, final, used)
    ensures Sound(g)
  {
  }

  lemma {:induction false} PrefixIn(place: map<Word, int>, p: Word, s: Word)
    requires PrefixClosed(place) && p + s in place
    ensures p in place
    decreases |s|
  {
    if s == [] {
      assert p + s == p;
    } else {
      var n := |s| - 1;
      assert p + s == (p + s[..n]) + [s[n]];
      PrefixIn(place, p, s[..n]);
    }
  }

  /** Walking a string leads to its state if it is stored and off the table otherwise. */
  lemma {:induction false} WalkPlaced(g: seq<Row>, place: map<Word, int>, init: nat, final: nat, used: nat, p: Word,
                                      s: Word)
    requires IsTrie(g, place, init, final, used) && Sound(g) && p in place
    ensures 0 <= place[p] < |g|
    ensures Walk(g, place[p], s) == if p + s in place then place[p + s] else -1
    decreases |s|
  {
    if s == [] {
      assert p + s == p;
    } else {
      var p' := p + [s[0]];
      assert p' + s[1..] == p + s;
      assert g[place[p]][s[0]] == Target(place, p, s[0]);
      if p' in place {
        assert 0 <= place[p'];
        WalkPlaced(g, place, init, final, used, p', s[1..]);
      } else if p + s in place {
        PrefixIn(place, p', s[1..]);
      }
    }
  }

  lemma {:induction false} WalkAppend(g: seq<Row>, st: nat, s: Word, c: Letter)
    requires Sound(g) && st < |g|
    ensures Walk(g, st, s + [c]) == if Walk(g, st, s) == -1 then -1 else g[Walk(g, st, s)][c]
    decreases |s|
  {
    if s == [] {
      assert s + [c] == [c];
    } else {
      assert (s + [c])[1..] == s[1..] + [c];
      if g[st][s[0]] != -1 { WalkAppend(g, g[st][s[0]], s[1..], c); }
    }
  }

  // ---- which strings are stored ----

  /** p is a prefix of one of the first q words or of the first idx letters of word q. */
  ghost predicate Stored(words: seq<Word>, q: nat, idx: nat, p: Word) {
    || p == []
    || (exists i :: 0 <= i < q && i < |words| && p <= words[i])
    || (q < |words| && idx <= |words[q]| && p <= words[q][..idx])
  }

  ghost predicate Content(place: map<Word, int>, words: seq<Word>, q: nat, idx: nat, init: nat) {
    && q <= |words|
    && (forall p :: p in place <==> Stored(words, q, idx, p))
    && (forall p :: p in place ==> (place[p] < init <==> p in words[..q]))
    && (forall p :: p in place && place[p] < init ==> place[p] == LastIndex(words[..q], p))
  }

  lemma StoredNext(words: seq<Word>, q: nat, idx: nat, p: Word)
    requires q < |words| && idx < |words[q]|
    ensures Stored(words, q, idx + 1, p) <==> Stored(words, q, idx, p) || p == words[q][..idx + 1]
    ensures words[q][..idx + 1] == words[q][..idx] + [words[q][idx]]
  {
  }

  lemma StoredWord(words: seq<Word>, q: nat, p: Word)
    requires q < |words|
    ensures Stored(words, q, |words[q]|, p) <==> Stored(words, q + 1, 0, p)
  {
  }

  lemma LastIndexPush(ws: seq<Word>, q: nat, p: Word)
    requires q < |ws|
    ensures LastIndex(ws[..q + 1], p) == if p == ws[q] then q else LastIndex(ws[..q], p)
    ensures p in ws[..q + 1] <==> p in ws[..q] || p == ws[q]
  {
  }

  lemma ContentStay(place: map<Word, int>, words: seq<Word>, q: nat, idx: nat, init: nat)
    requires Content(place, words, q, idx, init) && q < |words| && idx < |words[q]| && words[q][..idx + 1] in place
    ensures Content(place, words, q, idx + 1, init)
  {
  }

  lemma ContentGrow(place: map<Word, int>, words: seq<Word>, q: nat, idx: nat, init: nat, st: int)
    requires Content(place, words, q, idx, init) && q < |words| && idx < |words[q]| && words[q][..idx + 1] !in place
    requires init <= st
    ensures Content(place[words[q][..idx + 1] := st], words, q, idx + 1, init)
  {
    var w := words[q][..idx + 1];
    var place' := place[w := st];
    forall p ensures p in place' <==> Stored(words, q, idx + 1, p) { StoredNext(words, q, idx, p); }
    assert w !in words[..q] by {
      assert !Stored(words, q, idx, w);
      assert forall i :: 0 <= i < q && words[i] == w ==> w <= words[i];
    }
  }

  lemma ContentFinish(place: map<Word, int>, words: seq<Word>, q: nat, init: nat)
    requires q < |words| && |words[q]| > 0 && Content(place, words, q, |words[q]| - 1, init) && q < init
    ensures Content(place[words[q] := q], words, q + 1, 0, init)
  {
    var w := words[q];
    var place' := place[w := q];
    forall p ensures p in place' <==> Stored(words, q + 1, 0, p) {
      StoredNext(words, q, |w| - 1, p);
      StoredWord(words, q, p);
      assert w[..|w|] == w;
    }
    forall p | p in place'
      ensures place'[p] < init <==> p in words[..q + 1]
      ensures place'[p] < init ==> place'[p] == LastIndex(words[..q + 1], p)
    {
      LastIndexPush(words, q, p);
    }
  }
}
