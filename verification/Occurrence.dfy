/** Where a word occurs in a text. */
module Occurrence {
  import opened Trie

  predicate MatchAt(w: Word, text: Word, i: int) {
    0 <= i && i + |w| <= |text| && text[i..i + |w|] == w
  }

  /** The least position at or after `from` where w occurs, -1 if there is none. */
  function FirstFrom(w: Word, text: Word, from: nat): (i: int)
    ensures i == -1 || (from <= i && MatchAt(w, text, i) && forall j :: from <= j < i ==> !MatchAt(w, text, j))
    ensures i == -1 ==> forall j :: from <= j ==> !MatchAt(w, text, j)
    decreases |text| - from
  {
    if from + |w| > |text| then -1
    else if MatchAt(w, text, from) then from
    else FirstFrom(w, text, from + 1)
  }

  function First(w: Word, text: Word): (i: int)
    ensures -1 <= i
  {
    FirstFrom(w, text, 0)
  }
}
