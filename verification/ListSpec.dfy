/** What the sorted-list sets promise: a set of keys with add, remove and contains. */
module ListSpec {

  datatype Op = Add | Remove | Contains

  const MIN_KEY: int := -0x8000_0000
  const MAX_KEY: int := 0x7fff_ffff

  /** A completed call, recorded at the step where it takes effect. */
  datatype Call = Call(tid: nat, op: Op, key: int, result: bool)

  predicate InnerKey(k: int) { MIN_KEY < k < MAX_KEY }

  function Effect(op: Op, key: int, keys: set<int>): set<int> {
    match op
    case Add => keys + {key}
    case Remove => keys - {key}
    case Contains => keys
  }

  predicate Answer(op: Op, key: int, keys: set<int>) {
    match op
    case Add => key !in keys
    case Remove => key in keys
    case Contains => key in keys
  }

  /** The set after running the calls one after another from the empty set. */
  function After(hist: seq<Call>): set<int> {
    if |hist| == 0 then {} else
      var c := hist[|hist| - 1];
      Effect(c.op, c.key, After(hist[..|hist| - 1]))
  }

  /** Every recorded answer is the one the set gives at that point of the sequence. */
  predicate Legal(hist: seq<Call>) {
    forall n :: 0 <= n < |hist| ==> hist[n].result == Answer(hist[n].op, hist[n].key, After(hist[..n]))
  }

  lemma AfterExtend(hist: seq<Call>, c: Call)
    ensures After(hist + [c]) == Effect(c.op, c.key, After(hist))
  {
  }

  lemma LegalExtend(hist: seq<Call>, c: Call)
    requires Legal(hist) && c.result == Answer(c.op, c.key, After(hist))
    ensures Legal(hist + [c]) && After(hist + [c]) == Effect(c.op, c.key, After(hist))
  {
    hide After, Answer, Effect;
    AfterExtend(hist, c);
    var hist' := hist + [c];
    assert hist'[..|hist|] == hist;
    assert forall n :: 0 <= n < |hist| ==> hist'[..n] == hist[..n] && hist'[n] == hist[n];
  }
}
