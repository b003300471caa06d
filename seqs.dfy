/** Two facts about sequences that the list filters of the model rely on. */
module Seqs {
  /** Splitting off the head of a non-empty sequence splits its multiset the same way. */
  lemma MultisetCons<T>(s: seq<T>)
    requires s != []
    ensures multiset(s) == multiset{s[0]} + multiset(s[1..])
  {
    assert s == [s[0]] + s[1..];
  }

  /** Concatenation is associative. */
  lemma ConcatAssoc<T>(k: seq<T>, x: seq<T>, y: seq<T>)
    ensures k + (x + y) == (k + x) + y
  {
  }
}
