/** Two facts about sequence concatenation that proofs by induction over a
    list use at every step. */
module Sequences {
  /** A non-empty sequence is its head followed by its tail, also when a
      second sequence follows it. */
  lemma SplitHead<T>(a: seq<T>, b: seq<T>)
    requires a != []
    ensures a == [a[0]] + a[1..] && a + b == [a[0]] + (a[1..] + b)
  {
  }

  lemma ConcatAssoc<T>(x: seq<T>, y: seq<T>, z: seq<T>)
    ensures x + (y + z) == (x + y) + z
  {
  }
}
