/** A fact about sequence concatenation that the proofs cite where the solver would search for it. */
module Sequences {
  lemma AppendAssoc<T>(a: seq<T>, b: seq<T>, c: seq<T>)
    ensures a + (b + c) == (a + b) + c
  {
  }
}
