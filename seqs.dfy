/** A general fact about sequences that the proofs call explicitly, since the
    solver finds it slowly on its own. */
module Seqs {

  lemma AppendAssoc<T>(a: seq<T>, b: seq<T>, c: seq<T>)
    ensures (a + b) + c == a + (b + c)
  {
  }
}
