/** Facts about sequences shared by the other modules. */
module Seqs {

  /** Regrouping of concatenated sequences. */
  lemma AppendAssoc<T>(a: seq<T>, b: seq<T>, c: seq<T>)
    ensures a + (b + c) == (a + b) + c
  {
  }
}
