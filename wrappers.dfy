/** The optional-value wrapper used for JavaScript's `null` results. */
module Wrappers {

  datatype Option<+T> = None | Some(value: T)

  /**
   * Concatenation is associative. Stated once over any element type, so that
   * proofs about lists of strings need not compare the strings themselves.
   */
  lemma AppendAssoc<T>(a: seq<T>, b: seq<T>, c: seq<T>)
    ensures (a + b) + c == a + (b + c)
  {
  }

  /** Taking as many elements as there are gives the whole sequence. */
  lemma TakeAll<T>(s: seq<T>)
    ensures s[..|s|] == s
  {
  }

  /** The first part of a concatenation is its prefix of that length. */
  lemma TakeAppend<T>(a: seq<T>, b: seq<T>)
    ensures (a + b)[..|a|] == a
  {
  }

  /** Appending nothing changes nothing. */
  lemma AppendNil<T>(a: seq<T>)
    ensures a + [] == a
  {
  }
}
