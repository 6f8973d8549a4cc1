/** Option and Result, the absent value and the error path of the handlers, and two lemmas about sequences. */
module Common {

  datatype Option<+T> = None | Some(value: T)

  datatype Result<+T, +E> = Success(value: T) | Failure(error: E)

  /** Equal tails behind the same head give equal sequences. */
  lemma Splice<T>(x: seq<T>, h: seq<T>, y: seq<T>, z: seq<T>, w: seq<T>)
    requires x == h + y && y == z && w == h + z
    ensures x == w
  {
  }

  /** Regrouping a concatenation, stated over plain sequences so that no definition is unfolded. */
  lemma Regroup<T>(x: seq<T>, h: seq<T>, w: seq<T>, y: seq<T>, z: seq<T>)
    requires x == h + w && w == y + z
    ensures x == (h + y) + z
  {
  }
}
