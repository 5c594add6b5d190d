/** Values that may be missing, the elements of a sequence, and the size of a set. */
module Wrappers {

  datatype Option<+T> = None | Some(value: T)

  function Elements<T>(s: seq<T>): set<T> {
    set x | x in s
  }

  lemma SubsetIsNoLarger<T>(a: set<T>, b: set<T>)
    requires a <= b
    ensures |a| <= |b|
  {
    assert b == a + (b - a);
  }
}

/** Answers that may be refused, where the reason does not matter. */
module Results {

  datatype Result<+T> = Ok(value: T) | Err
}
