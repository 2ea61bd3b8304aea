module Wrappers {

  /** A pointer, error or optional result of the source: None stands for nil. */
  datatype Option<+T> = None | Some(value: T)

  /** The next key of a map iteration. */
  method Pick<T(==)>(s: set<T>) returns (x: T)
    requires s != {}
    ensures x in s
  {
    x :| x in s;
  }

  lemma SubsetSize<T>(a: set<T>, b: set<T>)
    requires a <= b
    ensures |a| <= |b|
  {
    assert b == a + (b - a);
  }
}
