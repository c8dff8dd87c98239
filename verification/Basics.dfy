/** What several of the models share. */
module Basics {

  datatype Option<+T> = None | Some(value: T)

  /** A part is no larger than the whole. */
  lemma {:induction false} SubsetSize<T>(a: set<T>, b: set<T>)
    requires a <= b
    ensures |a| <= |b|
  {
    if a != {} {
      var x :| x in a;
      SubsetSize(a - {x}, b - {x});
    }
  }
}
