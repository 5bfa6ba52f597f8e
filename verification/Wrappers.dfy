/** Shared by the models: a missing row, a call that returned or threw, what became of a COMMIT,
    and the size of a subset. */
module Wrappers {

  datatype Option<+T> = None | Some(value: T)

  datatype Result<+T, +E> = Ok(value: T) | Err(error: E)

  /** `CommitFails`: something threw before COMMIT took effect. `CommitUnheard`: it took effect, but
      the answer was lost and the caller sees an error. */
  datatype CommitFate = CommitDone | CommitFails | CommitUnheard

  lemma {:induction false} SubsetSize<T>(a: set<T>, b: set<T>)
    requires a <= b
    ensures |a| <= |b|
  {
    if a != {} {
      var x :| x in a;
      SubsetSize(a - {x}, b - {x});
    }
  }
}
