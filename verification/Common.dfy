/** Vocabulary shared by every component of the model. */
module Common {

  /** An instant or a duration, in nanoseconds; unbounded. */
  type Time = int

  /** A keyed digest or a fingerprint, as text. */
  type Digest = string

  /** Go's `*time.Time`, `(value, bool)` and `(value, error)` results. */
  datatype Option<+T> = None | Some(value: T)

  /** How a store refuses a mutation. CommitFailed stands for any failure of the
      transaction hook or of the audit append: mutation, hook and audit all
      happen or none does. */
  datatype StoreError = NotFound | Conflict | CommitFailed

  datatype Reply = Ok | Refused(error: StoreError)

  /** Every element of `a` occurs in `b`. */
  predicate Within<T(==)>(a: seq<T>, b: seq<T>) {
    forall x | x in a :: x in b
  }
}
