/** Failure-carrying wrappers used by every module of the model. */
module Common {

  /** A nullable value: `None` stands for Python's `None` / SQL NULL. */
  datatype Option<+T> = None | Some(value: T)

  /** The outcome of an operation that can raise. */
  datatype Result<+T, +E> = Ok(value: T) | Err(error: E)

  /** A non-empty set has a member, so a loop over it can pick one. */
  lemma NonEmptyHasMember<T>(s: set<T>) returns (x: T)
    requires s != {}
    ensures x in s
  {
    if forall y :: y !in s {
      assert false;
    }
    x :| x in s;
  }
}
