/** Small failure-carrying types shared by the modules of this model. */
module Common {

  /** A value that may be absent; stands for a reference that may be null or a field never assigned. */
  datatype Option<+T> = None | Some(value: T)

  /** The result of an operation that either succeeds or fails with a message. */
  datatype Outcome = Pass | Fail(message: string)

  /** A value or the message of the failed precondition that prevented it. */
  datatype Result<+T> = Ok(value: T) | Err(message: string)

  /** Regrouping a concatenation, stated once so that proofs need not rediscover it. */
  lemma AppendAssoc<T>(a: seq<T>, b: seq<T>, c: seq<T>)
    ensures a + (b + c) == a + b + c
  {
  }
}
