/** Failure-compatible wrappers: the places where the modelled JavaScript returns
    null/undefined become Option, the places where it throws become Result. */
module Wrappers {

  datatype Option<+T> = None | Some(value: T)

  /** Every way the modelled code throws. */
  datatype Error =
    | MalformedReference(ref: string)  // getCellRefToIndices: "Invalid cell reference"
    | LengthMismatch                   // cosineSimilarity: "Vectors must be the same length"
    | EmbeddingLengthMismatch          // getWeightedEmbedding: "All embedding must have the same length"
    | ZeroTotalWeight                  // getWeightedEmbedding: "Total weight must be > 0"
    | NullVector                       // TypeError: cosineSimilarity reads `.length` of null

  datatype Result<+T> = Ok(value: T) | Err(error: Error) {
    predicate IsFailure() { Err? }

    function PropagateFailure<U>(): Result<U>
      requires Err?
    {
      Err(error)
    }

    function Extract(): T
      requires Ok?
    {
      value
    }
  }

  /** Result of an operation that only changes state. */
  datatype Outcome = Pass | Fail(error: Error)
}
