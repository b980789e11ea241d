/** The tuple-shaped `WrappedResponse` shared by the two newer versions:
    `[undefined, result]` on success and `[error, undefined]` on failure. */
module TupleResponse {
  import opened JsRuntime

  /** The two slots of the tuple: slot 0 holds the error, slot 1 the result. */
  datatype WrappedResponse = WrappedResponse(error: Value, result: Value)

  /** `[undefined, r] as const` */
  function Success(r: Value): WrappedResponse {
    WrappedResponse(Undefined, r)
  }

  /** `[error, undefined] as const` */
  function Failure(e: Value): WrappedResponse {
    WrappedResponse(e, Undefined)
  }

  /** Membership of the union type `[undefined, Response] | [unknown, undefined]`. */
  predicate IsWrappedResponse(w: WrappedResponse) {
    w.error == Undefined || w.result == Undefined
  }

  /** A response matches the union type exactly when it is one that
      `Success` or `Failure` builds. */
  lemma UnionIsSuccessOrFailure(w: WrappedResponse)
    ensures IsWrappedResponse(w) <==> w == Success(w.result) || w == Failure(w.error)
  {
  }

  /** The tuple carries no discriminant: throwing `undefined` and returning
      `undefined` give the same tuple, so a caller cannot tell them apart. */
  lemma ThrownUndefinedReadsAsSuccess()
    ensures Failure(Undefined) == Success(Undefined)
  {
  }

  /** Apart from that one value, success and failure never coincide. */
  lemma SuccessAndFailureDiffer(r: Value, e: Value)
    requires r != Undefined || e != Undefined
    ensures Success(r) != Failure(e)
  {
  }
}
