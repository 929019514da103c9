/**
 * The interface of the checked arithmetic library `mathlib` as the front end uses it.
 * Its header is not part of this model, so the six `ml_*` operations are not defined here:
 * they are the fields of an `Engine` value that every caller receives as a parameter.
 */
module MathLib {
  import opened Ints

  /** `ml_error`: `ok`, `div0`, `overflow`, and any further enumerator the library defines. */
  datatype MlError = Ok | Div0 | Overflow | OtherError

  /** `ml_kind`: which member of the result's value union is meaningful. */
  datatype MlKind = I64Kind | U64Kind

  /** `ml_result`: an error tag, a kind tag and the numeric payload. */
  datatype MlResult = MlResult(error: MlError, kind: MlKind, value: int)

  /** `mathlib::ml_result r {}`: value-initialisation gives every member its zero. */
  const ZeroResult: MlResult := MlResult(Ok, I64Kind, 0)

  /** The six checked operations, with the argument types their call sites convert to. */
  datatype Engine = Engine(
    add: (I64, I64) -> MlResult,
    sub: (I64, I64) -> MlResult,
    mul: (I64, I64) -> MlResult,
    div: (I64, I64) -> MlResult,
    pow: (I64, U64) -> MlResult,
    fact: U64 -> MlResult)
}
