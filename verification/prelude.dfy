/** Small wrapper types shared by every module of the model. */
module Prelude {

  /** A value that may be absent; stands for the source's `T | null` and `undefined`. */
  datatype Option<+T> = None | Some(value: T)

  /** What a call to the external analyzer produced: a payload, or a rejected promise. */
  datatype Outcome<+T> = Success(value: T) | Failure
}
