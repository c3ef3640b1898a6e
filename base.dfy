/**
 * The optional-value wrapper used throughout the model. A TypeScript value
 * typed `T | null` or `T | undefined` (or an optional property `x?: T`) is an
 * `Option<T>`; the `??` operator is `GetOr`.
 */
module Base {

  datatype Option<+T> = None | Some(value: T) {

    /** `this ?? default`: the carried value, or the default when absent. */
    function GetOr(default: T): T {
      match this
      case Some(v) => v
      case None => default
    }
  }
}
