/** Small failure-carrying value types shared by every module of the model. */
module Wrappers {

  /** A value that may be absent (a Go nil pointer, a lookup that found nothing). */
  datatype Option<+T> = None | Some(value: T)
}
