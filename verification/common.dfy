/** Small shared vocabulary: the optional value used for Kotlin's nullable references. */
module Common {

  /** A Kotlin `T?`: either absent (`null`) or present. */
  datatype Option<+T> = None | Some(value: T)
}
