/** Option and result types shared by the shop model. */
module Common {

  datatype Option<+T> = None | Some(value: T)

  /** The outcome of an operation that the source either completes or
      abandons by raising an exception carrying a message. */
  datatype Result<+R, +E> = Success(value: R) | Failure(error: E)

  /** `s` begins with `p`. */
  predicate StartsWith(s: string, p: string)
  {
    |p| <= |s| && s[..|p|] == p
  }
}
