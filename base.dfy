/** Small definitions shared by the other modules of the model. */
module Base {

  datatype Option<T> = None | Some(value: T)

  /** JavaScript's `String.prototype.startsWith` with a literal prefix. */
  predicate StartsWith(s: string, prefix: string)
  {
    |prefix| <= |s| && s[..|prefix|] == prefix
  }
}
