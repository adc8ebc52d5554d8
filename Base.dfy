/** Option and Result values shared by every module of the model. */
module Base {

  datatype Option<+T> = None | Some(value: T)

  /** The outcome of an operation that the source lets throw: a value or the thrown error. */
  datatype Result<+R, +E> = Ok(value: R) | Err(error: E)

  /** True iff `p` is a prefix of `s` (String.prototype.startsWith). */
  predicate StartsWith(s: string, p: string) {
    |p| <= |s| && s[..|p|] == p
  }

  /** JavaScript's `x || d` for a string that may be missing: the empty string is falsy too. */
  function OrDefault(x: Option<string>, d: string): (r: string)
    ensures x.Some? && x.value != "" ==> r == x.value
    ensures x.None? || x.value == "" ==> r == d
  {
    if x.Some? && x.value != "" then x.value else d
  }
}
