module Wrappers {
  datatype Option<+T> = None | Some(value: T)

  /** The characters of a C string before its NUL. */
  predicate CString(s: string) { forall i :: 0 <= i < |s| ==> s[i] != '\0' }
}
