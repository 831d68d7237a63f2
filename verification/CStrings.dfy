/** Strings in memory. */
module CStrings {
  /** A NUL-terminated string. */
  predicate CString(s: seq<char>) {
    |s| > 0 && s[|s| - 1] == '\0' && forall i :: 0 <= i < |s| - 1 ==> s[i] != '\0'
  }

  /** The string from position i on, without its NUL. */
  function From(s: seq<char>, i: int): string
    requires CString(s) && 0 <= i < |s|
  {
    s[i..|s| - 1]
  }
}
