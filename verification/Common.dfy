// What several components share.

module Common {

  datatype Option<+T> = None | Some(value: T)

  // s.rstrip(c)
  function RStrip(s: string, c: char): string
  {
    if s == [] || s[|s| - 1] != c then s else RStrip(s[..|s| - 1], c)
  }

  // c does not occur in s.
  predicate Free(s: string, c: char)
  {
    forall i :: 0 <= i < |s| ==> s[i] != c
  }
}
