/** Definitions that the components share. */
module Basics {

  datatype Option<+T> = None | Some(value: T)

  /** Python's `str.upper`, on ASCII letters. */
  function Upper(s: string): (u: string)
    ensures |u| == |s|
  {
    seq(|s|, i requires 0 <= i < |s| => if 'a' <= s[i] <= 'z' then s[i] - 'a' + 'A' else s[i])
  }
}
