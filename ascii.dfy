/** ASCII letter case, as the C library's toupper and strnicmp see it. */
module Ascii {

  function Upper(c: char): (u: char)
    ensures !('a' <= u <= 'z')
  {
    if 'a' <= c <= 'z' then (c as int - 'a' as int + 'A' as int) as char else c
  }

  function UpperString(s: string): (u: string)
    ensures |u| == |s|
    ensures forall k | 0 <= k < |s| :: u[k] == Upper(s[k])
  {
    seq(|s|, k requires 0 <= k < |s| => Upper(s[k]))
  }

  /** Upper-casing is idempotent. */
  lemma UpperStringIdempotent(s: string)
    ensures UpperString(UpperString(s)) == UpperString(s)
  {
  }
}
