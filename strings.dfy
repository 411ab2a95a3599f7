/** The string helper of util.py: capitalise the first character. */
module Strings {

  function IsLowerAscii(c: char): bool {
    'a' <= c <= 'z'
  }

  /** Upper-casing of one character, over ASCII: a lower-case letter becomes its capital, anything
      else is left as it is. */
  function UpperChar(c: char): (r: char)
    ensures IsLowerAscii(c) ==> 'A' <= r <= 'Z' && r as int - 'A' as int == c as int - 'a' as int
    ensures !IsLowerAscii(c) ==> r == c
    ensures !IsLowerAscii(r)
  {
    if IsLowerAscii(c) then (c as int - 'a' as int + 'A' as int) as char else c
  }

  /** cap: the first character upper-cased, the rest untouched. The empty string has no first
      character (an index error in the source), so it is excluded. */
  function Cap(s: string): (r: string)
    requires |s| > 0
    ensures |r| == |s|
    ensures r[0] == UpperChar(s[0]) && !IsLowerAscii(r[0])
    ensures r[1..] == s[1..]
  {
    [UpperChar(s[0])] + s[1..]
  }

  /** Capitalising twice is capitalising once. */
  lemma CapIdempotent(s: string)
    requires |s| > 0
    ensures Cap(Cap(s)) == Cap(s)
  {
  }
}
