/** Case-insensitive comparison as strcasecmp does it in the C locale. */
module Ascii {
  function Lower(c: char): char { if 'A' <= c <= 'Z' then (c as int + 32) as char else c }

  predicate SameFold(s: string, t: string) { |s| == |t| && forall i :: 0 <= i < |s| ==> Lower(s[i]) == Lower(t[i]) }

  /** The first `n` characters: what strncasecmp looks at. */
  function Upto(s: string, n: nat): string { if |s| <= n then s else s[..n] }
}
