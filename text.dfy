/** The string helpers of Pastor/Extensions.swift. A Swift `Character` is
    modelled as one Unicode scalar (`char`). */
module Text {

  /** `Character.isWhitespace || Character.isNewline`: the Unicode White_Space
      property, which includes every newline character. */
  predicate IsWhitespaceOrNewline(c: char)
  {
    c == ' ' || ('\t' <= c <= '\r') || c == '\U{0085}' || c == '\U{00A0}' || c == '\U{1680}'
    || ('\U{2000}' <= c <= '\U{200A}') || c == '\U{2028}' || c == '\U{2029}'
    || c == '\U{202F}' || c == '\U{205F}' || c == '\U{3000}'
  }

  /** `trimmingLeadingWhitespaceAndNewlines()`: `s` without its leading run of
      whitespace and newlines. */
  function TrimLeading(s: string): (r: string)
    ensures |r| <= |s| && r == s[|s| - |r|..]
    ensures r == [] || !IsWhitespaceOrNewline(r[0])
    ensures forall i :: 0 <= i < |s| - |r| ==> IsWhitespaceOrNewline(s[i])
  {
    if s != [] && IsWhitespaceOrNewline(s[0]) then TrimLeading(s[1..]) else s
  }

  /** The three properties in TrimLeading's contract pin its result down:
      no other suffix of `s` has them. */
  lemma {:induction false} TrimLeadingIsUnique(s: string, t: string)
    requires |t| <= |s| && t == s[|s| - |t|..]
    requires t == [] || !IsWhitespaceOrNewline(t[0])
    requires forall i :: 0 <= i < |s| - |t| ==> IsWhitespaceOrNewline(s[i])
    ensures t == TrimLeading(s)
  {
  }

  /** Trimming twice is trimming once. */
  lemma TrimLeadingIdempotent(s: string)
    ensures TrimLeading(TrimLeading(s)) == TrimLeading(s)
  {
  }

  /** A string that does not start with whitespace or a newline is unchanged. */
  lemma TrimLeadingKeepsTrimmed(s: string)
    requires s == [] || !IsWhitespaceOrNewline(s[0])
    ensures TrimLeading(s) == s
  {
  }

  /** The default `trailing` of `truncated(to:trailing:)`. */
  const Ellipsis: string := "..."

  /** `truncated(to: length, trailing:)`: a string longer than `length` is cut
      to its first `length` characters, followed by `trailing`; a shorter one
      is returned as it is. A negative `length` traps in the source
      (`index(_:offsetBy:)`), so it is excluded. */
  function Truncated(s: string, length: int, trailing: string := Ellipsis): (r: string)
    requires length >= 0
    ensures |s| <= length ==> r == s
    ensures |s| > length ==> |r| == length + |trailing|
    ensures |s| > length ==> s[..length] <= r && r[length..] == trailing
  {
    if |s| <= length then s else s[..length] + trailing
  }

  /** Truncating an already truncated string changes nothing. */
  lemma TruncatedIdempotent(s: string, length: int, trailing: string)
    requires length >= 0
    ensures Truncated(Truncated(s, length, trailing), length, trailing) == Truncated(s, length, trailing)
  {
  }

  /** With the default trailing, a truncated string is three characters
      longer than the limit. */
  lemma TruncatedDefaultLength(s: string, length: int)
    requires length >= 0
    ensures |Truncated(s, length)| == if |s| <= length then |s| else length + 3
  {
  }
}
