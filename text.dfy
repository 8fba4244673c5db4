/** String operations the application relies on: JavaScript's trim, a
    lower-casing for case-insensitive search, and substring containment. */
module Text {
  import opened Wrappers

  /** The characters String.prototype.trim removes: the ECMAScript
      WhiteSpace and LineTerminator code points. */
  predicate IsJsWhitespace(c: char) {
    || c == '\t' || c == '\n' || c == '\U{B}' || c == '\U{C}' || c == '\r'
    || c == ' ' || c == '\U{A0}' || c == '\U{1680}'
    || ('\U{2000}' <= c <= '\U{200A}')
    || c == '\U{2028}' || c == '\U{2029}' || c == '\U{202F}' || c == '\U{205F}'
    || c == '\U{3000}' || c == '\U{FEFF}'
  }

  /** Every character of `s` is whitespace (the empty string included). */
  predicate IsBlank(s: string) {
    forall i :: 0 <= i < |s| ==> IsJsWhitespace(s[i])
  }

  /** Removes leading whitespace: the result is the suffix of `s` that
      starts at its first non-whitespace character. */
  function TrimStart(s: string): (r: string)
    ensures |r| <= |s| && r == s[|s| - |r|..]
    ensures forall i :: 0 <= i < |s| - |r| ==> IsJsWhitespace(s[i])
    ensures r != [] ==> !IsJsWhitespace(r[0])
  {
    if s != [] && IsJsWhitespace(s[0]) then TrimStart(s[1..]) else s
  }

  /** Removes trailing whitespace: the result is the prefix of `s` that
      ends at its last non-whitespace character. */
  function TrimEnd(s: string): (r: string)
    ensures |r| <= |s| && r == s[..|r|]
    ensures forall i :: |r| <= i < |s| ==> IsJsWhitespace(s[i])
    ensures r != [] ==> !IsJsWhitespace(r[|r| - 1])
  {
    if s != [] && IsJsWhitespace(s[|s| - 1]) then TrimEnd(s[..|s| - 1]) else s
  }

  /** String.prototype.trim. It yields the empty string exactly when `s`
      is blank, and otherwise a slice of `s` with non-whitespace ends. */
  function Trim(s: string): (r: string)
    ensures r == [] <==> IsBlank(s)
    ensures r != [] ==> !IsJsWhitespace(r[0]) && !IsJsWhitespace(r[|r| - 1])
    ensures |r| <= |s|
  {
    var t := TrimStart(s);
    var r := TrimEnd(t);
    assert r == [] ==> IsBlank(s) by {
      if r == [] {
        forall i | 0 <= i < |s| ensures IsJsWhitespace(s[i]) {
          if i >= |s| - |t| {
            assert s[i] == t[i - (|s| - |t|)];
          }
        }
      }
    }
    r
  }

  /** ASCII lower-casing of one character. */
  function LowerChar(c: char): char {
    if 'A' <= c <= 'Z' then (c as int + 32) as char else c
  }

  /** Lower-casing of a string, character by character. */
  function Lower(s: string): string {
    seq(|s|, i requires 0 <= i < |s| => LowerChar(s[i]))
  }

  /** String.prototype.includes: `t` occurs in `s` at some position. */
  predicate Contains(s: string, t: string) {
    exists i | 0 <= i <= |s| :: t <= s[i..]
  }

  /** The case-insensitive containment used by both the client-side search
      and the server's `contains` with `mode: 'insensitive'`. */
  predicate ContainsIgnoringCase(s: string, t: string) {
    Contains(Lower(s), Lower(t))
  }

  /** Lower-casing a second time changes nothing. */
  lemma LowerIdempotent(s: string)
    ensures Lower(Lower(s)) == Lower(s)
  {
    forall i | 0 <= i < |s|
      ensures Lower(Lower(s))[i] == Lower(s)[i]
    {
    }
  }

  /** Lower-casing commutes with taking a slice. */
  lemma LowerSlice(s: string, i: nat, j: nat)
    requires i <= j <= |s|
    ensures Lower(s[i..j]) == Lower(s)[i..j]
  {
  }

  /** The case of the search term does not matter. */
  lemma IgnoringCaseIgnoresTermCase(s: string, t: string)
    ensures ContainsIgnoringCase(s, Lower(t)) == ContainsIgnoringCase(s, t)
  {
    LowerIdempotent(t);
  }

  /** Whatever occurs verbatim is also found ignoring case. */
  lemma ExactOccurrenceFoundIgnoringCase(s: string, t: string)
    requires Contains(s, t)
    ensures ContainsIgnoringCase(s, t)
  {
    var i :| 0 <= i <= |s| && t <= s[i..];
    assert s[i..i + |t|] == t;
    LowerSlice(s, i, i + |t|);
    assert Lower(t) <= Lower(s)[i..];
  }

  /** The JavaScript idiom `message || fallback` for an optional string:
      a missing or empty message falls back. */
  function OrElse(message: Option<string>, fallback: string): string {
    if message.Some? && message.value != "" then message.value else fallback
  }
}
