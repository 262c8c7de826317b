/**
  The one piece of string handling the chat widget relies on: the send guard
  rejects an input whose JavaScript `trim()` is the empty string. Whitespace
  is the union of the WhiteSpace and LineTerminator productions of ECMA-262
  (sections 12.2 and 12.3 of the ECMAScript Language Specification), which
  is exactly what `String.prototype.trim` strips from both ends.
 */
module Text {

  /** WhiteSpace (TAB, VT, FF, ZWNBSP and the Unicode space separators) or
      LineTerminator (LF, CR, LS, PS). */
  predicate IsWs(c: char) {
    var n := c as int;
    || n == 0x09 || n == 0x0B || n == 0x0C || n == 0xFEFF
    || n == 0x20 || n == 0xA0 || n == 0x1680
    || (0x2000 <= n <= 0x200A)
    || n == 0x202F || n == 0x205F || n == 0x3000
    || n == 0x0A || n == 0x0D || n == 0x2028 || n == 0x2029
  }

  /** Every character of `s` is whitespace (vacuously true of ""). */
  ghost predicate AllWs(s: string) {
    forall i :: 0 <= i < |s| ==> IsWs(s[i])
  }

  /** The number of whitespace characters `s` starts with. */
  function LeadingWs(s: string): (n: nat)
    ensures n <= |s|
    ensures forall i :: 0 <= i < n ==> IsWs(s[i])
    ensures n < |s| ==> !IsWs(s[n])
  {
    if |s| > 0 && IsWs(s[0]) then 1 + LeadingWs(s[1..]) else 0
  }

  /** The number of whitespace characters `s` ends with. */
  function TrailingWs(s: string): (n: nat)
    ensures n <= |s|
    ensures forall i :: |s| - n <= i < |s| ==> IsWs(s[i])
    ensures n < |s| ==> !IsWs(s[|s| - n - 1])
  {
    if |s| > 0 && IsWs(s[|s| - 1]) then 1 + TrailingWs(s[..|s| - 1]) else 0
  }

  /** JavaScript's `String.prototype.trim`: the middle slice of `s` left
      once the whitespace at both ends is cut away. */
  function Trim(s: string): (r: string)
    ensures var lo := LeadingWs(s);
      && lo + |r| <= |s|
      && r == s[lo..lo + |r|]
      && (forall i :: 0 <= i < lo ==> IsWs(s[i]))
      && (forall i :: lo + |r| <= i < |s| ==> IsWs(s[i]))
    ensures r == [] || (!IsWs(r[0]) && !IsWs(r[|r| - 1]))
  {
    var lo := LeadingWs(s);
    var hi := if lo == |s| then |s| else |s| - TrailingWs(s);
    s[lo..hi]
  }

  /** The guard's `!input.trim()`: the trimmed text is the (falsy) empty string. */
  predicate Blank(s: string) {
    Trim(s) == []
  }

  /** An input is blank exactly when it holds no non-whitespace character. */
  lemma BlankIffAllWs(s: string)
    ensures Blank(s) <==> AllWs(s)
  {
    var r := Trim(s);
    if r != [] {
      assert s[LeadingWs(s)] == r[0];
    }
  }
}
