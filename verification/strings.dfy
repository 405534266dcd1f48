/** String helpers shared by the components: JavaScript's notion of white space
    (for `String.prototype.trim`), `Array.prototype.join`, `String.prototype.includes`
    and ASCII upper-casing. */
module Strings {

  /** ECMAScript WhiteSpace and LineTerminator code points, the set `trim` strips:
      TAB, VT, FF, SP, NBSP, ZWNBSP, the other Zs characters, LF, CR, LS and PS. */
  predicate IsJsWhitespace(c: char) {
    || c == '\t' || c == '\U{000B}' || c == '\U{000C}' || c == ' ' || c == '\U{00A0}'
    || c == '\U{FEFF}' || c == '\U{1680}' || ('\U{2000}' <= c <= '\U{200A}')
    || c == '\U{202F}' || c == '\U{205F}' || c == '\U{3000}'
    || c == '\n' || c == '\r' || c == '\U{2028}' || c == '\U{2029}'
  }

  /** Every character is white space (vacuously true of the empty string). */
  predicate IsBlank(s: string) {
    forall i | 0 <= i < |s| :: IsJsWhitespace(s[i])
  }

  function TrimStart(s: string): (r: string)
    ensures |r| <= |s| && r == s[|s| - |r|..]
    ensures r != [] ==> !IsJsWhitespace(r[0])
    ensures IsBlank(s[..|s| - |r|])
  {
    if s == [] || !IsJsWhitespace(s[0]) then s
    else
      var r := TrimStart(s[1..]);
      assert s[..|s| - |r|] == [s[0]] + s[1..][..|s[1..]| - |r|];
      r
  }

  function TrimEnd(s: string): (r: string)
    ensures |r| <= |s| && r == s[..|r|]
    ensures r != [] ==> !IsJsWhitespace(r[|r| - 1])
    ensures IsBlank(s[|r|..])
  {
    if s == [] || !IsJsWhitespace(s[|s| - 1]) then s
    else
      var r := TrimEnd(s[..|s| - 1]);
      assert s[|r|..] == s[..|s| - 1][|r|..] + [s[|s| - 1]];
      r
  }

  /** `String.prototype.trim`: strips white space at both ends. */
  function Trim(s: string): (r: string)
    ensures r != [] ==> !IsJsWhitespace(r[0]) && !IsJsWhitespace(r[|r| - 1])
    ensures exists i, j | 0 <= i <= j <= |s| :: r == s[i..j] && IsBlank(s[..i]) && IsBlank(s[j..])
  {
    var t := TrimStart(s);
    var r := TrimEnd(t);
    TrimSlice(s, t, r);
    r
  }

  /** The two halves of `trim` compose: a blank-prefix cut followed by a
      blank-suffix cut leaves a slice of the original between blank ends. */
  lemma TrimSlice(s: string, t: string, r: string)
    requires |t| <= |s| && t == s[|s| - |t|..] && (t != [] ==> !IsJsWhitespace(t[0])) && IsBlank(s[..|s| - |t|])
    requires |r| <= |t| && r == t[..|r|] && (r != [] ==> !IsJsWhitespace(r[|r| - 1])) && IsBlank(t[|r|..])
    ensures r != [] ==> !IsJsWhitespace(r[0]) && !IsJsWhitespace(r[|r| - 1])
    ensures exists i, j | 0 <= i <= j <= |s| :: r == s[i..j] && IsBlank(s[..i]) && IsBlank(s[j..])
  {
    var i := |s| - |t|;
    var j := i + |r|;
    assert r == s[i..j];
    assert s[j..] == t[|r|..];
    assert IsBlank(s[..i]) && IsBlank(s[j..]);
    if r != [] {
      assert r[0] == t[0];
    }
  }

  /** `!src.trim()` holds exactly for the all-white-space strings. */
  lemma TrimEmptyIffBlank(s: string)
    ensures Trim(s) == [] <==> IsBlank(s)
  {
    var t := TrimStart(s);
    if Trim(s) == [] {
      assert IsBlank(s[..|s| - |t|]);
      assert IsBlank(t[0..]);
      assert s == s[..|s| - |t|] + t;
    }
  }

  /** `xs.join(sep)`. */
  function Join(xs: seq<string>, sep: string): (r: string)
    ensures xs == [] ==> r == []
    ensures |xs| == 1 ==> r == xs[0]
    ensures |r| == TotalLength(xs) + (if xs == [] then 0 else (|xs| - 1) * |sep|)
  {
    if xs == [] then []
    else if |xs| == 1 then xs[0]
    else xs[0] + sep + Join(xs[1..], sep)
  }

  /** The summed lengths of the pieces. */
  function TotalLength(xs: seq<string>): nat {
    if xs == [] then 0 else |xs[0]| + TotalLength(xs[1..])
  }

  /** Adding one more piece appends the separator and that piece, so the pieces
      appear in order with exactly one separator between neighbours. */
  lemma {:induction false} JoinAppend(xs: seq<string>, x: string, sep: string)
    requires xs != []
    ensures Join(xs + [x], sep) == Join(xs, sep) + sep + x
    decreases |xs|
  {
    if |xs| == 1 {
      assert (xs + [x])[1..] == [x];
    } else {
      assert (xs + [x])[1..] == xs[1..] + [x];
      JoinAppend(xs[1..], x, sep);
    }
  }

  /** `sub` occurs in `s` starting at index `i`. */
  predicate OccursAt(s: string, sub: string, i: int) {
    0 <= i && i + |sub| <= |s| && s[i..i + |sub|] == sub
  }

  /** `s.includes(sub)`. */
  predicate Contains(s: string, sub: string) {
    exists i | 0 <= i <= |s| - |sub| :: OccursAt(s, sub, i)
  }

  /** `String.prototype.toUpperCase`, restricted to ASCII letters. */
  function AsciiUpper(s: string): (r: string)
    ensures |r| == |s|
    ensures forall i | 0 <= i < |s| ::
      r[i] == (if 'a' <= s[i] <= 'z' then (s[i] as int - 32) as char else s[i])
  {
    if s == [] then []
    else [if 'a' <= s[0] <= 'z' then (s[0] as int - 32) as char else s[0]] + AsciiUpper(s[1..])
  }
}
