/** The escaper the JavaScript preview applies to user code before pasting it
    between the quotes of `eval('...')`, and a scanner for the single-quoted
    string-literal grammar of ECMA-262 (section 12.9.4, String Literals, 2023
    edition) against which the escaper is proved correct. */
module JsLiteral {
  import opened Wrappers

  const Backslash: char := '\\'
  const Quote: char := '\''
  const LF: char := '\n'
  const CR: char := '\r'
  const Tab: char := '\t'

  // ---------------------------------------------------------------------------
  // The escape chain, one function per `.replace(regex, replacement)` pass
  // ---------------------------------------------------------------------------

  /** A global one-character replace: every `c` becomes `r`. */
  function ReplaceChar(s: string, c: char, r: string): (t: string)
  {
    if s == [] then []
    else (if s[0] == c then r else [s[0]]) + ReplaceChar(s[1..], c, r)
  }

  /** `.replace(/\${/g, '\\${')`: every `${` gets a backslash in front, matches
      taken left to right without overlap. */
  function EscapeInterpolations(s: string): string {
    if s == [] then []
    else if |s| >= 2 && s[0] == '$' && s[1] == '{' then "\\${" + EscapeInterpolations(s[2..])
    else [s[0]] + EscapeInterpolations(s[1..])
  }

  /** `.replace(/\r?\n/g, '\\n')`: a CR LF pair or a lone LF becomes the two
      characters backslash and `n`; a CR not followed by LF is left alone. */
  function EscapeNewlines(s: string): (t: string)
    ensures LF !in t
  {
    if s == [] then []
    else if |s| >= 2 && s[0] == CR && s[1] == LF then "\\n" + EscapeNewlines(s[2..])
    else if s[0] == LF then "\\n" + EscapeNewlines(s[1..])
    else [s[0]] + EscapeNewlines(s[1..])
  }

  /** The first four passes: backslash, single quote, double quote and backtick
      each get a backslash in front. Backslashes go first, so the backslashes
      added by the later passes are not doubled. */
  function EscapeQuotes(code: string): string {
    var s1 := ReplaceChar(code, Backslash, "\\\\");
    var s2 := ReplaceChar(s1, Quote, "\\'");
    var s3 := ReplaceChar(s2, '"', "\\\"");
    ReplaceChar(s3, '`', "\\`")
  }

  /** The whole chain, in the order the preview applies it. */
  function Escape(code: string): string {
    var s5 := EscapeInterpolations(EscapeQuotes(code));
    var s6 := EscapeNewlines(s5);
    ReplaceChar(s6, Tab, "\\t")
  }

  // ---------------------------------------------------------------------------
  // A one-pass reference for the chain
  // ---------------------------------------------------------------------------

  /** What the first four passes make of one character. */
  function QuoteEscape(c: char): string {
    if c == Backslash || c == Quote || c == '"' || c == '`' then [Backslash, c] else [c]
  }

  /** What the whole chain makes of one character outside a `${` or CR LF pair. */
  function EscapeChar(c: char): string {
    if c == LF then "\\n"
    else if c == Tab then "\\t"
    else QuoteEscape(c)
  }

  /** The chain as a single left-to-right pass. */
  function EscapeRef(s: string): string {
    if s == [] then []
    else if |s| >= 2 && s[0] == CR && s[1] == LF then "\\n" + EscapeRef(s[2..])
    else if |s| >= 2 && s[0] == '$' && s[1] == '{' then "\\$" + EscapeRef(s[1..])
    else EscapeChar(s[0]) + EscapeRef(s[1..])
  }

  lemma {:induction false} ReplaceCharAppend(a: string, b: string, c: char, r: string)
    ensures ReplaceChar(a + b, c, r) == ReplaceChar(a, c, r) + ReplaceChar(b, c, r)
    decreases |a|
  {
    if a == [] {
      assert a + b == b;
    } else {
      assert (a + b)[0] == a[0];
      assert (a + b)[1..] == a[1..] + b;
      ReplaceCharAppend(a[1..], b, c, r);
    }
  }

  lemma ReplaceCharAbsent(p: string, c: char, r: string)
    requires c !in p
    ensures ReplaceChar(p, c, r) == p
  {
  }

  lemma ReplaceCharSingle(x: char, c: char, r: string)
    ensures ReplaceChar([x], c, r) == if x == c then r else [x]
  {
    assert [x][1..] == [];
  }

  lemma ReplaceCharPair(x: char, y: char, c: char, r: string)
    ensures ReplaceChar([x, y], c, r) == ReplaceChar([x], c, r) + ReplaceChar([y], c, r)
  {
    ReplaceCharAppend([x], [y], c, r);
    assert [x] + [y] == [x, y];
  }

  lemma EscapeQuotesCons(c: char, t: string)
    ensures EscapeQuotes([c] + t) == QuoteEscape(c) + EscapeQuotes(t)
  {
    ReplaceCharAppend([c], t, Backslash, "\\\\");
    ReplaceCharSingle(c, Backslash, "\\\\");
    var s1 := ReplaceChar([c], Backslash, "\\\\");
    var t1 := ReplaceChar(t, Backslash, "\\\\");
    ReplaceCharAppend(s1, t1, Quote, "\\'");
    var s2 := ReplaceChar(s1, Quote, "\\'");
    var t2 := ReplaceChar(t1, Quote, "\\'");
    ReplaceCharAppend(s2, t2, '"', "\\\"");
    var s3 := ReplaceChar(s2, '"', "\\\"");
    var t3 := ReplaceChar(t2, '"', "\\\"");
    ReplaceCharAppend(s3, t3, '`', "\\`");
    var s4 := ReplaceChar(s3, '`', "\\`");
    if c == Backslash {
      ReplaceCharPair(Backslash, Backslash, Quote, "\\'");
      ReplaceCharSingle(Backslash, Quote, "\\'");
      ReplaceCharPair(Backslash, Backslash, '"', "\\\"");
      ReplaceCharSingle(Backslash, '"', "\\\"");
      ReplaceCharPair(Backslash, Backslash, '`', "\\`");
      ReplaceCharSingle(Backslash, '`', "\\`");
    } else {
      ReplaceCharSingle(c, Quote, "\\'");
      if c == Quote {
        ReplaceCharPair(Backslash, Quote, '"', "\\\"");
        ReplaceCharSingle(Backslash, '"', "\\\"");
        ReplaceCharSingle(Quote, '"', "\\\"");
        ReplaceCharPair(Backslash, Quote, '`', "\\`");
        ReplaceCharSingle(Backslash, '`', "\\`");
        ReplaceCharSingle(Quote, '`', "\\`");
      } else {
        ReplaceCharSingle(c, '"', "\\\"");
        if c == '"' {
          ReplaceCharPair(Backslash, '"', '`', "\\`");
          ReplaceCharSingle(Backslash, '`', "\\`");
          ReplaceCharSingle('"', '`', "\\`");
        } else {
          ReplaceCharSingle(c, '`', "\\`");
        }
      }
    }
    assert s4 == QuoteEscape(c);
  }

  /** A prefix free of `$` passes through the interpolation pass unchanged. */
  lemma {:induction false} EscapeInterpolationsPrefix(p: string, x: string)
    requires '$' !in p
    ensures EscapeInterpolations(p + x) == p + EscapeInterpolations(x)
    decreases |p|
  {
    if p == [] {
      assert p + x == x;
    } else {
      assert (p + x)[0] == p[0];
      assert (p + x)[1..] == p[1..] + x;
      EscapeInterpolationsPrefix(p[1..], x);
      assert p == [p[0]] + p[1..];
    }
  }

  /** A prefix free of CR and LF passes through the newline pass unchanged. */
  lemma {:induction false} EscapeNewlinesPrefix(p: string, x: string)
    requires CR !in p && LF !in p
    ensures EscapeNewlines(p + x) == p + EscapeNewlines(x)
    decreases |p|
  {
    if p == [] {
      assert p + x == x;
    } else {
      assert (p + x)[0] == p[0];
      assert (p + x)[1..] == p[1..] + x;
      EscapeNewlinesPrefix(p[1..], x);
      assert p == [p[0]] + p[1..];
    }
  }

  /** The first character of the quote passes' output is a backslash or the
      first input character. */
  lemma EscapeQuotesHead(t: string)
    ensures t == [] <==> EscapeQuotes(t) == []
    ensures t != [] ==> EscapeQuotes(t)[0] == QuoteEscape(t[0])[0]
  {
    if t != [] {
      EscapeQuotesCons(t[0], t[1..]);
      assert t == [t[0]] + t[1..];
    } else {
      assert EscapeQuotes(t) == [];
    }
  }

  /** One character (not part of a `${` or CR LF pair) through the
      interpolation pass. */
  lemma InterpolationStep(c: char, q: string)
    requires c == '$' ==> q == [] || q[0] != '{'
    ensures EscapeInterpolations(QuoteEscape(c) + q) == QuoteEscape(c) + EscapeInterpolations(q)
  {
    var p := QuoteEscape(c);
    if c == '$' {
      assert p == ['$'];
      assert (p + q)[1..] == q;
    } else {
      EscapeInterpolationsPrefix(p, q);
    }
  }

  /** The interpolation pass keeps a leading LF in place. */
  lemma InterpolationHead(q: string)
    ensures (q != [] && q[0] == LF) <==> (EscapeInterpolations(q) != [] && EscapeInterpolations(q)[0] == LF)
  {
  }

  /** One character (not the CR of a CR LF pair) through the newline pass. */
  lemma NewlineStep(c: char, y: string)
    requires c == CR ==> y == [] || y[0] != LF
    ensures EscapeNewlines(QuoteEscape(c) + y)
         == (if c == LF then "\\n" else QuoteEscape(c)) + EscapeNewlines(y)
  {
    var p := QuoteEscape(c);
    if c == LF || c == CR {
      assert p == [c];
      assert (p + y)[1..] == y;
    } else {
      EscapeNewlinesPrefix(p, y);
    }
  }

  /** A piece of one or two characters through the tab pass. */
  lemma TabStep(n: string, z: string)
    requires 1 <= |n| <= 2
    ensures ReplaceChar(n + z, Tab, "\\t")
         == ReplaceChar([n[0]], Tab, "\\t") + (if |n| == 2 then ReplaceChar([n[1]], Tab, "\\t") else []) + ReplaceChar(z, Tab, "\\t")
  {
    ReplaceCharAppend(n, z, Tab, "\\t");
    if |n| == 2 {
      assert n == [n[0], n[1]];
      ReplaceCharPair(n[0], n[1], Tab, "\\t");
    } else {
      assert n == [n[0]];
    }
  }

  lemma EscapeStepCRLF(t: string)
    ensures Escape([CR, LF] + t) == "\\n" + Escape(t)
  {
    QuotePassesCRLF(t);
    NewlineTabPassesCRLF(EscapeInterpolations(EscapeQuotes(t)));
  }

  /** The quote and interpolation passes copy a leading CR LF. */
  lemma QuotePassesCRLF(t: string)
    ensures EscapeInterpolations(EscapeQuotes([CR, LF] + t)) == [CR, LF] + EscapeInterpolations(EscapeQuotes(t))
  {
    EscapeQuotesCons(CR, [LF] + t);
    EscapeQuotesCons(LF, t);
    assert [CR, LF] + t == [CR] + ([LF] + t);
    var q := EscapeQuotes(t);
    assert EscapeQuotes([CR, LF] + t) == [CR, LF] + q;
    EscapeInterpolationsPrefix([CR, LF], q);
  }

  /** The newline and tab passes turn a leading CR LF into `\n`. */
  lemma NewlineTabPassesCRLF(y: string)
    ensures ReplaceChar(EscapeNewlines([CR, LF] + y), Tab, "\\t") == "\\n" + ReplaceChar(EscapeNewlines(y), Tab, "\\t")
  {
    assert ([CR, LF] + y)[2..] == y;
    assert EscapeNewlines([CR, LF] + y) == "\\n" + EscapeNewlines(y);
    TabStep("\\n", EscapeNewlines(y));
    ReplaceCharSingle(Backslash, Tab, "\\t");
    ReplaceCharSingle('n', Tab, "\\t");
  }

  lemma EscapeStepInterpolation(t: string)
    ensures Escape(['$', '{'] + t) == "\\${" + Escape(t)
  {
    EscapeQuotesCons('$', ['{'] + t);
    EscapeQuotesCons('{', t);
    assert ['$', '{'] + t == ['$'] + (['{'] + t);
    var q := EscapeQuotes(t);
    assert EscapeQuotes(['$', '{'] + t) == "${" + q;
    assert ("${" + q)[2..] == q;
    var y := EscapeInterpolations(q);
    assert EscapeInterpolations("${" + q) == "\\${" + y;
    EscapeNewlinesPrefix("\\${", y);
    var z := EscapeNewlines(y);
    ReplaceCharAppend("\\${", z, Tab, "\\t");
    ReplaceCharAbsent("\\${", Tab, "\\t");
  }

  /** The quote and interpolation passes keep a first character other than LF
      away from LF. */
  lemma HeadStaysOffLF(t: string)
    requires t == [] || t[0] != LF
    ensures var y := EscapeInterpolations(EscapeQuotes(t)); y == [] || y[0] != LF
  {
    EscapeQuotesHead(t);
    InterpolationHead(EscapeQuotes(t));
  }

  /** The tab pass over the piece the newline pass made of one character. */
  lemma TabPiece(c: char, z: string)
    ensures ReplaceChar((if c == LF then "\\n" else QuoteEscape(c)) + z, Tab, "\\t")
         == EscapeChar(c) + ReplaceChar(z, Tab, "\\t")
  {
    var n := if c == LF then "\\n" else QuoteEscape(c);
    TabStep(n, z);
    ReplaceCharSingle(n[0], Tab, "\\t");
    if |n| == 2 {
      ReplaceCharSingle(n[1], Tab, "\\t");
    }
  }

  lemma EscapeStepChar(c: char, t: string)
    requires c == CR ==> t == [] || t[0] != LF
    requires c == '$' ==> t == [] || t[0] != '{'
    ensures Escape([c] + t) == EscapeChar(c) + Escape(t)
  {
    var p := QuoteEscape(c);
    var q := EscapeQuotes(t);
    var y := EscapeInterpolations(q);
    var z := EscapeNewlines(y);
    EscapeQuotesCons(c, t);
    assert EscapeQuotes([c] + t) == p + q;
    InterpolationStep(c, q);
    assert EscapeInterpolations(p + q) == p + y;
    if c == CR {
      HeadStaysOffLF(t);
    }
    NewlineStep(c, y);
    assert EscapeNewlines(p + y) == (if c == LF then "\\n" else p) + z;
    TabPiece(c, z);
  }

  lemma EscapeRefCRLF(t: string)
    ensures EscapeRef([CR, LF] + t) == "\\n" + EscapeRef(t)
  {
    assert ([CR, LF] + t)[2..] == t;
  }

  lemma EscapeRefInterpolation(t: string)
    ensures EscapeRef(['$', '{'] + t) == "\\${" + EscapeRef(t)
  {
    var s := ['$', '{'] + t;
    assert s[1..] == ['{'] + t;
    assert s[1..][1..] == t;
  }

  lemma EscapeRefChar(c: char, t: string)
    requires c == CR ==> t == [] || t[0] != LF
    requires c == '$' ==> t == [] || t[0] != '{'
    ensures EscapeRef([c] + t) == EscapeChar(c) + EscapeRef(t)
  {
    assert ([c] + t)[1..] == t;
  }

  /** The chain and the one-pass reference agree on every input. */
  lemma {:induction false} EscapeIsEscapeRef(s: string)
    ensures Escape(s) == EscapeRef(s)
    decreases |s|
  {
    if s == [] {
      assert EscapeQuotes(s) == [];
    } else if |s| >= 2 && s[0] == CR && s[1] == LF {
      var t := s[2..];
      assert s == [CR, LF] + t;
      EscapeStepCRLF(t);
      EscapeRefCRLF(t);
      EscapeIsEscapeRef(t);
    } else if |s| >= 2 && s[0] == '$' && s[1] == '{' {
      var t := s[2..];
      assert s == ['$', '{'] + t;
      EscapeStepInterpolation(t);
      EscapeRefInterpolation(t);
      EscapeIsEscapeRef(t);
    } else {
      var t := s[1..];
      assert s == [s[0]] + t;
      EscapeStepChar(s[0], t);
      EscapeRefChar(s[0], t);
      EscapeIsEscapeRef(t);
    }
  }

  // ---------------------------------------------------------------------------
  // The single-quoted string literal grammar
  // ---------------------------------------------------------------------------

  predicate IsDecimalDigit(c: char) {
    '0' <= c <= '9'
  }

  predicate IsHexDigit(c: char) {
    '0' <= c <= '9' || 'a' <= c <= 'f' || 'A' <= c <= 'F'
  }

  function HexValue(c: char): (v: nat)
    requires IsHexDigit(c)
    ensures v < 16
  {
    if '0' <= c <= '9' then c as int - '0' as int
    else if 'a' <= c <= 'f' then c as int - 'a' as int + 10
    else c as int - 'A' as int + 10
  }

  /** An escape body that has been read: the characters it stands for and how many
      characters after the backslash it spans. */
  datatype Escaped = Escaped(chars: string, width: nat)

  /** Reads the escape sequence that follows a backslash. `None` for a sequence the
      grammar rejects (`\x` or `\u` without enough hex digits) and for the forms
      this model leaves out: legacy octal and `\8`/`\9` escapes, `\u{...}` and
      `\u` escapes naming a lone surrogate. */
  function ReadEscape(u: string): (r: Option<Escaped>)
    requires |u| >= 1
    ensures r.Some? ==> 1 <= r.value.width <= |u|
  {
    var c := u[0];
    // SingleEscapeCharacter
    if c == Quote || c == '"' || c == Backslash then Some(Escaped([c], 1))
    else if c == 'b' then Some(Escaped("\U{0008}", 1))
    else if c == 'f' then Some(Escaped("\U{000C}", 1))
    else if c == 'n' then Some(Escaped([LF], 1))
    else if c == 'r' then Some(Escaped([CR], 1))
    else if c == 't' then Some(Escaped([Tab], 1))
    else if c == 'v' then Some(Escaped("\U{000B}", 1))
    // LineContinuation
    else if c == CR then Some(Escaped([], if |u| >= 2 && u[1] == LF then 2 else 1))
    else if c == LF || c == '\U{2028}' || c == '\U{2029}' then Some(Escaped([], 1))
    // \0 [lookahead not a DecimalDigit]
    else if c == '0' && (|u| == 1 || !IsDecimalDigit(u[1])) then Some(Escaped("\U{0000}", 1))
    else if IsDecimalDigit(c) then None
    // HexEscapeSequence
    else if c == 'x' then
      if |u| >= 3 && IsHexDigit(u[1]) && IsHexDigit(u[2])
      then Some(Escaped([(16 * HexValue(u[1]) + HexValue(u[2])) as char], 3))
      else None
    // UnicodeEscapeSequence, four-digit form
    else if c == 'u' then
      if |u| >= 5 && IsHexDigit(u[1]) && IsHexDigit(u[2]) && IsHexDigit(u[3]) && IsHexDigit(u[4]) then
        var v := 4096 * HexValue(u[1]) + 256 * HexValue(u[2]) + 16 * HexValue(u[3]) + HexValue(u[4]);
        if 0xD800 <= v < 0xE000 then None else Some(Escaped([v as char], 5))
      else None
    // NonEscapeCharacter
    else Some(Escaped([c], 1))
  }

  /** A literal body that has been read: its string value, and the index of the
      quote that closes it. */
  datatype Scanned = Scanned(value: string, close: nat)

  /** Reads `SingleStringCharacters` from the start of `t` up to the closing `'`.
      `None` when the literal is malformed: it runs into a raw CR or LF, an
      unreadable escape, or the end of the text. */
  function ScanLiteralBody(t: string): (r: Option<Scanned>)
    ensures r.Some? ==> r.value.close < |t| && t[r.value.close] == Quote
    decreases |t|
  {
    if t == [] then None
    else if t[0] == Quote then Some(Scanned([], 0))
    else if t[0] == LF || t[0] == CR then None
    else if t[0] == Backslash then
      if |t| < 2 then None
      else
        match ReadEscape(t[1..])
        case None => None
        case Some(e) =>
          match ScanLiteralBody(t[1 + e.width..])
          case None => None
          case Some(rest) => Some(Scanned(e.chars + rest.value, 1 + e.width + rest.close))
    else
      match ScanLiteralBody(t[1..])
      case None => None
      case Some(rest) => Some(Scanned([t[0]] + rest.value, 1 + rest.close))
  }

  // ---------------------------------------------------------------------------
  // Round trip
  // ---------------------------------------------------------------------------

  /** Every CR is the first half of a CR LF pair. */
  predicate NoLoneCR(s: string) {
    forall i | 0 <= i < |s| && s[i] == CR :: i + 1 < |s| && s[i + 1] == LF
  }

  /** The text with every CR LF pair replaced by a single LF. */
  function NormalizeNewlines(s: string): string {
    if s == [] then []
    else if |s| >= 2 && s[0] == CR && s[1] == LF then [LF] + NormalizeNewlines(s[2..])
    else [s[0]] + NormalizeNewlines(s[1..])
  }

  lemma NoLoneCRSuffix(s: string, k: nat)
    requires NoLoneCR(s) && k <= |s|
    ensures NoLoneCR(s[k..])
  {
    forall i | 0 <= i < |s[k..]| && s[k..][i] == CR
      ensures i + 1 < |s[k..]| && s[k..][i + 1] == LF
    {
      assert s[k + i] == CR;
    }
  }

  /** Scanning one escape piece followed by more text. */
  lemma ScanAfterEscape(c: char, v: char, x: string)
    requires ReadEscape([c] + x) == Some(Escaped([v], 1))
    requires ScanLiteralBody(x).Some?
    ensures ScanLiteralBody([Backslash, c] + x)
         == Some(Scanned([v] + ScanLiteralBody(x).value.value, 2 + ScanLiteralBody(x).value.close))
  {
    var t := [Backslash, c] + x;
    assert t[0] == Backslash && |t| >= 2;
    assert t[1..] == [c] + x;
    assert t[1 + 1..] == x;
  }

  lemma ScanAfterRaw(c: char, x: string)
    requires c != Quote && c != Backslash && c != LF && c != CR
    requires ScanLiteralBody(x).Some?
    ensures ScanLiteralBody([c] + x)
         == Some(Scanned([c] + ScanLiteralBody(x).value.value, 1 + ScanLiteralBody(x).value.close))
  {
    assert ([c] + x)[1..] == x;
  }

  /** The round-trip step for a two-character escape piece. */
  lemma RoundTripEscapeStep(c: char, v: char, t: string, rest: string)
    requires ReadEscape([c] + (EscapeRef(t) + [Quote] + rest)) == Some(Escaped([v], 1))
    requires ScanLiteralBody(EscapeRef(t) + [Quote] + rest) == Some(Scanned(NormalizeNewlines(t), |EscapeRef(t)|))
    ensures ScanLiteralBody([Backslash, c] + EscapeRef(t) + [Quote] + rest)
         == Some(Scanned([v] + NormalizeNewlines(t), 2 + |EscapeRef(t)|))
  {
    var x := EscapeRef(t) + [Quote] + rest;
    ScanAfterEscape(c, v, x);
    assert [Backslash, c] + EscapeRef(t) + [Quote] + rest == [Backslash, c] + x;
  }

  lemma RoundTripCRLF(s: string, rest: string)
    requires |s| >= 2 && s[0] == CR && s[1] == LF
    requires ScanLiteralBody(EscapeRef(s[2..]) + [Quote] + rest)
          == Some(Scanned(NormalizeNewlines(s[2..]), |EscapeRef(s[2..])|))
    ensures ScanLiteralBody(EscapeRef(s) + [Quote] + rest)
         == Some(Scanned(NormalizeNewlines(s), |EscapeRef(s)|))
  {
    var t := s[2..];
    assert EscapeRef(s) == [Backslash, 'n'] + EscapeRef(t);
    assert NormalizeNewlines(s) == [LF] + NormalizeNewlines(t);
    RoundTripEscapeStep('n', LF, t, rest);
  }

  lemma RoundTripInterpolation(s: string, rest: string)
    requires |s| >= 2 && s[0] == '$' && s[1] == '{'
    requires ScanLiteralBody(EscapeRef(s[1..]) + [Quote] + rest)
          == Some(Scanned(NormalizeNewlines(s[1..]), |EscapeRef(s[1..])|))
    ensures ScanLiteralBody(EscapeRef(s) + [Quote] + rest)
         == Some(Scanned(NormalizeNewlines(s), |EscapeRef(s)|))
  {
    var t := s[1..];
    assert EscapeRef(s) == [Backslash, '$'] + EscapeRef(t);
    assert NormalizeNewlines(s) == ['$'] + NormalizeNewlines(t);
    RoundTripEscapeStep('$', '$', t, rest);
  }

  /** The characters the chain turns into a two-character escape, and the escape
      letter it uses for each. */
  function EscapeLetter(c: char): char {
    if c == LF then 'n' else if c == Tab then 't' else c
  }

  lemma ReadSingleEscape(c: char, x: string)
    requires c == LF || c == Tab || c == Backslash || c == Quote || c == '"' || c == '`'
    ensures EscapeChar(c) == [Backslash, EscapeLetter(c)]
    ensures ReadEscape([EscapeLetter(c)] + x) == Some(Escaped([c], 1))
  {
  }

  /** The round-trip step for a character the chain escapes. */
  lemma RoundTripEscapedChar(c: char, t: string, rest: string)
    requires c == LF || c == Tab || c == Backslash || c == Quote || c == '"' || c == '`'
    requires ScanLiteralBody(EscapeRef(t) + [Quote] + rest) == Some(Scanned(NormalizeNewlines(t), |EscapeRef(t)|))
    ensures ScanLiteralBody(EscapeChar(c) + EscapeRef(t) + [Quote] + rest)
         == Some(Scanned([c] + NormalizeNewlines(t), |EscapeChar(c)| + |EscapeRef(t)|))
  {
    ReadSingleEscape(c, EscapeRef(t) + [Quote] + rest);
    RoundTripEscapeStep(EscapeLetter(c), c, t, rest);
  }

  /** The round-trip step for a character the chain copies. */
  lemma RoundTripRawChar(c: char, t: string, rest: string)
    requires c != CR && c != LF && c != Tab && c != Backslash && c != Quote && c != '"' && c != '`'
    requires ScanLiteralBody(EscapeRef(t) + [Quote] + rest) == Some(Scanned(NormalizeNewlines(t), |EscapeRef(t)|))
    ensures ScanLiteralBody(EscapeChar(c) + EscapeRef(t) + [Quote] + rest)
         == Some(Scanned([c] + NormalizeNewlines(t), |EscapeChar(c)| + |EscapeRef(t)|))
  {
    assert EscapeChar(c) == [c];
    var x := EscapeRef(t) + [Quote] + rest;
    ScanAfterRaw(c, x);
    assert EscapeChar(c) + EscapeRef(t) + [Quote] + rest == [c] + x;
  }

  lemma RoundTripChar(s: string, rest: string)
    requires s != [] && s[0] != CR
    requires !(|s| >= 2 && s[0] == '$' && s[1] == '{')
    requires ScanLiteralBody(EscapeRef(s[1..]) + [Quote] + rest)
          == Some(Scanned(NormalizeNewlines(s[1..]), |EscapeRef(s[1..])|))
    ensures ScanLiteralBody(EscapeRef(s) + [Quote] + rest)
         == Some(Scanned(NormalizeNewlines(s), |EscapeRef(s)|))
  {
    var c, t := s[0], s[1..];
    assert s == [c] + t;
    EscapeRefChar(c, t);
    assert NormalizeNewlines(s) == [c] + NormalizeNewlines(t);
    if c == LF || c == Tab || c == Backslash || c == Quote || c == '"' || c == '`' {
      RoundTripEscapedChar(c, t, rest);
    } else {
      RoundTripRawChar(c, t, rest);
    }
  }

  lemma {:induction false} EscapeRefRoundTrip(s: string, rest: string)
    requires NoLoneCR(s)
    ensures ScanLiteralBody(EscapeRef(s) + [Quote] + rest)
         == Some(Scanned(NormalizeNewlines(s), |EscapeRef(s)|))
    decreases |s|
  {
    if s == [] {
      assert EscapeRef(s) + [Quote] + rest == [Quote] + rest;
    } else if |s| >= 2 && s[0] == CR && s[1] == LF {
      NoLoneCRSuffix(s, 2);
      EscapeRefRoundTrip(s[2..], rest);
      RoundTripCRLF(s, rest);
    } else if |s| >= 2 && s[0] == '$' && s[1] == '{' {
      NoLoneCRSuffix(s, 1);
      EscapeRefRoundTrip(s[1..], rest);
      RoundTripInterpolation(s, rest);
    } else {
      NoLoneCRSuffix(s, 1);
      EscapeRefRoundTrip(s[1..], rest);
      RoundTripChar(s, rest);
    }
  }

  /** Scanning the escaped code followed by a quote reads back the code, with each
      CR LF pair turned into LF, and stops at exactly that quote: the literal
      closes at its own quote and nowhere inside the user's code. */
  lemma EscapeRoundTrip(s: string, rest: string)
    requires NoLoneCR(s)
    ensures ScanLiteralBody(Escape(s) + [Quote] + rest) == Some(Scanned(NormalizeNewlines(s), |Escape(s)|))
  {
    EscapeIsEscapeRef(s);
    EscapeRefRoundTrip(s, rest);
  }

  /** A CR at index `i` that does not start a CR LF pair. */
  predicate LoneCRAt(s: string, i: int) {
    0 <= i < |s| && s[i] == CR && !(i + 1 < |s| && s[i + 1] == LF)
  }

  lemma LoneCRSuffix(s: string, i: int, k: nat)
    requires LoneCRAt(s, i) && k <= i
    ensures !NoLoneCR(s[k..])
  {
    assert LoneCRAt(s[k..], i - k);
  }

  /** A failed scan stays failed behind a one-character escape. */
  lemma ScanAfterEscapeFails(c: char, x: string)
    requires ReadEscape([c] + x).Some? && ReadEscape([c] + x).value.width == 1
    requires ScanLiteralBody(x).None?
    ensures ScanLiteralBody([Backslash, c] + x).None?
  {
    var t := [Backslash, c] + x;
    assert t[1..] == [c] + x;
    assert t[1 + 1..] == x;
  }

  /** A failed scan stays failed behind a plain character. */
  lemma ScanAfterRawFails(c: char, x: string)
    requires c != Quote && c != Backslash && c != LF && c != CR
    requires ScanLiteralBody(x).None?
    ensures ScanLiteralBody([c] + x).None?
  {
    assert ([c] + x)[1..] == x;
  }

  lemma RejectLoneCRHead(s: string, rest: string)
    requires s != [] && s[0] == CR && !(|s| >= 2 && s[1] == LF)
    ensures ScanLiteralBody(EscapeRef(s) + [Quote] + rest).None?
  {
    var t := s[1..];
    assert s == [CR] + t;
    EscapeRefChar(CR, t);
    assert EscapeRef(s) + [Quote] + rest == [CR] + (EscapeRef(t) + [Quote] + rest);
  }

  lemma RejectCRLF(s: string, rest: string)
    requires |s| >= 2 && s[0] == CR && s[1] == LF
    requires ScanLiteralBody(EscapeRef(s[2..]) + [Quote] + rest).None?
    ensures ScanLiteralBody(EscapeRef(s) + [Quote] + rest).None?
  {
    var u := s[2..];
    var x := EscapeRef(u) + [Quote] + rest;
    assert s == [CR, LF] + u;
    EscapeRefCRLF(u);
    ScanAfterEscapeFails('n', x);
    assert EscapeRef(s) + [Quote] + rest == [Backslash, 'n'] + x;
  }

  lemma RejectInterpolation(s: string, rest: string)
    requires |s| >= 2 && s[0] == '$' && s[1] == '{'
    requires ScanLiteralBody(EscapeRef(s[1..]) + [Quote] + rest).None?
    ensures ScanLiteralBody(EscapeRef(s) + [Quote] + rest).None?
  {
    var t := s[1..];
    var x := EscapeRef(t) + [Quote] + rest;
    assert EscapeRef(s) == [Backslash, '$'] + EscapeRef(t);
    ScanAfterEscapeFails('$', x);
    assert EscapeRef(s) + [Quote] + rest == [Backslash, '$'] + x;
  }

  lemma RejectChar(s: string, rest: string)
    requires s != [] && s[0] != CR
    requires !(|s| >= 2 && s[0] == '$' && s[1] == '{')
    requires ScanLiteralBody(EscapeRef(s[1..]) + [Quote] + rest).None?
    ensures ScanLiteralBody(EscapeRef(s) + [Quote] + rest).None?
  {
    var c, t := s[0], s[1..];
    var x := EscapeRef(t) + [Quote] + rest;
    assert s == [c] + t;
    EscapeRefChar(c, t);
    assert EscapeRef(s) + [Quote] + rest == EscapeChar(c) + x;
    if c == LF || c == Tab || c == Backslash || c == Quote || c == '"' || c == '`' {
      ReadSingleEscape(c, x);
      ScanAfterEscapeFails(EscapeLetter(c), x);
    } else {
      assert EscapeChar(c) == [c];
      ScanAfterRawFails(c, x);
    }
  }

  lemma {:induction false} EscapeRefRejectsLoneCR(s: string, rest: string)
    requires !NoLoneCR(s)
    ensures ScanLiteralBody(EscapeRef(s) + [Quote] + rest).None?
    decreases |s|
  {
    var i :| 0 <= i < |s| && s[i] == CR && !(i + 1 < |s| && s[i + 1] == LF);
    assert LoneCRAt(s, i);
    if s[0] == CR && !(|s| >= 2 && s[1] == LF) {
      RejectLoneCRHead(s, rest);
    } else if s[0] == CR {
      LoneCRSuffix(s, i, 2);
      EscapeRefRejectsLoneCR(s[2..], rest);
      RejectCRLF(s, rest);
    } else if |s| >= 2 && s[0] == '$' && s[1] == '{' {
      LoneCRSuffix(s, i, 1);
      EscapeRefRejectsLoneCR(s[1..], rest);
      RejectInterpolation(s, rest);
    } else {
      LoneCRSuffix(s, i, 1);
      EscapeRefRejectsLoneCR(s[1..], rest);
      RejectChar(s, rest);
    }
  }

  /** A CR anywhere in the code that does not start a CR LF pair survives the
      chain raw, and a raw CR inside the literal is a syntax error, so the
      literal fails to read. */
  lemma LoneCarriageReturnIsRejected(s: string, rest: string)
    requires !NoLoneCR(s)
    ensures ScanLiteralBody(Escape(s) + [Quote] + rest) == None
  {
    EscapeIsEscapeRef(s);
    EscapeRefRejectsLoneCR(s, rest);
  }

  /** The emitted literal reads at all exactly when the code has no lone CR, and
      then it reads back the code with each CR LF pair turned into LF. */
  lemma ReadsBackIffNoLoneCR(s: string, rest: string)
    ensures ScanLiteralBody(Escape(s) + [Quote] + rest).Some? <==> NoLoneCR(s)
    ensures NoLoneCR(s) ==> ScanLiteralBody(Escape(s) + [Quote] + rest).value.value == NormalizeNewlines(s)
  {
    if NoLoneCR(s) {
      EscapeRoundTrip(s, rest);
    } else {
      LoneCarriageReturnIsRejected(s, rest);
    }
  }

  // ---------------------------------------------------------------------------
  // Odd backslash runs before quotes
  // ---------------------------------------------------------------------------

  /** The number of consecutive backslashes that end `e[..i]`. */
  function BackslashRun(e: string, i: nat): (n: nat)
    requires i <= |e|
    ensures n <= i
    ensures forall k | i - n <= k < i :: e[k] == Backslash
  {
    if i == 0 || e[i - 1] != Backslash then 0 else 1 + BackslashRun(e, i - 1)
  }

  lemma {:induction false} BackslashRunPrefix(a: string, b: string, i: nat)
    requires i <= |a|
    ensures BackslashRun(a + b, i) == BackslashRun(a, i)
  {
    if i > 0 {
      assert (a + b)[i - 1] == a[i - 1];
      BackslashRunPrefix(a, b, i - 1);
    }
  }

  lemma {:induction false} BackslashRunAppend(a: string, b: string, j: nat)
    requires j <= |b|
    ensures BackslashRun(a + b, |a| + j)
         == BackslashRun(b, j) + (if BackslashRun(b, j) == j then BackslashRun(a, |a|) else 0)
  {
    if j == 0 {
      BackslashRunPrefix(a, b, |a|);
    } else {
      assert (a + b)[|a| + j - 1] == b[j - 1];
      BackslashRunAppend(a, b, j - 1);
    }
  }

  /** Every quote in `e` has an odd run of backslashes in front, and `e` ends in an
      even run. */
  predicate QuotesEscaped(e: string) {
    && (forall i | 0 <= i < |e| && e[i] == Quote :: BackslashRun(e, i) % 2 == 1)
    && BackslashRun(e, |e|) % 2 == 0
  }

  lemma QuotesEscapedAppend(a: string, b: string)
    requires QuotesEscaped(a) && QuotesEscaped(b)
    ensures QuotesEscaped(a + b)
  {
    var e := a + b;
    forall i | 0 <= i < |e| && e[i] == Quote
      ensures BackslashRun(e, i) % 2 == 1
    {
      QuoteInAppend(a, b, i);
    }
    BackslashRunAppend(a, b, |b|);
  }

  lemma QuoteInAppend(a: string, b: string, i: nat)
    requires QuotesEscaped(a) && QuotesEscaped(b)
    requires i < |a + b| && (a + b)[i] == Quote
    ensures BackslashRun(a + b, i) % 2 == 1
  {
    if i < |a| {
      assert a[i] == Quote;
      BackslashRunPrefix(a, b, i);
    } else {
      assert b[i - |a|] == Quote;
      BackslashRunAppend(a, b, i - |a|);
    }
  }

  lemma QuotesEscapedPiece(c: char)
    ensures QuotesEscaped(EscapeChar(c))
    ensures QuotesEscaped("\\n") && QuotesEscaped("\\$")
  {
    var p := EscapeChar(c);
    assert BackslashRun("\\n", 0) == 0;
    assert BackslashRun("\\n", 1) == 1;
    assert BackslashRun("\\n", 2) == 0;
    assert BackslashRun("\\$", 2) == 0;
    if |p| == 2 {
      assert BackslashRun(p, 1) == 1;
      assert p[1] == Backslash ==> BackslashRun(p, 2) == 2;
    } else {
      assert p == [c] && c != Quote && c != Backslash;
    }
  }

  lemma {:induction false} EscapeRefQuotesEscaped(s: string)
    ensures QuotesEscaped(EscapeRef(s))
    decreases |s|
  {
    if s == [] {
    } else if |s| >= 2 && s[0] == CR && s[1] == LF {
      EscapeRefQuotesEscaped(s[2..]);
      QuotesEscapedPiece(LF);
      QuotesEscapedAppend("\\n", EscapeRef(s[2..]));
    } else if |s| >= 2 && s[0] == '$' && s[1] == '{' {
      EscapeRefQuotesEscaped(s[1..]);
      QuotesEscapedPiece('$');
      QuotesEscapedAppend("\\$", EscapeRef(s[1..]));
    } else {
      EscapeRefQuotesEscaped(s[1..]);
      QuotesEscapedPiece(s[0]);
      QuotesEscapedAppend(EscapeChar(s[0]), EscapeRef(s[1..]));
    }
  }

  /** The escaped code holds no raw LF, and every `'` in it is preceded by an odd
      number of backslashes, so it reads as an escaped quote and not as the end of
      the literal; this holds for every input, lone CRs included. */
  lemma EscapedQuotesAreOddlyPrefixed(s: string)
    ensures LF !in Escape(s)
    ensures forall i | 0 <= i < |Escape(s)| && Escape(s)[i] == Quote :: BackslashRun(Escape(s), i) % 2 == 1
  {
    EscapeIsEscapeRef(s);
    EscapeRefQuotesEscaped(s);
    EscapeRefNoLF(s);
  }

  lemma {:induction false} EscapeRefNoLF(s: string)
    ensures LF !in EscapeRef(s)
    decreases |s|
  {
    if s == [] {
    } else if |s| >= 2 && s[0] == CR && s[1] == LF {
      EscapeRefNoLF(s[2..]);
    } else if |s| >= 2 && s[0] == '$' && s[1] == '{' {
      EscapeRefNoLF(s[1..]);
    } else {
      EscapeRefNoLF(s[1..]);
    }
  }
}
