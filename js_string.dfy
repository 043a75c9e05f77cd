/**
 * The two string operations the claim flow applies to handles:
 * `String.prototype.trim` and `String.prototype.toLowerCase`.
 * Trimming removes exactly the characters ECMAScript calls WhiteSpace and
 * LineTerminator; lower-casing is modelled on ASCII letters only.
 *
 * `TrimStart`, `TrimEnd` and `Trim` carry no postconditions of their own,
 * so that the modules that compare handles do not pay for them on every use;
 * what they compute is stated by the lemmas that follow them.
 */
module JsString {

  /** ECMAScript WhiteSpace (TAB, VT, FF, ZWNBSP and the space separators) and LineTerminator (LF, CR, LS, PS). */
  predicate IsWhitespace(c: char) {
    || c == '\t' || c == '\n' || c == '\U{000B}' || c == '\U{000C}' || c == '\r'
    || c == ' ' || c == '\U{00A0}' || c == '\U{1680}' || ('\U{2000}' <= c <= '\U{200A}')
    || c == '\U{2028}' || c == '\U{2029}' || c == '\U{202F}' || c == '\U{205F}'
    || c == '\U{3000}' || c == '\U{FEFF}'
  }

  predicate AllWhitespace(s: string) {
    forall i :: 0 <= i < |s| ==> IsWhitespace(s[i])
  }

  /** True when `s` neither starts nor ends with whitespace. */
  predicate Trimmed(s: string) {
    s == [] || (!IsWhitespace(s[0]) && !IsWhitespace(s[|s| - 1]))
  }

  lemma AllWhitespaceConcat(a: string, b: string)
    ensures AllWhitespace(a + b) <==> AllWhitespace(a) && AllWhitespace(b)
  {
    assert forall i :: 0 <= i < |a| ==> (a + b)[i] == a[i];
    assert forall i :: 0 <= i < |b| ==> (a + b)[|a| + i] == b[i];
  }

  /** Drops the leading whitespace. */
  function TrimStart(s: string): string {
    if |s| > 0 && IsWhitespace(s[0]) then TrimStart(s[1..]) else s
  }

  /** What TrimStart leaves is the suffix of `s` after a run of whitespace, and does not start with whitespace. */
  lemma {:induction false} TrimStartShape(s: string)
    ensures var r := TrimStart(s);
      && |r| <= |s| && r == s[|s| - |r|..]
      && AllWhitespace(s[..|s| - |r|])
      && (r == [] || !IsWhitespace(r[0]))
  {
    if |s| > 0 && IsWhitespace(s[0]) {
      TrimStartShape(s[1..]);
      var r := TrimStart(s[1..]);
      assert s[..|s| - |r|] == [s[0]] + s[1..][..|s| - 1 - |r|];
      AllWhitespaceConcat([s[0]], s[1..][..|s| - 1 - |r|]);
    } else {
      assert s[..0] == [];
    }
  }

  /** Drops the trailing whitespace. */
  function TrimEnd(s: string): string {
    if |s| > 0 && IsWhitespace(s[|s| - 1]) then TrimEnd(s[..|s| - 1]) else s
  }

  /** What TrimEnd leaves is the prefix of `s` before a run of whitespace, and does not end with whitespace. */
  lemma {:induction false} TrimEndShape(s: string)
    ensures var r := TrimEnd(s);
      && |r| <= |s| && r == s[..|r|]
      && AllWhitespace(s[|r|..])
      && (r == [] || !IsWhitespace(r[|r| - 1]))
  {
    if |s| > 0 && IsWhitespace(s[|s| - 1]) {
      TrimEndShape(s[..|s| - 1]);
      var r := TrimEnd(s[..|s| - 1]);
      assert s[|r|..] == s[..|s| - 1][|r|..] + [s[|s| - 1]];
      AllWhitespaceConcat(s[..|s| - 1][|r|..], [s[|s| - 1]]);
    } else {
      assert s[|s|..] == [];
    }
  }

  /** `s.trim()`. */
  function Trim(s: string): string {
    TrimEnd(TrimStart(s))
  }

  /** `trim` returns a trimmed string no longer than its input, and the empty string exactly for all-whitespace input. */
  lemma TrimShape(s: string)
    ensures |Trim(s)| <= |s| && Trimmed(Trim(s))
    ensures Trim(s) == [] <==> AllWhitespace(s)
  {
    var t := TrimStart(s);
    var r := TrimEnd(t);
    TrimStartShape(s);
    TrimEndShape(t);
    assert s == s[..|s| - |t|] + t;
    AllWhitespaceConcat(s[..|s| - |t|], t);
    if r == [] {
      assert t == r + t[|r|..];
    } else {
      assert r[0] == t[0];
    }
  }

  lemma {:induction false} TrimStartOfTrimmed(s: string)
    requires s == [] || !IsWhitespace(s[0])
    ensures TrimStart(s) == s
  {
  }

  lemma TrimOfTrimmed(s: string)
    requires Trimmed(s)
    ensures Trim(s) == s
  {
    TrimStartOfTrimmed(s);
  }

  lemma TrimIdempotent(s: string)
    ensures Trim(Trim(s)) == Trim(s)
  {
    TrimShape(s);
    TrimOfTrimmed(Trim(s));
  }

  /** Whitespace added in front of a string is removed again by TrimStart. */
  lemma {:induction false} TrimStartPadded(pad: string, s: string)
    requires AllWhitespace(pad)
    ensures TrimStart(pad + s) == TrimStart(s)
  {
    if pad != [] {
      assert (pad + s)[0] == pad[0];
      assert (pad + s)[1..] == pad[1..] + s;
      assert AllWhitespace(pad[1..]);
      TrimStartPadded(pad[1..], s);
    } else {
      assert pad + s == s;
    }
  }

  /** Whitespace added behind a string is removed again by TrimEnd. */
  lemma {:induction false} TrimEndPadded(s: string, pad: string)
    requires AllWhitespace(pad)
    ensures TrimEnd(s + pad) == TrimEnd(s)
  {
    if pad != [] {
      assert (s + pad)[|s + pad| - 1] == pad[|pad| - 1];
      assert (s + pad)[..|s + pad| - 1] == s + pad[..|pad| - 1];
      assert AllWhitespace(pad[..|pad| - 1]);
      TrimEndPadded(s, pad[..|pad| - 1]);
    } else {
      assert s + pad == s;
    }
  }

  lemma {:induction false} AllWhitespaceTrimStart(s: string)
    requires AllWhitespace(s)
    ensures TrimStart(s) == []
  {
    if s != [] {
      assert AllWhitespace(s[1..]);
      AllWhitespaceTrimStart(s[1..]);
    }
  }

  /** Leading whitespace stops at the first other character, so what follows it is kept as it is. */
  lemma {:induction false} TrimStartAppend(s: string, after: string)
    requires !AllWhitespace(s)
    ensures TrimStart(s + after) == TrimStart(s) + after
  {
    assert (s + after)[0] == s[0];
    if IsWhitespace(s[0]) {
      assert (s + after)[1..] == s[1..] + after;
      assert !AllWhitespace(s[1..]);
      TrimStartAppend(s[1..], after);
    }
  }

  /** Whitespace on either side does not change what `trim` returns. */
  lemma TrimPadded(before: string, s: string, after: string)
    requires AllWhitespace(before) && AllWhitespace(after)
    ensures Trim(before + s + after) == Trim(s)
  {
    assert before + s + after == before + (s + after);
    TrimStartPadded(before, s + after);
    if AllWhitespace(s) {
      AllWhitespaceConcat(s, after);
      AllWhitespaceTrimStart(s + after);
      AllWhitespaceTrimStart(s);
    } else {
      TrimStartAppend(s, after);
      TrimEndPadded(TrimStart(s), after);
    }
  }

  predicate IsAsciiUpper(c: char) {
    'A' <= c <= 'Z'
  }

  predicate NoUpper(s: string) {
    forall i :: 0 <= i < |s| ==> !IsAsciiUpper(s[i])
  }

  /** Lower-cases one ASCII letter and leaves every other character alone. */
  function ToLower(c: char): (r: char)
    ensures !IsAsciiUpper(r)
    ensures IsAsciiUpper(c) ==> 'a' <= r <= 'z' && r as int - 'a' as int == c as int - 'A' as int
    ensures !IsAsciiUpper(c) ==> r == c
  {
    if IsAsciiUpper(c) then (c as int - 'A' as int + 'a' as int) as char else c
  }

  /** Lower-casing keeps whitespace whitespace and everything else not. */
  lemma ToLowerWhitespace(c: char)
    ensures IsWhitespace(ToLower(c)) == IsWhitespace(c)
  {
  }

  /** `s.toLowerCase()`, character by character. */
  function LowerCase(s: string): (r: string)
    ensures |r| == |s|
  {
    if s == [] then [] else [ToLower(s[0])] + LowerCase(s[1..])
  }

  /** Each character of the lower-case form is the lower-case form of the character at the same place. */
  lemma {:induction false} LowerCaseAt(s: string)
    ensures forall i :: 0 <= i < |s| ==> LowerCase(s)[i] == ToLower(s[i])
  {
    if s != [] {
      LowerCaseAt(s[1..]);
    }
  }

  /** The lower-case form has no upper-case letter. */
  lemma LowerCaseNoUpper(s: string)
    ensures NoUpper(LowerCase(s))
  {
    LowerCaseAt(s);
  }

  /** A string without upper-case letters is its own lower-case form. */
  lemma LowerCaseOfNoUpper(s: string)
    requires NoUpper(s)
    ensures LowerCase(s) == s
  {
    LowerCaseAt(s);
  }

  /** Lower-casing twice is lower-casing once. */
  lemma LowerCaseIdempotent(s: string)
    ensures LowerCase(LowerCase(s)) == LowerCase(s)
  {
    LowerCaseNoUpper(s);
    LowerCaseOfNoUpper(LowerCase(s));
  }

  /** The lower-case letter of a character is `@` only for `@` itself. */
  lemma ToLowerAt(c: char)
    ensures ToLower(c) == '@' <==> c == '@'
  {
  }

  /** Two spellings with the same lower-case form agree on starting with `@`. */
  lemma SameLowerCaseSameAt(v: string, h: string)
    requires LowerCase(v) == LowerCase(h) && v != []
    ensures v[0] == '@' <==> h[0] == '@'
  {
    LowerCaseAt(v);
    LowerCaseAt(h);
    ToLowerAt(v[0]);
    ToLowerAt(h[0]);
  }

  lemma {:induction false} LowerCaseSlices(s: string, k: nat)
    requires k <= |s|
    ensures LowerCase(s)[k..] == LowerCase(s[k..]) && LowerCase(s)[..k] == LowerCase(s[..k])
  {
    LowerCaseAt(s);
    LowerCaseAt(s[k..]);
    LowerCaseAt(s[..k]);
  }

  /** Lower-casing keeps whitespace where it is, so it commutes with trimming the start. */
  lemma {:induction false} TrimStartLowerCase(s: string)
    ensures TrimStart(LowerCase(s)) == LowerCase(TrimStart(s))
  {
    if |s| > 0 {
      ToLowerWhitespace(s[0]);
      if IsWhitespace(s[0]) {
        LowerCaseSlices(s, 1);
        TrimStartLowerCase(s[1..]);
      }
    }
  }

  lemma {:induction false} TrimEndLowerCase(s: string)
    ensures TrimEnd(LowerCase(s)) == LowerCase(TrimEnd(s))
  {
    if |s| > 0 {
      LowerCaseAt(s);
      ToLowerWhitespace(s[|s| - 1]);
      if IsWhitespace(s[|s| - 1]) {
        LowerCaseSlices(s, |s| - 1);
        TrimEndLowerCase(s[..|s| - 1]);
      }
    }
  }

  /** `s.toLowerCase().trim() == s.trim().toLowerCase()`. */
  lemma TrimLowerCase(s: string)
    ensures Trim(LowerCase(s)) == LowerCase(Trim(s))
  {
    TrimStartLowerCase(s);
    TrimEndLowerCase(TrimStart(s));
  }
}
