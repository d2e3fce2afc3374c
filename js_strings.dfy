/**
 * The JavaScript string built-ins the three pages rely on, stated over
 * `seq<char>`: the white-space class used by `\s` and `trim()`, `trim()`,
 * `toLowerCase()` (ASCII letters only), `includes()`, `length` (UTF-16 code
 * units) and the two regular expressions `^[A-Za-z ]+$` and `\S+@\S+\.\S+`.
 */
module JsStrings {

  /** The code points ECMAScript counts as WhiteSpace or LineTerminator; these are
      what `\s` matches and what `trim()` removes. */
  predicate IsSpace(c: char)
  {
    var n := c as int;
    (9 <= n <= 13) || n == 0x20 || n == 0xA0 || n == 0x1680 || (0x2000 <= n <= 0x200A)
    || n == 0x2028 || n == 0x2029 || n == 0x202F || n == 0x205F || n == 0x3000 || n == 0xFEFF
  }

  ghost predicate AllSpace(s: string)
  {
    forall i | 0 <= i < |s| :: IsSpace(s[i])
  }

  /** The number of white-space characters at the start of `s`: all of them
      are white space, and the character after them, if any, is not. */
  function LeadingSpaces(s: string): (n: nat)
    ensures n <= |s|
    ensures forall i | 0 <= i < n :: IsSpace(s[i])
    ensures n < |s| ==> !IsSpace(s[n])
  {
    if s != [] && IsSpace(s[0]) then 1 + LeadingSpaces(s[1..]) else 0
  }

  /** The number of white-space characters at the end of `s`: all of them are
      white space, and the character before them, if any, is not. */
  function TrailingSpaces(s: string): (n: nat)
    ensures n <= |s|
    ensures forall i | |s| - n <= i < |s| :: IsSpace(s[i])
    ensures n < |s| ==> !IsSpace(s[|s| - n - 1])
  {
    if s != [] && IsSpace(s[|s| - 1]) then 1 + TrailingSpaces(s[..|s| - 1]) else 0
  }

  /** Drops the leading white space, leaving a suffix of `s` that does not start
      with white space; it is empty exactly when `s` is all white space. */
  function TrimStart(s: string): (r: string)
    ensures r == [] || !IsSpace(r[0])
    ensures r == [] <==> AllSpace(s)
  {
    s[LeadingSpaces(s)..]
  }

  /** Drops the trailing white space, leaving a prefix of `s` that does not end
      with white space; it is empty exactly when `s` is all white space. */
  function TrimEnd(s: string): (r: string)
    ensures r == [] || !IsSpace(r[|r| - 1])
    ensures r == [] <==> AllSpace(s)
  {
    s[..|s| - TrailingSpaces(s)]
  }

  /** `s.trim()`: the string with white space removed at both ends. It is empty
      exactly when `s` consists of white space only (`!s.trim()` in JavaScript). */
  function Trim(s: string): (r: string)
    ensures r == [] <==> AllSpace(s)
    ensures r != [] ==> !IsSpace(r[0]) && !IsSpace(r[|r| - 1])
  {
    TrimEnd(TrimStart(s))
  }

  /** `toLowerCase()` restricted to ASCII: `A`..`Z` become `a`..`z`. */
  function LowerChar(c: char): (d: char)
    ensures 'A' <= c <= 'Z' ==> 'a' <= d <= 'z' && d as int - c as int == 32
    ensures !('A' <= c <= 'Z') ==> d == c
  {
    if 'A' <= c <= 'Z' then (c as int + 32) as char else c
  }

  function ToLower(s: string): (r: string)
    ensures |r| == |s|
    ensures forall i | 0 <= i < |s| :: r[i] == LowerChar(s[i])
  {
    if s == [] then [] else [LowerChar(s[0])] + ToLower(s[1..])
  }

  /** Lowering twice is lowering once, so matching against an already lower-cased
      message gives the same answer. */
  lemma ToLowerIdempotent(s: string)
    ensures ToLower(ToLower(s)) == ToLower(s)
  {
    var once := ToLower(s);
    forall i | 0 <= i < |s|
      ensures ToLower(once)[i] == once[i]
    {
      assert !('A' <= once[i] <= 'Z');
    }
  }

  /** `s.includes(part)`: `part` occurs in `s` as a contiguous substring. */
  predicate Contains(s: string, part: string)
  {
    exists i | 0 <= i <= |s| - |part| :: OccursAt(s, part, i)
  }

  predicate OccursAt(s: string, part: string, i: int)
    requires 0 <= i <= |s| - |part|
  {
    s[i..i + |part|] == part
  }

  /** A word with no upper-case letter that occurs in a text occurs, at the same
      place, in the lower-cased text too. */
  lemma OccursAtLowered(s: string, part: string, i: int)
    requires 0 <= i <= |s| - |part|
    requires OccursAt(s, part, i)
    requires forall k | 0 <= k < |part| :: !('A' <= part[k] <= 'Z')
    ensures OccursAt(ToLower(s), part, i) && Contains(ToLower(s), part)
  {
    var lower := ToLower(s);
    forall k | 0 <= k < |part|
      ensures lower[i + k] == part[k]
    {
      assert s[i + k] == s[i..i + |part|][k];
    }
    assert lower[i..i + |part|] == part;
  }

  /** `s.length`: JavaScript counts UTF-16 code units, so a code point above
      U+FFFF (a surrogate pair) counts twice. */
  function Utf16Length(s: string): (n: nat)
    ensures |s| <= n <= 2 * |s|
    ensures (forall i | 0 <= i < |s| :: s[i] as int <= 0xFFFF) ==> n == |s|
    ensures (forall i | 0 <= i < |s| :: s[i] as int > 0xFFFF) ==> n == 2 * |s|
  {
    if s == [] then 0 else (if s[0] as int > 0xFFFF then 2 else 1) + Utf16Length(s[1..])
  }

  predicate IsLetterOrSpace(c: char)
  {
    'A' <= c <= 'Z' || 'a' <= c <= 'z' || c == ' '
  }

  /** The regular expression `^[A-Za-z ]+$`: one or more ASCII letters or spaces
      and nothing else. */
  predicate LettersOrSpaces(s: string)
  {
    |s| > 0 && forall i | 0 <= i < |s| :: IsLetterOrSpace(s[i])
  }

  /** One way for `\S+@\S+\.\S+` to match `s`: the `@` at `at`, the `.` at `dot`, a
      non-space before the `@`, only non-spaces (at least one) between them, and a
      non-space after the `.`. */
  predicate EmailMatchAt(s: string, at: int, dot: int)
    requires 0 < at && at + 1 < dot && dot + 1 < |s|
  {
    && s[at] == '@' && s[dot] == '.'
    && !IsSpace(s[at - 1]) && !IsSpace(s[dot + 1])
    && forall j | at < j < dot :: !IsSpace(s[j])
  }

  /** The unanchored regular expression `\S+@\S+\.\S+` matches somewhere in `s`. */
  predicate MatchesEmail(s: string)
  {
    exists at, dot | 0 < at < |s| && at + 1 < dot < |s| - 1 :: EmailMatchAt(s, at, dot)
  }

  /** A match needs at least five characters, an `@` and a `.`. */
  lemma EmailMatchShape(s: string)
    requires MatchesEmail(s)
    ensures |s| >= 5 && '@' in s && '.' in s
  {
    var at, dot :| 0 < at < |s| && at + 1 < dot < |s| - 1 && EmailMatchAt(s, at, dot);
    assert s[at] == '@' && s[dot] == '.';
  }

  /** The pattern is not anchored: text around a match does not stop it matching. */
  lemma {:induction false} EmailMatchUnanchored(before: string, s: string, after: string)
    requires MatchesEmail(s)
    ensures MatchesEmail(before + s + after)
  {
    var at, dot :| 0 < at < |s| && at + 1 < dot < |s| - 1 && EmailMatchAt(s, at, dot);
    var t := before + s + after;
    var k := |before|;
    assert forall j | 0 <= j < |s| :: t[k + j] == s[j];
    assert EmailMatchAt(t, k + at, k + dot);
  }

  /** `a@b.co` matches; `abc` and the empty string do not. */
  lemma EmailExamples()
    ensures MatchesEmail("a@b.co")
    ensures !MatchesEmail("abc") && !MatchesEmail("")
  {
    assert EmailMatchAt("a@b.co", 1, 3);
    if MatchesEmail("abc") {
      EmailMatchShape("abc");
    }
  }
}
