/**
 * The JavaScript string built-ins the coercions call: `String.prototype.trim`,
 * `toLocaleLowerCase` (on ASCII letters) and the string-to-number conversion
 * done by `Number(...)`, whose outcome is reduced to NaN, zero or non-zero.
 */
module JsStrings {
  import opened JsValues

  /** The WhiteSpace and LineTerminator code points that `trim` removes and `Number` skips. */
  predicate IsWhitespace(c: char) {
    c == '\t' || c == '\n' || c == '\U{000B}' || c == '\U{000C}' || c == '\r' || c == ' '
    || c == '\U{00A0}' || c == '\U{1680}' || ('\U{2000}' <= c <= '\U{200A}')
    || c == '\U{2028}' || c == '\U{2029}' || c == '\U{202F}' || c == '\U{205F}'
    || c == '\U{3000}' || c == '\U{FEFF}'
  }

  /** `s` without its leading whitespace. */
  function TrimStart(s: string): (r: string)
    ensures |r| <= |s| && r == s[|s| - |r|..]
    ensures forall i :: 0 <= i < |s| - |r| ==> IsWhitespace(s[i])
    ensures r != [] ==> !IsWhitespace(r[0])
  {
    if s != [] && IsWhitespace(s[0]) then TrimStart(s[1..]) else s
  }

  /** `s` without its trailing whitespace. */
  function TrimEnd(s: string): (r: string)
    ensures |r| <= |s| && r == s[..|r|]
    ensures forall i :: |r| <= i < |s| ==> IsWhitespace(s[i])
    ensures r != [] ==> !IsWhitespace(r[|r| - 1])
  {
    if s != [] && IsWhitespace(s[|s| - 1]) then TrimEnd(s[..|s| - 1]) else s
  }

  /** `r` is the slice `s[i..j]`, and everything of `s` outside it is whitespace. */
  predicate SliceWithinWhitespace(s: string, i: int, j: int, r: string) {
    0 <= i <= j <= |s| && r == s[i..j] &&
    (forall k :: 0 <= k < i ==> IsWhitespace(s[k])) &&
    (forall k :: j <= k < |s| ==> IsWhitespace(s[k]))
  }

  /**
   * A prefix `r` of a suffix `t == s[i..]` is a slice of `s`; if `s[..i]` and
   * the rest of `t` are whitespace, everything outside that slice is.
   */
  lemma PrefixOfSuffix(s: string, i: int, t: string, r: string)
    requires 0 <= i <= |s| && t == s[i..] && |r| <= |t| && r == t[..|r|]
    requires forall k :: 0 <= k < i ==> IsWhitespace(s[k])
    requires forall k :: |r| <= k < |t| ==> IsWhitespace(t[k])
    ensures SliceWithinWhitespace(s, i, i + |r|, r)
  {
    forall k | i + |r| <= k < |s|
      ensures IsWhitespace(s[k])
    {
      assert s[k] == t[k - i];
    }
  }

  /** `String.prototype.trim`: the slice of `s` left once whitespace is removed from both ends. */
  function Trim(s: string): (r: string)
    ensures |r| <= |s|
    ensures exists i, j :: SliceWithinWhitespace(s, i, j, r)
    ensures r != [] ==> !IsWhitespace(r[0]) && !IsWhitespace(r[|r| - 1])
  {
    var t := TrimStart(s);
    var r := TrimEnd(t);
    PrefixOfSuffix(s, |s| - |t|, t, r);
    r
  }

  function LowerChar(c: char): char {
    if 'A' <= c <= 'Z' then (c as int - 'A' as int + 'a' as int) as char else c
  }

  /** `toLocaleLowerCase`, on ASCII letters only; every other character is kept. */
  function AsciiLower(s: string): (r: string)
    ensures |r| == |s|
    ensures forall i :: 0 <= i < |s| ==> r[i] == LowerChar(s[i])
  {
    if s == [] then [] else [LowerChar(s[0])] + AsciiLower(s[1..])
  }

  /** A lower-case ASCII letter is the image of itself and of its upper-case form, and of nothing else. */
  lemma LowerCharInverse(c: char, lower: char)
    requires 'a' <= lower <= 'z'
    ensures LowerChar(c) == lower <==> c == lower || c as int == lower as int - 'a' as int + 'A' as int
  {
  }

  /** The strings that lower-case to "false" are exactly the case variants of "false". */
  lemma {:induction false} SpellsFalse(t: string)
    ensures AsciiLower(t) == "false" <==>
              |t| == 5 && forall i :: 0 <= i < 5 ==> t[i] == "false"[i] || t[i] == "FALSE"[i]
  {
    if |t| == 5 {
      forall i | 0 <= i < 5
        ensures LowerChar(t[i]) == "false"[i] <==> t[i] == "false"[i] || t[i] == "FALSE"[i]
      {
        LowerCharInverse(t[i], "false"[i]);
      }
      if AsciiLower(t) != "false" {
        var k :| 0 <= k < 5 && AsciiLower(t)[k] != "false"[k];
        assert LowerChar(t[k]) != "false"[k];
      }
    }
  }

  predicate IsDigit(c: char) { '0' <= c <= '9' }

  /** A digit of a literal in base 2, 8, 10 or 16. */
  predicate IsDigitIn(c: char, base: nat) {
    if base == 16 then IsDigit(c) || 'a' <= c <= 'f' || 'A' <= c <= 'F'
    else '0' <= c && (c as int) < '0' as int + base
  }

  predicate AllDigitsIn(s: string, base: nat) {
    forall i :: 0 <= i < |s| ==> IsDigitIn(s[i], base)
  }

  predicate AllZeros(s: string) {
    forall i :: 0 <= i < |s| ==> s[i] == '0'
  }

  /** The base named by the letter after a leading `0` (`0x`, `0o`, `0b`), or 0 for none. */
  function RadixOf(c: char): nat {
    if c == 'x' || c == 'X' then 16
    else if c == 'o' || c == 'O' then 8
    else if c == 'b' || c == 'B' then 2
    else 0
  }

  /** The position of the first `a` or `b` in `s`, or `|s|` when there is none. */
  function IndexOfEither(s: string, a: char, b: char): (k: nat)
    ensures k <= |s|
    ensures forall i :: 0 <= i < k ==> s[i] != a && s[i] != b
    ensures k < |s| ==> s[k] == a || s[k] == b
  {
    if s == [] || s[0] == a || s[0] == b then 0 else 1 + IndexOfEither(s[1..], a, b)
  }

  /** An exponent after `e` / `E`: an optional sign and at least one decimal digit. */
  predicate IsExponent(e: string) {
    var digits := if e != [] && (e[0] == '+' || e[0] == '-') then e[1..] else e;
    digits != [] && AllDigitsIn(digits, 10)
  }

  function DigitsKind(digits: string): NumKind {
    if AllZeros(digits) then Zero else NonZero
  }

  /**
   * An unsigned decimal literal: digits, an optional `.` with more digits (at
   * least one digit in all), then an optional exponent. Its value is zero
   * exactly when every digit before the exponent is `0`.
   */
  function DecimalKind(u: string): NumKind {
    var k := IndexOfEither(u, 'e', 'E');
    var mantissa := u[..k];
    var d := IndexOfEither(mantissa, '.', '.');
    var whole := mantissa[..d];
    var fraction := if d < |mantissa| then mantissa[d + 1..] else [];
    if (k < |u| && !IsExponent(u[k + 1..])) || |whole| + |fraction| == 0
       || !AllDigitsIn(whole, 10) || !AllDigitsIn(fraction, 10)
    then NaN
    else DigitsKind(whole + fraction)
  }

  /**
   * `Number(s)` for a string: surrounding whitespace is ignored, an empty or
   * all-whitespace string is 0, `0x` / `0o` / `0b` literals take no sign,
   * `Infinity` may be signed, and anything else that is not a decimal literal is NaN.
   */
  function StringToNumber(s: string): (r: NumKind)
    ensures Trim(s) == [] ==> r == Zero
    ensures Trim(s) == "Infinity" || Trim(s) == "+Infinity" || Trim(s) == "-Infinity" ==> r == NonZero
  {
    var t := Trim(s);
    if t == [] then Zero
    else if |t| >= 2 && t[0] == '0' && RadixOf(t[1]) != 0 then
      (if |t| > 2 && AllDigitsIn(t[2..], RadixOf(t[1])) then DigitsKind(t[2..]) else NaN)
    else
      var u := if t[0] == '+' || t[0] == '-' then t[1..] else t;
      if u == "Infinity" then NonZero else DecimalKind(u)
  }

  /** A string that neither starts nor ends with whitespace is its own trim. */
  lemma TrimUnpadded(s: string)
    requires s != [] && !IsWhitespace(s[0]) && !IsWhitespace(s[|s| - 1])
    ensures Trim(s) == s
  {
    assert TrimStart(s) == s;
  }

  /** Leading whitespace does not change the trim. */
  lemma TrimSkipsLeadingWhitespace(s: string)
    requires s != [] && IsWhitespace(s[0])
    ensures Trim(s) == Trim(s[1..])
  {
    assert TrimStart(s) == TrimStart(s[1..]);
  }

  /** A non-empty run of decimal digits is a decimal literal, zero exactly when every digit is `0`. */
  lemma DigitsAreDecimal(u: string)
    requires u != [] && AllDigitsIn(u, 10)
    ensures DecimalKind(u) == DigitsKind(u)
  {
    var k := IndexOfEither(u, 'e', 'E');
    assert k < |u| ==> IsDigitIn(u[k], 10);
    assert k == |u| && u[..k] == u;
    var d := IndexOfEither(u, '.', '.');
    assert d < |u| ==> IsDigitIn(u[d], 10);
    assert d == |u| && u[..d] == u;
    assert u + [] == u;
  }

  /** `Number` of a non-empty run of decimal digits is zero exactly when every digit is `0`. */
  lemma NumeralToNumber(u: string)
    requires u != [] && AllDigitsIn(u, 10)
    ensures StringToNumber(u) == DigitsKind(u)
    ensures StringToNumber(u) != NaN
  {
    assert IsDigitIn(u[0], 10) && IsDigitIn(u[|u| - 1], 10);
    TrimUnpadded(u);
    if |u| >= 2 {
      assert IsDigitIn(u[1], 10);
      assert RadixOf(u[1]) == 0;
    }
    assert u != "Infinity" by { assert IsDigitIn(u[0], 10); }
    DigitsAreDecimal(u);
  }

  /** A string that starts with neither a digit nor `.` is not a decimal literal. */
  lemma NonNumericStartIsNaN(u: string)
    requires u != [] && !IsDigit(u[0]) && u[0] != '.'
    ensures DecimalKind(u) == NaN
  {
    var k := IndexOfEither(u, 'e', 'E');
    var mantissa := u[..k];
    var d := IndexOfEither(mantissa, '.', '.');
    if k > 0 {
      assert mantissa[0] == u[0];
      assert d > 0;
      assert !IsDigitIn(mantissa[..d][0], 10);
    }
  }
  /** An unpadded string that starts with neither a digit, a sign nor `.` and is not `Infinity` is NaN. */
  lemma NonNumericStringIsNaN(t: string)
    requires t != [] && !IsWhitespace(t[0]) && !IsWhitespace(t[|t| - 1])
    requires !IsDigit(t[0]) && t[0] != '.' && t[0] != '+' && t[0] != '-' && t != "Infinity"
    ensures StringToNumber(t) == NaN
  {
    TrimUnpadded(t);
    NonNumericStartIsNaN(t);
  }

}
