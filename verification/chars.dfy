/** Character classes and string helpers of the .NET base library that the
    source relies on (`char.IsWhiteSpace`, `string.Trim`, invariant case
    mapping, the regular-expression classes `\p{L}` and `\p{Sc}`). */
module Chars {

  import opened Results

  /** `'0' <= c <= '9'`, the test the evaluator uses for literal digits. */
  predicate IsDigit(c: char) {
    '0' <= c <= '9'
  }

  /** `char.IsWhiteSpace`: U+0009..U+000D, U+0085 and the Unicode space,
      line and paragraph separators of the Basic Multilingual Plane. */
  predicate IsWhiteSpace(c: char) {
    || c == ' '
    || ('\t' <= c <= '\r')
    || c == '\U{0085}'
    || c == '\U{00A0}'
    || c == '\U{1680}'
    || ('\U{2000}' <= c <= '\U{200A}')
    || c == '\U{2028}'
    || c == '\U{2029}'
    || c == '\U{202F}'
    || c == '\U{205F}'
    || c == '\U{3000}'
  }

  /** The letters of `\p{L}` this model knows: ASCII, Latin-1, Latin
      Extended-A, the basic Greek and the Cyrillic letters. */
  predicate IsLetter(c: char) {
    || ('A' <= c <= 'Z')
    || ('a' <= c <= 'z')
    || c == '\U{00AA}' || c == '\U{00B5}' || c == '\U{00BA}'
    || ('\U{00C0}' <= c <= '\U{00D6}')
    || ('\U{00D8}' <= c <= '\U{00F6}')
    || ('\U{00F8}' <= c <= '\U{017F}')
    || ('\U{0391}' <= c <= '\U{03A1}')
    || ('\U{03A3}' <= c <= '\U{03A9}')
    || ('\U{03B1}' <= c <= '\U{03C9}')
    || ('\U{0400}' <= c <= '\U{0481}')
  }

  /** `\p{Sc}`, the currency symbols of the Basic Multilingual Plane. */
  predicate IsCurrencySymbol(c: char) {
    || c == '$'
    || ('\U{00A2}' <= c <= '\U{00A5}')
    || c == '\U{058F}' || c == '\U{060B}'
    || c == '\U{07FE}' || c == '\U{07FF}'
    || c == '\U{09F2}' || c == '\U{09F3}' || c == '\U{09FB}'
    || c == '\U{0AF1}' || c == '\U{0BF9}' || c == '\U{0E3F}' || c == '\U{17DB}'
    || ('\U{20A0}' <= c <= '\U{20C0}')
    || c == '\U{A838}' || c == '\U{FDFC}' || c == '\U{FE69}' || c == '\U{FF04}'
    || c == '\U{FFE0}' || c == '\U{FFE1}' || c == '\U{FFE5}' || c == '\U{FFE6}'
  }

  /** The class `[\p{L}\p{Sc}_]` shared by alias keys and currency tokens. */
  predicate IsTokenChar(c: char) {
    IsLetter(c) || IsCurrencySymbol(c) || c == '_'
  }

  /** Invariant lower-casing of one character (ASCII letters only). */
  function LowerChar(c: char): char {
    if 'A' <= c <= 'Z' then (c as int + 32) as char else c
  }

  /** Invariant upper-casing of one character (ASCII letters only). */
  function UpperChar(c: char): char {
    if 'a' <= c <= 'z' then (c as int - 32) as char else c
  }

  /** `ToLowerInvariant`, and the culture-sensitive `ToLower` under a
      culture that maps ASCII letters as the invariant culture does. */
  function Lower(s: string): (r: string)
    ensures |r| == |s|
    ensures forall i :: 0 <= i < |s| ==> r[i] == LowerChar(s[i])
  {
    if s == [] then [] else [LowerChar(s[0])] + Lower(s[1..])
  }

  /** `ToUpperInvariant`. */
  function Upper(s: string): (r: string)
    ensures |r| == |s|
    ensures forall i :: 0 <= i < |s| ==> r[i] == UpperChar(s[i])
  {
    if s == [] then [] else [UpperChar(s[0])] + Upper(s[1..])
  }

  /** True when every character of `s` is white space (so also for ""). */
  predicate AllWhiteSpace(s: string) {
    forall i :: 0 <= i < |s| ==> IsWhiteSpace(s[i])
  }

  /** Holds a character that is not white space. */
  predicate HasNonWhiteSpace(s: string) {
    exists i :: 0 <= i < |s| && !IsWhiteSpace(s[i])
  }

  /** `string.IsNullOrEmpty`. */
  predicate IsNullOrEmpty(s: Option<string>) {
    s.None? || s.value == []
  }

  /** `string.IsNullOrWhiteSpace`. */
  predicate IsNullOrWhiteSpace(s: Option<string>) {
    s.None? || AllWhiteSpace(s.value)
  }

  /** Drops leading white space. */
  function TrimStart(s: string): (r: string)
    ensures |r| <= |s| && r == s[|s| - |r|..]
    ensures r == [] || !IsWhiteSpace(r[0])
    ensures AllWhiteSpace(s[..|s| - |r|])
  {
    if s == [] || !IsWhiteSpace(s[0]) then s
    else
      var r := TrimStart(s[1..]);
      assert s[1..][..|s| - 1 - |r|] == s[1..|s| - |r|];
      r
  }

  /** Drops trailing white space. */
  function TrimEnd(s: string): (r: string)
    ensures |r| <= |s| && r == s[..|r|]
    ensures r == [] || !IsWhiteSpace(r[|r| - 1])
    ensures AllWhiteSpace(s[|r|..])
  {
    if s == [] || !IsWhiteSpace(s[|s| - 1]) then s
    else
      var init := s[..|s| - 1];
      var r := TrimEnd(init);
      assert forall k :: |r| <= k < |init| ==> IsWhiteSpace(s[k]) by {
        forall k | |r| <= k < |init| ensures IsWhiteSpace(s[k]) {
          assert s[k] == init[k] == init[|r|..][k - |r|];
        }
      }
      assert r == s[..|r|] by {
        assert r == init[..|r|];
      }
      r
  }

  /** `string.Trim()`: white space removed from both ends. */
  function Trim(s: string): string {
    TrimEnd(TrimStart(s))
  }

  /** Trimming a string that holds no white space leaves it as it is. */
  lemma TrimWithoutWhiteSpace(s: string)
    requires forall i :: 0 <= i < |s| ==> !IsWhiteSpace(s[i])
    ensures Trim(s) == s
  {
  }

  /** `s.Replace(sep, "")` for a one-character separator. */
  function RemoveChar(s: string, c: char): (r: string)
    ensures forall i :: 0 <= i < |r| ==> r[i] != c
    ensures |r| <= |s|
    ensures forall i :: 0 <= i < |r| ==> r[i] in s
    ensures multiset(r) == multiset(s)[c := 0]
    ensures c !in s ==> r == s
  {
    if s == [] then []
    else
      assert s == [s[0]] + s[1..];
      if s[0] == c then RemoveChar(s[1..], c)
      else [s[0]] + RemoveChar(s[1..], c)
  }

  /** Removal works piecewise, so every other character is kept in its
      original order: with the one-character cases this determines the
      result for any text. */
  lemma {:induction false} RemoveCharAppend(a: string, b: string, c: char)
    ensures RemoveChar(a + b, c) == RemoveChar(a, c) + RemoveChar(b, c)
    decreases |a|
  {
    if a == [] {
      assert a + b == b;
    } else {
      assert (a + b)[0] == a[0];
      assert (a + b)[1..] == a[1..] + b;
      RemoveCharAppend(a[1..], b, c);
    }
  }

  /** The text with every white-space character removed. */
  function StripWhiteSpace(s: string): (r: string)
    ensures forall i :: 0 <= i < |r| ==> !IsWhiteSpace(r[i])
  {
    if s == [] then []
    else if IsWhiteSpace(s[0]) then StripWhiteSpace(s[1..])
    else [s[0]] + StripWhiteSpace(s[1..])
  }

  lemma {:induction false} StripAppend(a: string, b: string)
    ensures StripWhiteSpace(a + b) == StripWhiteSpace(a) + StripWhiteSpace(b)
    decreases |a|
  {
    if a != [] {
      assert (a + b)[1..] == a[1..] + b;
      StripAppend(a[1..], b);
    } else {
      assert a + b == b;
    }
  }

  /** `10^n`. */
  function Pow10(n: nat): (r: nat)
    ensures r >= 1
  {
    if n == 0 then 1 else 10 * Pow10(n - 1)
  }

  predicate AllDigits(s: string) {
    forall k :: 0 <= k < |s| ==> IsDigit(s[k])
  }

  /** The integer a string of decimal digits denotes. */
  function DigitsValue(s: string): nat
    requires AllDigits(s)
  {
    if s == [] then 0
    else 10 * DigitsValue(s[..|s| - 1]) + (s[|s| - 1] as int - '0' as int)
  }

  /** Position of the first `c` in `s`, if any. */
  function IndexOf(s: string, c: char): (r: Option<nat>)
    ensures r.Some? ==> r.value < |s| && s[r.value] == c && c !in s[..r.value]
    ensures r.None? ==> c !in s
  {
    if s == [] then None
    else if s[0] == c then Some(0)
    else match IndexOf(s[1..], c)
      case None => None
      case Some(k) => Some(k + 1)
  }
}
