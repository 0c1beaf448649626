/** Character and string operations behind the string expressions the
    dashboard uses: decimal digits (`\d`, `str(n)`, a cast to an integer),
    prefix and substring tests (`str.contains`) and polars' `to_titlecase`.
    Characters outside ASCII are never digits, letters or case-mapped. */
module Text {

  predicate IsDigit(c: char) {
    '0' <= c <= '9'
  }

  function DigitValue(c: char): (d: nat)
    requires IsDigit(c)
    ensures d <= 9
  {
    c as int - '0' as int
  }

  function DigitChar(d: nat): (c: char)
    requires d <= 9
    ensures IsDigit(c) && DigitValue(c) == d
  {
    (d + '0' as int) as char
  }

  predicate AllDigits(s: string) {
    forall i :: 0 <= i < |s| ==> IsDigit(s[i])
  }

  /** The decimal text of `n` (Python's `str` on an integer). */
  function NatToString(n: nat): (s: string)
    ensures |s| >= 1 && AllDigits(s)
    ensures |s| > 1 ==> s[0] != '0'
  {
    if n < 10 then [DigitChar(n)] else NatToString(n / 10) + [DigitChar(n % 10)]
  }

  /** The number a string of decimal digits spells. */
  function DecimalValue(s: string): nat
    requires AllDigits(s)
  {
    if s == [] then 0 else DecimalValue(s[..|s| - 1]) * 10 + DigitValue(s[|s| - 1])
  }

  /** Reading back the decimal text of a number gives the number. */
  lemma {:induction false} DecimalRoundTrip(n: nat)
    ensures DecimalValue(NatToString(n)) == n
  {
    if n >= 10 {
      DecimalRoundTrip(n / 10);
      var s := NatToString(n);
      assert s[..|s| - 1] == NatToString(n / 10);
    }
  }

  /** The length of the run of digits that `s` starts with. */
  function LeadingDigits(s: string): (n: nat)
    ensures n <= |s| && AllDigits(s[..n])
    ensures n < |s| ==> !IsDigit(s[n])
  {
    if s == [] || !IsDigit(s[0]) then 0
    else
      var n := 1 + LeadingDigits(s[1..]);
      assert forall i :: 1 <= i < n ==> s[..n][i] == s[1..][..n - 1][i - 1];
      n
  }

  /** Digits followed by a non-digit: the run of digits is exactly `d`. */
  lemma {:induction false} LeadingDigitsOf(d: string, rest: string)
    requires AllDigits(d)
    requires rest != [] && !IsDigit(rest[0])
    ensures LeadingDigits(d + rest) == |d|
  {
    if d != [] {
      assert (d + rest)[1..] == d[1..] + rest;
      LeadingDigitsOf(d[1..], rest);
    }
  }

  /** `t` occurs in `s` starting at position `i`. */
  predicate OccursAt(s: string, t: string, i: int) {
    0 <= i && i + |t| <= |s| && s[i..i + |t|] == t
  }

  function ContainsFrom(s: string, t: string, i: nat): (b: bool)
    requires i <= |s|
    ensures b <==> exists k :: i <= k <= |s| && OccursAt(s, t, k)
    decreases |s| - i
  {
    if i + |t| > |s| then false
    else if s[i..i + |t|] == t then assert OccursAt(s, t, i); true
    else ContainsFrom(s, t, i + 1)
  }

  /** `t` is a substring of `s` (a literal `str.contains`; the pattern
      `.*TITAN.*` matches exactly the strings containing `TITAN`, since the
      `.*` parts may match nothing). */
  function Contains(s: string, t: string): (b: bool)
    ensures b <==> exists k :: 0 <= k <= |s| && OccursAt(s, t, k)
  {
    ContainsFrom(s, t, 0)
  }

  predicate IsUpper(c: char) {
    'A' <= c <= 'Z'
  }

  predicate IsLower(c: char) {
    'a' <= c <= 'z'
  }

  predicate IsAlphanumeric(c: char) {
    IsUpper(c) || IsLower(c) || IsDigit(c)
  }

  function ToUpper(c: char): char {
    if IsLower(c) then (c as int - 32) as char else c
  }

  function ToLower(c: char): char {
    if IsUpper(c) then (c as int + 32) as char else c
  }

  /** The title-case rule, from a position where the previous character
      was (`upperNext == false`) or was not alphanumeric: every character
      that starts a word (it follows a character that is not alphanumeric)
      is not lower-case, and every other character is not upper-case. */
  predicate TitleCasedFrom(s: string, upperNext: bool) {
    (s != [] ==> if upperNext then !IsLower(s[0]) else !IsUpper(s[0]))
    && forall i :: 1 <= i < |s| ==>
      if !IsAlphanumeric(s[i - 1]) then !IsLower(s[i]) else !IsUpper(s[i])
  }

  /** The first character starts a word. */
  predicate IsTitleCased(s: string) {
    TitleCasedFrom(s, true)
  }

  function TitleCaseFrom(s: string, upperNext: bool): (r: string)
    ensures |r| == |s|
    ensures forall i :: 0 <= i < |s| ==> ToLower(r[i]) == ToLower(s[i])
    ensures forall i :: 0 <= i < |s| ==> IsAlphanumeric(r[i]) == IsAlphanumeric(s[i])
    ensures TitleCasedFrom(r, upperNext)
  {
    if s == [] then []
    else
      var c := if upperNext then ToUpper(s[0]) else ToLower(s[0]);
      var rest := TitleCaseFrom(s[1..], !IsAlphanumeric(s[0]));
      assert forall i :: 1 <= i < |s| ==> ([c] + rest)[i] == rest[i - 1];
      [c] + rest
  }

  /** polars `to_titlecase`: each character that starts a word is
      upper-cased and every other one lower-cased; only the letters change,
      and only in case. */
  function TitleCase(s: string): (r: string)
    ensures |r| == |s|
    ensures forall i :: 0 <= i < |s| ==> ToLower(r[i]) == ToLower(s[i])
    ensures IsTitleCased(r)
  {
    TitleCaseFrom(s, true)
  }

  lemma {:induction false} TitleCaseFromFixed(s: string, upperNext: bool)
    requires TitleCasedFrom(s, upperNext)
    ensures TitleCaseFrom(s, upperNext) == s
  {
    if s != [] {
      assert TitleCasedFrom(s[1..], !IsAlphanumeric(s[0])) by {
        forall i | 1 <= i < |s[1..]|
          ensures if !IsAlphanumeric(s[1..][i - 1]) then !IsLower(s[1..][i]) else !IsUpper(s[1..][i])
        {
          assert s[1..][i - 1] == s[i] && s[1..][i] == s[i + 1];
        }
        if |s| > 1 {
          assert s[1..][0] == s[1];
        }
      }
      TitleCaseFromFixed(s[1..], !IsAlphanumeric(s[0]));
      assert s == [s[0]] + s[1..];
    }
  }

  /** A string that is already title-cased is left unchanged. */
  lemma TitleCaseFixed(s: string)
    requires IsTitleCased(s)
    ensures TitleCase(s) == s
  {
    TitleCaseFromFixed(s, true);
  }

  /** Title-casing twice is title-casing once, so re-normalising an already
      loaded customer table changes no name. */
  lemma TitleCaseIdempotent(s: string)
    ensures TitleCase(TitleCase(s)) == TitleCase(s)
  {
    TitleCaseFixed(TitleCase(s));
  }
}
