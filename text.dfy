/**
 * The string operations the core relies on: `Char.IsWhiteSpace`,
 * `String.IsNullOrWhiteSpace`, `String.Trim`, `Int32.ToString` and the
 * username pattern `^[a-zA-Z0-9_]+$`.
 */
module Text {

  /** `Char.IsWhiteSpace`: U+0009..U+000D, U+0085 and the Unicode categories Zs, Zl and Zp. */
  predicate IsWhiteSpace(c: char) {
    || ('\t' <= c <= '\r')
    || c == ' '
    || c == '\U{85}'
    || c == '\U{A0}'
    || c == '\U{1680}'
    || ('\U{2000}' <= c <= '\U{200A}')
    || c == '\U{2028}'
    || c == '\U{2029}'
    || c == '\U{202F}'
    || c == '\U{205F}'
    || c == '\U{3000}'
  }

  /** Every character is white space (vacuously true of the empty string). */
  predicate IsBlank(s: string) {
    forall i :: 0 <= i < |s| ==> IsWhiteSpace(s[i])
  }

  /** Neither end of `s` is white space. */
  predicate IsTrimmed(s: string) {
    s == [] || (!IsWhiteSpace(s[0]) && !IsWhiteSpace(s[|s| - 1]))
  }

  /** The index of the first character at or after `k` that is not white space (`|s|` if none). */
  function TrimStartIndex(s: string, k: nat): (n: nat)
    requires k <= |s|
    requires forall i :: 0 <= i < k ==> IsWhiteSpace(s[i])
    ensures k <= n <= |s|
    ensures forall i :: 0 <= i < n ==> IsWhiteSpace(s[i])
    ensures n < |s| ==> !IsWhiteSpace(s[n])
    decreases |s| - k
  {
    if k < |s| && IsWhiteSpace(s[k]) then TrimStartIndex(s, k + 1) else k
  }

  /** Scanning down from `k` towards `lo`: the end of the text that is kept. */
  function TrimEndIndex(s: string, lo: nat, k: nat): (n: nat)
    requires lo <= k <= |s|
    requires forall i :: k <= i < |s| ==> IsWhiteSpace(s[i])
    ensures lo <= n <= k
    ensures forall i :: n <= i < |s| ==> IsWhiteSpace(s[i])
    ensures n > lo ==> !IsWhiteSpace(s[n - 1])
    decreases k - lo
  {
    if k > lo && IsWhiteSpace(s[k - 1]) then TrimEndIndex(s, lo, k - 1) else k
  }

  /** `String.Trim()`: the text between the leading and the trailing white space. */
  function Trim(s: string): (r: string)
    ensures |r| <= |s|
    ensures IsTrimmed(r)
    ensures r == [] <==> IsBlank(s)
  {
    var i := TrimStartIndex(s, 0);
    var j := TrimEndIndex(s, i, |s|);
    s[i..j]
  }

  /** `s` is `Trim(s)` with blank text on either side of it. */
  lemma TrimSplits(s: string)
    ensures exists i :: (0 <= i <= |s| - |Trim(s)| && s[i..i + |Trim(s)|] == Trim(s)
                         && IsBlank(s[..i]) && IsBlank(s[i + |Trim(s)|..]))
  {
    var i := TrimStartIndex(s, 0);
    var j := TrimEndIndex(s, i, |s|);
    assert i + |Trim(s)| == j;
    assert IsBlank(s[..i]) by {
      forall k | 0 <= k < i ensures IsWhiteSpace(s[..i][k]) { assert s[..i][k] == s[k]; }
    }
    assert IsBlank(s[j..]) by {
      forall k | 0 <= k < |s| - j ensures IsWhiteSpace(s[j..][k]) { assert s[j..][k] == s[j + k]; }
    }
  }

  /** A string with no white space at either end is its own trim. */
  lemma TrimOfTrimmed(s: string)
    requires IsTrimmed(s)
    ensures Trim(s) == s
  {
    if s != [] {
      assert TrimStartIndex(s, 0) == 0;
      assert TrimEndIndex(s, 0, |s|) == |s|;
    }
  }

  /** `Trim` is idempotent. */
  lemma TrimIdempotent(s: string)
    ensures Trim(Trim(s)) == Trim(s)
  {
    TrimOfTrimmed(Trim(s));
  }

  /** A member of the character class `[a-zA-Z0-9_]`. */
  predicate IsWordChar(c: char) {
    ('a' <= c <= 'z') || ('A' <= c <= 'Z') || ('0' <= c <= '9') || c == '_'
  }

  /** `[a-zA-Z0-9_]+`: one or more word characters and nothing else. */
  predicate IsWord(s: string) {
    |s| > 0 && forall i :: 0 <= i < |s| ==> IsWordChar(s[i])
  }

  /**
   * `Regex.IsMatch(s)` for `^[a-zA-Z0-9_]+$` without options: in .NET, `$`
   * matches at the very end and also just before a final newline.
   */
  predicate MatchesUsernamePattern(s: string) {
    || IsWord(s)
    || (|s| >= 2 && s[|s| - 1] == '\n' && IsWord(s[..|s| - 1]))
  }

  /** On trimmed text the pattern means exactly "one or more word characters". */
  lemma TrimmedPatternIsWord(s: string)
    requires IsTrimmed(s)
    ensures MatchesUsernamePattern(s) <==> IsWord(s)
  {
    assert IsWhiteSpace('\n');
  }

  /** A word never contains white space, so it is already trimmed. */
  lemma WordIsTrimmed(s: string)
    requires IsWord(s)
    ensures IsTrimmed(s)
  {
  }

  /** The character for the decimal digit `d`. */
  function DigitChar(d: nat): (c: char)
    requires d < 10
    ensures c as int == '0' as int + d
  {
    ('0' as int + d) as char
  }

  predicate IsDigits(s: string) {
    forall i :: 0 <= i < |s| ==> '0' <= s[i] <= '9'
  }

  /** The number a run of decimal digits spells, most significant first. */
  function DigitsValue(s: string): nat
    requires IsDigits(s)
  {
    if s == [] then 0
    else 10 * DigitsValue(s[..|s| - 1]) + (s[|s| - 1] as int - '0' as int)
  }

  /** The decimal digits of `n`, most significant first, without leading zeros. */
  function Digits(n: nat): (r: string)
    ensures |r| >= 1
    ensures IsDigits(r)
    ensures r[0] == '0' ==> n == 0
  {
    if n < 10 then [DigitChar(n)] else Digits(n / 10) + [DigitChar(n % 10)]
  }

  /** The digits of `n` spell `n`. */
  lemma {:induction false} DigitsRoundTrip(n: nat)
    ensures DigitsValue(Digits(n)) == n
  {
    var s := Digits(n);
    if n >= 10 {
      assert s[..|s| - 1] == Digits(n / 10);
      DigitsRoundTrip(n / 10);
    }
  }

  /** `Int32.ToString()` under the invariant culture: a minus sign, then the digits. */
  function IntToString(i: int): (r: string)
    ensures i >= 0 ==> IsWord(r) && IsDigits(r) && DigitsValue(r) == i
    ensures i < 0 ==> |r| >= 2 && r[0] == '-' && !IsWordChar(r[0])
    ensures i < 0 ==> IsDigits(r[1..]) && DigitsValue(r[1..]) == -i && r[1] != '0'
    ensures r[0] == '0' ==> r == "0"
  {
    if i < 0 then
      DigitsRoundTrip(-i);
      assert ("-" + Digits(-i))[1..] == Digits(-i);
      "-" + Digits(-i)
    else
      DigitsRoundTrip(i);
      Digits(i)
  }

  function Pow10(k: nat): (p: nat)
    ensures p >= 1
  {
    if k == 0 then 1 else 10 * Pow10(k - 1)
  }

  /** A number has at most `k` digits when it is below 10^k, and at least `k + 1` otherwise. */
  lemma {:induction false} DigitsLength(n: nat, k: nat)
    requires k >= 1
    ensures n < Pow10(k) <==> |Digits(n)| <= k
  {
    if n >= 10 && k >= 2 {
      DigitsLength(n / 10, k - 1);
    } else if n >= 10 {
      assert |Digits(n)| == |Digits(n / 10)| + 1;
    } else if k >= 2 {
      assert Pow10(k) == 10 * Pow10(k - 1);
    }
  }

  /** A non-negative 32-bit number has 1 to 10 digits, and at least 3 exactly from 100 on. */
  lemma Int32DigitCount(n: nat)
    requires n < 0x8000_0000
    ensures |Digits(n)| <= 10
    ensures |Digits(n)| >= 3 <==> n >= 100
  {
    DigitsLength(n, 2);
    DigitsLength(n, 10);
    assert Pow10(2) == 100;
    assert Pow10(10) == 10_000_000_000;
  }

  /** The text of a negative number, trimmed, starts with the minus sign, so it is no word. */
  lemma NegativeTextIsNoWord(i: int)
    requires i < 0
    ensures !IsWord(Trim(IntToString(i)))
  {
    var t := IntToString(i);
    assert TrimStartIndex(t, 0) == 0 by { assert !IsWhiteSpace(t[0]); }
    assert !IsBlank(t) by { assert !IsWhiteSpace(t[0]); }
    assert Trim(t)[0] == '-';
  }
}
