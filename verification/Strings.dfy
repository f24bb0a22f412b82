// Text operations of the Go standard library that the agent's code relies on, over
// strings of Unicode scalar values.
module Strings {

  /** White space in the sense of Go's unicode.IsSpace. */
  predicate IsSpace(c: char) {
    || '\U{09}' <= c <= '\U{0D}'
    || c == ' ' || c == '\U{85}' || c == '\U{A0}' || c == '\U{1680}'
    || '\U{2000}' <= c <= '\U{200A}'
    || c == '\U{2028}' || c == '\U{2029}' || c == '\U{202F}' || c == '\U{205F}' || c == '\U{3000}'
  }

  /** Neither end of s is white space. */
  predicate IsTrimmed(s: string) {
    s == "" || (!IsSpace(s[0]) && !IsSpace(s[|s| - 1]))
  }

  /** The first index from i on without white space. */
  function FirstSolid(s: string, i: nat): (n: nat)
    requires i <= |s|
    ensures i <= n <= |s| && (n < |s| ==> !IsSpace(s[n])) && (i < |s| && !IsSpace(s[i]) ==> n == i)
    decreases |s| - i
  {
    if i < |s| && IsSpace(s[i]) then FirstSolid(s, i + 1) else i
  }

  /** The end of s[i..n] without the white space behind it. */
  function SolidEnd(s: string, i: nat, n: nat): (m: nat)
    requires i <= n <= |s|
    ensures i <= m <= n && (i < m ==> !IsSpace(s[m - 1])) && (i < n && !IsSpace(s[n - 1]) ==> m == n)
  {
    if i < n && IsSpace(s[n - 1]) then SolidEnd(s, i, n - 1) else n
  }

  lemma {:induction false} SolidWithin(s: string, i: nat, k: nat, n: nat)
    requires i < k <= n <= |s| && !IsSpace(s[k - 1])
    ensures SolidEnd(s, i, n) >= k
  {
    hide IsSpace;
    if k < n && IsSpace(s[n - 1]) {
      SolidWithin(s, i, k, n - 1);
    }
  }

  /** strings.TrimSpace */
  function TrimSpace(s: string): (r: string)
    ensures IsTrimmed(r)
    ensures IsTrimmed(s) ==> r == s
  {
    var i := FirstSolid(s, 0);
    s[i..SolidEnd(s, i, |s|)]
  }

  lemma TrimTwice(s: string)
    ensures TrimSpace(TrimSpace(s)) == TrimSpace(s)
  {
  }

  predicate Blank(s: string) {
    TrimSpace(s) == ""
  }

  /** Case folding restricted to what can fold to an ASCII letter (long s and Kelvin sign
      included), which decides equality with an ASCII word exactly as strings.EqualFold. */
  function FoldChar(c: char): char {
    if 'A' <= c <= 'Z' then c + ' ' else if c == '\U{17F}' then 's' else if c == '\U{212A}' then 'k' else c
  }

  predicate EqualFold(s: string, t: string) {
    |s| == |t| && forall i :: 0 <= i < |s| ==> FoldChar(s[i]) == FoldChar(t[i])
  }

  function LowerChar(c: char): char {
    if 'A' <= c <= 'Z' then c + ' ' else c
  }

  /** strings.ToLower on ASCII letters. */
  function ToLower(s: string): (r: string)
    ensures |r| == |s|
    ensures forall i :: 0 <= i < |s| ==> r[i] == LowerChar(s[i])
  {
    seq(|s|, i requires 0 <= i < |s| => LowerChar(s[i]))
  }

  /** Lower case goes letter by letter and leaves all else alone. */
  lemma LowerByLetter(c: char)
    ensures var upper, lower := "ABCDEFGHIJKLMNOPQRSTUVWXYZ", "abcdefghijklmnopqrstuvwxyz";
            && (forall k :: 0 <= k < 26 && c == upper[k] ==> LowerChar(c) == lower[k])
            && (c !in upper ==> LowerChar(c) == c)
  {
    var upper, lower := "ABCDEFGHIJKLMNOPQRSTUVWXYZ", "abcdefghijklmnopqrstuvwxyz";
    assert forall k :: 0 <= k < 26 ==> upper[k] == 'A' + k as char && lower[k] == 'a' + k as char;
    if 'A' <= c <= 'Z' {
      var k := (c - 'A') as nat;
      assert upper[k] == c;
    }
  }

  lemma LowerTwice(s: string)
    ensures ToLower(ToLower(s)) == ToLower(s)
  {
  }

  lemma LowerTrimmed(s: string)
    requires IsTrimmed(s)
    ensures IsTrimmed(ToLower(s))
  {
  }

  lemma LoweredStays(s: string)
    ensures var k := ToLower(TrimSpace(s)); ToLower(TrimSpace(k)) == k && (k == "" <==> Blank(s))
  {
    LowerTrimmed(TrimSpace(s));
    LowerTwice(TrimSpace(s));
    hide TrimSpace, IsTrimmed;
  }

  predicate HasPrefix(s: string, prefix: string) {
    prefix <= s
  }

  predicate HasSuffix(s: string, suffix: string) {
    |suffix| <= |s| && s[|s| - |suffix|..] == suffix
  }

  /** firstNonEmptyString of two arguments: the first one that is not blank, untrimmed. */
  function FirstNonEmpty(a: string, b: string): string {
    if !Blank(a) then a else if !Blank(b) then b else ""
  }

  function Digit(n: nat): char
    requires n < 10
  {
    '0' + n as char
  }

  predicate IsDigit(c: char) {
    '0' <= c <= '9'
  }

  /** strconv.Itoa on naturals. */
  function Decimal(n: nat): (r: string)
    ensures |r| > 0
    ensures forall i :: 0 <= i < |r| ==> IsDigit(r[i])
  {
    if n < 10 then [Digit(n)] else Decimal(n / 10) + [Digit(n % 10)]
  }

  /** The number a string of decimal digits stands for. */
  function ParseDecimal(s: string): nat
    requires forall i :: 0 <= i < |s| ==> IsDigit(s[i])
  {
    if s == "" then 0
    else assert IsDigit(s[|s| - 1]); ParseDecimal(s[..|s| - 1]) * 10 + (s[|s| - 1] as nat - '0' as nat)
  }

  lemma {:induction false} DecimalRoundTrip(n: nat)
    ensures ParseDecimal(Decimal(n)) == n
  {
    var d := Decimal(n);
    if n >= 10 {
      DecimalRoundTrip(n / 10);
      assert d[..|d| - 1] == Decimal(n / 10);
    } else {
      assert d[..|d| - 1] == "";
    }
  }
}
