/** The string operations the validators rely on: JavaScript's white-space class (`\s`,
    and what `String.prototype.trim` removes), `trim`, ASCII `toUpperCase`, the two e-mail
    patterns, the username character class, and decimal rendering of naturals. */
module Text {
  import opened Wrappers

  /** A character of JavaScript's white-space class: the characters `\s` matches and
      `trim` strips (WhiteSpace and LineTerminator). */
  predicate IsSpace(c: char) {
    c == '\t' || c == '\n' || c == '\U{000B}' || c == '\U{000C}' || c == '\r' || c == ' '
    || c == '\U{00A0}' || c == '\U{1680}' || ('\U{2000}' <= c <= '\U{200A}')
    || c == '\U{2028}' || c == '\U{2029}' || c == '\U{202F}' || c == '\U{205F}'
    || c == '\U{3000}' || c == '\U{FEFF}'
  }

  /** Every character is white space (the empty string included). */
  predicate IsBlank(s: string) {
    forall k :: 0 <= k < |s| ==> IsSpace(s[k])
  }

  /** `s` without its leading white space. */
  function TrimStart(s: string): (r: string)
    ensures |r| <= |s| && r == s[|s| - |r|..]
    ensures IsBlank(s[..|s| - |r|])
    ensures |r| > 0 ==> !IsSpace(r[0])
  {
    if |s| > 0 && IsSpace(s[0]) then
      var r := TrimStart(s[1..]);
      assert s[1..][..|s| - 1 - |r|] == s[1..|s| - |r|];
      r
    else s
  }

  /** `s` without its trailing white space. */
  function TrimEnd(s: string): (r: string)
    ensures |r| <= |s| && r == s[..|r|]
    ensures IsBlank(s[|r|..])
    ensures |r| > 0 ==> !IsSpace(r[|r| - 1])
  {
    if |s| > 0 && IsSpace(s[|s| - 1]) then
      var r := TrimEnd(s[..|s| - 1]);
      assert s[..|s| - 1][|r|..] == s[|r|..|s| - 1];
      r
    else s
  }

  /** `String.prototype.trim`. */
  function Trim(s: string): string {
    TrimEnd(TrimStart(s))
  }

  /** `!s.trim()`: the trimmed string is empty exactly when every character is white
      space. */
  lemma TrimEmptyIffBlank(s: string)
    ensures Trim(s) == "" <==> IsBlank(s)
  {
    var t := TrimStart(s);
    if Trim(s) == "" {
      assert t[0..] == t;
      assert |t| == 0;
      assert s[..|s|] == s;
    } else {
      var r := Trim(s);
      assert !IsSpace(r[0]);
      assert r[0] == t[0] == s[|s| - |t|];
    }
  }

  /** A character of the class [A-Za-z0-9_]. */
  predicate IsWordChar(c: char) {
    ('a' <= c <= 'z') || ('A' <= c <= 'Z') || ('0' <= c <= '9') || c == '_'
  }

  /** `/^[a-zA-Z0-9_]+$/.test(s)`. */
  predicate IsWord(s: string) {
    |s| > 0 && forall k :: 0 <= k < |s| ==> IsWordChar(s[k])
  }

  /** A word contains no white space, so it is never blank. */
  lemma WordIsNotBlank(s: string)
    requires IsWord(s)
    ensures !IsBlank(s)
  {
    assert IsWordChar(s[0]);
  }

  /** ASCII upper-casing of one character; every other character is left alone. */
  function UpperChar(c: char): (u: char)
    ensures 'a' <= c <= 'z' ==> 'A' <= u <= 'Z' && u as int == c as int - 32
    ensures !('a' <= c <= 'z') ==> u == c
  {
    if 'a' <= c <= 'z' then (c as int - 32) as char else c
  }

  /** `toUpperCase`, restricted to the ASCII letters (the only letters a room id or an
      invite code holds). */
  function ToUpper(s: string): (u: string)
    ensures |u| == |s|
    ensures forall k :: 0 <= k < |s| ==> u[k] == UpperChar(s[k])
  {
    seq(|s|, k requires 0 <= k < |s| => UpperChar(s[k]))
  }

  /** Upper-casing twice is upper-casing once. */
  lemma ToUpperIdempotent(s: string)
    ensures ToUpper(ToUpper(s)) == ToUpper(s)
  {
    var u := ToUpper(s);
    forall k | 0 <= k < |s| ensures ToUpper(u)[k] == u[k] {
      assert !('a' <= u[k] <= 'z');
    }
  }

  /** `/\S+@\S+\.\S+/.test(s)`, searched anywhere in the string: a non-space character,
      '@', at least one non-space character, '.', and a non-space character. */
  predicate LooseEmail(s: string) {
    exists i, j :: 1 <= i && i + 2 <= j && j + 1 < |s| && LooseEmailAt(s, i, j)
  }

  predicate LooseEmailAt(s: string, i: int, j: int)
    requires 1 <= i && i + 2 <= j && j + 1 < |s|
  {
    s[i] == '@' && s[j] == '.' && !IsSpace(s[i - 1]) && !IsSpace(s[j + 1])
    && forall k :: i < k < j ==> !IsSpace(s[k])
  }

  /** `/^[^\s@]+@[^\s@]+\.[^\s@]+$/.test(s)`: no white space anywhere, exactly one '@'
      which is not first, and a '.' after it with at least one character on each side
      inside the domain part. */
  predicate StrictEmail(s: string) {
    (forall k :: 0 <= k < |s| ==> !IsSpace(s[k]))
    && exists i, j :: 1 <= i && i + 2 <= j && j + 2 <= |s| && StrictEmailAt(s, i, j)
  }

  predicate StrictEmailAt(s: string, i: int, j: int)
    requires 1 <= i && i + 2 <= j && j + 2 <= |s|
  {
    s[i] == '@' && s[j] == '.' && forall k :: 0 <= k < |s| && k != i ==> s[k] != '@'
  }

  /** Every address the registration form accepts is accepted by the server's pattern. */
  lemma StrictEmailIsLoose(s: string)
    requires StrictEmail(s)
    ensures LooseEmail(s)
  {
    var i, j :| 1 <= i && i + 2 <= j && j + 2 <= |s| && StrictEmailAt(s, i, j);
    assert LooseEmailAt(s, i, j);
  }

  /** A matching address is never blank. */
  lemma LooseEmailIsNotBlank(s: string)
    requires LooseEmail(s)
    ensures !IsBlank(s)
  {
    var i, j :| 1 <= i && i + 2 <= j && j + 1 < |s| && LooseEmailAt(s, i, j);
    assert !IsSpace(s[i]);
  }

  // ---------------------------------------------------------------------------------------
  // Decimal numerals

  predicate IsDigit(c: char) { '0' <= c <= '9' }

  function DigitChar(d: nat): (c: char)
    requires d < 10
    ensures IsDigit(c) && DigitValue(c) == d
  {
    ('0' as int + d) as char
  }

  function DigitValue(c: char): nat
    requires IsDigit(c)
  {
    c as int - '0' as int
  }

  predicate AllDigits(s: string) {
    forall k :: 0 <= k < |s| ==> IsDigit(s[k])
  }

  /** The decimal rendering of n, as a template literal `${n}` writes it. */
  function NatToString(n: nat): (s: string)
    ensures |s| > 0 && AllDigits(s)
    ensures |s| > 1 ==> s[0] != '0'
    decreases n
  {
    if n < 10 then [DigitChar(n)] else NatToString(n / 10) + [DigitChar(n % 10)]
  }

  /** The value of a string of decimal digits. */
  function ParseDigits(s: string): nat
    requires AllDigits(s)
  {
    if |s| == 0 then 0 else ParseDigits(s[..|s| - 1]) * 10 + DigitValue(s[|s| - 1])
  }

  /** Reading a rendered natural gives it back. */
  lemma {:induction false} ParseNatToString(n: nat)
    ensures ParseDigits(NatToString(n)) == n
    decreases n
  {
    var s := NatToString(n);
    if n >= 10 {
      ParseNatToString(n / 10);
      assert s[..|s| - 1] == NatToString(n / 10);
    }
  }
}
