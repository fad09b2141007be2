/** C strings as sequences of characters, and the decimal text that atoi reads and printf writes. */
module Text {

  datatype Option<+T> = None | Some(value: T) {
    function GetOr(default: T): T {
      if None? then default else value
    }
  }

  /** The position of the first c in s, or |s| when there is none. */
  function IndexOf(s: string, c: char): (k: nat)
    ensures k <= |s|
    ensures c !in s[..k]
    ensures k < |s| ==> s[k] == c
  {
    if s == "" || s[0] == c then 0
    else
      var k := IndexOf(s[1..], c) + 1;
      assert s[..k] == [s[0]] + s[1..][..k - 1];
      k
  }

  lemma IndexOfUnique(s: string, c: char, k: nat)
    requires k <= |s| && c !in s[..k] && (k < |s| ==> s[k] == c)
    ensures IndexOf(s, c) == k
  {
    var m := IndexOf(s, c);
    assert forall i :: 0 <= i < k ==> s[i] in s[..k];
    assert forall i :: 0 <= i < m ==> s[i] in s[..m];
  }

  /** The C string held by a buffer: what precedes its first NUL. */
  function CStr(buf: seq<char>): (s: string)
    ensures '\0' !in s && s <= buf
  {
    buf[..IndexOf(buf, '\0')]
  }

  lemma CStrIs(buf: seq<char>, n: nat)
    requires n < |buf| && buf[n] == '\0' && '\0' !in buf[..n]
    ensures CStr(buf) == buf[..n]
  {
    IndexOfUnique(buf, '\0', n);
  }

  predicate IsDigit(c: char) {
    '0' <= c <= '9'
  }

  function DigitValue(c: char): (d: nat)
    requires IsDigit(c)
    ensures d <= 9
  {
    c as int - '0' as int
  }

  predicate AllDigits(s: string) {
    forall i :: 0 <= i < |s| ==> IsDigit(s[i])
  }

  /** The number a string of digits denotes in base ten; the empty string denotes 0. */
  function Value(s: string): nat
    requires AllDigits(s)
  {
    if s == "" then 0 else Value(s[..|s| - 1]) * 10 + DigitValue(s[|s| - 1])
  }

  function DigitChar(d: nat): (c: char)
    requires d <= 9
    ensures IsDigit(c) && DigitValue(c) == d
  {
    '0' + d as char
  }

  /** What printf writes for a non-negative number under %ld. */
  function Decimal(n: nat): (s: string)
    ensures s != "" && AllDigits(s)
  {
    if n < 10 then [DigitChar(n)] else Decimal(n / 10) + [DigitChar(n % 10)]
  }

  lemma {:induction false} ValueOfDecimal(n: nat)
    ensures Value(Decimal(n)) == n
  {
    if n < 10 {
    } else {
      ValueOfDecimal(n / 10);
      assert Decimal(n)[..|Decimal(n)| - 1] == Decimal(n / 10);
    }
  }

  function Pow10(k: nat): (p: nat)
    ensures p >= 1
  {
    if k == 0 then 1 else 10 * Pow10(k - 1)
  }

  /** A number below ten to the k prints in at most k digits. */
  lemma {:induction false} DecimalLength(n: nat, k: nat)
    requires k >= 1 && n < Pow10(k)
    ensures |Decimal(n)| <= k
  {
    if n < 10 {
    } else {
      assert k > 1 by {
        assert Pow10(1) == 10;
      }
      DecimalLength(n / 10, k - 1);
    }
  }

  /** isspace in the C locale. */
  predicate IsSpace(c: char) {
    c == ' ' || c == '\t' || c == '\n' || c == '\r' || c as int == 11 || c as int == 12
  }

  function SkipSpace(s: string): string {
    if s != "" && IsSpace(s[0]) then SkipSpace(s[1..]) else s
  }

  /** The longest prefix of s made of digits. */
  function LeadingDigits(s: string): (d: string)
    ensures AllDigits(d) && d <= s
    ensures |d| < |s| ==> !IsDigit(s[|d|])
  {
    if s != "" && IsDigit(s[0]) then [s[0]] + LeadingDigits(s[1..]) else ""
  }

  /** What is left behind the spaces: a sign and digits. */
  function Signed(t: string): int {
    if t != "" && t[0] == '-' then -(Value(LeadingDigits(t[1..])) as int)
    else if t != "" && t[0] == '+' then Value(LeadingDigits(t[1..]))
    else Value(LeadingDigits(t))
  }

  /** atoi on values that fit in an int (section 7.22.1.2 of ISO C11): white space, a sign, digits. */
  function Atoi(s: string): int {
    Signed(SkipSpace(s))
  }

  lemma {:induction false} LeadingDigitsStop(d: string, rest: string)
    requires AllDigits(d) && (rest == "" || !IsDigit(rest[0]))
    ensures LeadingDigits(d + rest) == d
  {
    if d == "" {
      assert d + rest == rest;
    } else {
      assert (d + rest)[1..] == d[1..] + rest;
      LeadingDigitsStop(d[1..], rest);
    }
  }

  lemma {:induction false} SkipSpaceStops(spaces: string, t: string)
    requires forall c :: c in spaces ==> IsSpace(c)
    requires t == "" || !IsSpace(t[0])
    ensures SkipSpace(spaces + t) == t
  {
    if spaces == "" {
      assert spaces + t == t;
    } else {
      assert (spaces + t)[1..] == spaces[1..] + t;
      SkipSpaceStops(spaces[1..], t);
    }
  }

  lemma SignedReads(sign: string, digits: string, rest: string)
    requires sign in {"", "+", "-"} && AllDigits(digits) && (rest == "" || !IsDigit(rest[0]))
    requires sign == "" && digits == "" && rest != "" ==> rest[0] !in {'+', '-'}
    ensures Signed(sign + (digits + rest)) == if sign == "-" then -(Value(digits) as int) else Value(digits)
  {
    var t := sign + (digits + rest);
    LeadingDigitsStop(digits, rest);
    if sign == "" {
      assert t == digits + rest;
    } else {
      assert t[0] == sign[0] && t[1..] == digits + rest;
    }
  }

  /** What atoi makes of spaces, a sign, digits and a rest that adds to none of them. */
  lemma AtoiReads(spaces: string, sign: string, digits: string, rest: string)
    requires forall c :: c in spaces ==> c in {' ', '\t', '\n', '\r', 11 as char, 12 as char}
    requires sign in {"", "+", "-"} && AllDigits(digits) && (rest == "" || !IsDigit(rest[0]))
    requires sign == "" && digits == "" && rest != "" ==>
               rest[0] !in {' ', '\t', '\n', '\r', 11 as char, 12 as char, '+', '-'}
    ensures Atoi(spaces + (sign + (digits + rest))) == if sign == "-" then -(Value(digits) as int) else Value(digits)
  {
    var t := sign + (digits + rest);
    SkipSpaceStops(spaces, t);
    SignedReads(sign, digits, rest);
  }

  /** atoi reads a printed number back, and stops at the first character that is no digit. */
  lemma AtoiOfDecimal(n: nat, rest: string)
    requires rest == "" || !IsDigit(rest[0])
    ensures Atoi(Decimal(n) + rest) == n
  {
    var s := Decimal(n);
    assert IsDigit(s[0]) && (s + rest)[0] == s[0];
    LeadingDigitsStop(s, rest);
    ValueOfDecimal(n);
  }
}
