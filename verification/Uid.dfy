/** get_uid of src/mqtt/auth_plugin.cc: a decimal number read into a 64-bit long. */
module Uid {
  import opened Text

  /** A number brought into the range of a signed 64-bit long by two's-complement wrap-around. */
  function Long(x: int): (y: int)
    ensures -0x8000_0000_0000_0000 <= y < 0x8000_0000_0000_0000
    ensures -0x8000_0000_0000_0000 <= x < 0x8000_0000_0000_0000 ==> y == x
  {
    (x + 0x8000_0000_0000_0000) % 0x1_0000_0000_0000_0000 - 0x8000_0000_0000_0000
  }

  /** Wrapping in between makes no difference to the wrapped sum. */
  lemma LongStep(v: int, d: int)
    ensures Long(Long(Long(v) * 10) + d) == Long(v * 10 + d)
  {
    LongCongruent(v);
    LongCongruent(Long(v) * 10);
    var q, r := Quotient(v), Quotient(Long(v) * 10);
    assert Long(Long(v) * 10) + d == v * 10 + d - 0x1_0000_0000_0000_0000 * (q * 10 + r);
    LongShift(v * 10 + d, q * 10 + r);
  }

  ghost function Quotient(x: int): int {
    (x + 0x8000_0000_0000_0000) / 0x1_0000_0000_0000_0000
  }

  lemma LongCongruent(x: int)
    ensures Long(x) == x - 0x1_0000_0000_0000_0000 * Quotient(x)
  {
  }

  lemma LongShift(x: int, q: int)
    ensures Long(x - 0x1_0000_0000_0000_0000 * q) == Long(x)
  {
  }

  /** The character the loop passes over: it compares the offset from '0' with a space, and 'P' has that offset. */
  const SKIPPED := 'P'

  /** Digits, and the one character that is passed over. */
  predicate Readable(s: string, skip: char) {
    forall i :: 0 <= i < |s| ==> IsDigit(s[i]) || s[i] == skip
  }

  /** The digits of s. */
  function Digits(s: string): (d: string)
    ensures AllDigits(d)
  {
    if s == "" then ""
    else
      var front := Digits(s[..|s| - 1]);
      if IsDigit(s[|s| - 1]) then front + [s[|s| - 1]] else front
  }

  /** The wrapped value of the digits, -1 for the empty string or a foreign character. */
  function Parsed(s: string, skip: char): int {
    if s == "" || !Readable(s, skip) then -1 else Long(Value(Digits(s)))
  }

  /** What get_uid answers. */
  function UidOf(s: string): int {
    Parsed(s, SKIPPED)
  }

  method GetUid(username: string) returns (uid: int)
    ensures uid == UidOf(username)
  {
    if username == "" {
      return -1;
    }
    uid := 0;
    var i := 0;
    while i < |username|
      invariant 0 <= i <= |username|
      invariant Readable(username[..i], SKIPPED) && uid == Long(Value(Digits(username[..i])))
    {
      var d := username[i] as int - '0' as int;
      if d >= 0 && d <= 9 {
        DigitRead(username, i);
        uid := Long(uid * 10);
        uid := Long(uid + d);
      } else {
        if d != ' ' as int {
          assert !IsDigit(username[i]) && username[i] != SKIPPED;
          return -1;
        }
        SkippedRead(username, i);
      }
      i := i + 1;
    }
    assert username[..|username|] == username;
  }

  /** Reading a digit multiplies and adds. */
  lemma DigitRead(s: string, i: nat)
    requires i < |s| && IsDigit(s[i]) && Readable(s[..i], SKIPPED)
    ensures Readable(s[..i + 1], SKIPPED)
    ensures Long(Value(Digits(s[..i + 1]))) == Long(Long(Long(Value(Digits(s[..i]))) * 10) + DigitValue(s[i]))
  {
    var front, next := s[..i], s[..i + 1];
    assert next[..|next| - 1] == front;
    var d := Digits(next);
    assert d == Digits(front) + [s[i]] && d[..|d| - 1] == Digits(front);
    LongStep(Value(Digits(front)), DigitValue(s[i]));
  }

  lemma SkippedRead(s: string, i: nat)
    requires i < |s| && s[i] == SKIPPED && Readable(s[..i], SKIPPED)
    ensures Readable(s[..i + 1], SKIPPED) && Digits(s[..i + 1]) == Digits(s[..i])
  {
    var next := s[..i + 1];
    assert next[..|next| - 1] == s[..i];
  }

  /** Where the loop as written differs from one that passes over spaces: exactly on texts of digits, 'P' and spaces
      with one of the two but not the other, unless the digits wrap around to -1. */
  lemma SkipsSpaceIff(s: string)
    ensures UidOf(s) == Parsed(s, ' ')
       <==> !OnlyDigitsAndSkips(s) || (SKIPPED in s <==> ' ' in s) || Long(Value(Digits(s))) == -1
  {
    ReadableIff(s);
  }

  lemma ReadableIff(s: string)
    ensures Readable(s, SKIPPED) <==> OnlyDigitsAndSkips(s) && ' ' !in s
    ensures Readable(s, ' ') <==> OnlyDigitsAndSkips(s) && SKIPPED !in s
  {
  }

  predicate OnlyDigitsAndSkips(s: string) {
    forall i :: 0 <= i < |s| ==> IsDigit(s[i]) || s[i] == SKIPPED || s[i] == ' '
  }

  /** For example: "1P2" is read as 12 and "1 2" refused, where passing over spaces gives the reverse. */
  lemma SkippedExample()
    ensures UidOf("1P2") == 12 && UidOf("1 2") == -1
    ensures Parsed("1P2", ' ') == -1 && Parsed("1 2", ' ') == 12
  {
    OneAndTwo('P');
    OneAndTwo(' ');
    assert "1P2" == ['1', 'P', '2'] && "1 2" == ['1', ' ', '2'];
    assert "1 2"[1] == ' ' && "1P2"[1] == 'P';
  }

  lemma OneAndTwo(skip: char)
    requires !IsDigit(skip)
    ensures Value(Digits(['1', skip, '2'])) == 12
  {
    var s := ['1', skip, '2'];
    assert s[..2] == ['1', skip] && s[..2][..1] == ['1'] && ['1'][..0] == [];
    assert Digits(['1']) == ['1'];
    assert Digits(s[..2]) == ['1'];
    assert Digits(s) == ['1', '2'] && ['1', '2'][..1] == ['1'];
  }

  lemma {:induction false} DigitsOfDigits(s: string)
    requires AllDigits(s)
    ensures Readable(s, SKIPPED) && Digits(s) == s
  {
    if s == "" {
    } else {
      DigitsOfDigits(s[..|s| - 1]);
      assert s[..|s| - 1] + [s[|s| - 1]] == s;
    }
  }

  /** Which names are refused, and that of the others the digits count and the letter P does not. */
  lemma UidOfName(s: string)
    ensures s == "" || (exists c :: c in s && !('0' <= c <= '9') && c != 'P') ==> UidOf(s) == -1
    ensures s != "" && (forall c :: c in s ==> '0' <= c <= '9' || c == 'P') ==> UidOf(s) == Long(Value(Digits(s)))
  {
    if c :| c in s && !('0' <= c <= '9') && c != 'P' {
      assert !Readable(s, SKIPPED);
    } else {
      assert forall i :: 0 <= i < |s| ==> s[i] in s;
      assert Readable(s, SKIPPED);
    }
  }

  /** Every number a long can hold is read back from its decimal text. */
  lemma UidOfDecimal(n: nat)
    requires n < 0x8000_0000_0000_0000
    ensures UidOf(Decimal(n)) == n
  {
    DigitsOfDigits(Decimal(n));
    ValueOfDecimal(n);
  }

  /** No prefix of a number is larger than the number. */
  lemma {:induction false} PrefixValue(s: string, i: nat)
    requires AllDigits(s) && i <= |s|
    ensures Value(s[..i]) <= Value(s)
    decreases |s|
  {
    if i == |s| {
      assert s[..i] == s;
    } else {
      PrefixValue(s[..|s| - 1], i);
      assert s[..|s| - 1][..i] == s[..i];
    }
  }

  /** The product, and the sum, the loop forms at digit i without wrapping. */
  function Product(s: string, i: nat): nat
    requires AllDigits(s) && i < |s|
  {
    Value(s[..i]) * 10
  }

  function Sum(s: string, i: nat): nat
    requires AllDigits(s) && i < |s|
  {
    Product(s, i) + DigitValue(s[i])
  }

  lemma SumIsPrefixValue(s: string, i: nat)
    requires AllDigits(s) && i < |s|
    ensures Sum(s, i) == Value(s[..i + 1])
  {
    var t := s[..i + 1];
    assert t[..|t| - 1] == s[..i];
  }

  /** On every digit string no step leaves the range of a long exactly when the number itself fits. */
  lemma NoOverflow(s: string)
    requires AllDigits(s)
    ensures Value(s) < 0x8000_0000_0000_0000
       <==> forall i :: 0 <= i < |s| ==> Product(s, i) <= Sum(s, i) < 0x8000_0000_0000_0000
  {
    forall i | 0 <= i < |s|
      ensures Product(s, i) <= Sum(s, i) <= Value(s)
    {
      SumIsPrefixValue(s, i);
      PrefixValue(s, i + 1);
    }
    if s == "" {
    } else {
      SumIsPrefixValue(s, |s| - 1);
      assert s[..|s|] == s;
    }
  }
}
