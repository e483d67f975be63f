/** Decimal numbers as text. */
module Numbers {
  import opened Options

  const U64_MAX: nat := 0xFFFF_FFFF_FFFF_FFFF

  predicate IsDigit(c: char) {
    '0' <= c <= '9'
  }

  predicate AllDigits(s: string) {
    forall i :: 0 <= i < |s| ==> IsDigit(s[i])
  }

  function DigitOf(d: nat): (c: char)
    requires d < 10
    ensures IsDigit(c) && (c as int) - ('0' as int) == d
  {
    '0' + d as char
  }

  /** How a natural number is written. */
  function Digits(n: nat): (s: string)
    ensures s != "" && AllDigits(s)
  {
    if n < 10 then [DigitOf(n)] else Digits(n / 10) + [DigitOf(n % 10)]
  }

  function ValueOf(s: string): nat
    requires AllDigits(s)
  {
    if s == "" then 0 else 10 * ValueOf(s[..|s| - 1]) + ((s[|s| - 1] as int) - ('0' as int))
  }

  lemma {:induction false} ValueOfDigits(n: nat)
    ensures ValueOf(Digits(n)) == n
  {
    if n >= 10 {
      ValueOfDigits(n / 10);
      assert Digits(n)[..|Digits(n)| - 1] == Digits(n / 10);
    } else {
      assert Digits(n)[..0] == "";
    }
  }

  lemma {:induction false} DigitsDiffer(n: nat, m: nat)
    ensures Digits(n) == Digits(m) ==> n == m
  {
    ValueOfDigits(n);
    ValueOfDigits(m);
  }

  /** Reading an unsigned 64-bit number: an optional plus sign, at least one digit, nothing else, and no overflow. */
  function ParseU64(s: string): (n: Option<nat>)
    ensures n.Some? ==> n.value <= U64_MAX
  {
    var digits := if s != "" && s[0] == '+' then s[1..] else s;
    if digits != "" && AllDigits(digits) && ValueOf(digits) <= U64_MAX then Some(ValueOf(digits)) else None
  }

  lemma {:induction false} ParseDigits(n: nat)
    ensures ParseU64(Digits(n)) == if n <= U64_MAX then Some(n) else None
  {
    ValueOfDigits(n);
    assert IsDigit(Digits(n)[0]);
  }

  /** A plus sign is read over; what is empty or holds anything but digits is no number. */
  lemma {:induction false} ParsesOnlyDigits(n: nat, s: string)
    requires n <= U64_MAX
    ensures ParseU64("+" + Digits(n)) == Some(n)
    ensures ParseU64("") == None && (s != "" && s[0] != '+' && !AllDigits(s) ==> ParseU64(s) == None)
  {
    ValueOfDigits(n);
    assert ("+" + Digits(n))[1..] == Digits(n);
  }

  /** Numbers are written in tens, without leading zeros. */
  lemma {:induction false} PlainDigits(n: nat)
    ensures Digits(n)[0] == '0' <==> n == 0
    ensures Digits(10 * n + 7) == if n == 0 then "7" else Digits(n) + "7"
  {
    if n >= 10 {
      PlainDigits(n / 10);
      assert Digits(n)[0] == Digits(n / 10)[0];
    }
    assert (10 * n + 7) / 10 == n && (10 * n + 7) % 10 == 7;
  }

  /** Digits in front of the same separator are the same digits. */
  lemma {:induction false} DigitsBefore(a: string, b: string, separator: char, x: string, y: string)
    requires AllDigits(a) && AllDigits(b) && !IsDigit(separator)
    requires a + [separator] + x == b + [separator] + y
    ensures a == b && x == y
  {
    var s, t := a + [separator] + x, b + [separator] + y;
    assert forall i :: 0 <= i < |a| ==> s[i] == a[i] && IsDigit(s[i]);
    assert forall i :: 0 <= i < |b| ==> t[i] == b[i] && IsDigit(t[i]);
    assert s[|a|] == separator && t[|b|] == separator;
    assert |a| == |b|;
    assert a == s[..|a|] && b == t[..|b|];
    assert x == s[|a| + 1..] && y == t[|b| + 1..];
  }

  /** A number in front of a separator can be told from the text. */
  lemma {:induction false} NumberThen(n: nat, m: nat, separator: char, x: string, y: string)
    requires !IsDigit(separator) && Digits(n) + [separator] + x == Digits(m) + [separator] + y
    ensures n == m && x == y
  {
    DigitsBefore(Digits(n), Digits(m), separator, x, y);
    DigitsDiffer(n, m);
  }
}
