/** Decimal rendering of integers, as Python's `str(n)` and `'{}'.format(n)`
    produce it, together with the parser that inverts it. The importer uses
    this rendering for user layer names and for record payloads. */
module Decimal {

  predicate IsDigit(c: char) {
    '0' <= c <= '9'
  }

  predicate AllDigits(s: string) {
    forall i :: 0 <= i < |s| ==> IsDigit(s[i])
  }

  /** The shape of `str(n)` for an integer: an optional minus sign followed by
      at least one digit. */
  predicate IsIntLiteral(s: string) {
    if |s| > 0 && s[0] == '-' then |s| > 1 && AllDigits(s[1..])
    else |s| > 0 && AllDigits(s)
  }

  function DigitChar(d: nat): (c: char)
    requires d < 10
    ensures IsDigit(c) && c as int - '0' as int == d
  {
    ('0' as int + d) as char
  }

  /** `str(n)` for a non-negative integer: most significant digit first, no
      leading zeros. */
  function NatDecimal(n: nat): (s: string)
    ensures |s| > 0 && AllDigits(s)
    ensures s[0] == '0' ==> n == 0
  {
    if n < 10 then [DigitChar(n)] else NatDecimal(n / 10) + [DigitChar(n % 10)]
  }

  /** The value of a string of digits, read most significant digit first. */
  function DigitsValue(s: string): nat
    requires AllDigits(s)
  {
    if s == [] then 0
    else DigitsValue(s[..|s| - 1]) * 10 + (s[|s| - 1] as int - '0' as int)
  }

  lemma {:induction false} NatDecimalRoundTrip(n: nat)
    ensures DigitsValue(NatDecimal(n)) == n
  {
    if n >= 10 {
      var s := NatDecimal(n);
      assert s[..|s| - 1] == NatDecimal(n / 10);
      NatDecimalRoundTrip(n / 10);
    }
  }

  /** `str(n)` for any integer: a minus sign precedes the digits of a negative
      number. */
  function IntDecimal(n: int): string {
    if n < 0 then "-" + NatDecimal(-n) else NatDecimal(n)
  }

  /** The rendering is a well-formed literal, signed exactly when the number
      is negative. */
  lemma IntDecimalShape(n: int)
    ensures IsIntLiteral(IntDecimal(n))
    ensures IntDecimal(n)[0] == '-' <==> n < 0
  {
  }

  /** Reads back what IntDecimal writes. */
  function ParseInt(s: string): int
    requires IsIntLiteral(s)
  {
    if s[0] == '-' then -(DigitsValue(s[1..]) as int) else DigitsValue(s)
  }

  lemma IntDecimalRoundTrip(n: int)
    ensures ParseInt(IntDecimal(n)) == n
  {
    if n < 0 {
      assert IntDecimal(n)[1..] == NatDecimal(-n);
      NatDecimalRoundTrip(-n);
    } else {
      NatDecimalRoundTrip(n);
    }
  }

  /** Two different integers never render alike. */
  lemma IntDecimalInjective(a: int, b: int)
    ensures IntDecimal(a) == IntDecimal(b) <==> a == b
  {
    IntDecimalRoundTrip(a);
    IntDecimalRoundTrip(b);
  }

  /** Decimal renderings contain neither the separator of a layer name nor
      that of a payload listing. */
  lemma IntDecimalHasNoSeparator(n: int)
    ensures '.' !in IntDecimal(n) && ',' !in IntDecimal(n)
  {
    var s := IntDecimal(n);
    forall i | 0 <= i < |s|
      ensures s[i] != '.' && s[i] != ','
    {
      if i > 0 || s[0] != '-' {
        assert IsDigit(s[i]);
      }
    }
  }

  /** Position of the first `c` in `s`. */
  function IndexOf(s: string, c: char): (k: nat)
    requires c in s
    ensures k < |s| && s[k] == c && c !in s[..k]
  {
    if s[0] == c then 0 else 1 + IndexOf(s[1..], c)
  }

  lemma {:induction false} IndexOfAfterHead(a: string, t: string, c: char)
    requires c !in a && |t| > 0 && t[0] == c
    ensures c in a + t && IndexOf(a + t, c) == |a|
  {
    assert (a + t)[|a|] == c;
    if a != [] {
      assert (a + t)[1..] == a[1..] + t;
      IndexOfAfterHead(a[1..], t, c);
    }
  }

  /** If `a1 + t1 == a2 + t2`, both tails start with a character `c` and
      neither head contains `c`, then the heads (and so the tails) agree:
      the first `c` is where the string splits. */
  lemma SplitAtFirst(a1: string, t1: string, a2: string, t2: string, c: char)
    requires c !in a1 && c !in a2
    requires |t1| > 0 && t1[0] == c && |t2| > 0 && t2[0] == c
    requires a1 + t1 == a2 + t2
    ensures a1 == a2 && t1 == t2
  {
    IndexOfAfterHead(a1, t1, c);
    IndexOfAfterHead(a2, t2, c);
    assert a1 == (a1 + t1)[..|a1|];
    assert a2 == (a2 + t2)[..|a2|];
    assert t1 == (a1 + t1)[|a1|..];
    assert t2 == (a2 + t2)[|a2|..];
  }
}
