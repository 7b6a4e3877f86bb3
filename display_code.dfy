/**
 * The human-facing ticket code: the service prefix followed by the ticket
 * number in decimal, left-padded with '0' to at least three digits
 * (`${prefix}${String(n).padStart(3, '0')}` in context/QueueContext.tsx).
 */
module DisplayCode {
  import opened QueueTypes

  predicate IsDigit(c: char) {
    '0' <= c <= '9'
  }

  predicate AllDigits(s: string) {
    forall i :: 0 <= i < |s| ==> IsDigit(s[i])
  }

  function DigitChar(d: nat): (c: char)
    requires d < 10
    ensures IsDigit(c)
  {
    ('0' as int + d) as char
  }

  function DigitValue(c: char): (d: nat)
    requires IsDigit(c)
    ensures d < 10
  {
    c as int - '0' as int
  }

  /** `String(n)` for a natural number: shortest decimal form, no leading zero. */
  function DecimalString(n: nat): (s: string)
    ensures |s| >= 1 && AllDigits(s)
    ensures |s| > 1 ==> s[0] != '0'
    decreases n
  {
    if n < 10 then [DigitChar(n)]
    else DecimalString(n / 10) + [DigitChar(n % 10)]
  }

  /** The value of a string of decimal digits; leading zeros are allowed. */
  function ParseDecimal(s: string): nat
    requires AllDigits(s)
  {
    if s == [] then 0
    else 10 * ParseDecimal(s[..|s| - 1]) + DigitValue(s[|s| - 1])
  }

  /** `s.padStart(width, fill)` for a single-character `fill`. */
  function PadStart(s: string, width: nat, fill: char): (r: string)
    ensures |r| == if |s| >= width then |s| else width
    ensures r[|r| - |s|..] == s
    ensures forall i :: 0 <= i < |r| - |s| ==> r[i] == fill
  {
    if |s| >= width then s else seq(width - |s|, _ => fill) + s
  }

  /** The display code of ticket number `n` in queue `t`. */
  function TicketCode(t: ServiceType, n: nat): string {
    GetServiceTypeInfo(t).prefix + PadStart(DecimalString(n), 3, '0')
  }

  function Pow10(k: nat): (p: nat)
    ensures p >= 1
  {
    if k == 0 then 1 else 10 * Pow10(k - 1)
  }

  /** Decimal printing and parsing are inverse. */
  lemma {:induction false} ParseDecimalString(n: nat)
    ensures ParseDecimal(DecimalString(n)) == n
    decreases n
  {
    var s := DecimalString(n);
    if n >= 10 {
      ParseDecimalString(n / 10);
      assert s[..|s| - 1] == DecimalString(n / 10);
    }
  }

  /** Leading zeros do not change the parsed value. */
  lemma {:induction false} ParseLeadingZeros(z: string, s: string)
    requires forall i :: 0 <= i < |z| ==> z[i] == '0'
    requires AllDigits(s)
    ensures AllDigits(z + s)
    ensures ParseDecimal(z + s) == ParseDecimal(s)
    decreases |s|
  {
    if s == [] {
      assert z + s == z;
      ParseZeros(z);
    } else {
      var w := z + s;
      assert w[..|w| - 1] == z + s[..|s| - 1];
      ParseLeadingZeros(z, s[..|s| - 1]);
    }
  }

  lemma {:induction false} ParseZeros(z: string)
    requires forall i :: 0 <= i < |z| ==> z[i] == '0'
    ensures AllDigits(z) && ParseDecimal(z) == 0
    decreases |z|
  {
    if z != [] {
      ParseZeros(z[..|z| - 1]);
    }
  }

  /** `String(n)` has at most `k` digits exactly when `n < 10^k`. */
  lemma {:induction false} DecimalLength(n: nat, k: nat)
    requires k >= 1
    ensures |DecimalString(n)| <= k <==> n < Pow10(k)
    decreases n
  {
    if n >= 10 {
      if k == 1 {
        assert Pow10(1) == 10;
        assert |DecimalString(n)| >= 2;
      } else {
        DecimalLength(n / 10, k - 1);
        assert n / 10 < Pow10(k - 1) <==> n < 10 * Pow10(k - 1);
      }
    } else {
      assert Pow10(k) >= 10 by { Pow10AtLeast10(k); }
    }
  }

  lemma {:induction false} Pow10AtLeast10(k: nat)
    requires k >= 1
    ensures Pow10(k) >= 10
    decreases k
  {
    if k > 1 {
      Pow10AtLeast10(k - 1);
    }
  }

  /** The digit part of a display code parses back to the ticket number. */
  lemma {:induction false} PaddedParses(n: nat)
    ensures AllDigits(PadStart(DecimalString(n), 3, '0'))
    ensures ParseDecimal(PadStart(DecimalString(n), 3, '0')) == n
  {
    var digits := DecimalString(n);
    var padded := PadStart(digits, 3, '0');
    var z := padded[..|padded| - |digits|];
    assert padded == z + digits;
    ParseLeadingZeros(z, digits);
    ParseDecimalString(n);
  }

  /**
   * The shape of a display code: one prefix letter, then at least three
   * digits whose value is the ticket number. Below 1000 the code has
   * exactly four characters; from 1000 on the number is printed in full,
   * never truncated.
   */
  lemma {:induction false} TicketCodeShape(t: ServiceType, n: nat)
    ensures |TicketCode(t, n)| >= 4
    ensures TicketCode(t, n)[..1] == GetServiceTypeInfo(t).prefix
    ensures AllDigits(TicketCode(t, n)[1..]) && ParseDecimal(TicketCode(t, n)[1..]) == n
    ensures n < 1000 ==> |TicketCode(t, n)| == 4
    ensures n >= 1000 ==> TicketCode(t, n) == GetServiceTypeInfo(t).prefix + DecimalString(n)
  {
    PrefixesDistinct(t, t);
    var prefix := GetServiceTypeInfo(t).prefix;
    var padded := PadStart(DecimalString(n), 3, '0');
    assert |prefix| == 1;
    assert TicketCode(t, n) == prefix + padded;
    assert TicketCode(t, n)[1..] == padded;
    PaddedParses(n);
    assert Pow10(3) == 1000;
    DecimalLength(n, 3);
  }

  /** Different (queue, number) pairs never share a display code. */
  lemma TicketCodeInjective(s: ServiceType, m: nat, t: ServiceType, n: nat)
    ensures TicketCode(s, m) == TicketCode(t, n) <==> s == t && m == n
  {
    TicketCodeShape(s, m);
    TicketCodeShape(t, n);
    PrefixesDistinct(s, t);
  }
}
