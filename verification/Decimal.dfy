/** strconv.Itoa: the decimal text of an integer. */
module Decimal {

  predicate IsDigit(c: char) {
    '0' <= c <= '9'
  }

  function Digits(n: nat): (s: string)
    ensures s != "" && forall c | c in s :: IsDigit(c)
  {
    var last := ['0' + (n % 10) as char];
    if n < 10 then last else Digits(n / 10) + last
  }

  function Itoa(n: int): string {
    if n < 0 then "-" + Digits(-n) else Digits(n)
  }

  function ValueOf(s: string): nat
    requires forall c | c in s :: IsDigit(c)
  {
    if s == "" then 0
    else
      var last := s[|s| - 1];
      assert last in s && IsDigit(last);
      10 * ValueOf(s[..|s| - 1]) + (last as int - '0' as int)
  }

  /**
   Reading the digits back gives the number, so different numbers have different texts.
   */
  lemma {:induction false} ValueOfDigits(n: nat)
    ensures ValueOf(Digits(n)) == n
  {
    var s := Digits(n);
    if n < 10 {
      assert s[..|s| - 1] == "";
    } else {
      ValueOfDigits(n / 10);
      assert s[..|s| - 1] == Digits(n / 10);
    }
  }

  lemma {:induction false} NoLeadingZero(n: nat)
    ensures Digits(n)[0] == '0' <==> n == 0
    ensures n == 0 ==> Digits(n) == "0"
  {
    if n < 10 {
    } else {
      NoLeadingZero(n / 10);
    }
  }

  /**
   The text of an integer: a minus exactly for the negative ones, and then the digits
   that make up its magnitude, the first of them no zero unless it is the only one.
   */
  lemma ItoaReads(n: int)
    ensures var s := Itoa(n);
            s != "" && (s[0] == '-' <==> n < 0)
    ensures var digits := if n < 0 then Itoa(n)[1..] else Itoa(n);
            && digits != "" && (forall c | c in digits :: IsDigit(c))
            && ValueOf(digits) == (if n < 0 then -n else n)
            && (digits[0] == '0' ==> digits == "0")
  {
    var magnitude := if n < 0 then -n else n;
    ValueOfDigits(magnitude);
    NoLeadingZero(magnitude);
    if n < 0 {
      assert Itoa(n)[1..] == Digits(magnitude);
    } else {
      assert Itoa(n)[0] in Digits(n);
    }
  }

  lemma DigitsInjective(m: nat, n: nat)
    requires Digits(m) == Digits(n)
    ensures m == n
  {
    ValueOfDigits(m);
    ValueOfDigits(n);
  }
}
