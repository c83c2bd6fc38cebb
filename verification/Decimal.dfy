/** Decimal text of natural numbers, as `String(n)` writes it for safe integers. */
module Decimal {

  predicate IsDigit(c: char) { '0' <= c <= '9' }

  predicate AllDigits(s: string) {
    forall i :: 0 <= i < |s| ==> IsDigit(s[i])
  }

  function Digit(d: nat): (c: char)
    requires d < 10
    ensures IsDigit(c) && c as int - '0' as int == d
  {
    '0' + d as char
  }

  function Text(n: nat): (s: string)
    ensures s != "" && AllDigits(s)
  {
    if n < 10 then [Digit(n)] else Text(n / 10) + [Digit(n % 10)]
  }

  function ValueOf(s: string): nat
    requires AllDigits(s)
  {
    if s == "" then 0
    else
      assert IsDigit(s[|s| - 1]);
      ValueOf(s[..|s| - 1]) * 10 + (s[|s| - 1] as int - '0' as int)
  }

  /** `/^(0|[1-9][0-9]*)$/`. */
  predicate IsCanonical(s: string) {
    s != "" && AllDigits(s) && (s[0] == '0' ==> |s| == 1)
  }

  lemma {:induction false} TextIsCanonical(n: nat)
    ensures IsCanonical(Text(n)) && ValueOf(Text(n)) == n
    ensures Text(n)[0] == '0' <==> n == 0
  {
    if n >= 10 {
      TextIsCanonical(n / 10);
      assert Text(n)[..|Text(n)| - 1] == Text(n / 10);
      assert Text(n)[0] == Text(n / 10)[0];
    } else {
      assert Text(n)[..0] == "";
    }
  }

  lemma {:induction false} CanonicalIsText(s: string)
    requires IsCanonical(s)
    ensures Text(ValueOf(s)) == s
    ensures s[0] != '0' ==> ValueOf(s) > 0
    decreases |s|
  {
    var d: nat := s[|s| - 1] as int - '0' as int;
    var rest := s[..|s| - 1];
    assert s == rest + [s[|s| - 1]];
    if |s| == 1 {
      assert ValueOf(rest) == 0;
    } else {
      assert IsCanonical(rest);
      CanonicalIsText(rest);
      assert ValueOf(s) / 10 == ValueOf(rest) && ValueOf(s) % 10 == d;
      assert ValueOf(s) >= 10;
    }
  }
}
