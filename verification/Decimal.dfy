// str() and int() on the numbers that the stores write themselves.
module Decimal {
  import opened Wrappers

  predicate IsDigit(c: char) { '0' <= c <= '9' }

  function Digits(n: nat): (s: string)
    ensures s != [] && forall c <- s :: IsDigit(c)
  {
    var last := [('0' as int + n % 10) as char];
    if n < 10 then last else Digits(n / 10) + last
  }

  function ParseDigits(s: string): nat
    requires forall c <- s :: IsDigit(c)
  {
    if s == [] then 0
    else
      var last := s[|s| - 1];
      assert IsDigit(last);
      10 * ParseDigits(s[..|s| - 1]) + (last as int - '0' as int)
  }

  // None stands for the ValueError of int().
  function ParseInt(s: string): Option<int> {
    var body := if s != [] && s[0] == '-' then s[1..] else s;
    if body == [] || exists c <- body :: !IsDigit(c) then None
    else
      var n: int := ParseDigits(body);
      Some(if body == s then n else -n)
  }

  // What is read: an optional minus sign and digits, at least one; anything else is an error.
  lemma ParseIntMeaning(s: string, n: nat)
    ensures ParseInt(['-'] + Digits(n)).Some? && ParseInt(['-'] + Digits(n)).value == 0 - n
    ensures ParseInt(s).Some? ==> s != [] && (forall i :: 0 < i < |s| ==> IsDigit(s[i])) && (IsDigit(s[0]) || (s[0] == '-' && |s| > 1))
    ensures s != [] && (forall c <- s :: IsDigit(c)) ==> ParseInt(s) == Some(ParseDigits(s))
  {
    ParseInvertsDigits(n);
    assert (['-'] + Digits(n))[1..] == Digits(n);
    if s != [] && s[0] == '-' { assert forall i :: 0 < i < |s| ==> s[i] == s[1..][i - 1]; }
  }

  lemma {:induction false} ParseInvertsDigits(n: nat)
    ensures ParseDigits(Digits(n)) == n && ParseInt(Digits(n)) == Some(n)
  {
    var s := Digits(n);
    if n >= 10 {
      ParseInvertsDigits(n / 10);
      assert s[..|s| - 1] == Digits(n / 10);
    } else {
      assert s[..0] == [];
    }
    assert IsDigit(s[0]);
  }
}
