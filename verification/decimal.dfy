/** Decimal text of non-negative integers: the customer page writes its user
    id into the query string with a template literal, and the order endpoint
    hands such text (and `order_id` strings) to PostgreSQL, which reads it back
    as an integer or raises. */
module Decimal {

  import opened Wrappers

  predicate IsDigit(c: char)
  {
    '0' <= c <= '9'
  }

  predicate AllDigits(s: string)
  {
    forall i :: 0 <= i < |s| ==> IsDigit(s[i])
  }

  /** Value of a digit string, most significant digit first. */
  function DigitsValue(s: string): nat
    requires AllDigits(s)
    decreases |s|
  {
    if |s| == 0 then 0
    else DigitsValue(s[..|s| - 1]) * 10 + ((s[|s| - 1] as int) - ('0' as int))
  }

  /** Integer text as this model accepts it: one or more decimal digits.
      Anything else is rejected. */
  function ParseNat(s: string): (r: Option<nat>)
    ensures r.Some? <==> s != "" && AllDigits(s)
  {
    if s != "" && AllDigits(s) then Some(DigitsValue(s)) else None
  }

  function DigitChar(d: nat): (c: char)
    requires d < 10
    ensures IsDigit(c) && (c as int) - ('0' as int) == d
  {
    (('0' as int) + d) as char
  }

  /** Decimal rendering of a non-negative integer, without leading zeros. */
  function Render(n: nat): (s: string)
    ensures s != "" && AllDigits(s)
    ensures s[0] == '0' ==> n == 0
    decreases n
  {
    var d := [DigitChar(n % 10)];
    if n < 10 then d else Render(n / 10) + d
  }

  /** Decimal text of any integer, with a leading `-` for negatives, as
      PostgreSQL prints an integer. */
  function Signed(i: int): (s: string)
    ensures s != ""
    ensures s[0] == '-' <==> i < 0
    ensures i >= 0 ==> ParseNat(s) == Some(i)
    ensures i < 0 ==> ParseNat(s[1..]) == Some(-i)
  {
    if i < 0 then
      ParseRender(-i);
      assert ("-" + Render(-i))[1..] == Render(-i);
      "-" + Render(-i)
    else
      ParseRender(i);
      Render(i)
  }

  /** Reading back a rendered number gives the number. */
  lemma {:induction false} ParseRender(n: nat)
    ensures ParseNat(Render(n)) == Some(n)
    decreases n
  {
    var d := [DigitChar(n % 10)];
    if n < 10 {
      assert Render(n)[..0] == [];
      assert DigitsValue(Render(n)) == DigitsValue([]) * 10 + n;
    } else {
      var prefix := Render(n / 10);
      ParseRender(n / 10);
      assert (prefix + d)[..|prefix + d| - 1] == prefix;
    }
  }

}
