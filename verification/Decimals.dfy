/** Decimal integers as the program writes and reads them. */
module Decimals {
  import opened RedisCommands

  const MAX_INT64 := 0x7FFF_FFFF_FFFF_FFFF
  const MIN_INT64 := -0x8000_0000_0000_0000

  predicate IsDigit(c: char) {
    '0' <= c <= '9'
  }

  predicate AllDigits(s: string) {
    forall i | 0 <= i < |s| :: IsDigit(s[i])
  }

  function Digit(d: nat): char
    requires d < 10
  {
    '0' + d as char
  }

  function FormatNat(n: nat): string {
    if n < 10 then [Digit(n)] else FormatNat(n / 10) + [Digit(n % 10)]
  }

  function FormatInt(n: int): string {
    if n < 0 then "-" + FormatNat(-n) else FormatNat(n)
  }

  function DigitsValue(s: string): nat
    requires AllDigits(s)
  {
    if s == "" then 0 else 10 * DigitsValue(s[..|s| - 1]) + (s[|s| - 1] - '0') as nat
  }

  function ParseDigits(s: string): Option<nat> {
    if s == "" || !AllDigits(s) then None else Some(DigitsValue(s))
  }

  /** One optional sign, then digits; leading zeros are accepted, out-of-range values are not. */
  function ParseInt64(s: string): (r: Option<int>)
    ensures r.Some? ==> MIN_INT64 <= r.value <= MAX_INT64
  {
    var unsigned := if s != "" && (s[0] == '-' || s[0] == '+') then s[1..] else s;
    match ParseDigits(unsigned)
    case None => None
    case Some(v) =>
      var n := if s[0] == '-' then -(v as int) else v as int;
      if MIN_INT64 <= n <= MAX_INT64 then Some(n) else None
  }

  /** The spelling the formatter produces: no plus sign, no leading zero, no negative zero. */
  predicate Canonical(s: string) {
    var unsigned := if s != "" && s[0] == '-' then s[1..] else s;
    && unsigned != "" && AllDigits(unsigned)
    && (unsigned[0] == '0' ==> s == "0")
  }

  lemma {:induction false} FormatNatShape(n: nat)
    ensures FormatNat(n) != "" && AllDigits(FormatNat(n))
    ensures FormatNat(n)[0] == '0' <==> n == 0
    ensures DigitsValue(FormatNat(n)) == n
  {
    if n >= 10 {
      FormatNatShape(n / 10);
      assert FormatNat(n)[..|FormatNat(n)| - 1] == FormatNat(n / 10);
    }
  }

  lemma {:induction false} FormatOfDigits(s: string)
    requires s != "" && AllDigits(s) && (s[0] == '0' ==> |s| == 1)
    ensures FormatNat(DigitsValue(s)) == s
    ensures DigitsValue(s) == 0 <==> s == "0"
  {
    var init, last := s[..|s| - 1], (s[|s| - 1] - '0') as nat;
    if init == "" {
      assert s == [s[0]];
      assert DigitsValue(init) == 0;
    } else {
      assert init[0] == s[0];
      FormatOfDigits(init);
      assert DigitsValue(s) / 10 == DigitsValue(init) && DigitsValue(s) % 10 == last;
      assert s == init + [s[|s| - 1]];
    }
  }

  lemma ParseOfFormat(n: int)
    requires MIN_INT64 <= n <= MAX_INT64
    ensures ParseInt64(FormatInt(n)) == Some(n) && Canonical(FormatInt(n))
  {
    FormatNatShape(if n < 0 then -n else n);
    if n < 0 {
      assert FormatInt(n)[1..] == FormatNat(-n);
    }
  }

  /** Printing what was read gives the text back exactly when the text was canonical. */
  lemma FormatOfParse(s: string)
    requires ParseInt64(s).Some?
    ensures FormatInt(ParseInt64(s).value) == s <==> Canonical(s)
  {
    var n := ParseInt64(s).value;
    ParseOfFormat(n);
    if Canonical(s) {
      if s[0] == '-' {
        FormatOfDigits(s[1..]);
        assert s == "-" + s[1..];
      } else if s == "0" {
        assert s[..0] == "";
      } else {
        FormatOfDigits(s);
      }
    }
  }

  lemma FormatHasNoColon(n: int)
    ensures ':' !in FormatInt(n) && FormatInt(n) != ""
  {
    FormatNatShape(if n < 0 then -n else n);
  }
}
