/** Decimal integers as Rust's `Display` prints them and `str::parse` reads them. */
module Decimal {
  import opened Text

  const I64_MAX: int := 0x7FFF_FFFF_FFFF_FFFF
  const I64_MIN: int := -0x8000_0000_0000_0000
  const U64_MAX: int := 0xFFFF_FFFF_FFFF_FFFF
  const U8_MAX: int := 255

  predicate IsDigit(c: char) {
    '0' <= c <= '9'
  }

  predicate AllDigits(s: string) {
    forall i | 0 <= i < |s| :: IsDigit(s[i])
  }

  function Print(n: nat): (s: string)
    ensures s != [] && AllDigits(s)
  {
    var last := '0' + (n % 10) as char;
    if n < 10 then [last] else Print(n / 10) + [last]
  }

  function Value(s: string): (v: int)
    requires AllDigits(s)
    ensures v >= 0
  {
    if s == [] then 0
    else Value(s[..|s| - 1]) * 10 + (s[|s| - 1] - '0') as nat
  }

  /** `from_str_radix(s, 10)`: an optional sign, at least one digit, inside the type's range. */
  function Parse(s: string, signed: bool, lo: int, hi: int): (r: Option<int>)
    ensures r.Some? ==> lo <= r.value <= hi
  {
    if s == [] then None
    else
      var minus := signed && s[0] == '-';
      var digits := if s[0] == '+' || minus then s[1..] else s;
      if digits == [] || !AllDigits(digits) then None
      else
        var v := if minus then -Value(digits) else Value(digits);
        if lo <= v <= hi then Some(v) else None
  }

  function ParseI64(s: string): Option<int> {
    Parse(s, true, I64_MIN, I64_MAX)
  }

  function ParseU64(s: string): Option<int> {
    Parse(s, false, 0, U64_MAX)
  }

  function ParseU8(s: string): Option<int> {
    Parse(s, false, 0, U8_MAX)
  }

  predicate Numeral(s: string, v: int) {
    s != "" && AllDigits(s) && Value(s) == v
  }

  predicate SignedNumeral(s: string, sign: char, v: int) {
    s != "" && s[0] == sign && Numeral(s[1..], v)
  }

  /** What each type reads, exactly: digits in its range, after a plus or nothing, and after a minus if signed. */
  lemma ParseReads(s: string, v: int)
    ensures ParseI64(s) == Some(v) <==>
              && -9223372036854775808 <= v <= 9223372036854775807
              && (Numeral(s, v) || SignedNumeral(s, '+', v) || SignedNumeral(s, '-', -v))
    ensures ParseU64(s) == Some(v) <==>
              0 <= v <= 18446744073709551615 && (Numeral(s, v) || SignedNumeral(s, '+', v))
    ensures ParseU8(s) == Some(v) <==> 0 <= v <= 255 && (Numeral(s, v) || SignedNumeral(s, '+', v))
  {
    assert !IsDigit('+') && !IsDigit('-');
  }

  lemma {:induction false} ValuePrint(n: nat)
    ensures Value(Print(n)) == n
  {
    var s := Print(n);
    var d := (n % 10) as char;
    assert ('0' + d - '0') as nat == n % 10;
    if n >= 10 {
      ValuePrint(n / 10);
      assert s[..|s| - 1] == Print(n / 10);
    } else {
      assert s[..|s| - 1] == [];
    }
  }

  lemma ParsePrint(n: nat, signed: bool, lo: int, hi: int)
    requires lo <= n <= hi
    ensures Parse(Print(n), signed, lo, hi) == Some(n)
  {
    ValuePrint(n);
    assert IsDigit(Print(n)[0]);
  }

  lemma PrintIsWord(n: nat)
    ensures IsWord(Print(n))
    ensures ':' !in Print(n)
  {
    var s := Print(n);
    assert forall i | 0 <= i < |s| :: IsDigit(s[i]);
  }
}
