/** `Integer.valueOf(String)` over ASCII decimal digits, and the decimal rendering it inverts. */
module Enteros {
  import opened Wrappers

  const MinInt: int := -0x8000_0000
  const MaxInt: int := 0x7FFF_FFFF

  predicate EsDigito(c: char) {
    '0' <= c <= '9'
  }

  predicate SoloDigitos(s: string) {
    forall i :: 0 <= i < |s| ==> EsDigito(s[i])
  }

  function ValorDigitos(s: string): nat
    requires SoloDigitos(s)
  {
    if s == [] then 0 else 10 * ValorDigitos(s[..|s| - 1]) + (s[|s| - 1] as int - '0' as int)
  }

  /**
   * `Integer.valueOf`: an optional sign followed by at least one digit, whose
   * value fits in 32 bits; anything else is a `NumberFormatException`.
   */
  function ValorDe(s: string): (r: Option<int>)
    ensures r.Some? ==> MinInt <= r.value <= MaxInt
  {
    if s == [] then None
    else if s[0] == '-' || s[0] == '+' then
      if |s| == 1 || !SoloDigitos(s[1..]) then None
      else
        var v: int := if s[0] == '-' then 0 - ValorDigitos(s[1..]) as int else ValorDigitos(s[1..]);
        if MinInt <= v <= MaxInt then Some(v) else None
    else if SoloDigitos(s) && ValorDigitos(s) <= MaxInt then Some(ValorDigitos(s))
    else None
  }

  /** The shortest decimal rendering of `n`. */
  function Decimal(n: nat): (r: string)
    ensures r != [] && SoloDigitos(r)
  {
    if n < 10 then [('0' as int + n) as char]
    else Decimal(n / 10) + [('0' as int + n % 10) as char]
  }

  lemma {:induction false} ValorDigitosDecimal(n: nat)
    ensures ValorDigitos(Decimal(n)) == n
  {
    if n >= 10 {
      var d := Decimal(n);
      assert d[..|d| - 1] == Decimal(n / 10);
      ValorDigitosDecimal(n / 10);
    }
  }

  /** Reading back a rendered non-negative 32-bit value gives the value. */
  lemma ValorDeDecimal(n: nat)
    requires n <= MaxInt
    ensures ValorDe(Decimal(n)) == Some(n)
  {
    ValorDigitosDecimal(n);
  }
}
