/** What several parts share: optional values, the smaller of two numbers, and decimal numerals. */
module Common {
  datatype Option<+T> = None | Some(value: T)

  function Min(a: int, b: int): int { if a <= b then a else b }

  predicate IsDigit(c: char) { '0' <= c <= '9' }

  predicate AllDigits(s: string) { s != "" && forall k :: 0 <= k < |s| ==> IsDigit(s[k]) }

  function ToNat(s: string): nat
    requires AllDigits(s)
    decreases |s|
  {
    var last := s[|s| - 1] as int - '0' as int;
    if |s| == 1 then last else 10 * ToNat(s[..|s| - 1]) + last
  }

  function Decimal(n: nat): (s: string)
    ensures AllDigits(s) && ToNat(s) == n
  {
    if n < 10 then ["0123456789"[n]]
    else
      var s := Decimal(n / 10) + ["0123456789"[n % 10]];
      assert s[..|s| - 1] == Decimal(n / 10);
      s
  }
}
