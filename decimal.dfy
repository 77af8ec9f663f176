/** Decimal notation of natural numbers: `n.toString()` and the digit list
    `n.toString().split('').map(Number)` that a custom move ordering is read as. */
module Decimal {

  /** The decimal digits of n, most significant first. */
  function Digits(n: nat): (ds: seq<int>)
    ensures 1 <= |ds|
    ensures forall i :: 0 <= i < |ds| ==> 0 <= ds[i] <= 9
    ensures n >= 10 ==> ds[0] != 0
  {
    if n < 10 then [n] else Digits(n / 10) + [n % 10]
  }

  /** The number a digit list denotes. */
  function Value(ds: seq<int>): int {
    if ds == [] then 0 else 10 * Value(ds[..|ds| - 1]) + ds[|ds| - 1]
  }

  lemma {:induction false} DigitsValue(n: nat)
    ensures Value(Digits(n)) == n
  {
    if n >= 10 {
      DigitsValue(n / 10);
      var ds := Digits(n);
      assert ds[..|ds| - 1] == Digits(n / 10);
    }
  }

  function DigitChar(d: int): char
    requires 0 <= d <= 9
  {
    ('0' as int + d) as char
  }

  /** The characters of a digit list. */
  function Chars(ds: seq<int>): (s: string)
    requires forall i :: 0 <= i < |ds| ==> 0 <= ds[i] <= 9
    ensures |s| == |ds|
    ensures forall i :: 0 <= i < |s| ==> '0' <= s[i] <= '9'
  {
    if ds == [] then [] else Chars(ds[..|ds| - 1]) + [DigitChar(ds[|ds| - 1])]
  }

  /** `n.toString()` */
  function DecimalString(n: nat): (s: string)
    ensures 1 <= |s|
    ensures forall i :: 0 <= i < |s| ==> '0' <= s[i] <= '9'
  {
    Chars(Digits(n))
  }

  /** `s.split('').map(Number)` for a string of decimal digits. */
  function ParseDigits(s: string): (ds: seq<int>)
    ensures |ds| == |s|
  {
    if s == [] then [] else ParseDigits(s[..|s| - 1]) + [s[|s| - 1] as int - '0' as int]
  }

  lemma {:induction false} ParseChars(ds: seq<int>)
    requires forall i :: 0 <= i < |ds| ==> 0 <= ds[i] <= 9
    ensures ParseDigits(Chars(ds)) == ds
  {
    if ds != [] {
      var n := |ds| - 1;
      ParseChars(ds[..n]);
      var s := Chars(ds);
      assert s == Chars(ds[..n]) + [DigitChar(ds[n])];
      assert s[..n] == Chars(ds[..n]);
      assert s[n] as int - '0' as int == ds[n];
      assert ds == ds[..n] + [ds[n]];
    }
  }

  /** Reading back the characters of n's decimal string gives n's digits. */
  lemma ParseDecimalString(n: nat)
    ensures ParseDigits(DecimalString(n)) == Digits(n)
  {
    ParseChars(Digits(n));
  }

  /** `n.toString().split('').map(Number)`: the digits of n, most significant first. */
  function DigitList(n: nat): (ds: seq<int>)
    ensures ds == Digits(n)
  {
    ParseDecimalString(n);
    ParseDigits(DecimalString(n))
  }
}
