/**
  Python's `str()` of an integer, the representation whose length the
  phone-number check measures and from which notification texts are built.
 */
module PyStr {

  /** The character of a decimal digit. */
  function DigitChar(d: nat): (c: char)
    requires d < 10
    ensures '0' <= c <= '9'
  {
    ('0' as int + d) as char
  }

  /** The value of a decimal digit character. */
  function DigitValue(c: char): nat
    requires '0' <= c <= '9'
  {
    c as int - '0' as int
  }

  /** Decimal digits of a non-negative integer, most significant first, no leading zeros. */
  function Digits(n: nat): (s: string)
    ensures 1 <= |s|
    ensures forall i :: 0 <= i < |s| ==> '0' <= s[i] <= '9'
    ensures n >= 10 ==> s[0] != '0'
    decreases n
  {
    if n < 10 then [DigitChar(n)] else Digits(n / 10) + [DigitChar(n % 10)]
  }

  /** `str(n)`: a minus sign in front of the digits of a negative number's magnitude. */
  function Str(n: int): (s: string)
  {
    if n < 0 then "-" + Digits(-n) else Digits(n)
  }

  /** Reads a string of decimal digits back, most significant first. */
  function ParseDigits(s: string): int
    requires forall i :: 0 <= i < |s| ==> '0' <= s[i] <= '9'
    decreases |s|
  {
    if s == [] then 0 else 10 * ParseDigits(s[..|s| - 1]) + DigitValue(s[|s| - 1])
  }

  /** `int(s)` for the strings `Str` produces. */
  function Parse(s: string): int
    requires s != [] && s[0] == '-' ==> forall i :: 1 <= i < |s| ==> '0' <= s[i] <= '9'
    requires s == [] || s[0] != '-' ==> forall i :: 0 <= i < |s| ==> '0' <= s[i] <= '9'
  {
    if s != [] && s[0] == '-' then -ParseDigits(s[1..]) else ParseDigits(s)
  }

  /** 10^k. */
  function Pow10(k: nat): (p: nat)
    ensures p >= 1
  {
    if k == 0 then 1 else 10 * Pow10(k - 1)
  }

  /** The digits of `n` read back give `n`. */
  lemma {:induction false} DigitsRoundTrip(n: nat)
    ensures ParseDigits(Digits(n)) == n
    decreases n
  {
    var s := Digits(n);
    if n >= 10 {
      DigitsRoundTrip(n / 10);
      assert s[..|s| - 1] == Digits(n / 10);
    }
  }

  /** `int(str(n)) == n`: the representation loses nothing, so distinct ids print differently. */
  lemma StrRoundTrip(n: int)
    ensures Parse(Str(n)) == n
  {
    if n < 0 {
      DigitsRoundTrip(-n);
      assert Str(n)[1..] == Digits(-n);
    } else {
      DigitsRoundTrip(n);
    }
  }

  /** `n` has more than `k` decimal digits exactly when it is at least 10^k (`0` has one digit). */
  lemma {:induction false} DigitsLength(n: nat, k: nat)
    requires k >= 1
    ensures |Digits(n)| > k <==> n >= Pow10(k)
    decreases n
  {
    assert Pow10(k) == 10 * Pow10(k - 1);
    if n >= 10 && k > 1 {
      DigitsLength(n / 10, k - 1);
    }
  }

  /** The length of `str(n)` in terms of `n` alone. */
  lemma StrLength(n: int, k: nat)
    requires k >= 2
    ensures n >= 0 ==> (|Str(n)| > k <==> n >= Pow10(k))
    ensures n < 0 ==> (|Str(n)| > k <==> -n >= Pow10(k - 1))
  {
    if n >= 0 {
      DigitsLength(n, k);
    } else {
      DigitsLength(-n, k - 1);
    }
  }
}
