/** Decimal rendering of integer-valued JavaScript numbers: `String(n)`
    (what a template literal interpolates) and `n.toFixed(2)`, with a
    parser `ParseInt` as their partner. */
module JsNumber {
  import opened Outcomes

  predicate IsDigit(c: char) {
    '0' <= c <= '9'
  }

  predicate AllDigits(s: string) {
    forall i :: 0 <= i < |s| ==> IsDigit(s[i])
  }

  function DigitChar(d: int): (c: char)
    requires 0 <= d < 10
    ensures IsDigit(c)
  {
    ('0' as int + d) as char
  }

  function DigitValue(c: char): (d: int)
    requires IsDigit(c)
    ensures 0 <= d < 10
  {
    c as int - '0' as int
  }

  /** The decimal digits of `n`, most significant first, with no leading zero. */
  function NatToStr(n: nat): (r: string)
    ensures |r| >= 1 && AllDigits(r)
    ensures r[0] == '0' ==> n == 0
    decreases n
  {
    if n < 10 then [DigitChar(n)] else NatToStr(n / 10) + [DigitChar(n % 10)]
  }

  /** `String(n)` for an integer `n`: a minus sign for negatives, then digits. */
  function IntToStr(n: int): (r: string)
    ensures |r| >= 1
    ensures '\n' !in r
  {
    if n < 0 then "-" + NatToStr(-n) else NatToStr(n)
  }

  /** `n.toFixed(2)` for an integer `n`: no fractional part to round. */
  function Fixed2(n: int): (r: string)
    ensures |r| >= 4 && r[|r| - 3..] == ".00"
    ensures ParseInt(r[..|r| - 3]) == Some(n)
  {
    IntToStrRoundTrip(n);
    var r := IntToStr(n) + ".00";
    assert r[..|r| - 3] == IntToStr(n);
    r
  }

  /** The value of a string of decimal digits. */
  function DigitsValue(s: string): nat
    requires AllDigits(s)
    decreases |s|
  {
    if |s| == 0 then 0 else DigitsValue(s[..|s| - 1]) * 10 + DigitValue(s[|s| - 1])
  }

  /** Reads back an optionally negative decimal integer; `None` for anything else. */
  function ParseInt(s: string): Option<int> {
    if |s| >= 2 && s[0] == '-' && AllDigits(s[1..]) then Some(0 - DigitsValue(s[1..]) as int)
    else if |s| >= 1 && AllDigits(s) then Some(DigitsValue(s))
    else None
  }

  lemma {:induction false} NatToStrRoundTrip(n: nat)
    ensures DigitsValue(NatToStr(n)) == n
    decreases n
  {
    if n >= 10 {
      var s := NatToStr(n);
      assert s[..|s| - 1] == NatToStr(n / 10);
      NatToStrRoundTrip(n / 10);
    }
  }

  /** Reading back what `String(n)` wrote gives `n` again. */
  lemma IntToStrRoundTrip(n: int)
    ensures ParseInt(IntToStr(n)) == Some(n)
  {
    var s := IntToStr(n);
    if n < 0 {
      assert s[1..] == NatToStr(-n);
      assert s[0] == '-' && AllDigits(s[1..]);
      NatToStrRoundTrip(-n);
    } else {
      assert s == NatToStr(n) && IsDigit(s[0]);
      NatToStrRoundTrip(n);
    }
  }
}
