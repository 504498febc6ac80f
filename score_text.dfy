/** The text form of the score shown by the user-interface overlay: the
    overlay stores the score as text written with the custom numeric format
    "000000" (at least six digits, zero-padded, a leading minus sign for a
    negative value) and reads it back with the standard integer parser. */
module ScoreText {
  import opened Values

  const MinWidth := 6

  predicate IsDigit(c: char) {
    '0' <= c <= '9'
  }

  predicate AllDigits(s: string) {
    forall k :: 0 <= k < |s| ==> IsDigit(s[k])
  }

  function DigitChar(d: nat): (c: char)
    requires d < 10
    ensures IsDigit(c)
  {
    (('0' as int) + d) as char
  }

  function DigitValue(c: char): (d: nat)
    requires IsDigit(c)
    ensures d < 10 && DigitChar(d) == c
  {
    (c as int) - ('0' as int)
  }

  /** The decimal digits of `n`, most significant first, without leading zeros. */
  function Digits(n: nat): (s: string)
    ensures 1 <= |s| && AllDigits(s)
    ensures n >= 10 ==> s[0] != '0'
  {
    if n < 10 then [DigitChar(n)] else Digits(n / 10) + [DigitChar(n % 10)]
  }

  /** The number a string of decimal digits denotes. */
  function ValueOf(s: string): nat
    requires AllDigits(s)
  {
    if s == [] then 0 else 10 * ValueOf(s[..|s| - 1]) + DigitValue(s[|s| - 1])
  }

  function Zeros(k: nat): (s: string)
    ensures |s| == k && AllDigits(s)
  {
    seq(k, _ => '0')
  }

  /** The digits of `m`, zero-padded on the left to at least six. */
  function Padded(m: nat): (s: string)
    ensures AllDigits(s) && |s| >= MinWidth
  {
    var digits := Digits(m);
    if |digits| < MinWidth then Zeros(MinWidth - |digits|) + digits else digits
  }

  /** Writing `n` with the format "000000". */
  function Format(n: int): (s: string)
    ensures n >= 0 ==> AllDigits(s) && |s| >= MinWidth
    ensures n < 0 ==> |s| >= MinWidth + 1 && s[0] == '-' && AllDigits(s[1..])
  {
    if n < 0 then "-" + Padded(-n) else Padded(n)
  }

  /** Reading an integer: an optional sign followed by one or more decimal
      digits; anything else is the parser's format error (`None`). */
  function Parse(s: string): Option<int>
  {
    if |s| >= 2 && (s[0] == '-' || s[0] == '+') && AllDigits(s[1..]) then
      var magnitude: int := ValueOf(s[1..]);
      Some(if s[0] == '-' then -magnitude else magnitude)
    else if |s| >= 1 && AllDigits(s) then
      Some(ValueOf(s))
    else
      None
  }

  lemma {:induction false} DigitsValue(n: nat)
    ensures ValueOf(Digits(n)) == n
  {
    if n >= 10 {
      DigitsValue(n / 10);
      var s := Digits(n);
      assert s[..|s| - 1] == Digits(n / 10);
    }
  }

  lemma {:induction false} LeadingZeroValue(s: string)
    requires AllDigits(s)
    ensures ValueOf("0" + s) == ValueOf(s)
  {
    if s != [] {
      LeadingZeroValue(s[..|s| - 1]);
      assert ("0" + s)[..|"0" + s| - 1] == "0" + s[..|s| - 1];
    }
  }

  /** Zero padding on the left does not change the value. */
  lemma {:induction false} ZerosValue(k: nat, s: string)
    requires AllDigits(s)
    ensures ValueOf(Zeros(k) + s) == ValueOf(s)
  {
    if k == 0 {
      assert Zeros(k) + s == s;
    } else {
      ZerosValue(k - 1, s);
      assert Zeros(k) + s == "0" + (Zeros(k - 1) + s);
      LeadingZeroValue(Zeros(k - 1) + s);
    }
  }

  lemma PaddedValue(m: nat)
    ensures ValueOf(Padded(m)) == m
  {
    DigitsValue(m);
    var digits := Digits(m);
    if |digits| < MinWidth {
      ZerosValue(MinWidth - |digits|, digits);
    }
  }

  /** A minus sign followed by digits reads as the negated value of the digits. */
  lemma ParseNegative(digits: string)
    requires 1 <= |digits| && AllDigits(digits)
    ensures Parse("-" + digits) == Some(-(ValueOf(digits) as int))
  {
    assert ("-" + digits)[1..] == digits;
  }

  /** A string of digits reads as the value of the digits. */
  lemma ParseDigits(digits: string)
    requires 1 <= |digits| && AllDigits(digits)
    ensures Parse(digits) == Some(ValueOf(digits))
  {
    assert IsDigit(digits[0]);
  }

  lemma NegativeRoundTrip(n: int)
    requires n < 0
    ensures Parse(Format(n)) == Some(n)
  {
    PaddedValue(-n);
    ParseNegative(Padded(-n));
  }

  lemma NonNegativeRoundTrip(n: int)
    requires n >= 0
    ensures Parse(Format(n)) == Some(n)
  {
    PaddedValue(n);
    ParseDigits(Padded(n));
  }

  /** Setting the score to `n` and reading it back yields `n`, for every `n`. */
  lemma FormatRoundTrip(n: int)
    ensures Parse(Format(n)) == Some(n)
  {
    if n < 0 {
      NegativeRoundTrip(n);
    } else {
      NonNegativeRoundTrip(n);
    }
  }

  function Pow10(k: nat): (p: nat)
    ensures p >= 1
  {
    if k == 0 then 1 else 10 * Pow10(k - 1)
  }

  lemma {:induction false} DigitsLength(n: nat, k: nat)
    requires k >= 1
    ensures |Digits(n)| <= k <==> n < Pow10(k)
  {
    if n >= 10 && k > 1 {
      DigitsLength(n / 10, k - 1);
    }
    if n >= 10 && k == 1 {
      assert Pow10(1) == 10;
    }
  }

  /** A non-negative score is shown as exactly six digits while it is below
      one million, and as all of its digits from then on. */
  lemma FormatWidth(n: nat)
    ensures |Format(n)| == MinWidth <==> n < 1000000
    ensures ValueOf(Format(n)) == n
  {
    DigitsLength(n, MinWidth);
    assert Pow10(MinWidth) == 1000000;
    FormatRoundTrip(n);
  }
}
