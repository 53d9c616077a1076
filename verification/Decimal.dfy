/** Decimal digits, as in f-string formatting of a sequence number. */
module Decimal {
  import opened Division

  predicate IsDigit(c: char) { '0' <= c <= '9' }

  predicate AllDigits(s: string) { forall i | 0 <= i < |s| :: IsDigit(s[i]) }

  function DigitChar(d: nat): char
    requires d < 10
  {
    '0' + d as char
  }

  /** The last `width` decimal digits of n. */
  function FixedDigits(n: nat, width: nat): (s: string)
    ensures |s| == width && AllDigits(s)
  {
    if width == 0 then "" else FixedDigits(n / 10, width - 1) + [DigitChar(n % 10)]
  }

  /** How many digits n needs. */
  function Width(n: nat): (w: nat)
    ensures w >= 1
  {
    if n < 10 then 1 else 1 + Width(n / 10)
  }

  /** `{n:010d}`: at least ten digits, zero-padded, more when needed. */
  function Padded(n: nat): (s: string)
    ensures |s| >= 10 && AllDigits(s)
  {
    FixedDigits(n, if Width(n) < 10 then 10 else Width(n))
  }

  function Value(s: string): nat
    requires AllDigits(s)
  {
    if s == "" then 0 else 10 * Value(s[..|s| - 1]) + (s[|s| - 1] - '0') as nat
  }

  /** Padding is no loss: the text determines the number. */
  lemma {:induction false} ValueOfFixed(n: nat, width: nat)
    requires Width(n) <= width
    ensures Value(FixedDigits(n, width)) == n
  {
    var s := FixedDigits(n, width);
    assert s[..width - 1] == FixedDigits(n / 10, width - 1);
    if n >= 10 {
      ValueOfFixed(n / 10, width - 1);
    } else {
      ZeroDigits(width - 1);
    }
  }

  lemma {:induction false} ZeroDigits(width: nat)
    ensures Value(FixedDigits(0, width)) == 0
  {
    if width > 0 {
      ZeroDigits(width - 1);
      assert FixedDigits(0, width)[..width - 1] == FixedDigits(0, width - 1);
    }
  }

  /** Any digit string is the fixed-width text of its value. */
  lemma {:induction false} FixedOfValue(s: string)
    requires AllDigits(s)
    ensures FixedDigits(Value(s), |s|) == s
  {
    if s != "" {
      FixedOfValue(s[..|s| - 1]);
      assert s == s[..|s| - 1] + [s[|s| - 1]];
    }
  }

  /** Without a leading zero the value needs every digit; with one, fewer. */
  lemma {:induction false} WidthOfValue(s: string)
    requires AllDigits(s) && s != ""
    ensures Width(Value(s)) <= |s|
    ensures s[0] != '0' ==> Width(Value(s)) == |s| && Value(s) > 0
  {
    if |s| > 1 {
      WidthOfValue(s[..|s| - 1]);
    } else {
      assert s[..0] == "";
    }
  }

  lemma {:induction false} NoLeadingZero(n: nat)
    requires n > 0
    ensures FixedDigits(n, Width(n))[0] != '0'
  {
    if n >= 10 {
      NoLeadingZero(n / 10);
    }
  }

  /** The digit strings that are the padded text of some number: ten digits, or more with no leading zero. */
  lemma PaddedOfValue(s: string)
    requires AllDigits(s) && |s| >= 10 && (|s| == 10 || s[0] != '0')
    ensures Padded(Value(s)) == s
  {
    WidthOfValue(s);
    FixedOfValue(s);
  }

  lemma PaddedShape(n: nat)
    requires n > 0
    ensures |Padded(n)| == 10 || Padded(n)[0] != '0'
  {
    NoLeadingZero(n);
  }

  // ---- the digits themselves ----

  function Pow10(k: nat): (p: nat)
    ensures p >= 1
  {
    if k == 0 then 1 else 10 * Pow10(k - 1)
  }

  /** Counted from the right, digit i is the character for what n has of the i-th power of ten. */
  lemma {:induction false} DigitAt(n: nat, width: nat, i: nat)
    requires i < width
    ensures FixedDigits(n, width)[width - 1 - i] == '0' + (n / Pow10(i) % 10) as char
  {
    if i > 0 {
      DigitAt(n / 10, width - 1, i - 1);
      DivideTwice(n, 10, Pow10(i - 1));
    }
  }

  /** The decimal text of a number, as str() writes it. */
  function Text(n: nat): (s: string) { FixedDigits(n, Width(n)) }

  /** As many digits as the number needs, no more: no leading zero unless the number is zero. */
  lemma {:induction false} WidthIs(n: nat)
    ensures n < Pow10(Width(n))
    ensures Width(n) > 1 ==> n >= Pow10(Width(n) - 1)
  {
    if n >= 10 {
      WidthIs(n / 10);
    }
  }

  lemma TextDetermines(m: nat, n: nat)
    requires Text(m) == Text(n)
    ensures m == n
  {
    ValueOfFixed(m, Width(m));
    ValueOfFixed(n, Width(n));
  }
}
