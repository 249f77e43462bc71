/** Decimal rendering of integers as Python's `str`, `"{}".format` and the
    zero-padding format specs `{n:04d}` / `{n:0{width}}` produce them, with the
    facts the rest of the model needs: rendering is injective, padding keeps
    the value, and the number of digits is floor(log10 n) + 1. */
module Digits {

  predicate IsDigit(c: char) { '0' <= c <= '9' }

  predicate AllDigits(s: string) { forall i :: 0 <= i < |s| ==> IsDigit(s[i]) }

  function DigitChar(d: int): (c: char)
    requires 0 <= d < 10
    ensures IsDigit(c) && c as int - '0' as int == d
  {
    ('0' as int + d) as char
  }

  /** `str(n)` for a natural number. */
  function NatToString(n: nat): (s: string)
    decreases n
  {
    if n < 10 then [DigitChar(n)] else NatToString(n / 10) + [DigitChar(n % 10)]
  }

  /** `str(i)` for any integer: a minus sign, then the digits of |i|. */
  function IntToString(i: int): string
  {
    if i < 0 then "-" + NatToString(-i) else NatToString(i)
  }

  /** The value of a string of decimal digits (empty string: 0). */
  function ParseNat(s: string): nat
    requires AllDigits(s)
  {
    if |s| == 0 then 0 else 10 * ParseNat(s[..|s| - 1]) + (s[|s| - 1] as int - '0' as int)
  }

  function Zeros(k: nat): (z: string)
    ensures |z| == k && forall i :: 0 <= i < k ==> z[i] == '0'
  {
    if k == 0 then [] else Zeros(k - 1) + ['0']
  }

  /** `f"{n:0{width}d}"` for n >= 0: the digits of n, left-padded with zeros to `width`. */
  function ZeroPad(n: nat, width: nat): string
  {
    var d := NatToString(n);
    if |d| < width then Zeros(width - |d|) + d else d
  }

  /** `f"{n:0{width}}"` for any integer: Python keeps the sign in front and
      counts it in the width. */
  function ZeroPadInt(n: int, width: nat): string
  {
    if n < 0 then "-" + ZeroPad(-n, if width > 0 then width - 1 else 0) else ZeroPad(n, width)
  }

  function Pow10(k: nat): (p: nat)
    ensures p >= 1
  {
    if k == 0 then 1 else 10 * Pow10(k - 1)
  }

  /** Removing a common prefix. */
  lemma PrefixCancel(p: string, a: string, b: string)
    requires p + a == p + b
    ensures a == b
  {
    assert a == (p + a)[|p|..];
    assert b == (p + b)[|p|..];
  }

  lemma {:induction false} NatToStringShape(n: nat)
    ensures |NatToString(n)| >= 1 && AllDigits(NatToString(n))
    ensures n >= 10 ==> |NatToString(n)| >= 2
    decreases n
  {
    if n >= 10 {
      NatToStringShape(n / 10);
    }
  }

  /** Parsing the rendering gives the number back. */
  lemma {:induction false} ParseNatToString(n: nat)
    ensures AllDigits(NatToString(n)) && ParseNat(NatToString(n)) == n
    decreases n
  {
    NatToStringShape(n);
    var s := NatToString(n);
    if n < 10 {
      assert s[..0] == [];
    } else {
      ParseNatToString(n / 10);
      assert s[..|s| - 1] == NatToString(n / 10);
    }
  }

  lemma {:induction false} ParseZeros(k: nat)
    ensures AllDigits(Zeros(k)) && ParseNat(Zeros(k)) == 0
  {
    if k > 0 {
      ParseZeros(k - 1);
      assert Zeros(k)[..k - 1] == Zeros(k - 1);
    }
  }

  /** Leading zeros do not change the value. */
  lemma {:induction false} ParseLeadingZeros(k: nat, s: string)
    requires AllDigits(s)
    ensures AllDigits(Zeros(k) + s) && ParseNat(Zeros(k) + s) == ParseNat(s)
    decreases |s|
  {
    var t := Zeros(k) + s;
    assert AllDigits(t) by {
      forall i | 0 <= i < |t| ensures IsDigit(t[i]) {
        if i < k { assert t[i] == '0'; } else { assert t[i] == s[i - k]; }
      }
    }
    if |s| == 0 {
      assert t == Zeros(k);
      ParseZeros(k);
    } else {
      ParseLeadingZeros(k, s[..|s| - 1]);
      assert t[..|t| - 1] == Zeros(k) + s[..|s| - 1];
    }
  }

  /** Zero-padding keeps the value: the padded text parses back to n. */
  lemma ParseZeroPad(n: nat, width: nat)
    ensures AllDigits(ZeroPad(n, width)) && ParseNat(ZeroPad(n, width)) == n
  {
    ParseNatToString(n);
    var d := NatToString(n);
    if |d| < width {
      ParseLeadingZeros(width - |d|, d);
    }
  }

  /** The padded text is `width` long unless the number needs more digits. */
  lemma ZeroPadLength(n: nat, width: nat)
    ensures |ZeroPad(n, width)| == if |NatToString(n)| < width then width else |NatToString(n)|
  {
  }

  /** Two different numbers never render (or pad) to the same text. */
  lemma ZeroPadInjective(a: nat, b: nat, width: nat)
    requires ZeroPad(a, width) == ZeroPad(b, width)
    ensures a == b
  {
    ParseZeroPad(a, width);
    ParseZeroPad(b, width);
  }

  lemma NatToStringInjective(a: nat, b: nat)
    requires NatToString(a) == NatToString(b)
    ensures a == b
  {
    ParseNatToString(a);
    ParseNatToString(b);
  }

  /** Sign-aware padding is injective too, so successive counter values give distinct names. */
  lemma ZeroPadIntInjective(a: int, b: int, width: nat)
    requires ZeroPadInt(a, width) == ZeroPadInt(b, width)
    ensures a == b
  {
    var w1 := if width > 0 then width - 1 else 0;
    if a < 0 && b < 0 {
      assert ZeroPadInt(a, width)[1..] == ZeroPad(-a, w1);
      assert ZeroPadInt(b, width)[1..] == ZeroPad(-b, w1);
      ZeroPadInjective(-a, -b, w1);
    } else if a >= 0 && b >= 0 {
      ZeroPadInjective(a, b, width);
    } else if a < 0 {
      ZeroPadStartsWithDigit(b, width);
      assert false;
    } else {
      ZeroPadStartsWithDigit(a, width);
      assert false;
    }
  }

  lemma ZeroPadStartsWithDigit(n: nat, width: nat)
    ensures |ZeroPad(n, width)| >= 1 && IsDigit(ZeroPad(n, width)[0])
  {
    ParseZeroPad(n, width);
    NatToStringShape(n);
  }

  /** The rendering of n >= 1 has exactly the number of digits w with
      10^(w-1) <= n < 10^w, i.e. floor(log10 n) + 1 digits. */
  lemma {:induction false} DigitCountBounds(n: nat)
    requires n >= 1
    ensures Pow10(|NatToString(n)| - 1) <= n < Pow10(|NatToString(n)|)
    decreases n
  {
    if n >= 10 {
      DigitCountBounds(n / 10);
      NatToStringShape(n / 10);
      var w := |NatToString(n / 10)|;
      assert |NatToString(n)| == w + 1;
      assert Pow10(w) == 10 * Pow10(w - 1);
    }
  }

  /** Digit counts are monotone: a smaller number never needs more digits. */
  lemma {:induction false} DigitCountMonotone(a: nat, b: nat)
    requires a <= b
    ensures |NatToString(a)| <= |NatToString(b)|
    decreases b
  {
    if a >= 10 {
      DigitCountMonotone(a / 10, b / 10);
    } else if b >= 10 {
      NatToStringShape(b);
    }
  }
}
