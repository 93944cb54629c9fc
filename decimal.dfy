/** Decimal text of unsigned integers: Rust's `to_string` on `u64`, the zero-padded
    `{:02}`/`{:04}` fields chrono writes, and the value of a run of ASCII digits that
    chrono's numeric scanner reads. */
module Decimal {

  predicate IsDigit(c: char) {
    '0' <= c <= '9'
  }

  predicate AllDigits(s: string) {
    forall i :: 0 <= i < |s| ==> IsDigit(s[i])
  }

  function DigitChar(d: nat): (c: char)
    requires d < 10
    ensures IsDigit(c)
  {
    ('0' as int + d) as char
  }

  function DigitValue(c: char): (d: nat)
    requires IsDigit(c)
    ensures d < 10 && DigitChar(d) == c
  {
    c as int - '0' as int
  }

  function Pow10(k: nat): (p: nat)
    ensures p >= 1
  {
    if k == 0 then 1 else 10 * Pow10(k - 1)
  }

  /** The decimal text of `n`, without leading zeros. */
  function NatToString(n: nat): (s: string)
    ensures 1 <= |s| && AllDigits(s)
  {
    if n < 10 then [DigitChar(n)] else NatToString(n / 10) + [DigitChar(n % 10)]
  }

  /** The number a run of digits, possibly empty, denotes; leading zeros are allowed. */
  function DigitsValue(s: string): nat
    requires AllDigits(s)
  {
    if s == [] then 0 else 10 * DigitsValue(s[..|s| - 1]) + DigitValue(s[|s| - 1])
  }

  function Zeros(k: nat): (s: string)
    ensures |s| == k && forall i :: 0 <= i < k ==> s[i] == '0'
  {
    if k == 0 then [] else Zeros(k - 1) + ['0']
  }

  /** The decimal text of `n`, left-padded with zeros to at least `width` characters. */
  function ZeroPad(n: nat, width: nat): (s: string)
    ensures AllDigits(s)
    ensures |s| == if |NatToString(n)| >= width then |NatToString(n)| else width
  {
    var t := NatToString(n);
    if |t| >= width then t else Zeros(width - |t|) + t
  }

  /** Reading back the text of `n` gives `n`. */
  lemma {:induction false} DigitsValueOfNatToString(n: nat)
    ensures DigitsValue(NatToString(n)) == n
  {
    if n >= 10 {
      var t := NatToString(n / 10);
      var s := NatToString(n);
      assert s == t + [DigitChar(n % 10)];
      assert s[..|s| - 1] == t;
      DigitsValueOfNatToString(n / 10);
    }
  }

  /** A number below 10^k has at most `k` digits. */
  lemma {:induction false} NatToStringLength(n: nat, k: nat)
    requires 1 <= k && n < Pow10(k)
    ensures |NatToString(n)| <= k
  {
    if n >= 10 {
      assert k >= 2;
      assert n / 10 < Pow10(k - 1);
      NatToStringLength(n / 10, k - 1);
    }
  }

  /** Different numbers have different texts. */
  lemma NatToStringInjective(a: nat, b: nat)
    requires NatToString(a) == NatToString(b)
    ensures a == b
  {
    DigitsValueOfNatToString(a);
    DigitsValueOfNatToString(b);
  }

  /** The text starts with '0' only for zero itself, and is then exactly "0". */
  lemma {:induction false} NatToStringLeadingZero(n: nat)
    ensures NatToString(n)[0] == '0' <==> n == 0
    ensures n == 0 ==> NatToString(n) == "0"
  {
    if n >= 10 {
      NatToStringLeadingZero(n / 10);
      assert NatToString(n)[0] == NatToString(n / 10)[0];
    }
  }

  /** A run of `k` digits denotes a number below 10^k. */
  lemma {:induction false} DigitsValueBound(s: string)
    requires AllDigits(s)
    ensures DigitsValue(s) < Pow10(|s|)
  {
    if s != [] {
      DigitsValueBound(s[..|s| - 1]);
    }
  }

  /** Zero-padding the value of a digit run to the run's own width gives the run back:
      this is why a `%m`-style field prints exactly the digits it was read from. */
  lemma {:induction false} ZeroPadDigitsValue(d: string)
    requires 1 <= |d| && AllDigits(d)
    ensures ZeroPad(DigitsValue(d), |d|) == d
  {
    var k := |d|;
    var init, c := d[..k - 1], d[k - 1];
    assert d == init + [c];
    var v := DigitsValue(init);
    assert DigitsValue(d) == 10 * v + DigitValue(c);
    if k == 1 {
      assert NatToString(DigitValue(c)) == [c];
    } else {
      ZeroPadDigitsValue(init);
      if v == 0 {
        ZeroPadZeroSnoc(k - 1, DigitValue(c));
      } else {
        ZeroPadSnoc(v, k - 1, DigitValue(c));
      }
    }
  }

  /** Padding a single digit after an all-zero run. */
  lemma ZeroPadZeroSnoc(w: nat, d: nat)
    requires 1 <= w && d < 10
    ensures ZeroPad(d, w + 1) == ZeroPad(0, w) + [DigitChar(d)]
  {
    assert NatToString(d) == [DigitChar(d)];
    assert NatToString(0) == "0";
    assert Zeros(w) == Zeros(w - 1) + "0";
  }

  /** Appending a digit to a non-zero number appends it to the padded text. */
  lemma ZeroPadSnoc(v: nat, w: nat, d: nat)
    requires v != 0 && d < 10
    ensures ZeroPad(10 * v + d, w + 1) == ZeroPad(v, w) + [DigitChar(d)]
  {
    DivMod10(v, d);
    var t := NatToString(v);
    assert NatToString(10 * v + d) == t + [DigitChar(d)];
    if |t| < w {
      assert Zeros(w - |t|) + (t + [DigitChar(d)]) == (Zeros(w - |t|) + t) + [DigitChar(d)];
    }
  }

  lemma DivMod10(v: nat, d: nat)
    requires d < 10
    ensures (10 * v + d) / 10 == v && (10 * v + d) % 10 == d
  {
  }
}
