/** ASCII decimal digits and the integer/string conversions the codec relies on:
    Python's `int()` on a digit string, `str()` of a natural number and the
    zero-padding format spec `0>w`. */
module Decimal {

  predicate IsDigit(c: char) {
    '0' <= c <= '9'
  }

  predicate AllDigits(s: string) {
    forall i :: 0 <= i < |s| ==> IsDigit(s[i])
  }

  function DigitValue(c: char): (v: nat)
    requires IsDigit(c)
    ensures v < 10
  {
    (c as int - '0' as int) as nat
  }

  function DigitChar(v: nat): (c: char)
    requires v < 10
    ensures IsDigit(c) && DigitValue(c) == v
  {
    ('0' as int + v) as char
  }

  function Pow10(k: nat): (p: nat)
    ensures p >= 1
  {
    if k == 0 then 1 else 10 * Pow10(k - 1)
  }

  /** `int(s[i:j])`: the value of the digits at positions `i` to `j - 1`, most
      significant first; leading zeros are allowed, as with `int("007")`. */
  function Field(s: string, i: nat, j: nat): (n: nat)
    requires AllDigits(s) && i <= j <= |s|
    ensures n < Pow10(j - i)
    decreases j
  {
    if j == i then 0
    else 10 * Field(s, i, j - 1) + DigitValue(s[j - 1])
  }

  /** A digit character is fixed by its value. */
  lemma DigitValueInjective(a: char, b: char)
    requires IsDigit(a) && IsDigit(b) && DigitValue(a) == DigitValue(b)
    ensures a == b
  {
    assert a as int == b as int;
  }

  /** A two-character field, read as its tens and units digits. */
  lemma FieldTwo(s: string, i: nat)
    requires AllDigits(s) && i + 2 <= |s|
    ensures Field(s, i, i + 2) == 10 * DigitValue(s[i]) + DigitValue(s[i + 1])
  {
    assert Field(s, i, i + 1) == DigitValue(s[i]);
  }

  /** A three-character field, read as its hundreds, tens and units digits. */
  lemma FieldThree(s: string, i: nat)
    requires AllDigits(s) && i + 3 <= |s|
    ensures Field(s, i, i + 3) == 100 * DigitValue(s[i]) + 10 * DigitValue(s[i + 1]) + DigitValue(s[i + 2])
  {
    FieldTwo(s, i);
  }

  /** Two strings of digits that read the same at positions `i` to `i + 1`
      hold the same two characters there. */
  lemma SameFieldTwo(s: string, t: string, i: nat)
    requires AllDigits(s) && AllDigits(t) && i + 2 <= |s| && i + 2 <= |t|
    requires Field(s, i, i + 2) == Field(t, i, i + 2)
    ensures s[i] == t[i] && s[i + 1] == t[i + 1]
  {
    FieldTwo(s, i);
    FieldTwo(t, i);
    DigitValueInjective(s[i], t[i]);
    DigitValueInjective(s[i + 1], t[i + 1]);
  }

  /** The same for a three-character field. */
  lemma SameFieldThree(s: string, t: string, i: nat)
    requires AllDigits(s) && AllDigits(t) && i + 3 <= |s| && i + 3 <= |t|
    requires Field(s, i, i + 3) == Field(t, i, i + 3)
    ensures s[i] == t[i] && s[i + 1] == t[i + 1] && s[i + 2] == t[i + 2]
  {
    FieldThree(s, i);
    FieldThree(t, i);
    DigitValueInjective(s[i], t[i]);
    DigitValueInjective(s[i + 1], t[i + 1]);
    DigitValueInjective(s[i + 2], t[i + 2]);
  }

  /** `int(s)` on a whole string of digits. */
  function ParseNat(s: string): (n: nat)
    requires AllDigits(s)
    ensures n < Pow10(|s|)
  {
    Field(s, 0, |s|)
  }

  lemma DigitsJoin(a: string, b: string)
    requires AllDigits(a) && AllDigits(b)
    ensures AllDigits(a + b)
  {
    forall i | 0 <= i < |a + b| ensures IsDigit((a + b)[i]) {
      if i >= |a| { assert (a + b)[i] == b[i - |a|]; }
    }
  }

  /** A field read inside `a + t + b`, at the position of `t`, is read from `t`. */
  lemma {:induction false} FieldShift(a: string, t: string, b: string, k: nat)
    requires AllDigits(a + t + b) && AllDigits(t) && k <= |t|
    ensures Field(a + t + b, |a|, |a| + k) == Field(t, 0, k)
    decreases k
  {
    if k > 0 {
      FieldShift(a, t, b, k - 1);
      assert (a + t + b)[|a| + k - 1] == t[k - 1];
    }
  }

  /** Appending characters does not change a field read before them. */
  lemma {:induction false} FieldPrefix(a: string, b: string, i: nat, j: nat)
    requires AllDigits(a + b) && AllDigits(a) && i <= j <= |a|
    ensures Field(a + b, i, j) == Field(a, i, j)
    decreases j
  {
    if j > i {
      FieldPrefix(a, b, i, j - 1);
      assert (a + b)[j - 1] == a[j - 1];
    }
  }

  /** Python's `str(n)` for a natural number. */
  function NatToString(n: nat): (s: string)
    ensures |s| >= 1 && AllDigits(s)
    ensures ParseNat(s) == n
    ensures |s| > 1 ==> s[0] != '0'
  {
    if n < 10 then [DigitChar(n)]
    else
      var prefix := NatToString(n / 10);
      var s := prefix + [DigitChar(n % 10)];
      DigitsJoin(prefix, [DigitChar(n % 10)]);
      assert [] + prefix + [DigitChar(n % 10)] == s;
      FieldShift([], prefix, [DigitChar(n % 10)], |prefix|);
      s
  }

  function Zeros(k: nat): (z: string)
    ensures |z| == k
    ensures forall i :: 0 <= i < k ==> z[i] == '0'
  {
    if k == 0 then [] else Zeros(k - 1) + ['0']
  }

  /** `str(n)` fits in `w` characters exactly when `n < 10^w`. */
  lemma {:induction false} NatToStringLength(n: nat, w: nat)
    requires w >= 1
    ensures |NatToString(n)| <= w <==> n < Pow10(w)
    decreases n
  {
    if n >= 10 {
      if w == 1 {
        assert Pow10(1) == 10;
      } else {
        NatToStringLength(n / 10, w - 1);
        assert n == 10 * (n / 10) + n % 10;
        assert n / 10 < Pow10(w - 1) <==> n < Pow10(w);
      }
    } else {
      assert Pow10(w) == 10 * Pow10(w - 1);
    }
  }

  /** A run of '0' characters reads as 0. */
  lemma {:induction false} ZerosField(s: string, j: nat)
    requires AllDigits(s) && j <= |s|
    requires forall i :: 0 <= i < j ==> s[i] == '0'
    ensures Field(s, 0, j) == 0
    decreases j
  {
    if j > 0 {
      ZerosField(s, j - 1);
    }
  }

  /** Leading zeros do not change the value `int()` reads. */
  lemma {:induction false} LeadingZeros(z: string, t: string, k: nat)
    requires forall i :: 0 <= i < |z| ==> z[i] == '0'
    requires AllDigits(z + t) && AllDigits(t) && k <= |t|
    ensures Field(z + t, 0, |z| + k) == Field(t, 0, k)
    decreases k
  {
    if k == 0 {
      ZerosField(z + t, |z|);
    } else {
      LeadingZeros(z, t, k - 1);
      assert (z + t)[|z| + k - 1] == t[k - 1];
    }
  }

  /** Python's `f"{n:0>w}"`: `str(n)` left-padded with '0' to width `w`,
      never truncated. */
  function ZeroPad(n: nat, w: nat): (s: string)
    ensures AllDigits(s) && |s| >= w
    ensures ParseNat(s) == n
    ensures w >= 1 ==> (|s| == w <==> n < Pow10(w))
    ensures n < Pow10(w + 1) ==> |s| <= w + 1
  {
    var t := NatToString(n);
    NatToStringLength(n, w + 1);
    if w == 0 then t
    else
      NatToStringLength(n, w);
      if |t| < w then
        var z := Zeros(w - |t|);
        DigitsJoin(z, t);
        LeadingZeros(z, t, |t|);
        z + t
      else t
  }

  /** `f"{n:02}"` spelled out: tens digit, then units digit. */
  lemma ZeroPadTwoDigits(n: nat)
    requires n < 100
    ensures ZeroPad(n, 2) == [DigitChar(n / 10), DigitChar(n % 10)]
  {
    if n >= 10 {
      assert NatToString(n / 10) == [DigitChar(n / 10)];
    }
  }

  /** `f"{n:03}"` spelled out: hundreds, tens, units. */
  lemma ZeroPadThreeDigits(n: nat)
    requires n < 1000
    ensures ZeroPad(n, 3) == [DigitChar(n / 100), DigitChar(n / 10 % 10), DigitChar(n % 10)]
  {
    var m := n / 10;
    assert m / 10 == n / 100;
    if n >= 100 {
      assert NatToString(m / 10) == [DigitChar(n / 100)];
      assert NatToString(m) == [DigitChar(n / 100), DigitChar(m % 10)];
      assert NatToString(n) == NatToString(m) + [DigitChar(n % 10)];
    } else if n >= 10 {
      assert n / 100 == 0;
      assert NatToString(m) == [DigitChar(m)];
      assert m % 10 == m;
      assert Zeros(1) == ['0'];
    } else {
      assert n / 100 == 0 && m == 0;
      assert Zeros(2) == ['0', '0'];
    }
  }
}
