/** The CNP codec of the `cnpgen` package: the value object, the lead
    ("gender code") digit, the 12-digit partial string, the weighted mod-11
    check digit, the validity test and the decoder. */
module CnpCodec {

  import opened Wrappers
  import opened Decimal
  import opened Calendar
  import opened Catalog

  const CnpLength: nat := 13
  const PartialLength: nat := 12

  /** Weight of each of the 12 partial digits in the check-digit sum. */
  const Weights: seq<nat> := [2, 7, 9, 1, 4, 6, 3, 5, 8, 2, 7, 9]

  /** The exceptions the codec raises, one constructor per raise site. */
  datatype Error =
    | BirthDateType          // constructor: the birth date is not a date
    | SerialOutOfRange       // constructor: serial outside 1..1000
    | YearOutOfRange         // lead digit: non-resident born outside 1900..2099
    | WrongPartialLength     // check digit: partial is not 12 characters
    | PartialNotDigits       // check digit: partial holds a non-digit
    | NotAnInteger           // `int()` of a character that is not a digit
    | InvalidCnp             // decoder: the CNP fails the validity test
    | UnknownGender(value: int)   // decoder: `Gender(value)` has no member
    | InvalidDate            // decoder: the birth date is not a calendar date
    | UnknownRegion(code: int)    // decoder: `Region(code)` has no member

  /** What a caller may pass to `is_valid` and `parse`: a string or any other object. */
  datatype Input = Text(s: string) | NonText

  /** The value object held by Python `Cnp`. */
  datatype Cnp = Cnp(gender: Gender, birthDate: Date, region: Region, serial: int, resident: bool)

  /** The dictionary `parse` returns. */
  datatype Decoded = Decoded(gender: Gender, day: nat, month: nat, year: nat,
                             region: Region, serial: nat, resident: bool)

  /** What the constructor guarantees of every `Cnp` object. */
  predicate WellFormed(c: Cnp) {
    ValidDate(c.birthDate) && 1 <= c.serial <= 1000
  }

  /** `Cnp(gender, birth_date, region, serial, resident)`. Gender, region and
      resident are typed here, so only the date and serial checks can fail;
      the serial check admits 1000. */
  function New(gender: Gender, birthDate: Date, region: Region, serial: int, resident: bool): (r: Result<Cnp, Error>)
    ensures r.Success? <==> ValidDate(birthDate) && 1 <= serial <= 1000
    ensures r.Success? ==> r.value == Cnp(gender, birthDate, region, serial, resident) && WellFormed(r.value)
    ensures !ValidDate(birthDate) ==> r == Failure(BirthDateType)
    ensures ValidDate(birthDate) && (serial < 1 || serial > 1000) ==> r == Failure(SerialOutOfRange)
  {
    if !ValidDate(birthDate) then Failure(BirthDateType)
    else if serial > 1000 || serial < 1 then Failure(SerialOutOfRange)
    else Success(Cnp(gender, birthDate, region, serial, resident))
  }

  /** 1 for a woman, 0 for a man: what `get_gender_code` adds to the base digit. */
  function FemaleOffset(g: Gender): nat {
    if g == F then 1 else 0
  }

  /** `get_gender_code`: 7 for a resident whatever the year, otherwise 1 for
      1900..1999 and 5 for 2000..2099, plus one for a woman. */
  function GenderCode(c: Cnp): (r: Result<nat, Error>)
    ensures r.Failure? <==> !c.resident && (c.birthDate.year < 1900 || c.birthDate.year > 2099)
    ensures r.Failure? ==> r.error == YearOutOfRange
    ensures r.Success? ==> r.value in {1, 2, 5, 6, 7, 8}
    ensures r.Success? ==> (r.value % 2 == 0 <==> c.gender == F)
    ensures r.Success? ==> (r.value >= 7 <==> c.resident)
    ensures r.Success? && !c.resident ==> (r.value <= 2 <==> c.birthDate.year <= 1999)
  {
    var base: Result<nat, Error> :=
      if c.resident then Success(7)
      else if 1900 <= c.birthDate.year <= 1999 then Success(1)
      else if 2000 <= c.birthDate.year <= 2099 then Success(5)
      else Failure(YearOutOfRange);
    var b :- base;
    Success(b + FemaleOffset(c.gender))
  }

  /** The fields a partial CNP string carries, read back the way `parse` reads
      them: lead digit, yy, mm, dd, region code and serial. */
  predicate HasLayout(p: string, lead: nat, d: Date, region: Region, serial: nat) {
    && |p| >= PartialLength && AllDigits(p)
    && DigitValue(p[0]) == lead
    && Field(p, 1, 3) == d.year % 100
    && Field(p, 3, 5) == d.month
    && Field(p, 5, 7) == d.day
    && Field(p, 7, 9) == Code(region)
    && Field(p, 9, |p|) == serial
  }

  /** The string `partial` joins: `str(lead)`, `%y`, `%m`, `%d`, the region code
      padded to 2 and the serial padded to 3 (never truncated). Shared by both
      variants of the codec. */
  function Layout(lead: nat, d: Date, region: Region, serial: nat): (p: string)
    requires lead < 10 && ValidDate(d)
    ensures |p| >= PartialLength && AllDigits(p)
    ensures |p| == PartialLength <==> serial < 1000
    ensures serial == 1000 ==> |p| == CnpLength
  {
    assert Pow10(1) == 10 && Pow10(2) == 100 && Pow10(3) == 1000 && Pow10(4) == 10000;
    var l := NatToString(lead);
    var yy := ZeroPad(d.year % 100, 2);
    var mm := ZeroPad(d.month, 2);
    var dd := ZeroPad(d.day, 2);
    var rc := ZeroPad(Code(region), 2);
    var sn := ZeroPad(serial, 3);
    NatToStringLength(lead, 1);
    NatToStringLength(serial, 4);
    assert AllDigits(l + yy + mm + dd + rc + sn) by {
      DigitsJoin(l, yy);
      DigitsJoin(l + yy, mm);
      DigitsJoin(l + yy + mm, dd);
      DigitsJoin(l + yy + mm + dd, rc);
      DigitsJoin(l + yy + mm + dd + rc, sn);
    }
    l + yy + mm + dd + rc + sn
  }

  /** Reading the layout back field by field gives the values put in. */
  lemma LayoutFields(lead: nat, d: Date, region: Region, serial: nat)
    requires lead < 10 && ValidDate(d)
    ensures HasLayout(Layout(lead, d, region, serial), lead, d, region, serial)
  {
    var l := NatToString(lead);
    var yy := ZeroPad(d.year % 100, 2);
    var mm := ZeroPad(d.month, 2);
    var dd := ZeroPad(d.day, 2);
    var rc := ZeroPad(Code(region), 2);
    var sn := ZeroPad(serial, 3);
    assert Pow10(1) == 10 && Pow10(2) == 100 && Pow10(3) == 1000;
    NatToStringLength(lead, 1);
    assert Layout(lead, d, region, serial) == l + yy + mm + dd + rc + sn;
    JoinedFields(l, yy, mm, dd, rc, sn);
  }

  /** Reading back the fields of a joined partial string: each slice is the
      piece that was put there. */
  lemma JoinedFields(l: string, yy: string, mm: string, dd: string, rc: string, sn: string)
    requires |l| == 1 && |yy| == 2 && |mm| == 2 && |dd| == 2 && |rc| == 2 && |sn| >= 3
    requires AllDigits(l) && AllDigits(yy) && AllDigits(mm) && AllDigits(dd) && AllDigits(rc) && AllDigits(sn)
    ensures
      var p := l + yy + mm + dd + rc + sn;
      && AllDigits(p) && |p| == 9 + |sn|
      && p[0] == l[0]
      && Field(p, 1, 3) == ParseNat(yy)
      && Field(p, 3, 5) == ParseNat(mm)
      && Field(p, 5, 7) == ParseNat(dd)
      && Field(p, 7, 9) == ParseNat(rc)
      && Field(p, 9, |p|) == ParseNat(sn)
  {
    var p := l + yy + mm + dd + rc + sn;
    assert AllDigits(p) by {
      DigitsJoin(l, yy);
      DigitsJoin(l + yy, mm);
      DigitsJoin(l + yy + mm, dd);
      DigitsJoin(l + yy + mm + dd, rc);
      DigitsJoin(l + yy + mm + dd + rc, sn);
    }
    assert p[0] == l[0];
    assert Field(p, 1, 3) == ParseNat(yy) by {
      assert p == l + yy + (mm + dd + rc + sn);
      FieldShift(l, yy, mm + dd + rc + sn, 2);
    }
    assert Field(p, 3, 5) == ParseNat(mm) by {
      assert p == (l + yy) + mm + (dd + rc + sn);
      FieldShift(l + yy, mm, dd + rc + sn, 2);
    }
    assert Field(p, 5, 7) == ParseNat(dd) by {
      assert p == (l + yy + mm) + dd + (rc + sn);
      FieldShift(l + yy + mm, dd, rc + sn, 2);
    }
    assert Field(p, 7, 9) == ParseNat(rc) by {
      assert p == (l + yy + mm + dd) + rc + sn;
      FieldShift(l + yy + mm + dd, rc, sn, 2);
    }
    assert Field(p, 9, |p|) == ParseNat(sn) by {
      assert p == (l + yy + mm + dd + rc) + sn + [];
      FieldShift(l + yy + mm + dd + rc, sn, [], |sn|);
    }
  }

  /** The 12 characters of the layout, one by one, for a serial below 1000. */
  lemma LayoutDigits(lead: nat, d: Date, region: Region, serial: nat)
    requires lead < 10 && ValidDate(d) && serial < 1000
    ensures
      var yy := d.year % 100;
      var rc := Code(region);
      Layout(lead, d, region, serial) ==
        [DigitChar(lead), DigitChar(yy / 10), DigitChar(yy % 10),
         DigitChar(d.month / 10), DigitChar(d.month % 10),
         DigitChar(d.day / 10), DigitChar(d.day % 10),
         DigitChar(rc / 10), DigitChar(rc % 10),
         DigitChar(serial / 100), DigitChar(serial / 10 % 10), DigitChar(serial % 10)]
  {
    var yy := d.year % 100;
    var rc := Code(region);
    assert Layout(lead, d, region, serial) ==
      NatToString(lead) + ZeroPad(yy, 2) + ZeroPad(d.month, 2) + ZeroPad(d.day, 2)
      + ZeroPad(rc, 2) + ZeroPad(serial, 3);
    SpellFields(lead, yy, d.month, d.day, rc, serial);
  }

  lemma SpellFields(lead: nat, yy: nat, mm: nat, dd: nat, rc: nat, serial: nat)
    requires lead < 10 && yy < 100 && mm < 100 && dd < 100 && rc < 100 && serial < 1000
    ensures NatToString(lead) + ZeroPad(yy, 2) + ZeroPad(mm, 2) + ZeroPad(dd, 2)
      + ZeroPad(rc, 2) + ZeroPad(serial, 3) ==
        [DigitChar(lead), DigitChar(yy / 10), DigitChar(yy % 10),
         DigitChar(mm / 10), DigitChar(mm % 10),
         DigitChar(dd / 10), DigitChar(dd % 10),
         DigitChar(rc / 10), DigitChar(rc % 10),
         DigitChar(serial / 100), DigitChar(serial / 10 % 10), DigitChar(serial % 10)]
  {
    var a, b, c, e, f, g := NatToString(lead), ZeroPad(yy, 2), ZeroPad(mm, 2), ZeroPad(dd, 2),
      ZeroPad(rc, 2), ZeroPad(serial, 3);
    var d0, d1, d2, d3, d4, d5, d6, d7, d8, d9, d10, d11 :=
      DigitChar(lead), DigitChar(yy / 10), DigitChar(yy % 10), DigitChar(mm / 10), DigitChar(mm % 10),
      DigitChar(dd / 10), DigitChar(dd % 10), DigitChar(rc / 10), DigitChar(rc % 10),
      DigitChar(serial / 100), DigitChar(serial / 10 % 10), DigitChar(serial % 10);
    assert a == [d0];
    assert b == [d1, d2] by { ZeroPadTwoDigits(yy); }
    assert c == [d3, d4] by { ZeroPadTwoDigits(mm); }
    assert e == [d5, d6] by { ZeroPadTwoDigits(dd); }
    assert f == [d7, d8] by { ZeroPadTwoDigits(rc); }
    assert g == [d9, d10, d11] by { ZeroPadThreeDigits(serial); }
    assert a + b == [d0, d1, d2];
    assert a + b + c == [d0, d1, d2, d3, d4];
    assert a + b + c + e == [d0, d1, d2, d3, d4, d5, d6];
    assert a + b + c + e + f == [d0, d1, d2, d3, d4, d5, d6, d7, d8];
  }

  /** `partial`: the first 12 characters of the CNP; 13 when the serial is 1000. */
  function Partial(c: Cnp): (r: Result<string, Error>)
    requires WellFormed(c)
    ensures r.Success? <==> GenderCode(c).Success?
    ensures r.Failure? ==> r.error == YearOutOfRange
    ensures r.Success? ==> r.value == Layout(GenderCode(c).value, c.birthDate, c.region, c.serial)
    ensures r.Success? ==> (|r.value| == PartialLength <==> c.serial <= 999)
    ensures r.Success? && c.serial == 1000 ==> |r.value| == CnpLength
  {
    var lead :- GenderCode(c);
    Success(Layout(lead, c.birthDate, c.region, c.serial))
  }

  /** Every field of a successful partial string reads back as the value the
      object holds, with the lead digit in front. */
  lemma PartialFields(c: Cnp)
    requires WellFormed(c) && Partial(c).Success?
    ensures HasLayout(Partial(c).value, GenderCode(c).value, c.birthDate, c.region, c.serial)
  {
    LayoutFields(GenderCode(c).value, c.birthDate, c.region, c.serial);
  }

  /** Sum of the digits of `p` from position `i` on, each times its weight. */
  function WeightedSumFrom(p: string, i: nat): nat
    requires AllDigits(p) && i <= |p| <= PartialLength
    decreases |p| - i
  {
    if i == |p| then 0
    else DigitValue(p[i]) * Weights[i] + WeightedSumFrom(p, i + 1)
  }

  /** The check digit for a weighted sum: the remainder mod 11, except that
      remainder 10 gives 1. */
  function CheckDigitOf(sum: nat): (k: nat)
    ensures k < 10
    ensures sum % 11 < 10 ==> k == sum % 11
    ensures sum % 11 == 10 ==> k == 1
  {
    if sum % 11 < 10 then sum % 11 else 1
  }

  /** `compute_c(partial)`: the length is checked before the digits. */
  function ComputeC(p: string): (r: Result<nat, Error>)
    ensures |p| != PartialLength ==> r == Failure(WrongPartialLength)
    ensures |p| == PartialLength && !AllDigits(p) ==> r == Failure(PartialNotDigits)
    ensures r.Success? <==> |p| == PartialLength && AllDigits(p)
    ensures r.Success? ==> r.value < 10 && r.value == CheckDigitOf(WeightedSumFrom(p, 0))
  {
    if |p| != PartialLength then Failure(WrongPartialLength)
    else if !AllDigits(p) then Failure(PartialNotDigits)
    else Success(CheckDigitOf(WeightedSumFrom(p, 0)))
  }

  /** `[int(x) for x in s if x.isdigit()]`. */
  function DigitsOf(s: string): (ds: seq<nat>)
    ensures |ds| <= |s|
    ensures |ds| == |s| <==> AllDigits(s)
    ensures AllDigits(s) ==> forall i :: 0 <= i < |s| ==> ds[i] == DigitValue(s[i])
  {
    if |s| == 0 then []
    else
      var rest := DigitsOf(s[1..]);
      assert AllDigits(s) <==> IsDigit(s[0]) && AllDigits(s[1..]) by {
        if IsDigit(s[0]) && AllDigits(s[1..]) {
          forall i | 0 <= i < |s| ensures IsDigit(s[i]) {
            if i > 0 { assert s[i] == s[1..][i - 1]; }
          }
        }
      }
      if IsDigit(s[0]) then [DigitValue(s[0])] + rest else rest
  }

  /** `compute_c` step by step as the Python code does it: filter the digits,
      compare the count with the length, then sum the weighted digits. */
  method ComputeCheckDigit(partial: string) returns (r: Result<nat, Error>)
    ensures r == ComputeC(partial)
  {
    if |partial| != PartialLength {
      return Failure(WrongPartialLength);
    }
    var digits := DigitsOf(partial);
    if |digits| != |partial| {
      return Failure(PartialNotDigits);
    }
    var sum: nat := 0;
    var i := 0;
    while i < |digits|
      invariant 0 <= i <= |digits|
      invariant sum + WeightedSumFrom(partial, i) == WeightedSumFrom(partial, 0)
    {
      sum := sum + digits[i] * Weights[i];
      i := i + 1;
    }
    var rem := sum % 11;
    if rem < 10 {
      r := Success(rem);
    } else {
      r := Success(1);
    }
  }

  /** `is_valid`: false for a non-string or a wrong length; otherwise the last
      digit against `compute_c` of the first 12. It raises, rather than
      returning false, when one of the 13 characters is not a digit. */
  function IsValid(x: Input): (r: Result<bool, Error>)
    ensures x.NonText? ==> r == Success(false)
    ensures x.Text? && |x.s| != CnpLength ==> r == Success(false)
    ensures x.Text? && |x.s| == CnpLength ==> (r.Failure? <==> !AllDigits(x.s))
    ensures r.Failure? ==> r.error == NotAnInteger || r.error == PartialNotDigits
    ensures r == Success(true) <==>
      x.Text? && |x.s| == CnpLength && AllDigits(x.s)
      && DigitValue(x.s[12]) == CheckDigitOf(WeightedSumFrom(x.s[..12], 0))
  {
    match x
    case NonText => Success(false)
    case Text(s) =>
      if |s| != CnpLength then Success(false)
      else if !IsDigit(s[12]) then Failure(NotAnInteger)
      else
        assert AllDigits(s) <==> AllDigits(s[..12]) by {
          if AllDigits(s[..12]) {
            forall i | 0 <= i < |s| ensures IsDigit(s[i]) {
              if i < 12 { assert s[i] == s[..12][i]; }
            }
          }
        }
        var k :- ComputeC(s[..12]);
        Success(DigitValue(s[12]) == k)
  }

  /** `f"{partial}{compute_c(partial)}"`: a partial string followed by its
      check digit; the errors are those of `compute_c`. */
  function WithCheckDigit(p: string): (r: Result<string, Error>)
    ensures r.Success? <==> |p| == PartialLength && AllDigits(p)
    ensures r.Failure? ==> r.error == ComputeC(p).error
    ensures r.Success? ==> |r.value| == CnpLength && AllDigits(r.value)
    ensures r.Success? ==> r.value[..PartialLength] == p
    ensures r.Success? ==> DigitValue(r.value[PartialLength]) == ComputeC(p).value
  {
    var k :- ComputeC(p);
    var s := p + NatToString(k);
    NatToStringLength(k, 1);
    assert NatToString(k) == [DigitChar(k)];
    assert s[..PartialLength] == p;
    assert s[PartialLength] == DigitChar(k);
    assert AllDigits(s) by {
      forall i | 0 <= i < |s| ensures IsDigit(s[i]) {
        if i >= PartialLength { assert s[i] == NatToString(k)[i - PartialLength]; }
      }
    }
    Success(s)
  }

  /** A partial string with its check digit appended passes `is_valid`. */
  lemma WithCheckDigitIsValid(p: string)
    requires WithCheckDigit(p).Success?
    ensures IsValid(Text(WithCheckDigit(p).value)) == Success(true)
  {
    var s := WithCheckDigit(p).value;
    assert s[..PartialLength] == p;
  }

  /** Exactly one final digit makes 12 digits a valid CNP: the one
      `compute_c` gives. */
  lemma CheckDigitUnique(p: string, k: nat)
    requires |p| == PartialLength && AllDigits(p) && k < 10
    ensures IsValid(Text(p + [DigitChar(k)])) == Success(k == ComputeC(p).value)
  {
    var s := p + [DigitChar(k)];
    assert s[..PartialLength] == p;
    assert s[PartialLength] == DigitChar(k);
  }

  /** Appending the check digit leaves the fields of the partial string where
      they were. */
  lemma WithCheckDigitFields(p: string, lead: nat, d: Date, region: Region, serial: nat)
    requires WithCheckDigit(p).Success? && HasLayout(p, lead, d, region, serial)
    ensures
      var s := WithCheckDigit(p).value;
      && DigitValue(s[0]) == lead
      && Field(s, 1, 3) == d.year % 100
      && Field(s, 3, 5) == d.month
      && Field(s, 5, 7) == d.day
      && Field(s, 7, 9) == Code(region)
      && Field(s, 9, 12) == serial
  {
    var s := WithCheckDigit(p).value;
    var k := ComputeC(p).value;
    assert s == p + NatToString(k);
    FieldPrefix(p, NatToString(k), 1, 3);
    FieldPrefix(p, NatToString(k), 3, 5);
    FieldPrefix(p, NatToString(k), 5, 7);
    FieldPrefix(p, NatToString(k), 7, 9);
    FieldPrefix(p, NatToString(k), 9, 12);
  }

  /** `full`: the partial string followed by its check digit. */
  function Full(c: Cnp): (r: Result<string, Error>)
    requires WellFormed(c)
    ensures r.Success? <==> GenderCode(c).Success? && c.serial <= 999
    ensures GenderCode(c).Failure? ==> r == Failure(YearOutOfRange)
    ensures GenderCode(c).Success? && c.serial == 1000 ==> r == Failure(WrongPartialLength)
    ensures r.Success? ==> |r.value| == CnpLength && AllDigits(r.value)
    ensures r.Success? ==> r.value[..PartialLength] == Partial(c).value
    ensures r.Success? ==> DigitValue(r.value[PartialLength]) == ComputeC(Partial(c).value).value
  {
    var p :- Partial(c);
    WithCheckDigit(p)
  }

  /** Every string `full` produces passes `is_valid`. */
  lemma FullIsValid(c: Cnp)
    requires WellFormed(c) && Full(c).Success?
    ensures IsValid(Text(Full(c).value)) == Success(true)
  {
    WithCheckDigitIsValid(Partial(c).value);
  }

  /** The lead digits `parse` can decode: 1/2, 5/6 and 7/8. */
  predicate DecodableLead(l: nat) {
    l == 1 || l == 2 || l == 5 || l == 6 || l == 7 || l == 8
  }

  /** The century `parse` prefixes to yy: "19" for lead 1/2, "20" otherwise. */
  function Century(l: nat): nat {
    if l == 1 || l == 2 then 1900 else 2000
  }

  /** The birth date `parse` reads from a 13-digit string. */
  function DateField(s: string): (d: Date)
    requires |s| == CnpLength && AllDigits(s)
  {
    Date(Century(DigitValue(s[0])) + Field(s, 1, 3), Field(s, 3, 5), Field(s, 5, 7))
  }

  /** The gender and resident flag `parse` reads from the lead digit `l`:
      `Gender(l)` for 1/2, `Gender(l - 6)` and resident for 7/8, and
      `Gender(l - 4)` otherwise, which has no member for 0, 3, 4 and 9. */
  function DecodeLead(l: nat): (r: Result<(Gender, bool), Error>)
    requires l < 10
    ensures r.Success? <==> DecodableLead(l)
    ensures !DecodableLead(l) ==> r == Failure(UnknownGender(l - 4))
    ensures r.Success? ==> (r.value.0 == M <==> l % 2 == 1)
    ensures r.Success? ==> (r.value.1 <==> l == 7 || l == 8)
  {
    var resident := l == 7 || l == 8;
    var v := if l == 1 || l == 2 then l else if resident then l - 6 else l - 4;
    match GenderOf(v)
    case Some(g) => Success((g, resident))
    case None => Failure(UnknownGender(v))
  }

  /** The decoding half of `parse`, on a string already known to be 13 digits:
      the lead digit, then the date, then the region. */
  function Decode(s: string): (r: Result<Decoded, Error>)
    requires |s| == CnpLength && AllDigits(s)
    ensures r.Success? <==>
      DecodableLead(DigitValue(s[0])) && ValidDate(DateField(s)) && IsRegionCode(Field(s, 7, 9))
    ensures !DecodableLead(DigitValue(s[0])) ==> r == Failure(UnknownGender(DigitValue(s[0]) - 4))
    ensures DecodableLead(DigitValue(s[0])) && !ValidDate(DateField(s)) ==> r == Failure(InvalidDate)
    ensures DecodableLead(DigitValue(s[0])) && ValidDate(DateField(s)) && !IsRegionCode(Field(s, 7, 9)) ==>
      r == Failure(UnknownRegion(Field(s, 7, 9)))
    ensures r.Success? ==>
      var l := DigitValue(s[0]);
      && (r.value.gender == M <==> l % 2 == 1)
      && (r.value.resident <==> l == 7 || l == 8)
      && ((l == 1 || l == 2) ==> 1900 <= r.value.year <= 1999)
      && (l >= 5 ==> 2000 <= r.value.year <= 2099)
      && r.value.year % 100 == Field(s, 1, 3)
      && r.value.month == Field(s, 3, 5)
      && r.value.day == Field(s, 5, 7)
      && ValidDate(Date(r.value.year, r.value.month, r.value.day))
      && Code(r.value.region) == Field(s, 7, 9)
      && r.value.serial == Field(s, 9, 12) < 1000
  {
    var lead :- DecodeLead(DigitValue(s[0]));
    var d := DateField(s);
    if !ValidDate(d) then Failure(InvalidDate)
    else
      var code := Field(s, 7, 9);
      var region :- RegionOf(code).ToResult(UnknownRegion(code));
      assert Pow10(2) == 100 && Pow10(3) == 1000;
      assert d.year % 100 == Field(s, 1, 3);
      Success(Decoded(lead.0, d.day, d.month, d.year, region, Field(s, 9, 12), lead.1))
  }

  /** `parse`: the validity test first (its own errors pass through), then
      `ValueError` for an invalid CNP, then the decoding. */
  function Parse(x: Input): (r: Result<Decoded, Error>)
    ensures IsValid(x).Failure? ==> r == Failure(IsValid(x).error)
    ensures IsValid(x) == Success(false) ==> r == Failure(InvalidCnp)
    ensures r.Success? ==> IsValid(x) == Success(true)
    ensures IsValid(x) == Success(true) ==> x.Text? && |x.s| == CnpLength && AllDigits(x.s) && r == Decode(x.s)
  {
    var valid :- IsValid(x);
    if !valid then Failure(InvalidCnp)
    else Decode(x.s)
  }

  /** Display name of a gender, `Gender.name`. */
  function GenderName(g: Gender): string {
    match g
    case M => "M"
    case F => "F"
  }

  /** The labelled lines `info` prints after the first. */
  function Report(data: Decoded): string {
    "Gender: " + GenderName(data.gender) + "\n"
    + "Birth year: " + NatToString(data.year) + "\n"
    + "Birth month: " + NatToString(data.month) + "\n"
    + "Birth day: " + NatToString(data.day) + "\n"
    + "Region: " + DisplayName(data.region) + "\n"
  }

  /** `info`: the decoded fields as labelled lines; it fails exactly when
      `parse` does, with the same error. */
  function Info(x: Input): (r: Result<string, Error>)
    ensures r.Success? <==> Parse(x).Success?
    ensures r.Failure? ==> r.error == Parse(x).error
    ensures r.Success? ==> x.Text? && r.value == "CNP: " + x.s + "\n" + Report(Parse(x).value)
  {
    var data :- Parse(x);
    Success("CNP: " + x.s + "\n" + Report(data))
  }

  /** The fields of `full` are those of `partial`: the check digit only
      follows them. */
  lemma FullFields(c: Cnp)
    requires WellFormed(c) && Full(c).Success?
    ensures |Full(c).value| == CnpLength && AllDigits(Full(c).value)
    ensures
      var s := Full(c).value;
      var d := c.birthDate;
      && DigitValue(s[0]) == GenderCode(c).value
      && Field(s, 1, 3) == d.year % 100
      && Field(s, 3, 5) == d.month
      && Field(s, 5, 7) == d.day
      && Field(s, 7, 9) == Code(c.region)
      && Field(s, 9, 12) == c.serial
  {
    PartialFields(c);
    WithCheckDigitFields(Partial(c).value, GenderCode(c).value, c.birthDate, c.region, c.serial);
  }

  /** Decoding a 13-digit string whose fields hold a lead digit, a date's yy,
      mm and dd, a region code and a serial. */
  lemma ParseFields(s: string, lead: nat, d: Date, region: Region, serial: nat, g: Gender, resident: bool, year: nat)
    requires IsValid(Text(s)) == Success(true)
    requires |s| == CnpLength && AllDigits(s) && DigitValue(s[0]) == lead
    requires lead < 10 && DecodeLead(lead) == Success((g, resident))
    requires Field(s, 1, 3) == d.year % 100 && Field(s, 3, 5) == d.month && Field(s, 5, 7) == d.day
    requires Field(s, 7, 9) == Code(region) && Field(s, 9, 12) == serial
    requires year == Century(lead) + d.year % 100 && ValidDate(Date(year, d.month, d.day))
    ensures Parse(Text(s)) == Success(Decoded(g, d.day, d.month, year, region, serial, resident))
  {
    RegionOfCode(region);
    assert Decode(s) == Success(Decoded(g, d.day, d.month, year, region, serial, resident));
  }

  /** Round trip for a non-resident born 1900..2099 with a serial below 1000:
      `parse(full)` gives back every field, and resident is false. */
  lemma ParseFull(c: Cnp)
    requires WellFormed(c) && !c.resident && 1900 <= c.birthDate.year <= 2099 && c.serial <= 999
    ensures Full(c).Success?
    ensures Parse(Text(Full(c).value)) ==
      Success(Decoded(c.gender, c.birthDate.day, c.birthDate.month, c.birthDate.year, c.region, c.serial, false))
  {
    var s := Full(c).value;
    var l := GenderCode(c).value;
    var d := c.birthDate;
    FullFields(c);
    FullIsValid(c);
    EraYear(c);
    DecodeLeadOfGenderCode(c);
    ParseFields(s, l, d, c.region, c.serial, c.gender, false, d.year);
  }

  /** Decoding the lead digit gives back the gender and the resident flag it
      was made from. */
  lemma DecodeLeadOfGenderCode(c: Cnp)
    requires GenderCode(c).Success?
    ensures GenderCode(c).value < 10
    ensures DecodeLead(GenderCode(c).value) == Success((c.gender, c.resident))
  {
  }

  /** For a non-resident the lead digit fixes the century of the birth year. */
  lemma EraYear(c: Cnp)
    requires !c.resident && 1900 <= c.birthDate.year <= 2099
    ensures GenderCode(c).Success?
    ensures Century(GenderCode(c).value) + c.birthDate.year % 100 == c.birthDate.year
  {
  }

  /** Round trip for a resident: the lead digit forgets the century, so the
      decoded year is `2000 + year % 100`; the other fields come back. */
  lemma ParseFullResident(c: Cnp)
    requires WellFormed(c) && c.resident && c.serial <= 999
    ensures Full(c).Success?
    ensures Parse(Text(Full(c).value)) ==
      Success(Decoded(c.gender, c.birthDate.day, c.birthDate.month, 2000 + c.birthDate.year % 100,
                      c.region, c.serial, true))
  {
    var s := Full(c).value;
    var l := GenderCode(c).value;
    var d := c.birthDate;
    FullFields(c);
    FullIsValid(c);
    ResidentYearKeepsDate(d);
    DecodeLeadOfGenderCode(c);
    ParseFields(s, l, d, c.region, c.serial, c.gender, true, 2000 + d.year % 100);
  }

  /** Two valid CNPs that carry the same lead digit and the same fields are
      the same string: the check digit follows from the other twelve. */
  lemma SameFieldsSameCnp(s: string, t: string)
    requires IsValid(Text(s)) == Success(true) && IsValid(Text(t)) == Success(true)
    requires |s| == CnpLength && |t| == CnpLength && AllDigits(s) && AllDigits(t)
    requires DigitValue(s[0]) == DigitValue(t[0])
    requires Field(s, 1, 3) == Field(t, 1, 3) && Field(s, 3, 5) == Field(t, 3, 5)
    requires Field(s, 5, 7) == Field(t, 5, 7) && Field(s, 7, 9) == Field(t, 7, 9)
    requires Field(s, 9, 12) == Field(t, 9, 12)
    ensures s == t
  {
    SameFieldsSamePartial(s, t);
    DigitValueInjective(s[12], t[12]);
    forall k | 0 <= k < CnpLength ensures s[k] == t[k] {
      if k < 12 { assert s[k] == s[..12][k] && t[k] == t[..12][k]; }
    }
  }

  /** Digit strings with the same lead digit and the same fields have the
      same first 12 characters. */
  lemma SameFieldsSamePartial(s: string, t: string)
    requires |s| == CnpLength && |t| == CnpLength && AllDigits(s) && AllDigits(t)
    requires DigitValue(s[0]) == DigitValue(t[0])
    requires Field(s, 1, 3) == Field(t, 1, 3) && Field(s, 3, 5) == Field(t, 3, 5)
    requires Field(s, 5, 7) == Field(t, 5, 7) && Field(s, 7, 9) == Field(t, 7, 9)
    requires Field(s, 9, 12) == Field(t, 9, 12)
    ensures s[..12] == t[..12]
  {
    DigitValueInjective(s[0], t[0]);
    SameFieldTwo(s, t, 1);
    SameFieldTwo(s, t, 3);
    SameFieldTwo(s, t, 5);
    SameFieldTwo(s, t, 7);
    SameFieldThree(s, t, 9);
    SamePartial(s, t);
  }

  /** Strings that agree at the first 12 positions share their partial string. */
  lemma SamePartial(s: string, t: string)
    requires |s| == CnpLength && |t| == CnpLength
    requires s[0] == t[0] && s[1] == t[1] && s[2] == t[2] && s[3] == t[3]
    requires s[4] == t[4] && s[5] == t[5] && s[6] == t[6] && s[7] == t[7]
    requires s[8] == t[8] && s[9] == t[9] && s[10] == t[10] && s[11] == t[11]
    ensures s[..12] == t[..12]
  {
    forall k | 0 <= k < 12 ensures s[..12][k] == t[..12][k] {
      assert s[..12][k] == s[k] && t[..12][k] == t[k];
    }
  }

  /** `parse` loses nothing: a string it accepts, with a serial the
      constructor allows, is the `full` of the object built from the decoded
      fields. */
  lemma {:induction false} FullOfParse(s: string)
    requires Parse(Text(s)).Success? && Parse(Text(s)).value.serial >= 1
    ensures
      var d := Parse(Text(s)).value;
      var c := Cnp(d.gender, Date(d.year, d.month, d.day), d.region, d.serial, d.resident);
      && WellFormed(c) && Full(c) == Success(s)
  {
    var d := Parse(Text(s)).value;
    var c := Cnp(d.gender, Date(d.year, d.month, d.day), d.region, d.serial, d.resident);
    assert IsValid(Text(s)) == Success(true) && Decode(s) == Success(d);
    var l := DigitValue(s[0]);
    assert GenderCode(c) == Success(l);
    assert Full(c).Success?;
    var t := Full(c).value;
    FullFields(c);
    FullIsValid(c);
    SameFieldsSameCnp(s, t);
  }
}
