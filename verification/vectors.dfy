/** The concrete values the repository's tests expect of the codec, plus the
    serial-1000 and out-of-range cases the code lets through or rejects. */
module CnpVectors {

  import opened Wrappers
  import opened Decimal
  import opened Calendar
  import opened Catalog
  import opened CnpCodec
  import LegacyCodec

  lemma CheckDigitVector1()
    ensures ComputeC("506060251001") == Success(4)
  {
    var p := "506060251001";
    assert AllDigits(p);
    assert WeightedSumFrom(p, 6) == 48;
    assert WeightedSumFrom(p, 0) == 136;
  }

  lemma CheckDigitVector2()
    ensures ComputeC("616062122001") == Success(4)
  {
    var p := "616062122001";
    assert AllDigits(p);
    assert WeightedSumFrom(p, 6) == 38;
    assert WeightedSumFrom(p, 0) == 147;
  }

  /** Weighted sum 10: the remainder-10 rule gives 1. */
  lemma CheckDigitVector3()
    ensures ComputeC("001100000000") == Success(1)
  {
    var p := "001100000000";
    assert AllDigits(p);
    assert WeightedSumFrom(p, 6) == 0;
    assert WeightedSumFrom(p, 0) == 10;
  }

  lemma CheckDigitVector4()
    ensures ComputeC("193030222022") == Success(3)
  {
    var p := "193030222022";
    assert AllDigits(p);
    assert WeightedSumFrom(p, 6) == 64;
    assert WeightedSumFrom(p, 0) == 168;
  }

  /** `test_partial`, first object: male, 1993-08-02, Braila, serial 2. */
  lemma PartialVector1(c: Cnp)
    requires c.gender == M && c.birthDate.year == 1993 && c.birthDate.month == 8 && c.birthDate.day == 2
    requires c.region == Braila && c.serial == 2 && !c.resident
    ensures WellFormed(c)
    ensures Partial(c) == Success("193080209002")
  {
    var d := c.birthDate;
    assert d.year % 100 / 10 == 9 && d.year % 100 % 10 == 3;
    assert d.month / 10 == 0 && d.month % 10 == 8;
    assert d.day / 10 == 0 && d.day % 10 == 2;
    assert Code(c.region) / 10 == 0 && Code(c.region) % 10 == 9;
    assert c.serial / 100 == 0 && c.serial / 10 % 10 == 0 && c.serial % 10 == 2;
    LayoutDigits(1, c.birthDate, c.region, c.serial);
  }

  /** `test_partial`, second object: female, 2001-12-12, Braila, default serial 1. */
  lemma PartialVector2(c: Cnp)
    requires c.gender == F && c.birthDate.year == 2001 && c.birthDate.month == 12 && c.birthDate.day == 12
    requires c.region == Braila && c.serial == 1 && !c.resident
    ensures WellFormed(c)
    ensures Partial(c) == Success("601121209001")
  {
    var d := c.birthDate;
    assert d.year % 100 / 10 == 0 && d.year % 100 % 10 == 1;
    assert d.month / 10 == 1 && d.month % 10 == 2;
    assert d.day / 10 == 1 && d.day % 10 == 2;
    assert Code(c.region) / 10 == 0 && Code(c.region) % 10 == 9;
    assert c.serial / 100 == 0 && c.serial / 10 % 10 == 0 && c.serial % 10 == 1;
    LayoutDigits(6, c.birthDate, c.region, c.serial);
  }

  /** The partial string of `test_full`'s first object: male, 1993-03-02,
      Iasi, serial 22. */
  lemma PartialVector3(c: Cnp)
    requires c.gender == M && c.birthDate.year == 1993 && c.birthDate.month == 3 && c.birthDate.day == 2
    requires c.region == Iasi && c.serial == 22 && !c.resident
    ensures WellFormed(c)
    ensures Partial(c) == Success("193030222022")
  {
    var d := c.birthDate;
    assert d.year % 100 / 10 == 9 && d.year % 100 % 10 == 3;
    assert d.month / 10 == 0 && d.month % 10 == 3;
    assert d.day / 10 == 0 && d.day % 10 == 2;
    assert Code(c.region) / 10 == 2 && Code(c.region) % 10 == 2;
    assert c.serial / 100 == 0 && c.serial / 10 % 10 == 2 && c.serial % 10 == 2;
    LayoutDigits(1, c.birthDate, c.region, c.serial);
  }

  /** The partial string of `test_full`'s second object: male, 2006-06-02,
      Calarasi, default serial 1. */
  lemma PartialVector4(c: Cnp)
    requires c.gender == M && c.birthDate.year == 2006 && c.birthDate.month == 6 && c.birthDate.day == 2
    requires c.region == Calarasi && c.serial == 1 && !c.resident
    ensures WellFormed(c)
    ensures Partial(c) == Success("506060251001")
  {
    var d := c.birthDate;
    assert d.year % 100 / 10 == 0 && d.year % 100 % 10 == 6;
    assert d.month / 10 == 0 && d.month % 10 == 6;
    assert d.day / 10 == 0 && d.day % 10 == 2;
    assert Code(c.region) / 10 == 5 && Code(c.region) % 10 == 1;
    assert c.serial / 100 == 0 && c.serial / 10 % 10 == 0 && c.serial % 10 == 1;
    LayoutDigits(5, c.birthDate, c.region, c.serial);
  }

  /** `test_full`, first object. */
  lemma FullVector1(c: Cnp)
    requires c.gender == M && c.birthDate.year == 1993 && c.birthDate.month == 3 && c.birthDate.day == 2
    requires c.region == Iasi && c.serial == 22 && !c.resident
    ensures WellFormed(c)
    ensures Full(c) == Success("1930302220223")
  {
    PartialVector3(c);
    CheckDigitVector4();
    assert Full(c) == WithCheckDigit("193030222022");
    assert "193030222022" + [DigitChar(3)] == "1930302220223";
  }

  /** `test_full`, second object. */
  lemma FullVector2(c: Cnp)
    requires c.gender == M && c.birthDate.year == 2006 && c.birthDate.month == 6 && c.birthDate.day == 2
    requires c.region == Calarasi && c.serial == 1 && !c.resident
    ensures WellFormed(c)
    ensures Full(c) == Success("5060602510014")
  {
    PartialVector4(c);
    CheckDigitVector1();
    assert Full(c) == WithCheckDigit("506060251001");
    assert "506060251001" + [DigitChar(4)] == "5060602510014";
  }

  lemma CheckDigitErrors()
    ensures ComputeC("245432") == Failure(WrongPartialLength)
    ensures ComputeC("61606212200q") == Failure(PartialNotDigits)
  {
    assert !IsDigit("61606212200q"[11]);
  }

  lemma GenderCodeVectors()
    ensures GenderCode(Cnp(M, Date(2001, 10, 1), Braila, 1, false)) == Success(5)
    ensures GenderCode(Cnp(F, Date(2001, 10, 1), Braila, 1, false)) == Success(6)
    ensures GenderCode(Cnp(M, Date(1993, 10, 1), Braila, 1, false)) == Success(1)
    ensures GenderCode(Cnp(F, Date(1999, 10, 1), Braila, 1, false)) == Success(2)
    ensures GenderCode(Cnp(F, Date(2001, 10, 1), Braila, 1, true)) == Success(8)
    ensures GenderCode(Cnp(M, Date(1999, 10, 1), Braila, 1, true)) == Success(7)
    ensures GenderCode(Cnp(F, Date(1700, 1, 2), Covasna, 1, false)) == Failure(YearOutOfRange)
    ensures GenderCode(Cnp(F, Date(2200, 1, 2), Covasna, 1, false)) == Failure(YearOutOfRange)
  {
  }

  /** The older lead-digit function on the same inputs, and on 1800s births. */
  lemma LegacyGenderCodeVectors()
    ensures LegacyCodec.GenderCode(Cnp(M, Date(2001, 10, 1), Braila, 1, false)) == Success(5)
    ensures LegacyCodec.GenderCode(Cnp(F, Date(1999, 10, 1), Braila, 1, false)) == Success(2)
    ensures LegacyCodec.GenderCode(Cnp(M, Date(1850, 5, 17), Arad, 1, false)) == Success(3)
    ensures LegacyCodec.GenderCode(Cnp(F, Date(1899, 12, 31), Arad, 1, false)) == Success(4)
    ensures LegacyCodec.GenderCode(Cnp(F, Date(1850, 5, 17), Arad, 1, true)) == Success(8)
    ensures LegacyCodec.GenderCode(Cnp(F, Date(1700, 1, 2), Covasna, 1, false)) == Failure(YearOutOfRange)
    ensures GenderCode(Cnp(M, Date(1850, 5, 17), Arad, 1, false)) == Failure(YearOutOfRange)
  {
  }

  lemma ConstructorVectors()
    ensures New(F, Date(2001, 10, 1), Braila, 2222, false) == Failure(SerialOutOfRange)
    ensures New(F, Date(2001, 10, 1), Braila, 0, false) == Failure(SerialOutOfRange)
    ensures New(F, Date(2001, 10, 1), Braila, 1, false).Success?
    ensures New(F, Date(2001, 10, 1), Braila, 1000, false).Success?
    ensures New(F, Date(2001, 2, 29), Braila, 1, false) == Failure(BirthDateType)
  {
  }

  /** Serial 1000 passes the constructor, and `full` then fails on the
      13-character partial string. */
  lemma Serial1000Vector()
    ensures Full(Cnp(F, Date(2001, 10, 1), Braila, 1000, false)) == Failure(WrongPartialLength)
  {
  }

  lemma IsValidVectors()
    ensures IsValid(Text("1930302220223")) == Success(true)
    ensures IsValid(Text("1930302220224")) == Success(false)
    ensures IsValid(Text("1923456")) == Success(false)
    ensures IsValid(NonText) == Success(false)
  {
    assert "1930302220223"[..12] == "193030222022";
    assert "1930302220224"[..12] == "193030222022";
    CheckDigitVector4();
  }

  /** `int()` of a last character that is not a digit raises, before the
      check digit is computed; a non-digit elsewhere raises in `compute_c`. */
  lemma IsValidRaisesVector()
    ensures IsValid(Text("193030222022x")) == Failure(NotAnInteger)
    ensures IsValid(Text("19303022202x3")) == Failure(PartialNotDigits)
  {
    assert !IsDigit("193030222022x"[12]);
    assert "19303022202x3"[..12] == "19303022202x";
    assert !IsDigit("19303022202x"[11]);
  }
}
