/** The older copy of the codec in `main.py`. It shares the object, the
    layout, the check digit and the validity test with the package, and adds a
    lead digit 3/4 for non-residents born 1800..1899. It has no decoder. */
module LegacyCodec {

  import opened Wrappers
  import opened Decimal
  import opened Calendar
  import opened Catalog
  import CnpCodec

  /** The 1800s non-resident case, the only one where the two versions differ. */
  predicate Born1800s(c: CnpCodec.Cnp) {
    !c.resident && 1800 <= c.birthDate.year <= 1899
  }

  /** `get_gender_code` of `main.py`: 7 for a resident, otherwise 1 for
      1900..1999, 3 for 1800..1899 and 5 for 2000..2099, plus one for a woman. */
  function GenderCode(c: CnpCodec.Cnp): (r: Result<nat, CnpCodec.Error>)
    ensures r.Failure? <==> !c.resident && (c.birthDate.year < 1800 || c.birthDate.year > 2099)
    ensures r.Failure? ==> r.error == CnpCodec.YearOutOfRange
    ensures r.Success? ==> 1 <= r.value <= 8
    ensures r.Success? ==> (r.value % 2 == 0 <==> c.gender == F)
    ensures r.Success? ==> (r.value >= 7 <==> c.resident)
    ensures r.Success? ==> (r.value == 3 || r.value == 4 <==> Born1800s(c))
    ensures r.Success? && !c.resident ==> (r.value <= 2 <==> 1900 <= c.birthDate.year <= 1999)
    ensures r.Success? && !c.resident ==> (r.value == 5 || r.value == 6 <==> 2000 <= c.birthDate.year)
  {
    var base: Result<nat, CnpCodec.Error> :=
      if c.resident then Success(7)
      else if 1900 <= c.birthDate.year <= 1999 then Success(1)
      else if 1800 <= c.birthDate.year <= 1899 then Success(3)
      else if 2000 <= c.birthDate.year <= 2099 then Success(5)
      else Failure(CnpCodec.YearOutOfRange);
    var b :- base;
    Success(b + CnpCodec.FemaleOffset(c.gender))
  }

  /** The two lead-digit functions agree exactly outside the 1800s
      non-resident case; inside it the package fails and this one does not. */
  lemma GenderCodeAgrees(c: CnpCodec.Cnp)
    ensures GenderCode(c) == CnpCodec.GenderCode(c) <==> !Born1800s(c)
    ensures Born1800s(c) ==> GenderCode(c).Success? && CnpCodec.GenderCode(c).Failure?
  {
  }

  /** `partial` of `main.py`: the shared layout behind this version's lead digit. */
  function Partial(c: CnpCodec.Cnp): (r: Result<string, CnpCodec.Error>)
    requires CnpCodec.WellFormed(c)
    ensures r.Success? <==> GenderCode(c).Success?
    ensures r.Failure? ==> r.error == CnpCodec.YearOutOfRange
    ensures r.Success? ==> r.value == CnpCodec.Layout(GenderCode(c).value, c.birthDate, c.region, c.serial)
    ensures r.Success? ==> |r.value| >= CnpCodec.PartialLength && AllDigits(r.value)
    ensures r.Success? ==> (|r.value| == CnpCodec.PartialLength <==> c.serial <= 999)
  {
    var lead :- GenderCode(c);
    Success(CnpCodec.Layout(lead, c.birthDate, c.region, c.serial))
  }

  /** Every field of a successful partial string reads back as the value the
      object holds; an 1800s birth shows as lead digit 3 or 4. */
  lemma PartialFields(c: CnpCodec.Cnp)
    requires CnpCodec.WellFormed(c) && Partial(c).Success?
    ensures CnpCodec.HasLayout(Partial(c).value, GenderCode(c).value, c.birthDate, c.region, c.serial)
    ensures Born1800s(c) <==> DigitValue(Partial(c).value[0]) == 3 || DigitValue(Partial(c).value[0]) == 4
  {
    CnpCodec.LayoutFields(GenderCode(c).value, c.birthDate, c.region, c.serial);
  }

  /** `full` of `main.py`: the partial string followed by its check digit. */
  function Full(c: CnpCodec.Cnp): (r: Result<string, CnpCodec.Error>)
    requires CnpCodec.WellFormed(c)
    ensures r.Success? <==> GenderCode(c).Success? && c.serial <= 999
    ensures GenderCode(c).Failure? ==> r == Failure(CnpCodec.YearOutOfRange)
    ensures GenderCode(c).Success? && c.serial == 1000 ==> r == Failure(CnpCodec.WrongPartialLength)
    ensures r.Success? ==> |r.value| == CnpCodec.CnpLength && AllDigits(r.value)
    ensures r.Success? ==> r.value[..CnpCodec.PartialLength] == Partial(c).value
    ensures r.Success? ==>
      DigitValue(r.value[CnpCodec.PartialLength]) == CnpCodec.ComputeC(Partial(c).value).value
  {
    var p :- Partial(c);
    CnpCodec.WithCheckDigit(p)
  }

  /** Every string this `full` produces passes `is_valid`, the 1800s ones
      included. */
  lemma FullIsValid(c: CnpCodec.Cnp)
    requires CnpCodec.WellFormed(c) && Full(c).Success?
    ensures CnpCodec.IsValid(CnpCodec.Text(Full(c).value)) == Success(true)
  {
    CnpCodec.WithCheckDigitIsValid(Partial(c).value);
  }

  /** Outside the 1800s non-resident case both versions build the same
      partial and full strings. */
  lemma SameOutput(c: CnpCodec.Cnp)
    requires CnpCodec.WellFormed(c) && !Born1800s(c)
    ensures Partial(c) == CnpCodec.Partial(c)
    ensures Full(c) == CnpCodec.Full(c)
  {
    GenderCodeAgrees(c);
  }

  /** The package cannot read back what this version writes for an 1800s
      birth: `parse` of the full string fails on the lead digit 3 or 4. */
  lemma ParseRejects1800s(c: CnpCodec.Cnp)
    requires CnpCodec.WellFormed(c) && Born1800s(c) && c.serial <= 999
    ensures Full(c).Success?
    ensures CnpCodec.Parse(CnpCodec.Text(Full(c).value)) ==
      Failure(CnpCodec.UnknownGender(GenderCode(c).value - 4))
  {
    var p := Partial(c).value;
    var l := GenderCode(c).value;
    PartialFields(c);
    FullIsValid(c);
    var s := Full(c).value;
    assert s[0] == p[0] by { assert s[..CnpCodec.PartialLength] == p; }
    assert !CnpCodec.DecodableLead(DigitValue(s[0]));
  }
}
