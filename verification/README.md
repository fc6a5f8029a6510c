# CNP codec — a Dafny model

`cnpgen` builds, validates and decodes the Romanian personal numeric code
(CNP). A CNP is 13 decimal digits:

- a lead ("gender code") digit that encodes sex, century and residency;
- the birth date as `yy mm dd`;
- a two-digit county (region) code;
- a three-digit serial;
- a check digit.

The check digit is the weighted sum of the first 12 digits modulo 11, with
the weights `2 7 9 1 4 6 3 5 8 2 7 9`. A remainder of 10 gives the digit 1.

This project models the codec of the package (`cnpgen/__init__.py`) and the
older copy of it in `main.py`, and proves what they promise:

- the partial and full strings carry the fields they were made from;
- every generated CNP passes the validity test;
- decoding a generated CNP gives the object back (a resident's birth year
  comes back as `20yy`);
- the step-by-step check-digit loop computes the functional definition;
- the two versions agree except for births in the 1800s;
- the concrete values the repository's tests expect.

Modules, one per file:

| file | module | content |
|---|---|---|
| `wrappers.dfy` | `Wrappers` | `Option` and `Result`; Python exceptions become `Failure` values |
| `decimal.dfy` | `Decimal` | ASCII digits, `int()` of a digit slice, `str(n)` and the `0>w` zero-padding |
| `calendar.dfy` | `Calendar` | dates a Python `date` can hold (proleptic Gregorian, years 1..9999) |
| `catalog.dfy` | `Catalog` | the `Gender` and `Region` enumerations, `Region(k)` lookup and `str(region)` |
| `cnp.dfy` | `CnpCodec` | the package: constructor, lead digit, `partial`, `compute_c`, `full`, `is_valid`, `parse`, `info` |
| `legacy.dfy` | `LegacyCodec` | `main.py`: its own lead-digit function and what follows from it |
| `vectors.dfy` | `CnpVectors` | the concrete cases of `tests/test_main.py` and a few boundary cases |

Each raise site that Dafny's types do not rule out is a constructor of
`CnpCodec.Error`. The type checks are listed under "## Left out".
Arguments that are not strings, as `is_valid` and `parse` accept them, are
the `NonText` case of `CnpCodec.Input`.

Where the code and its own messages or docstrings disagree, the model follows
the code:

- **Serial 1000.** The constructor's guard is `serial > 1000 or serial < 1`,
  so serial 1000 is accepted although the message says 1-999. The partial
  string is then 13 characters long and `full` fails in `compute_c` with the
  length error (`CnpVectors.Serial1000Vector`).
- **`is_valid` can raise.** It is documented to return a boolean. On a
  13-character string holding a non-digit it raises: from `int()` when the
  last character is not a digit (`NotAnInteger`), and from `compute_c`
  otherwise (`PartialNotDigits`).
- **Lead digits 3 and 4.** `parse` does not decode them, nor 0 or 9. These
  fall to `Gender(l - 4)`, which has no member for them. So the 1800s CNPs
  that `main.py` writes are rejected by the package's `parse`
  (`LegacyCodec.ParseRejects1800s`).
- **No 1800s in the package.** The package's `get_gender_code` has no
  1800..1899 branch. Its error message names the range 1900-2099, and a
  non-resident born in the 1800s is refused.

`main.py` repeats the package's region table, constructor (67-89),
`compute_c` (137-159) and `is_valid` (161-173) nearly verbatim. Its two
small differences are listed under "## Left out": its constructor asks for a
`datetime`, and its sector members are spelled differently. Neither changes
what reaches the codec, so `CnpCodec.New`, `CnpCodec.ComputeC` and
`CnpCodec.IsValid` model both files. `LegacyCodec` uses them and models only
what `main.py` does differently: the lead digit, and the `partial` and `full`
built on it.

## Model

| member | source | states |
|---|---|---|
| Catalog.GenderOf | cnpgen/__init__.py:5-7 | `Gender(v)` finds a member exactly for v = 1 and v = 2, and the member found has value v |
| Catalog.Code | cnpgen/__init__.py:11-58 | every member's value is one of the catalog codes 1..46, 51 and 52 |
| Catalog.RegionOf | cnpgen/__init__.py:10-58 | `Region(k)` finds a member exactly for k in 1..46, 51 and 52, and the member's value is k; every other k (47..50 among them) raises |
| Catalog.RegionOfCode | cnpgen/__init__.py:10-58 | looking up a member's own value gives that member back, so the 48 values are pairwise distinct |
| Catalog.DisplayName | cnpgen/__init__.py:60-62 | `str(region)` contains no underscore, and each of its characters comes from the member name or is a space or a hyphen; a name without underscores is shown unchanged |
| Catalog.ReplaceSingleChar | cnpgen/__init__.py:61 | `str.replace` with a one-character pattern equals the position-by-position character map |
| Catalog.TwoPassesAreOneScan | cnpgen/__init__.py:61 | replacing "__" by a space and then "_" by "-" equals one left-to-right scan that reads "__" as a space and a lone "_" as a hyphen |
| Catalog.DisplayNameIsNormalize | cnpgen/__init__.py:60-62 | `str(region)` equals that one-scan reference definition applied to the member name |
| Catalog.DisplayNameExamples | cnpgen/__init__.py:32 | `str(Region.Iasi)` is "Iasi" |
| Decimal.Field | cnpgen/__init__.py:236-237 | `int()` of a slice of j - i digits, leading zeros allowed, is below 10^(j-i) |
| Decimal.NatToString | cnpgen/__init__.py:143 | `str(n)` is a non-empty run of digits with no leading zero, and `int()` reads it back as n |
| Decimal.NatToStringLength | cnpgen/__init__.py:143 | `str(n)` fits in w characters exactly when n < 10^w |
| Decimal.ZeroPad | cnpgen/__init__.py:147-148 | `f"{n:0>w}"` is all digits, at least w long, reads back as n, is exactly w long iff n < 10^w, and is never truncated |
| Decimal.ZeroPadTwoDigits | cnpgen/__init__.py:144-147 | a number below 100 padded to two places (`%y`, `%m`, `%d`, the region code) is its tens digit followed by its units digit |
| Decimal.ZeroPadThreeDigits | cnpgen/__init__.py:148 | a serial below 1000 padded to three places is its hundreds, tens and units digits |
| Calendar.DaysInMonth | cnpgen/__init__.py:235 | a month has 28 to 31 days, and 29 exactly in February of a Gregorian leap year; this is the check `strptime` and `date` apply |
| Calendar.ResidentYearKeepsDate | cnpgen/__init__.py:228-235 | moving a valid birth date to the year `20yy`, as `parse` does for a resident, keeps it a valid date, 29 February included |
| CnpCodec.New | cnpgen/__init__.py:69-105 | the constructor succeeds exactly for a real date and 1 <= serial <= 1000 (1000 included), storing the fields unchanged; otherwise it raises the date error first, then the serial error |
| CnpCodec.GenderCode | cnpgen/__init__.py:113-133 | the lead digit is one of 1, 2, 5, 6, 7, 8; it is even exactly for F and >= 7 exactly for a resident; a non-resident gets <= 2 exactly when born up to 1999; it fails exactly for a non-resident born outside 1900..2099 |
| CnpCodec.Layout | cnpgen/__init__.py:142-149 | the joined fields are all digits and at least 12 characters long; the length is exactly 12 iff serial < 1000, and 13 for serial 1000 |
| CnpCodec.LayoutFields | cnpgen/__init__.py:142-149 | reading the joined string back as `parse` slices it gives the lead digit, yy, month, day, region code and serial that were put in |
| CnpCodec.LayoutDigits | cnpgen/__init__.py:142-149 | for serial < 1000 the 12 characters are, in order: lead, yy tens/units, month tens/units, day tens/units, region tens/units, serial hundreds/tens/units |
| CnpCodec.Partial | cnpgen/__init__.py:135-149 | `partial` fails exactly when the lead digit does, with its error; otherwise it is the layout behind that lead digit, 12 digits for serial <= 999 and 13 for serial 1000 |
| CnpCodec.PartialFields | cnpgen/__init__.py:142-149 | every field of a successful partial string reads back as the value the object holds |
| CnpCodec.ComputeC | cnpgen/__init__.py:160-186 | `compute_c` checks the length first, then the digits; it succeeds exactly on 12 digits, returning a digit below 10 given by the weighted mod-11 rule |
| CnpCodec.CheckDigitOf | cnpgen/__init__.py:181-186 | the check digit is below 10: the weighted sum's remainder mod 11 when that is below 10, and 1 when it is 10 |
| CnpCodec.DigitsOf | cnpgen/__init__.py:175 | the digit filter keeps every character exactly when all are digits, and then maps each one to its value |
| CnpCodec.ComputeCheckDigit | cnpgen/__init__.py:172-186 | the step-by-step version (filter, compare counts, accumulate weighted products, take mod 11 with 10 mapped to 1) returns exactly the functional `compute_c`, errors included |
| CnpCodec.IsValid | cnpgen/__init__.py:188-201 | a non-string or a wrong length gives false; 13 characters raise iff one is not a digit; true exactly for 13 digits whose last digit is the check digit of the first 12 |
| CnpCodec.CheckDigitUnique | cnpgen/__init__.py:197-201 | for 12 digits, exactly one final digit passes `is_valid`: the one `compute_c` gives |
| CnpCodec.WithCheckDigit | cnpgen/__init__.py:158 | appending `compute_c` succeeds exactly on 12 digits, with `compute_c`'s error otherwise; the result is 13 digits whose first 12 are the input and whose last is the check digit |
| CnpCodec.WithCheckDigitIsValid | cnpgen/__init__.py:158 | a partial string with its check digit appended passes `is_valid` |
| CnpCodec.Full | cnpgen/__init__.py:151-158 | `full` succeeds exactly when the lead digit does and serial <= 999; serial 1000 gives the length error; the result is 13 digits, `partial` followed by its check digit |
| CnpCodec.FullIsValid | cnpgen/__init__.py:151-158 | every string `full` produces passes `is_valid` |
| CnpCodec.FullFields | cnpgen/__init__.py:151-158 | every field of `full` reads back as the object's value; the check digit only follows them |
| CnpCodec.DecodeLead | cnpgen/__init__.py:224-234 | the lead digit decodes exactly for 1, 2, 5, 6, 7, 8; odd means M; resident exactly for 7 and 8; any other digit l fails as `Gender(l - 4)` |
| CnpCodec.DecodeLeadOfGenderCode | cnpgen/__init__.py:224-234 | decoding a lead digit `get_gender_code` produced gives back the gender and resident flag it was made from |
| CnpCodec.EraYear | cnpgen/__init__.py:224-235 | for a non-resident born 1900..2099, the century the lead digit selects plus yy is the birth year |
| CnpCodec.Decode | cnpgen/__init__.py:224-247 | on 13 digits, decoding succeeds exactly when the lead digit decodes, the date is real and the region code exists, and fails in that order with the matching error; the result holds the fields the string carries |
| CnpCodec.Parse | cnpgen/__init__.py:203-249 | `parse` passes `is_valid`'s own exception through, raises the invalid-CNP error when the test is false, and otherwise decodes; every success passed the validity test |
| CnpCodec.ParseFull | cnpgen/__init__.py:223-247 | for a non-resident born 1900..2099 with serial <= 999, `parse(full)` gives back gender, day, month, year, region and serial, with resident false |
| CnpCodec.ParseFullResident | cnpgen/__init__.py:228-235 | for a resident with serial <= 999, `parse(full)` gives back every field except that the year becomes `2000 + year % 100` |
| CnpCodec.SameFieldsSameCnp | cnpgen/__init__.py:197-201 | two strings that pass `is_valid` and carry the same lead digit and the same yy, month, day, region and serial fields are equal, because the check digit is fixed by the other twelve |
| CnpCodec.FullOfParse | cnpgen/__init__.py:223-247 | a string `parse` accepts whose serial is at least 1 is exactly the `full` of the object built from the decoded gender, date, region, serial and resident flag, so decoding loses nothing |
| CnpCodec.Info | cnpgen/__init__.py:251-267 | `info` fails exactly when `parse` does, with the same error; otherwise it is the CNP line followed by the labelled gender, year, month, day and region lines of the decoded data |
| LegacyCodec.GenderCode | main.py:91-112 | this version's lead digit is 1..8; even exactly for F; >= 7 exactly for a resident; 3 or 4 exactly for a non-resident born 1800..1899; 5 or 6 exactly for one born from 2000; it fails exactly for a non-resident born outside 1800..2099 |
| LegacyCodec.GenderCodeAgrees | main.py:98-107 | the two lead-digit functions agree exactly outside the 1800s non-resident case; inside it this one succeeds and the package's fails |
| LegacyCodec.Partial | main.py:114-127 | this version's `partial` fails exactly when its lead digit does; otherwise it is the shared layout behind that digit, 12 digits iff serial <= 999 |
| LegacyCodec.PartialFields | main.py:120-127 | every field reads back as the object's value, and the lead digit is 3 or 4 exactly for an 1800s non-resident birth |
| LegacyCodec.Full | main.py:129-135 | this version's `full` succeeds exactly when its lead digit does and serial <= 999; it is its `partial` followed by the check digit |
| LegacyCodec.FullIsValid | main.py:135 | every string this version's `full` produces passes `is_valid`, 1800s births included |
| LegacyCodec.SameOutput | main.py:98-135 | outside the 1800s non-resident case, both versions produce the same `partial` and `full` |
| LegacyCodec.ParseRejects1800s | cnpgen/__init__.py:232-233 | the package's `parse` of an 1800s CNP written by `main.py` fails with `Gender(l - 4)` for its lead digit l |
| CnpVectors.PartialVector1 | tests/test_main.py:69-83 | male, 1993-08-02, Braila, serial 2 gives partial "193080209002" |
| CnpVectors.PartialVector2 | tests/test_main.py:85-99 | female, 2001-12-12, Braila, serial 1 gives partial "601121209001" |
| CnpVectors.PartialVector3 | tests/test_main.py:114-116 | male, 1993-03-02, Iasi, serial 22 gives partial "193030222022" |
| CnpVectors.PartialVector4 | tests/test_main.py:117-118 | male, 2006-06-02, Calarasi, serial 1 gives partial "506060251001" |
| CnpVectors.FullVector1 | tests/test_main.py:114-116 | male, 1993-03-02, Iasi, serial 22 gives full "1930302220223" |
| CnpVectors.FullVector2 | tests/test_main.py:117-118 | male, 2006-06-02, Calarasi, serial 1 gives full "5060602510014" |
| CnpVectors.CheckDigitVector1 | tests/test_main.py:102 | `compute_c("506060251001")` is 4 |
| CnpVectors.CheckDigitVector2 | tests/test_main.py:103 | `compute_c("616062122001")` is 4 |
| CnpVectors.CheckDigitVector3 | tests/test_main.py:111 | `compute_c("001100000000")` is 1, from remainder 10 |
| CnpVectors.CheckDigitVector4 | tests/test_main.py:116 | `compute_c("193030222022")` is 3 |
| CnpVectors.CheckDigitErrors | tests/test_main.py:105-109 | a six-character partial gives the length error; a 12-character one ending in "q" gives the digits error |
| CnpVectors.GenderCodeVectors | tests/test_main.py:40-66 | the lead digits 5, 6, 1, 2, 8, 7 of the test objects, and the error for 1700 and 2200 |
| CnpVectors.LegacyGenderCodeVectors | main.py:98-112 | this version gives 3 for a male and 4 for a female non-resident born in the 1800s, where the package gives the year error; it gives 8 for a resident born in 1850 |
| CnpVectors.ConstructorVectors | tests/test_main.py:16-38 | serials 2222 and 0 raise; serials 1 and 1000 are accepted; 2001-02-29 is not a date |
| CnpVectors.Serial1000Vector | cnpgen/__init__.py:95-96 | an object accepted with serial 1000 makes `full` fail with the partial-length error |
| CnpVectors.IsValidVectors | tests/test_main.py:120-125 | the test CNP is valid; a wrong last digit, a short string and a non-string are not |
| CnpVectors.IsValidRaisesVector | cnpgen/__init__.py:197-199 | on 13 characters, a non-digit last character raises from `int()`, and a non-digit among the first 12 raises from `compute_c` |

## Left out

- `cnpgen/__main__.py` and `setup.py`: the command-line wrapper and packaging. They do I/O only.
- `Cnp.__str__` and `Cnp.__repr__` (`cnpgen/__init__.py:107-111`) only format `full`, which is modelled.
- `Generator` and the `__main__` block of `main.py` (177-183): an empty class and a print.
- The `isinstance` checks on gender, region and resident: Dafny's types rule out the wrong types. The same goes for a non-integer serial (the `'223'` test case) and a non-string argument to `compute_c`.
- The date `isinstance` check is modelled as "a real calendar date" (`BirthDateType`), because a Python `date` object cannot hold anything else.
- Default arguments (serial 1, not resident): callers pass every field explicitly.
- The constructor of `main.py` checks for a `datetime` (main.py:73) where the package accepts any `date` (cnpgen/__init__.py:89). `CnpCodec.New` stands for both, because only year, month and day are ever read.
- `main.py` spells the sector members `Bucuresti_Sector__N` (main.py:51-56) where the package has `Bucuresti__Sector__N`. The name is never read in `main.py`, which has no `__str__` and no `info`, so only the values matter, and those are the same.
- The time of day of a `datetime`: only year, month and day reach the code.
- Non-ASCII digits: `str.isdigit` and `int` accept other Unicode decimal digits. The model treats only '0'..'9' as digits.
- `strptime` is not modelled character by character. `parse` hands it the century followed by six digits, and `strptime` then succeeds exactly when month and day form a real date. That is what `CnpCodec.Decode` checks.
- Catalog.DisplayNameExamples: checks only `Iasi`. Concrete names with underscores cost too much to evaluate; `Catalog.DisplayNameIsNormalize` covers them in general.
