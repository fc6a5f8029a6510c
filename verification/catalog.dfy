/** The closed catalogs of the codec: the gender enumeration and the table of
    birth regions with their fixed two-digit codes. */
module Catalog {

  import opened Wrappers

  /** Python `Gender`: M = 1, F = 2. */
  datatype Gender = M | F

  function GenderValue(g: Gender): (v: int)
    ensures v == 1 || v == 2
  {
    match g
    case M => 1
    case F => 2
  }

  /** `Gender(v)`: the member with value `v`, if any. */
  function GenderOf(v: int): (r: Option<Gender>)
    ensures r.Some? <==> v == 1 || v == 2
    ensures r.Some? ==> GenderValue(r.value) == v
  {
    if v == 1 then Some(M) else if v == 2 then Some(F) else None
  }

  /** The 48 members of Python `Region`. */
  datatype Region =
    | Alba
    | Arad
    | Arges
    | Bacau
    | Bihor
    | BistritaNasaud
    | Botosani
    | Brasov
    | Braila
    | Buzau
    | CarasSeverin
    | Cluj
    | Constanta
    | Covasna
    | Dambovita
    | Dolj
    | Galati
    | Gorj
    | Hargita
    | Hunedoara
    | Ialomita
    | Iasi
    | Ilfov
    | Maramures
    | Mehedinti
    | Mures
    | Neamt
    | Olt
    | Prahova
    | SatuMare
    | Salaj
    | Sibiu
    | Suceava
    | Teleorman
    | Timis
    | Tulcea
    | Vaslui
    | Valcea
    | Vrancea
    | Bucuresti
    | BucurestiSector1
    | BucurestiSector2
    | BucurestiSector3
    | BucurestiSector4
    | BucurestiSector5
    | BucurestiSector6
    | Calarasi
    | Giurgiu

  /** The codes the catalog uses: 1 to 46, 51 and 52. */
  predicate IsRegionCode(k: int) {
    1 <= k <= 46 || k == 51 || k == 52
  }

  /** `region.value`. */
  function Code(r: Region): (k: int)
    ensures IsRegionCode(k)
  {
    match r
    case Alba => 1
    case Arad => 2
    case Arges => 3
    case Bacau => 4
    case Bihor => 5
    case BistritaNasaud => 6
    case Botosani => 7
    case Brasov => 8
    case Braila => 9
    case Buzau => 10
    case CarasSeverin => 11
    case Cluj => 12
    case Constanta => 13
    case Covasna => 14
    case Dambovita => 15
    case Dolj => 16
    case Galati => 17
    case Gorj => 18
    case Hargita => 19
    case Hunedoara => 20
    case Ialomita => 21
    case Iasi => 22
    case Ilfov => 23
    case Maramures => 24
    case Mehedinti => 25
    case Mures => 26
    case Neamt => 27
    case Olt => 28
    case Prahova => 29
    case SatuMare => 30
    case Salaj => 31
    case Sibiu => 32
    case Suceava => 33
    case Teleorman => 34
    case Timis => 35
    case Tulcea => 36
    case Vaslui => 37
    case Valcea => 38
    case Vrancea => 39
    case Bucuresti => 40
    case BucurestiSector1 => 41
    case BucurestiSector2 => 42
    case BucurestiSector3 => 43
    case BucurestiSector4 => 44
    case BucurestiSector5 => 45
    case BucurestiSector6 => 46
    case Calarasi => 51
    case Giurgiu => 52
  }

  /** `Region(k)`: the member whose value is `k`; `None` where Python raises
      `ValueError`. */
  function RegionOf(k: int): (r: Option<Region>)
    ensures r.Some? <==> IsRegionCode(k)
    ensures r.Some? ==> Code(r.value) == k
  {
    if k <= 6 then RegionOf1To6(k)
    else if k <= 12 then RegionOf7To12(k)
    else if k <= 18 then RegionOf13To18(k)
    else if k <= 24 then RegionOf19To24(k)
    else if k <= 30 then RegionOf25To30(k)
    else if k <= 36 then RegionOf31To36(k)
    else if k <= 42 then RegionOf37To42(k)
    else RegionOf43To52(k)
  }

  /** The members with codes 1 to 6. */
  function RegionOf1To6(k: int): (r: Option<Region>)
    ensures r.Some? <==> 1 <= k <= 6
    ensures r.Some? ==> Code(r.value) == k
  {
    match k
    case 1 => Some(Alba)
    case 2 => Some(Arad)
    case 3 => Some(Arges)
    case 4 => Some(Bacau)
    case 5 => Some(Bihor)
    case 6 => Some(BistritaNasaud)
    case _ => None
  }

  /** The members with codes 7 to 12. */
  function RegionOf7To12(k: int): (r: Option<Region>)
    ensures r.Some? <==> 7 <= k <= 12
    ensures r.Some? ==> Code(r.value) == k
  {
    match k
    case 7 => Some(Botosani)
    case 8 => Some(Brasov)
    case 9 => Some(Braila)
    case 10 => Some(Buzau)
    case 11 => Some(CarasSeverin)
    case 12 => Some(Cluj)
    case _ => None
  }

  /** The members with codes 13 to 18. */
  function RegionOf13To18(k: int): (r: Option<Region>)
    ensures r.Some? <==> 13 <= k <= 18
    ensures r.Some? ==> Code(r.value) == k
  {
    match k
    case 13 => Some(Constanta)
    case 14 => Some(Covasna)
    case 15 => Some(Dambovita)
    case 16 => Some(Dolj)
    case 17 => Some(Galati)
    case 18 => Some(Gorj)
    case _ => None
  }

  /** The members with codes 19 to 24. */
  function RegionOf19To24(k: int): (r: Option<Region>)
    ensures r.Some? <==> 19 <= k <= 24
    ensures r.Some? ==> Code(r.value) == k
  {
    match k
    case 19 => Some(Hargita)
    case 20 => Some(Hunedoara)
    case 21 => Some(Ialomita)
    case 22 => Some(Iasi)
    case 23 => Some(Ilfov)
    case 24 => Some(Maramures)
    case _ => None
  }

  /** The members with codes 25 to 30. */
  function RegionOf25To30(k: int): (r: Option<Region>)
    ensures r.Some? <==> 25 <= k <= 30
    ensures r.Some? ==> Code(r.value) == k
  {
    match k
    case 25 => Some(Mehedinti)
    case 26 => Some(Mures)
    case 27 => Some(Neamt)
    case 28 => Some(Olt)
    case 29 => Some(Prahova)
    case 30 => Some(SatuMare)
    case _ => None
  }

  /** The members with codes 31 to 36. */
  function RegionOf31To36(k: int): (r: Option<Region>)
    ensures r.Some? <==> 31 <= k <= 36
    ensures r.Some? ==> Code(r.value) == k
  {
    match k
    case 31 => Some(Salaj)
    case 32 => Some(Sibiu)
    case 33 => Some(Suceava)
    case 34 => Some(Teleorman)
    case 35 => Some(Timis)
    case 36 => Some(Tulcea)
    case _ => None
  }

  /** The members with codes 37 to 42. */
  function RegionOf37To42(k: int): (r: Option<Region>)
    ensures r.Some? <==> 37 <= k <= 42
    ensures r.Some? ==> Code(r.value) == k
  {
    match k
    case 37 => Some(Vaslui)
    case 38 => Some(Valcea)
    case 39 => Some(Vrancea)
    case 40 => Some(Bucuresti)
    case 41 => Some(BucurestiSector1)
    case 42 => Some(BucurestiSector2)
    case _ => None
  }

  /** The members with codes 43, 44, 45, 46, 51 and 52. */
  function RegionOf43To52(k: int): (r: Option<Region>)
    ensures r.Some? <==> k == 43 || k == 44 || k == 45 || k == 46 || k == 51 || k == 52
    ensures r.Some? ==> Code(r.value) == k
  {
    match k
    case 43 => Some(BucurestiSector3)
    case 44 => Some(BucurestiSector4)
    case 45 => Some(BucurestiSector5)
    case 46 => Some(BucurestiSector6)
    case 51 => Some(Calarasi)
    case 52 => Some(Giurgiu)
    case _ => None
  }

  /** Looking up a member's own code gives the member back, so no two members
      share a code. */
  lemma RegionOfCode(r: Region)
    ensures RegionOf(Code(r)) == Some(r)
  {
    match r
    case Alba => assert RegionOf(1) == RegionOf1To6(1);
    case Arad => assert RegionOf(2) == RegionOf1To6(2);
    case Arges => assert RegionOf(3) == RegionOf1To6(3);
    case Bacau => assert RegionOf(4) == RegionOf1To6(4);
    case Bihor => assert RegionOf(5) == RegionOf1To6(5);
    case BistritaNasaud => assert RegionOf(6) == RegionOf1To6(6);
    case Botosani => assert RegionOf(7) == RegionOf7To12(7);
    case Brasov => assert RegionOf(8) == RegionOf7To12(8);
    case Braila => assert RegionOf(9) == RegionOf7To12(9);
    case Buzau => assert RegionOf(10) == RegionOf7To12(10);
    case CarasSeverin => assert RegionOf(11) == RegionOf7To12(11);
    case Cluj => assert RegionOf(12) == RegionOf7To12(12);
    case Constanta => assert RegionOf(13) == RegionOf13To18(13);
    case Covasna => assert RegionOf(14) == RegionOf13To18(14);
    case Dambovita => assert RegionOf(15) == RegionOf13To18(15);
    case Dolj => assert RegionOf(16) == RegionOf13To18(16);
    case Galati => assert RegionOf(17) == RegionOf13To18(17);
    case Gorj => assert RegionOf(18) == RegionOf13To18(18);
    case Hargita => assert RegionOf(19) == RegionOf19To24(19);
    case Hunedoara => assert RegionOf(20) == RegionOf19To24(20);
    case Ialomita => assert RegionOf(21) == RegionOf19To24(21);
    case Iasi => assert RegionOf(22) == RegionOf19To24(22);
    case Ilfov => assert RegionOf(23) == RegionOf19To24(23);
    case Maramures => assert RegionOf(24) == RegionOf19To24(24);
    case Mehedinti => assert RegionOf(25) == RegionOf25To30(25);
    case Mures => assert RegionOf(26) == RegionOf25To30(26);
    case Neamt => assert RegionOf(27) == RegionOf25To30(27);
    case Olt => assert RegionOf(28) == RegionOf25To30(28);
    case Prahova => assert RegionOf(29) == RegionOf25To30(29);
    case SatuMare => assert RegionOf(30) == RegionOf25To30(30);
    case Salaj => assert RegionOf(31) == RegionOf31To36(31);
    case Sibiu => assert RegionOf(32) == RegionOf31To36(32);
    case Suceava => assert RegionOf(33) == RegionOf31To36(33);
    case Teleorman => assert RegionOf(34) == RegionOf31To36(34);
    case Timis => assert RegionOf(35) == RegionOf31To36(35);
    case Tulcea => assert RegionOf(36) == RegionOf31To36(36);
    case Vaslui => assert RegionOf(37) == RegionOf37To42(37);
    case Valcea => assert RegionOf(38) == RegionOf37To42(38);
    case Vrancea => assert RegionOf(39) == RegionOf37To42(39);
    case Bucuresti => assert RegionOf(40) == RegionOf37To42(40);
    case BucurestiSector1 => assert RegionOf(41) == RegionOf37To42(41);
    case BucurestiSector2 => assert RegionOf(42) == RegionOf37To42(42);
    case BucurestiSector3 => assert RegionOf(43) == RegionOf43To52(43);
    case BucurestiSector4 => assert RegionOf(44) == RegionOf43To52(44);
    case BucurestiSector5 => assert RegionOf(45) == RegionOf43To52(45);
    case BucurestiSector6 => assert RegionOf(46) == RegionOf43To52(46);
    case Calarasi => assert RegionOf(51) == RegionOf43To52(51);
    case Giurgiu => assert RegionOf(52) == RegionOf43To52(52);
  }

  /** `region.name`, the Python member identifier. */
  function Name(r: Region): string {
    match r
    case Alba => "Alba"
    case Arad => "Arad"
    case Arges => "Arges"
    case Bacau => "Bacau"
    case Bihor => "Bihor"
    case BistritaNasaud => "Bistrita_Nasaud"
    case Botosani => "Botosani"
    case Brasov => "Brasov"
    case Braila => "Braila"
    case Buzau => "Buzau"
    case CarasSeverin => "Caras_Severin"
    case Cluj => "Cluj"
    case Constanta => "Constanta"
    case Covasna => "Covasna"
    case Dambovita => "Dambovita"
    case Dolj => "Dolj"
    case Galati => "Galati"
    case Gorj => "Gorj"
    case Hargita => "Hargita"
    case Hunedoara => "Hunedoara"
    case Ialomita => "Ialomita"
    case Iasi => "Iasi"
    case Ilfov => "Ilfov"
    case Maramures => "Maramures"
    case Mehedinti => "Mehedinti"
    case Mures => "Mures"
    case Neamt => "Neamt"
    case Olt => "Olt"
    case Prahova => "Prahova"
    case SatuMare => "Satu_Mare"
    case Salaj => "Salaj"
    case Sibiu => "Sibiu"
    case Suceava => "Suceava"
    case Teleorman => "Teleorman"
    case Timis => "Timis"
    case Tulcea => "Tulcea"
    case Vaslui => "Vaslui"
    case Valcea => "Valcea"
    case Vrancea => "Vrancea"
    case Bucuresti => "Bucuresti"
    case BucurestiSector1 => "Bucuresti__Sector__1"
    case BucurestiSector2 => "Bucuresti__Sector__2"
    case BucurestiSector3 => "Bucuresti__Sector__3"
    case BucurestiSector4 => "Bucuresti__Sector__4"
    case BucurestiSector5 => "Bucuresti__Sector__5"
    case BucurestiSector6 => "Bucuresti__Sector__6"
    case Calarasi => "Calarasi"
    case Giurgiu => "Giurgiu"
  }

  /** Python `s.replace(pat, rep)`: every non-overlapping occurrence of `pat`,
      found scanning left to right, is replaced by `rep`. */
  function Replace(s: string, pat: string, rep: string): (r: string)
    requires |pat| > 0
    decreases |s|
  {
    if |s| < |pat| then s
    else if s[..|pat|] == pat then rep + Replace(s[|pat|..], pat, rep)
    else [s[0]] + Replace(s[1..], pat, rep)
  }

  /** Reference definition of a one-character replacement: position by position. */
  function MapChar(s: string, c: char, d: char): (r: string)
    ensures |r| == |s|
    ensures forall i :: 0 <= i < |s| ==> r[i] == if s[i] == c then d else s[i]
  {
    seq(|s|, i requires 0 <= i < |s| => if s[i] == c then d else s[i])
  }

  /** Replacing a single character agrees with the position-by-position map. */
  lemma {:induction false} ReplaceSingleChar(s: string, c: char, d: char)
    ensures Replace(s, [c], [d]) == MapChar(s, c, d)
    decreases |s|
  {
    if |s| >= 1 {
      ReplaceSingleChar(s[1..], c, d);
      if s[..1] == [c] {
        assert s[0] == c;
      } else {
        assert s[0] != c;
      }
    }
  }

  /** A pattern whose first character never occurs is never replaced. */
  lemma {:induction false} ReplaceAbsent(s: string, pat: string, rep: string)
    requires |pat| > 0
    ensures pat[0] !in s ==> Replace(s, pat, rep) == s
    decreases |s|
  {
    if pat[0] !in s && |s| >= |pat| {
      assert s[..|pat|][0] == s[0];
      ReplaceAbsent(s[1..], pat, rep);
    }
  }

  /** Every character of a replacement comes from the input or from `rep`. */
  lemma {:induction false} ReplaceChars(s: string, pat: string, rep: string)
    requires |pat| > 0
    ensures forall x :: x in Replace(s, pat, rep) ==> x in s || x in rep
    decreases |s|
  {
    if |s| >= |pat| {
      if s[..|pat|] == pat {
        ReplaceChars(s[|pat|..], pat, rep);
        forall x | x in s[|pat|..] ensures x in s {
          var i :| 0 <= i < |s[|pat|..]| && s[|pat|..][i] == x;
          assert s[|pat| + i] == x;
        }
      } else {
        ReplaceChars(s[1..], pat, rep);
        forall x | x in s[1..] ensures x in s {
          var i :| 0 <= i < |s[1..]| && s[1..][i] == x;
          assert s[1 + i] == x;
        }
      }
    }
  }

  /** `str(region)`: the member name with "__" read as a space and "_" as a
      hyphen. */
  function DisplayName(r: Region): (s: string)
    ensures '_' !in s
    ensures forall x :: x in s ==> x in Name(r) || x == ' ' || x == '-'
    ensures '_' !in Name(r) ==> s == Name(r)
  {
    var spaced := Replace(Name(r), "__", " ");
    ReplaceChars(Name(r), "__", " ");
    ReplaceChars(spaced, "_", "-");
    ReplaceSingleChar(spaced, '_', '-');
    ReplaceAbsent(Name(r), "__", " ");
    ReplaceAbsent(Name(r), "_", "-");
    Replace(spaced, "_", "-")
  }

  /** Reference definition of the display conversion as a single left-to-right
      scan: "__" reads as a space, a remaining "_" as a hyphen. */
  function Normalize(s: string): (r: string)
    decreases |s|
  {
    if |s| == 0 then []
    else if |s| >= 2 && s[0] == '_' && s[1] == '_' then " " + Normalize(s[2..])
    else if s[0] == '_' then "-" + Normalize(s[1..])
    else [s[0]] + Normalize(s[1..])
  }

  /** Mapping a character distributes over concatenation. */
  lemma MapCharAppend(a: string, b: string, c: char, d: char)
    ensures MapChar(a + b, c, d) == MapChar(a, c, d) + MapChar(b, c, d)
  {
    var l, r := MapChar(a + b, c, d), MapChar(a, c, d) + MapChar(b, c, d);
    forall i | 0 <= i < |l| ensures l[i] == r[i] {
      if i >= |a| { assert (a + b)[i] == b[i - |a|]; }
    }
  }

  /** The two `str.replace` passes of `Region.__str__` amount to one scan. */
  lemma {:induction false} TwoPassesAreOneScan(s: string)
    ensures MapChar(Replace(s, "__", " "), '_', '-') == Normalize(s)
    decreases |s|
  {
    if |s| < 2 {
      assert Replace(s, "__", " ") == s;
      if |s| == 1 {
        assert MapChar(s, '_', '-') == [if s[0] == '_' then '-' else s[0]];
        assert Normalize(s) == [if s[0] == '_' then '-' else s[0]] + Normalize(s[1..]);
      }
    } else if s[..2] == "__" {
      var rest := Replace(s[2..], "__", " ");
      assert Replace(s, "__", " ") == " " + rest;
      assert s[0] == '_' && s[1] == '_' by { assert s[0] == s[..2][0] && s[1] == s[..2][1]; }
      assert Normalize(s) == " " + Normalize(s[2..]);
      TwoPassesAreOneScan(s[2..]);
      MapCharAppend(" ", rest, '_', '-');
      assert MapChar(" ", '_', '-') == " ";
    } else {
      var rest := Replace(s[1..], "__", " ");
      assert Replace(s, "__", " ") == [s[0]] + rest;
      assert s[0] == '_' ==> s[1] != '_';
      assert Normalize(s) == [if s[0] == '_' then '-' else s[0]] + Normalize(s[1..]);
      TwoPassesAreOneScan(s[1..]);
      MapCharAppend([s[0]], rest, '_', '-');
      assert MapChar([s[0]], '_', '-') == [if s[0] == '_' then '-' else s[0]];
    }
  }

  /** `str(region)` agrees with the one-scan reference definition. */
  lemma DisplayNameIsNormalize(r: Region)
    ensures DisplayName(r) == Normalize(Name(r))
  {
    ReplaceSingleChar(Replace(Name(r), "__", " "), '_', '-');
    TwoPassesAreOneScan(Name(r));
  }

  lemma DisplayNameExamples()
    ensures DisplayName(Iasi) == "Iasi"
  {
    assert '_' !in Name(Iasi) by { assert Name(Iasi) == "Iasi"; }
  }
}
