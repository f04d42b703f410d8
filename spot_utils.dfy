/** The detail-page helpers: looking a spot up by identifier in the aggregate collection, and the
    page title and description written from a spot. */
module SpotUtils {
  import opened Wrappers
  import opened Strings
  import opened Types
  import opened DataTransformers

  /** `getSpotById` over the collection it awaits: the first spot with an equal identifier, if any. */
  function GetSpotById(spots: seq<Spot>, id: string): (r: Option<Spot>)
    ensures r.None? <==> forall i :: 0 <= i < |spots| ==> spots[i].id != id
    ensures r.Some? ==> exists i :: 0 <= i < |spots| && spots[i] == r.value && r.value.id == id &&
                                    forall j :: 0 <= j < i ==> spots[j].id != id
  {
    var k := FindIndexById(spots, id);
    if k < 0 then None else Some(spots[k])
  }

  /** Once identifiers are distinct, the spot looked up is the only one carrying the identifier. */
  lemma GetSpotByIdUnique(spots: seq<Spot>, i: int)
    requires DistinctIds(spots) && 0 <= i < |spots|
    ensures GetSpotById(spots, spots[i].id) == Some(spots[i])
  {
  }

  /** A spot's name as a template literal renders it: a missing name prints as "undefined". */
  function NameText(name: Option<string>): string
  {
    match name
    case Some(n) => n
    case None => "undefined"
  }

  /** The category word of the title. */
  function CategoryTitle(c: Category): (r: string)
    ensures r != "" && r != "Spot"
  {
    match c
    case Activities => "Activit\U{00E9}"
    case GreenSpaces => "Espace vert"
    case WaterFountains => "Fontaine"
  }

  /** `generateSpotTitle`: `<name> - <category word> à Paris`. */
  function GenerateSpotTitle(spot: Spot): (r: string)
  {
    NameText(spot.name) + " - " + CategoryTitle(spot.category) + " \U{00E0} Paris"
  }

  /** The title shows the name, and with the name known it also shows the category. */
  lemma TitleDeterminesCategory(a: Spot, b: Spot)
    requires NameText(a.name) == NameText(b.name)
    ensures GenerateSpotTitle(a) == GenerateSpotTitle(b) <==> a.category == b.category
  {
    var n := NameText(a.name);
    if GenerateSpotTitle(a) == GenerateSpotTitle(b) {
      var ta, tb := CategoryTitle(a.category), CategoryTitle(b.category);
      assert (n + " - " + ta + " \U{00E0} Paris")[|n| + 3..|n| + 3 + |ta|] == ta;
      assert (n + " - " + tb + " \U{00E0} Paris")[|n| + 3..|n| + 3 + |tb|] == tb;
      assert |ta| == |tb|;
    }
  }

  /** The title starts with the name and ends with " à Paris". */
  lemma TitleShape(spot: Spot)
    ensures StartsWith(GenerateSpotTitle(spot), NameText(spot.name) + " - ")
    ensures var t := GenerateSpotTitle(spot); t[|t| - 8..] == " \U{00E0} Paris"
  {
  }

  /** The district part of the description: `dans le <n>er|e arrondissement` for a postal code, where `n`
      is what `parseInt` reads after "750" and `er` is used for "01" only; `à <district>` otherwise. */
  function DistrictPhrase(d: DistrictValue): string
  {
    match d
    case DistrictText(t) =>
      if StartsWith(t, "750") then
        "dans le " + ParseIntText(t[3..]) + (if t[3..] == "01" then "er" else "e") + " arrondissement"
      else "\U{00E0} " + t
    case DistrictNumber(n) => "\U{00E0} " + IntToString(n)
  }

  /** `generateSpotDescription`. */
  function GenerateSpotDescription(spot: Spot): (r: string)
    ensures StartsWith(r, "D\U{00E9}couvrez " + NameText(spot.name))
  {
    var base := "D\U{00E9}couvrez " + NameText(spot.name);
    if DistrictString(spot.district) != "" then
      base + " " + DistrictPhrase(spot.district.value) + " de Paris."
    else
      base + " - Un spot de fra\U{00EE}cheur \U{00E0} Paris."
  }

  /** A spot without a district, or with an empty or zero one, gets the generic description. */
  lemma DescriptionWithoutDistrict(spot: Spot)
    requires spot.district.None? || spot.district == Some(DistrictText("")) || spot.district == Some(DistrictNumber(0))
    ensures GenerateSpotDescription(spot) ==
            "D\U{00E9}couvrez " + NameText(spot.name) + " - Un spot de fra\U{00EE}cheur \U{00E0} Paris."
  {
  }

  /** A district text that is not a postal code is quoted as it is. */
  lemma DescriptionOfOtherDistrict(spot: Spot, t: string)
    requires spot.district == Some(DistrictText(t)) && t != "" && !StartsWith(t, "750")
    ensures GenerateSpotDescription(spot) ==
            "D\U{00E9}couvrez " + NameText(spot.name) + " " + ("\U{00E0} " + t) + " de Paris."
  {
  }

  lemma PostalPhrase(dd: string)
    requires |dd| == 2 && AllDigits(dd)
    ensures DistrictPhrase(DistrictText("750" + dd)) ==
            "dans le " + NatToString(DigitsValue(dd)) + (if dd == "01" then "er" else "e") + " arrondissement"
  {
    var t := "750" + dd;
    assert t[3..] == dd;
    assert StartsWith(t, "750");
    ParseIntTextOfDigits(dd);
  }

  /** A Paris postal code `750dd` is described by the district number `dd` reads as, with the ordinal
      suffix "er" for "01" and "e" otherwise. */
  lemma DescriptionOfPostalCode(spot: Spot, dd: string)
    requires |dd| == 2 && AllDigits(dd) && spot.district == Some(DistrictText("750" + dd))
    ensures GenerateSpotDescription(spot) ==
            "D\U{00E9}couvrez " + NameText(spot.name) + " " +
            ("dans le " + NatToString(DigitsValue(dd)) + (if dd == "01" then "er" else "e") + " arrondissement") +
            " de Paris."
  {
    assert DistrictString(spot.district) != "";
    PostalPhrase(dd);
  }

  /** A district number below 100, padded to two digits, reads back as itself, and reads as "01" only
      for the first district. */
  lemma PaddedDistrictNumber(n: nat)
    requires n < 100
    ensures var dd := PadStart2(NatToString(n));
            |dd| == 2 && AllDigits(dd) && DigitsValue(dd) == n && (dd == "01" <==> n == 1)
  {
    var dd := PadStart2(NatToString(n));
    if n < 10 {
      assert dd == ['0', DigitChar(n)];
      assert dd[..1] == "0";
      assert DigitsValue(dd[..1]) == 0;
    } else {
      NatToStringTwoDigits(n);
      NatToStringRoundTrip(n);
      assert dd == NatToString(n);
      assert dd[0] != '0';
    }
  }

  /** A fountain whose commune is a district label is described with that district's number: the label
      "PARIS 1ER ARRONDISSEMENT" becomes the postal code 75001, which the description reads as "1er". */
  lemma FountainDescription(item: FountainData, d: string, suffix: string)
    requires 1 <= |d| <= 2 && AllDigits(d)
    requires suffix == "ER" || suffix == "EME"
    requires AsciiUpperSeq(item.commune) == ParisLabel(d, suffix)
    ensures var n := DigitsValue(d);
            GenerateSpotDescription(FountainToSpot(item)) ==
            "D\U{00E9}couvrez " + FOUNTAIN_NAME + " " +
            ("dans le " + NatToString(n) + (if n == 1 then "er" else "e") + " arrondissement") + " de Paris."
  {
    TransformDistrictOfLabel(item.commune, d, suffix);
    TwoDigitsBelowHundred(d);
    var n := DigitsValue(d);
    PaddedDistrictNumber(n);
    DescriptionOfPostalCode(FountainToSpot(item), PadStart2(NatToString(n)));
  }
}
