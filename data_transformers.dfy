/** The normalizer: French title case, district-label conversion, the three record mappers and the
    aggregation step that concatenates, drops unlocatable records and deduplicates by id. */
module DataTransformers {
  import opened Wrappers
  import opened Strings
  import opened Seqs
  import opened TextCase
  import opened Types

  /* ---------------------------------------------------------------- title case */

  /** French function words that stay lower case inside a title. */
  const STOP_WORDS: seq<string> :=
    ["de", "du", "des", "le", "la", "les", "un", "une", "et", "ou", "à", "au", "aux", "sur", "sous", "dans", "par"]

  /** One word of the title: stop words as they are, others with an upper-case first letter. */
  function CapitalizeWord(word: string): string
  {
    if word in STOP_WORDS then word
    else if word == [] then []
    else [UpperChar(word[0])] + word[1..]
  }

  function CapitalizeWords(words: seq<string>): (r: seq<string>)
    ensures |r| == |words|
  {
    seq(|words|, i requires 0 <= i < |words| => CapitalizeWord(words[i]))
  }

  /** `.replace(/^./, m => m.toUpperCase())`: the first character, unless it is a line terminator. */
  function CapitalizeFirst(s: string): (r: string)
    ensures |r| == |s|
  {
    if s != [] && !IsLineTerminator(s[0]) then [UpperChar(s[0])] + s[1..] else s
  }

  /** `formatToTitleCase`. */
  function FormatToTitleCase(text: string): (r: string)
    ensures text == "" ==> r == ""
  {
    if text == "" then ""
    else CapitalizeFirst(Join(CapitalizeWords(Split(LowerSeq(text), ' ')), ' '))
  }

  lemma CapitalizeWordLower(word: string)
    requires IsLowerCased(word)
    ensures LowerSeq(CapitalizeWord(word)) == word
  {
    if word !in STOP_WORDS && word != [] {
      LowerUpper(word[0]);
      assert LowerSeq(CapitalizeWord(word))[0] == LowerChar(word[0]);
    }
  }

  lemma CapitalizeWordNoSpace(word: string)
    requires ' ' !in word
    ensures ' ' !in CapitalizeWord(word)
  {
    if word !in STOP_WORDS && word != [] {
      assert word[0] != ' ';
      assert forall c :: c in CapitalizeWord(word) ==> c == UpperChar(word[0]) || c in word[1..];
    }
  }

  /** Capitalising the words of a lower-case text and joining them lower-cases back to the text. */
  lemma {:induction false} LowerJoinCapitalized(words: seq<string>)
    requires forall i :: 0 <= i < |words| ==> IsLowerCased(words[i])
    ensures LowerSeq(Join(CapitalizeWords(words), ' ')) == Join(words, ' ')
    decreases |words|
  {
    var caps := CapitalizeWords(words);
    if |words| == 1 {
      CapitalizeWordLower(words[0]);
    } else if |words| > 1 {
      LowerJoinCapitalized(words[1..]);
      assert caps[1..] == CapitalizeWords(words[1..]);
      CapitalizeWordLower(words[0]);
      LowerSeqAppend(caps[0] + [' '], Join(caps[1..], ' '));
      LowerSeqAppend(caps[0], [' ']);
    }
  }

  lemma WordsOfLowerAreLower(text: string)
    ensures forall i :: 0 <= i < |Split(LowerSeq(text), ' ')| ==> IsLowerCased(Split(LowerSeq(text), ' ')[i])
  {
    var s := LowerSeq(text);
    LowerSeqIsLowerCased(text);
    var ws := Split(s, ' ');
    forall i, k | 0 <= i < |ws| && 0 <= k < |ws[i]| ensures LowerChar(ws[i][k]) == ws[i][k] {
      assert ws[i][k] in ws[i];
      assert ws[i][k] in s;
      var j :| 0 <= j < |s| && s[j] == ws[i][k];
    }
  }

  /** Title-casing changes only letter case: the result lower-cases to the input's lower case. */
  lemma TitleCaseOnlyChangesCase(text: string)
    ensures LowerSeq(FormatToTitleCase(text)) == LowerSeq(text)
    ensures |FormatToTitleCase(text)| == |text|
  {
    if text != "" {
      var words := Split(LowerSeq(text), ' ');
      var joined := Join(CapitalizeWords(words), ' ');
      WordsOfLowerAreLower(text);
      LowerJoinCapitalized(words);
      JoinSplit(LowerSeq(text), ' ');
      assert LowerSeq(joined) == LowerSeq(text);
      if joined != [] && !IsLineTerminator(joined[0]) {
        LowerUpper(joined[0]);
        LowerSeqAppend([UpperChar(joined[0])], joined[1..]);
        LowerSeqAppend([joined[0]], joined[1..]);
        assert joined == [joined[0]] + joined[1..];
      }
    }
  }

  /** Title-casing twice is title-casing once. */
  lemma TitleCaseIdempotent(text: string)
    ensures FormatToTitleCase(FormatToTitleCase(text)) == FormatToTitleCase(text)
  {
    TitleCaseOnlyChangesCase(text);
  }

  /** The first character of a non-empty title is the upper case of the text's first character, even
      when the first word is a stop word (unless it is a line terminator, which `.` does not match). */
  lemma TitleCaseFirstCharacter(text: string)
    requires text != "" && !IsLineTerminator(text[0])
    ensures FormatToTitleCase(text)[0] == UpperChar(text[0])
  {
    TitleCaseOnlyChangesCase(text);
    var joined := Join(CapitalizeWords(Split(LowerSeq(text), ' ')), ' ');
    var r := FormatToTitleCase(text);
    assert |joined| == |text|;
    assert LowerChar(r[0]) == LowerChar(text[0]);
    UpperLower(r[0]);
    UpperLower(text[0]);
    UpperLower(joined[0]);
    LowerUpper(joined[0]);
  }

  /** The title's words are the lower-cased text's words, capitalised unless they are stop words, with
      the first one capitalised in every case. */
  lemma TitleCaseWords(text: string)
    requires text != ""
    ensures var words := Split(LowerSeq(text), ' ');
            var titled := Split(FormatToTitleCase(text), ' ');
            |titled| == |words| &&
            titled[0] == CapitalizeFirst(CapitalizeWord(words[0])) &&
            forall i :: 1 <= i < |words| ==> titled[i] == CapitalizeWord(words[i])
  {
    var words := Split(LowerSeq(text), ' ');
    var caps := CapitalizeWords(words);
    forall i | 0 <= i < |caps| ensures ' ' !in caps[i] {
      CapitalizeWordNoSpace(words[i]);
    }
    var joined := Join(caps, ' ');
    var firsts := [CapitalizeFirst(caps[0])] + caps[1..];
    CapitalizeFirstJoin(caps);
    assert ' ' !in CapitalizeFirst(caps[0]) by {
      if caps[0] != [] && !IsLineTerminator(caps[0][0]) {
        assert forall c :: c in CapitalizeFirst(caps[0]) ==> c == UpperChar(caps[0][0]) || c in caps[0][1..];
      }
    }
    SplitJoin(firsts, ' ');
  }

  lemma CapitalizeFirstAppend(a: string, b: string)
    requires a != []
    ensures CapitalizeFirst(a + b) == CapitalizeFirst(a) + b
  {
    assert (a + b)[0] == a[0];
    assert (a + b)[1..] == a[1..] + b;
  }

  lemma JoinCons(w: string, ws: seq<string>, sep: char)
    requires |ws| >= 1
    ensures Join([w] + ws, sep) == w + [sep] + Join(ws, sep)
  {
    assert ([w] + ws)[1..] == ws;
  }

  lemma CapitalizeFirstSpace(w: string, rest: string)
    ensures CapitalizeFirst(w + [' '] + rest) == CapitalizeFirst(w) + [' '] + rest
  {
    assert w + [' '] + rest == w + ([' '] + rest);
    if w != [] {
      CapitalizeFirstAppend(w, [' '] + rest);
    } else {
      assert w + ([' '] + rest) == [' '] + rest;
    }
  }

  lemma CapitalizeFirstJoin(words: seq<string>)
    requires |words| >= 1
    ensures CapitalizeFirst(Join(words, ' ')) == Join([CapitalizeFirst(words[0])] + words[1..], ' ')
  {
    if |words| == 1 {
      assert [CapitalizeFirst(words[0])] + words[1..] == [CapitalizeFirst(words[0])];
    } else {
      assert words == [words[0]] + words[1..];
      JoinCons(words[0], words[1..], ' ');
      JoinCons(CapitalizeFirst(words[0]), words[1..], ' ');
      CapitalizeFirstSpace(words[0], Join(words[1..], ' '));
    }
  }

  /* ---------------------------------------------------------------- district labels */

  /** The canonical character a non-unicode case-insensitive regular expression compares an ASCII
      letter of its pattern with: only `a`–`z` fold onto `A`–`Z`. */
  function AsciiUpper(c: char): char
  {
    if 'a' <= c <= 'z' then (c as int - 32) as char else c
  }

  function AsciiUpperSeq(s: string): (r: string)
    ensures |r| == |s|
  {
    seq(|s|, i requires 0 <= i < |s| => AsciiUpper(s[i]))
  }

  /** The upper-case spelling of a district label with the given number and ordinal suffix. */
  function ParisLabel(digits: string, suffix: string): string
  {
    "PARIS " + digits + suffix + " ARRONDISSEMENT"
  }

  /** The digits captured by `/^PARIS (\d+)(?:ER|EME) ARRONDISSEMENT$/i`, or `None` when it does not
      match. */
  function DistrictOfLabel(value: string): (r: Option<string>)
  {
    var u := AsciiUpperSeq(value);
    if |u| < 21 || u[..6] != "PARIS " || u[|u| - 15..] != " ARRONDISSEMENT" then None
    else
      var middle := u[6..|u| - 15];
      var digits := LeadingDigits(middle, false);
      if digits != [] && (middle[|digits|..] == "ER" || middle[|digits|..] == "EME") then Some(digits)
      else None
  }

  lemma {:induction false} LeadingDigitsOf(d: string, t: string)
    requires AllDigits(d)
    requires t != [] && !IsDigit(t[0])
    ensures LeadingDigits(d + t, false) == d
    decreases |d|
  {
    if d != [] {
      assert (d + t)[1..] == d[1..] + t;
      LeadingDigitsOf(d[1..], t);
    }
  }

  /** The three parts of a concatenation, recovered by slicing. */
  lemma SliceThree(a: string, m: string, b: string)
    ensures (a + m + b)[..|a|] == a
    ensures (a + m + b)[|a + m + b| - |b|..] == b
    ensures (a + m + b)[|a|..|a + m + b| - |b|] == m
  {
  }

  lemma AsciiUpperDigits(d: string)
    requires AllDigits(d)
    ensures AsciiUpperSeq(d) == d
  {
  }

  /** The label pattern, both ways: a value yields the digits `d` exactly when, ignoring ASCII case,
      it is "PARIS " + d + "ER" or "EME" + " ARRONDISSEMENT" with `d` a non-empty run of digits. */
  lemma DistrictOfLabelSound(value: string, d: string)
    requires DistrictOfLabel(value) == Some(d)
    ensures d != [] && AllDigits(d)
    ensures AsciiUpperSeq(value) == ParisLabel(d, "ER") || AsciiUpperSeq(value) == ParisLabel(d, "EME")
  {
    var u := AsciiUpperSeq(value);
    var middle := u[6..|u| - 15];
    assert middle == d + middle[|d|..];
    assert u == u[..6] + middle + u[|u| - 15..];
  }

  lemma DistrictOfLabelComplete(value: string, d: string, suffix: string)
    requires d != [] && AllDigits(d)
    requires suffix == "ER" || suffix == "EME"
    requires AsciiUpperSeq(value) == ParisLabel(d, suffix)
    ensures DistrictOfLabel(value) == Some(d)
  {
    var u := AsciiUpperSeq(value);
    assert u == "PARIS " + (d + suffix) + " ARRONDISSEMENT";
    SliceThree("PARIS ", d + suffix, " ARRONDISSEMENT");
    LeadingDigitsOf(d, suffix);
    assert (d + suffix)[|d|..] == suffix;
  }

  /** The label pattern, both ways: a value yields the digits `d` exactly when, ignoring ASCII case,
      it is "PARIS " + d + "ER" or "EME" + " ARRONDISSEMENT" with `d` a non-empty run of digits. */
  lemma DistrictOfLabelIff(value: string, d: string)
    ensures DistrictOfLabel(value) == Some(d) <==>
            d != [] && AllDigits(d) &&
            (AsciiUpperSeq(value) == ParisLabel(d, "ER") || AsciiUpperSeq(value) == ParisLabel(d, "EME"))
  {
    if DistrictOfLabel(value) == Some(d) {
      DistrictOfLabelSound(value, d);
    }
    if d != [] && AllDigits(d) {
      if AsciiUpperSeq(value) == ParisLabel(d, "ER") {
        DistrictOfLabelComplete(value, d, "ER");
      } else if AsciiUpperSeq(value) == ParisLabel(d, "EME") {
        DistrictOfLabelComplete(value, d, "EME");
      }
    }
  }

  /** `transformDistrict`: a "PARIS <n>ER|EME ARRONDISSEMENT" label becomes the postal code 750 followed
      by <n> padded to two digits; any other value is kept. */
  function TransformDistrict(value: string): (r: string)
    ensures DistrictOfLabel(value).None? ==> r == value
  {
    if value == "" then ""
    else
      match DistrictOfLabel(value)
      case Some(digits) => "750" + PadStart2(ParseIntText(digits))
      case None => value
  }

  /** A label with a one- or two-digit district number becomes a five-character postal code. */
  lemma TwoDigitsBelowHundred(d: string)
    requires 1 <= |d| <= 2 && AllDigits(d)
    ensures DigitsValue(d) < 100
  {
    if |d| == 2 {
      assert DigitsValue(d[..1]) < 10;
    }
  }

  lemma PostalCodeLength(n: nat)
    requires n < 100
    ensures |"750" + PadStart2(NatToString(n))| == 5
  {
    if n >= 10 {
      NatToStringTwoDigits(n);
    }
  }

  /** A label with any run of digits becomes "750" followed by the number it denotes, leading zeros
      dropped and padded to two digits; below one hundred that is a five-character postal code. The
      number is exact, as `parseInt` gives it only below 2^53. */
  lemma TransformDistrictOfLabel(value: string, d: string, suffix: string)
    requires d != [] && AllDigits(d)
    requires suffix == "ER" || suffix == "EME"
    requires AsciiUpperSeq(value) == ParisLabel(d, suffix)
    ensures TransformDistrict(value) == "750" + PadStart2(NatToString(DigitsValue(d)))
    ensures DigitsValue(d) < 100 ==> |TransformDistrict(value)| == 5
  {
    DistrictOfLabelComplete(value, d, suffix);
    assert |value| == |ParisLabel(d, suffix)|;
    ParseIntTextOfDigits(d);
    if DigitsValue(d) < 100 {
      PostalCodeLength(DigitsValue(d));
    }
  }

  lemma AsciiUpperConcat(a: string, b: string)
    ensures AsciiUpperSeq(a + b) == AsciiUpperSeq(a) + AsciiUpperSeq(b)
  {
  }

  lemma AsciiUpperNoLower(s: string)
    requires forall i :: 0 <= i < |s| ==> !('a' <= s[i] <= 'z')
    ensures AsciiUpperSeq(s) == s
  {
  }

  /** A label written in upper case already is its own upper-case spelling. */
  lemma ParisLabelUpper(d: string, suffix: string)
    requires AllDigits(d)
    requires suffix == "ER" || suffix == "EME"
    ensures AsciiUpperSeq(ParisLabel(d, suffix)) == ParisLabel(d, suffix)
  {
    AsciiUpperConcat("PARIS " + d + suffix, " ARRONDISSEMENT");
    AsciiUpperConcat("PARIS " + d, suffix);
    AsciiUpperConcat("PARIS ", d);
    AsciiUpperNoLower("PARIS ");
    AsciiUpperNoLower(" ARRONDISSEMENT");
    AsciiUpperNoLower(suffix);
    AsciiUpperDigits(d);
  }

  /** Leading zeros are dropped: "PARIS 001ER ARRONDISSEMENT" is the first district, 75001. */
  lemma TransformDistrictLeadingZeros()
    ensures TransformDistrict(ParisLabel("001", "ER")) == "75001"
  {
    assert DigitsValue("001") == 1 by {
      assert "001"[..2] == "00";
      assert "00"[..1] == "0";
    }
    FirstDistrictCode("001");
  }

  /** Any label of the first district becomes the postal code 75001. */
  lemma FirstDistrictCode(d: string)
    requires d != [] && AllDigits(d) && DigitsValue(d) == 1
    ensures TransformDistrict(ParisLabel(d, "ER")) == "75001"
  {
    ParisLabelUpper(d, "ER");
    TransformDistrictOfLabel(ParisLabel(d, "ER"), d, "ER");
    assert NatToString(1) == "1";
  }

  /** A text that starts with a digit is not a district label. */
  lemma NotLabelStartingWithDigit(v: string)
    requires v != [] && IsDigit(v[0])
    ensures DistrictOfLabel(v) == None
  {
    var u := AsciiUpperSeq(v);
    assert u[0] == v[0];
    if |u| >= 21 {
      assert u[..6][0] == v[0];
    }
  }

  /** Postal codes are not labels, so transforming twice is transforming once. */
  lemma TransformDistrictIdempotent(value: string)
    ensures TransformDistrict(TransformDistrict(value)) == TransformDistrict(value)
  {
    var r := TransformDistrict(value);
    if r != value {
      assert r[0] == '7';
      NotLabelStartingWithDigit(r);
    }
  }

  /* ---------------------------------------------------------------- record mappers */

  function ActivitySchedule(item: ActivityData): Schedule
  {
    Schedule(item.horairesPeriode, item.statutOuverture, item.horairesLundi, item.horairesMardi,
             item.horairesMercredi, item.horairesJeudi, item.horairesVendredi, item.horairesSamedi,
             item.horairesDimanche)
  }

  function GreenSpaceSchedule(item: GreenSpaceData): Schedule
  {
    Schedule(item.horairesPeriode, item.statutOuverture, item.horairesLundi, item.horairesMardi,
             item.horairesMercredi, item.horairesJeudi, item.horairesVendredi, item.horairesSamedi,
             item.horairesDimanche)
  }

  function OptionalFlag(v: Option<string>): Option<FlagValue>
  {
    match v
    case Some(t) => Some(FlagText(t))
    case None => None
  }

  /** `transformActivityToSpot`. */
  function ActivityToSpot(item: ActivityData): (s: Spot)
    ensures s.id == item.identifiant && s.category == Activities
    ensures s.name == Some(FormatToTitleCase(item.nom)) && LowerSeq(s.name.value) == LowerSeq(item.nom)
    ensures s.spotType == Some(FormatToTitleCase(item.kind)) && LowerSeq(s.spotType.value) == LowerSeq(item.kind)
    ensures s.address == Some(FormatToTitleCase(item.adresse)) && LowerSeq(s.address.value) == LowerSeq(item.adresse)
    ensures s.district == Some(DistrictText(item.arrondissement))
    ensures s.schedule == Some(ActivitySchedule(item)) && s.isPaid == OptionalFlag(item.payant)
    ensures s.is24hOpen.None? && s.isHeatwaveOpening.None? && s.isNightSummerOpening.None?
    ensures s.categoryLabel.None? && s.city.None? && s.model.None? && s.isAvailable.None?
    ensures IsLocatable(s) <==> item.geoPoint2d.Some? && item.geoPoint2d.value != ORIGIN
  {
    TitleCaseOnlyChangesCase(item.nom);
    TitleCaseOnlyChangesCase(item.kind);
    TitleCaseOnlyChangesCase(item.adresse);
    Spot(item.identifiant, Activities, Some(FormatToTitleCase(item.nom)), Some(FormatToTitleCase(item.kind)),
         Some(FormatToTitleCase(item.adresse)), Some(DistrictText(item.arrondissement)),
         GeoOrOrigin(item.geoPoint2d), Some(ActivitySchedule(item)), None, None, None,
         OptionalFlag(item.payant), None, None, None, None)
  }

  /** `transformGreenSpaceToSpot`. */
  function GreenSpaceToSpot(item: GreenSpaceData): (s: Spot)
    ensures s.id == item.identifiant && s.category == GreenSpaces
    ensures s.name == Some(FormatToTitleCase(item.nom)) && LowerSeq(s.name.value) == LowerSeq(item.nom)
    ensures s.spotType == Some(FormatToTitleCase(item.kind)) && LowerSeq(s.spotType.value) == LowerSeq(item.kind)
    ensures s.address == Some(FormatToTitleCase(item.adresse)) && LowerSeq(s.address.value) == LowerSeq(item.adresse)
    ensures s.district == Some(DistrictText(item.arrondissement))
    ensures s.categoryLabel == item.categorie && s.isPaid.None?
    ensures s.schedule == Some(GreenSpaceSchedule(item)) && s.is24hOpen == OptionalFlag(item.ouvert24h)
    ensures s.isHeatwaveOpening == OptionalFlag(item.caniculeOuverture)
    ensures s.isNightSummerOpening == OptionalFlag(item.ouvertureEstivaleNocturne)
    ensures s.city.None? && s.model.None? && s.isAvailable.None?
    ensures IsLocatable(s) <==> item.geoPoint2d.Some? && item.geoPoint2d.value != ORIGIN
  {
    TitleCaseOnlyChangesCase(item.nom);
    TitleCaseOnlyChangesCase(item.kind);
    TitleCaseOnlyChangesCase(item.adresse);
    Spot(item.identifiant, GreenSpaces, Some(FormatToTitleCase(item.nom)), Some(FormatToTitleCase(item.kind)),
         Some(FormatToTitleCase(item.adresse)), Some(DistrictText(item.arrondissement)),
         GeoOrOrigin(item.geoPoint2d), Some(GreenSpaceSchedule(item)), OptionalFlag(item.ouvert24h),
         OptionalFlag(item.caniculeOuverture), OptionalFlag(item.ouvertureEstivaleNocturne), None,
         item.categorie, None, None, None)
  }

  /** A coordinate as a template literal writes it: the number, or "undefined" without a location. */
  function CoordinateText(p: Option<GeoPoint>, latitude: bool): string
  {
    match p
    case None => "undefined"
    case Some(g) => IntToString(if latitude then g.lat else g.lon)
  }

  /** `item.gid?.toString() || \`fountain-${lat}-${lon}\``: the string of a present gid is never empty. */
  function FountainId(item: FountainData): (id: string)
    ensures item.gid.Some? ==> id == IntToString(item.gid.value) && ParseDecimal(id) == item.gid
    ensures item.gid.None? ==>
              id == "fountain-" + CoordinateText(item.geoPoint2d, true) + "-" + CoordinateText(item.geoPoint2d, false)
    ensures item.gid.None? ==> StartsWith(id, "fountain-")
  {
    match item.gid
    case Some(g) =>
      IntToStringRoundTrip(g);
      IntToString(g)
    case None => "fountain-" + CoordinateText(item.geoPoint2d, true) + "-" + CoordinateText(item.geoPoint2d, false)
  }

  const FOUNTAIN_NAME := "Fontaine \U{00E0} boire"

  /** `transformFountainToSpot`. */
  function FountainToSpot(item: FountainData): (s: Spot)
    ensures s.id == FountainId(item) && s.category == WaterFountains
    ensures s.name == Some(FOUNTAIN_NAME)
    ensures s.address == Some(FormatToTitleCase(item.voie)) && LowerSeq(s.address.value) == LowerSeq(item.voie)
    ensures s.district == Some(DistrictText(TransformDistrict(item.commune)))
    ensures s.city == Some(TransformDistrict(item.commune))
    ensures s.model == item.modele && s.isAvailable == item.dispo
    ensures s.spotType.None? && s.schedule.None? && s.isPaid.None? && s.categoryLabel.None?
    ensures s.is24hOpen.None? && s.isHeatwaveOpening.None? && s.isNightSummerOpening.None?
    ensures IsLocatable(s) <==> item.geoPoint2d.Some? && item.geoPoint2d.value != ORIGIN
  {
    TitleCaseOnlyChangesCase(item.voie);
    var district := TransformDistrict(item.commune);
    Spot(FountainId(item), WaterFountains, Some(FOUNTAIN_NAME), None, Some(FormatToTitleCase(item.voie)),
         Some(DistrictText(district)), GeoOrOrigin(item.geoPoint2d), None, None, None, None, None, None,
         Some(district), item.modele, item.dispo)
  }

  /** Fountains with a gid and fountains without one never share an identifier, and distinct gids give
      distinct identifiers. */
  lemma FountainIdsDistinct(a: FountainData, b: FountainData)
    requires a.gid.Some? && (b.gid.None? || a.gid != b.gid)
    ensures FountainId(a) != FountainId(b)
  {
    if b.gid.None? {
      var g := a.gid.value;
      assert FountainId(a)[0] == '-' || IsDigit(FountainId(a)[0]) by {
        if g >= 0 { assert FountainId(a) == NatToString(g); }
        else { assert FountainId(a)[0] == '-'; }
      }
      assert FountainId(b)[0] == 'f';
    }
  }

  /** A fountain with gid 42 in "PARIS 1ER ARRONDISSEMENT" that is available keeps "42" as its
      identifier, gets the postal code 75001 as district and city, and keeps its availability. */
  lemma FountainExample(item: FountainData)
    requires item.gid == Some(42) && item.commune == ParisLabel("1", "ER") && item.dispo == Some("OUI")
    ensures FountainToSpot(item).id == "42"
    ensures FountainToSpot(item).district == Some(DistrictText("75001"))
    ensures FountainToSpot(item).city == Some("75001")
    ensures FountainToSpot(item).isAvailable == Some("OUI")
  {
    var code := TransformDistrict(item.commune);
    assert code == "75001" by {
      assert DigitsValue("1") == 1;
      FirstDistrictCode("1");
    }
    FortyTwoText();
  }

  lemma FortyTwoText()
    ensures IntToString(42) == "42"
  {
    assert NatToString(4) == "4";
    assert NatToString(42) == NatToString(4) + "2";
  }

  /* ---------------------------------------------------------------- aggregation */

  /** `spots.findIndex(s => s.id === id)` over the indices from `from` on: the first index holding the
      identifier, or -1. */
  function FindIndexFrom(spots: seq<Spot>, id: string, from: nat): (r: int)
    requires from <= |spots|
    ensures r == -1 || from <= r < |spots|
    ensures r >= 0 ==> spots[r].id == id && forall j :: from <= j < r ==> spots[j].id != id
    ensures r == -1 <==> forall j :: from <= j < |spots| ==> spots[j].id != id
    decreases |spots| - from
  {
    if from == |spots| then -1
    else if spots[from].id == id then from
    else FindIndexFrom(spots, id, from + 1)
  }

  function FindIndexById(spots: seq<Spot>, id: string): (r: int)
    ensures -1 <= r < |spots|
    ensures r >= 0 ==> spots[r].id == id && forall j :: 0 <= j < r ==> spots[j].id != id
    ensures r == -1 <==> forall j :: 0 <= j < |spots| ==> spots[j].id != id
  {
    FindIndexFrom(spots, id, 0)
  }

  /** The spot at index `i` is the first one carrying its identifier. */
  predicate IsFirstOfId(spots: seq<Spot>, i: int)
    requires 0 <= i < |spots|
  {
    FindIndexById(spots, spots[i].id) == i
  }

  /** `spots.filter((spot, index, array) => array.findIndex(s => s.id === spot.id) === index)` from
      index `from` on: keeps the first spot of every identifier, in order. */
  function KeepFirstFrom(spots: seq<Spot>, from: nat): (r: seq<Spot>)
    requires from <= |spots|
    ensures |r| <= |spots| - from
    decreases |spots| - from
  {
    if from == |spots| then []
    else if IsFirstOfId(spots, from) then [spots[from]] + KeepFirstFrom(spots, from + 1)
    else KeepFirstFrom(spots, from + 1)
  }

  /** `filter((spot, index, array) => array.findIndex(s => s.id === spot.id) === index)`. */
  function KeepFirstById(spots: seq<Spot>): (r: seq<Spot>)
  {
    KeepFirstFrom(spots, 0)
  }

  /** Deduplication keeps spots in their original order. */
  lemma {:induction false} KeepFirstSubseq(spots: seq<Spot>, from: nat)
    requires from <= |spots|
    ensures SubseqOf(KeepFirstFrom(spots, from), spots[from..])
    decreases |spots| - from
  {
    if from < |spots| {
      KeepFirstSubseq(spots, from + 1);
      assert spots[from..][0] == spots[from];
      assert spots[from..][1..] == spots[from + 1..];
    }
  }

  /** Every kept spot is the first of its identifier. */
  lemma {:induction false} KeepFirstSound(spots: seq<Spot>, from: nat, x: Spot)
    requires from <= |spots| && x in KeepFirstFrom(spots, from)
    ensures exists i :: from <= i < |spots| && x == spots[i] && IsFirstOfId(spots, i)
    decreases |spots| - from
  {
    if x in KeepFirstFrom(spots, from + 1) {
      KeepFirstSound(spots, from + 1, x);
    } else {
      assert x == spots[from] && IsFirstOfId(spots, from);
    }
  }

  /** The first spot of every identifier is kept. */
  lemma {:induction false} KeepFirstKeeps(spots: seq<Spot>, from: nat, i: int)
    requires from <= i < |spots| && IsFirstOfId(spots, i)
    ensures spots[i] in KeepFirstFrom(spots, from)
    decreases |spots| - from
  {
    if i > from {
      KeepFirstKeeps(spots, from + 1, i);
    }
  }

  /** Deduplication keeps exactly the spots that are the first of their identifier. */
  lemma KeepFirstMembers(spots: seq<Spot>, from: nat, x: Spot)
    requires from <= |spots|
    ensures x in KeepFirstFrom(spots, from) <==>
            exists i :: from <= i < |spots| && x == spots[i] && IsFirstOfId(spots, i)
  {
    if x in KeepFirstFrom(spots, from) {
      KeepFirstSound(spots, from, x);
    }
    if i :| from <= i < |spots| && x == spots[i] && IsFirstOfId(spots, i) {
      KeepFirstKeeps(spots, from, i);
    }
  }

  /** After the first spot of an identifier, no kept spot carries that identifier again. */
  lemma FirstIdNotKeptAgain(spots: seq<Spot>, from: nat)
    requires from < |spots| && IsFirstOfId(spots, from)
    ensures forall x :: x in KeepFirstFrom(spots, from + 1) ==> x.id != spots[from].id
  {
    forall x | x in KeepFirstFrom(spots, from + 1) ensures x.id != spots[from].id {
      KeepFirstMembers(spots, from + 1, x);
    }
  }

  predicate DistinctIds(r: seq<Spot>)
  {
    forall a, b :: 0 <= a < b < |r| ==> r[a].id != r[b].id
  }

  lemma DistinctIdsCons(x: Spot, rest: seq<Spot>)
    requires DistinctIds(rest)
    requires forall y :: y in rest ==> y.id != x.id
    ensures DistinctIds([x] + rest)
  {
    var r := [x] + rest;
    forall a, b | 0 <= a < b < |r| ensures r[a].id != r[b].id {
      assert r[b] == rest[b - 1];
      if a > 0 {
        assert r[a] == rest[a - 1];
      }
    }
  }

  /** Identifiers are distinct after deduplication. */
  lemma {:induction false} KeepFirstDistinctIds(spots: seq<Spot>, from: nat)
    requires from <= |spots|
    ensures DistinctIds(KeepFirstFrom(spots, from))
    decreases |spots| - from
  {
    if from < |spots| {
      KeepFirstDistinctIds(spots, from + 1);
      if IsFirstOfId(spots, from) {
        FirstIdNotKeptAgain(spots, from);
        DistinctIdsCons(spots[from], KeepFirstFrom(spots, from + 1));
      }
    }
  }

  /** Deduplication keeps a spot for every identifier of its input. */
  lemma KeepFirstComplete(spots: seq<Spot>, i: int)
    requires 0 <= i < |spots|
    ensures exists x :: x in KeepFirstById(spots) && x.id == spots[i].id
  {
    var k := FindIndexById(spots, spots[i].id);
    assert spots[k].id == spots[i].id;
    assert IsFirstOfId(spots, k);
    KeepFirstMembers(spots, 0, spots[k]);
  }

  /** Deduplication leaves a list whose identifiers are already distinct untouched. */
  lemma {:induction false} KeepFirstDistinct(spots: seq<Spot>, from: nat)
    requires from <= |spots|
    requires forall a, b :: 0 <= a < b < |spots| ==> spots[a].id != spots[b].id
    ensures KeepFirstFrom(spots, from) == spots[from..]
    decreases |spots| - from
  {
    if from < |spots| {
      KeepFirstDistinct(spots, from + 1);
      var k := FindIndexById(spots, spots[from].id);
      assert k == from;
      assert spots[from..] == [spots[from]] + spots[from + 1..];
    }
  }

  function MapActivities(items: seq<ActivityData>): seq<Spot>
  {
    seq(|items|, i requires 0 <= i < |items| => ActivityToSpot(items[i]))
  }

  function MapGreenSpaces(items: seq<GreenSpaceData>): seq<Spot>
  {
    seq(|items|, i requires 0 <= i < |items| => GreenSpaceToSpot(items[i]))
  }

  function MapFountains(items: seq<FountainData>): seq<Spot>
  {
    seq(|items|, i requires 0 <= i < |items| => FountainToSpot(items[i]))
  }

  /** The post-processing both aggregators share: drop the spots at (0, 0), then keep the first spot of
      every identifier, in order. */
  function Consolidate(all: seq<Spot>): seq<Spot>
  {
    KeepFirstById(Filter(IsLocatable, all))
  }

  /** The consolidated collection is drawn from its input, in order. */
  lemma ConsolidateOrdered(all: seq<Spot>)
    ensures SubseqOf(Consolidate(all), all)
  {
    var valid := Filter(IsLocatable, all);
    KeepFirstSubseq(valid, 0);
    assert valid[0..] == valid;
    SubseqOfTransitive(KeepFirstById(valid), valid, all);
  }

  /** The consolidated collection holds only located spots, with distinct identifiers. */
  lemma ConsolidateLocatedAndDistinct(all: seq<Spot>)
    ensures forall x :: x in Consolidate(all) ==> x in all && IsLocatable(x)
    ensures DistinctIds(Consolidate(all))
  {
    var valid := Filter(IsLocatable, all);
    KeepFirstSubseq(valid, 0);
    assert valid[0..] == valid;
    SubseqOfMembers(KeepFirstById(valid), valid);
    KeepFirstDistinctIds(valid, 0);
  }

  /** Every identifier a located input spot carries is represented in the consolidated collection, by
      the first located spot carrying it. */
  lemma ConsolidateComplete(all: seq<Spot>, i: int)
    requires 0 <= i < |all| && IsLocatable(all[i])
    ensures exists x :: x in Consolidate(all) && x.id == all[i].id
  {
    var valid := Filter(IsLocatable, all);
    assert all[i] in valid;
    var k :| 0 <= k < |valid| && valid[k] == all[i];
    KeepFirstComplete(valid, k);
  }

  /** The identifier and location of every spot, in order. */
  function Keys(a: seq<Spot>): (k: seq<(string, GeoPoint)>)
    ensures |k| == |a|
  {
    seq(|a|, i requires 0 <= i < |a| => (a[i].id, a[i].geo))
  }

  /** Two spot lists that agree, position by position, on identifier and location. */
  predicate SameIdsAndGeo(a: seq<Spot>, b: seq<Spot>)
  {
    Keys(a) == Keys(b)
  }

  lemma SameTail(a: seq<Spot>, b: seq<Spot>)
    requires SameIdsAndGeo(a, b) && a != []
    ensures a[0].id == b[0].id && a[0].geo == b[0].geo
    ensures SameIdsAndGeo(a[1..], b[1..])
  {
    assert Keys(a)[0] == Keys(b)[0];
    assert Keys(a[1..]) == Keys(a)[1..];
    assert Keys(b[1..]) == Keys(b)[1..];
  }

  lemma SameCons(x: Spot, y: Spot, a: seq<Spot>, b: seq<Spot>)
    requires SameIdsAndGeo(a, b) && x.id == y.id && x.geo == y.geo
    ensures SameIdsAndGeo([x] + a, [y] + b)
  {
    assert Keys([x] + a) == [(x.id, x.geo)] + Keys(a);
    assert Keys([y] + b) == [(y.id, y.geo)] + Keys(b);
  }

  lemma {:induction false} FilterLocatableSame(a: seq<Spot>, b: seq<Spot>)
    requires SameIdsAndGeo(a, b)
    ensures SameIdsAndGeo(Filter(IsLocatable, a), Filter(IsLocatable, b))
    decreases |a|
  {
    if a != [] {
      SameTail(a, b);
      FilterLocatableSame(a[1..], b[1..]);
      if IsLocatable(a[0]) {
        SameCons(a[0], b[0], Filter(IsLocatable, a[1..]), Filter(IsLocatable, b[1..]));
      }
    }
  }

  lemma {:induction false} FindIndexFromSame(a: seq<Spot>, b: seq<Spot>, id: string, from: nat)
    requires SameIdsAndGeo(a, b) && from <= |a|
    ensures FindIndexFrom(a, id, from) == FindIndexFrom(b, id, from)
    decreases |a| - from
  {
    if from < |a| {
      assert Keys(a)[from] == Keys(b)[from];
      FindIndexFromSame(a, b, id, from + 1);
    }
  }

  lemma FirstOfIdSame(a: seq<Spot>, b: seq<Spot>, i: int)
    requires SameIdsAndGeo(a, b) && 0 <= i < |a|
    ensures IsFirstOfId(a, i) == IsFirstOfId(b, i)
  {
    assert Keys(a)[i] == Keys(b)[i];
    FindIndexFromSame(a, b, a[i].id, 0);
  }

  lemma {:induction false} KeepFirstFromSame(a: seq<Spot>, b: seq<Spot>, from: nat)
    requires SameIdsAndGeo(a, b) && from <= |a|
    ensures SameIdsAndGeo(KeepFirstFrom(a, from), KeepFirstFrom(b, from))
    decreases |a| - from
  {
    if from < |a| {
      KeepFirstFromSame(a, b, from + 1);
      FirstOfIdSame(a, b, from);
      if IsFirstOfId(a, from) {
        assert Keys(a)[from] == Keys(b)[from];
        SameCons(a[from], b[from], KeepFirstFrom(a, from + 1), KeepFirstFrom(b, from + 1));
      }
    }
  }

  /** What survives consolidation depends on identifiers and locations alone: inputs that agree on them
      position by position give outputs that agree on them position by position. */
  lemma ConsolidateSame(a: seq<Spot>, b: seq<Spot>)
    requires SameIdsAndGeo(a, b)
    ensures SameIdsAndGeo(Consolidate(a), Consolidate(b))
  {
    FilterLocatableSame(a, b);
    KeepFirstFromSame(Filter(IsLocatable, a), Filter(IsLocatable, b), 0);
  }

  /** `transformAPIDataToSpots`: the mapped activities, green spaces and fountains, in that order, with
      unlocated spots dropped and only the first spot of each identifier kept. */
  function TransformAPIDataToSpots(activities: seq<ActivityData>, greenSpaces: seq<GreenSpaceData>,
                                   fountains: seq<FountainData>): seq<Spot>
  {
    Consolidate(AllMapped(activities, greenSpaces, fountains))
  }

  function AllMapped(activities: seq<ActivityData>, greenSpaces: seq<GreenSpaceData>,
                     fountains: seq<FountainData>): seq<Spot>
  {
    MapActivities(activities) + MapGreenSpaces(greenSpaces) + MapFountains(fountains)
  }

  /** The aggregate collection is drawn from the mapped records, in their order: activities, then green
      spaces, then fountains. */
  lemma AggregateOrdered(activities: seq<ActivityData>, greenSpaces: seq<GreenSpaceData>,
                         fountains: seq<FountainData>)
    ensures SubseqOf(TransformAPIDataToSpots(activities, greenSpaces, fountains),
                     AllMapped(activities, greenSpaces, fountains))
  {
    ConsolidateOrdered(AllMapped(activities, greenSpaces, fountains));
  }

  /** The aggregate collection holds only located spots, with distinct identifiers. */
  lemma AggregateLocatedAndDistinct(activities: seq<ActivityData>, greenSpaces: seq<GreenSpaceData>,
                                    fountains: seq<FountainData>)
    ensures var r := TransformAPIDataToSpots(activities, greenSpaces, fountains);
            (forall x :: x in r ==> IsLocatable(x)) && DistinctIds(r)
  {
    ConsolidateLocatedAndDistinct(AllMapped(activities, greenSpaces, fountains));
  }

  /** Every identifier some located record carries is represented in the aggregate collection. */
  lemma AggregateComplete(activities: seq<ActivityData>, greenSpaces: seq<GreenSpaceData>,
                          fountains: seq<FountainData>, i: int)
    requires var all := AllMapped(activities, greenSpaces, fountains);
             0 <= i < |all| && IsLocatable(all[i])
    ensures var all := AllMapped(activities, greenSpaces, fountains);
            exists x :: x in TransformAPIDataToSpots(activities, greenSpaces, fountains) && x.id == all[i].id
  {
    ConsolidateComplete(AllMapped(activities, greenSpaces, fountains), i);
  }

  /** An activity record without a location is not in the aggregate collection. */
  lemma AggregateDropsUnlocatedActivity(activities: seq<ActivityData>, greenSpaces: seq<GreenSpaceData>,
                                        fountains: seq<FountainData>, item: ActivityData)
    requires item.geoPoint2d.None?
    ensures ActivityToSpot(item) !in TransformAPIDataToSpots(activities, greenSpaces, fountains)
  {
    AggregateLocatedAndDistinct(activities, greenSpaces, fountains);
  }
}
