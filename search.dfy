/** The free-text search: accent- and case-insensitive matching over a spot's descriptive fields, with
    synonym expansion of each keyword and a district filter recognised from postal codes and ordinal
    district names in the query. */
module Search {
  import opened Wrappers
  import opened Strings
  import opened Seqs
  import opened TextCase
  import opened Types
  import opened DataTransformers

  /* ---------------------------------------------------------------- normalisation */

  /** `normalizeString`: lower case, canonical decomposition, combining marks removed. */
  function NormalizeString(s: string): (r: string)
    ensures |r| <= |s|
    ensures forall i :: 0 <= i < |r| ==> IsNormalized(r[i])
    decreases |s|
  {
    if s == [] then []
    else
      var rest := NormalizeString(s[1..]);
      if IsCombiningMark(s[0]) then rest
      else
        NormalizedChar(s[0]);
        [StripAccent(LowerChar(s[0]))] + rest
  }

  /** Normalisation distributes over concatenation. */
  lemma {:induction false} NormalizeAppend(a: string, b: string)
    ensures NormalizeString(a + b) == NormalizeString(a) + NormalizeString(b)
    decreases |a|
  {
    if a == [] {
      assert a + b == b;
    } else {
      var ab := a + b;
      assert ab[0] == a[0] && ab[1..] == a[1..] + b;
      NormalizeAppend(a[1..], b);
    }
  }

  /** A text that is already normalised is left as it is. */
  lemma {:induction false} NormalizeNormalized(s: string)
    requires forall i :: 0 <= i < |s| ==> IsNormalized(s[i])
    ensures NormalizeString(s) == s
    decreases |s|
  {
    if s != [] {
      NormalizeNormalized(s[1..]);
    }
  }

  /** Normalising twice is normalising once. */
  lemma NormalizeIdempotent(s: string)
    ensures NormalizeString(NormalizeString(s)) == NormalizeString(s)
  {
    NormalizeNormalized(NormalizeString(s));
  }

  /* ---------------------------------------------------------------- categories and synonyms */

  /** `translateCategoryToFrench`. */
  function TranslateCategoryToFrench(c: Category): (r: string)
    ensures r != ""
  {
    match c
    case Activities => "activit\U{00E9}s \U{00E9}quipements"
    case GreenSpaces => "espaces verts parcs jardins"
    case WaterFountains => "fontaines eau boire"
  }

  /** The synonym table, in the order its entries are enumerated. */
  const SYNONYM_TABLE: seq<(string, seq<string>)> := [
    ("piscine", ["piscine", "baignade", "natation", "bassin"]),
    ("fontaine", ["fontaine", "eau", "boire", "hydratation"]),
    ("parc", ["parc", "jardin", "espace vert", "verdure"]),
    ("sport", ["sport", "activit\U{00E9}", "\U{00E9}quipement", "loisir"]),
    ("ombre", ["ombre", "ombrag\U{00E9}", "frais", "fra\U{00EE}cheur"]),
    ("climatis\U{00E9}", ["climatis\U{00E9}", "climatisation", "frais", "air conditionn\U{00E9}"]),
    ("1er", ["1er", "1", "premier", "louvre", "ch\U{00E2}telet"]),
    ("4e", ["4e", "4", "quatri\U{00E8}me", "marais", "ile saint louis"]),
    ("7e", ["7e", "7", "septi\U{00E8}me", "tour eiffel", "invalides"]),
    ("16e", ["16e", "16", "seizi\U{00E8}me", "bois de boulogne", "trocad\U{00E9}ro"]),
    ("18e", ["18e", "18", "dix-huiti\U{00E8}me", "montmartre", "sacr\U{00E9} coeur"])
  ]

  /** The values of the entries whose normalised key occurs in the normalised query, in table order. */
  function MatchedValues(nq: string, entries: seq<(string, seq<string>)>): seq<string>
    decreases |entries|
  {
    if entries == [] then []
    else
      var last := entries[|entries| - 1];
      MatchedValues(nq, entries[..|entries| - 1]) +
      (if Contains(nq, NormalizeString(last.0)) then last.1 else [])
  }

  /** What `generateSynonyms` returns: the query itself, then the synonyms of every key it contains. */
  function Synonyms(query: string): seq<string>
  {
    [query] + MatchedValues(NormalizeString(query), SYNONYM_TABLE)
  }

  /** The loop of `generateSynonyms` over the entries of a synonym table. */
  method AppendSynonyms(query: string, table: seq<(string, seq<string>)>) returns (result: seq<string>)
    ensures result == [query] + MatchedValues(NormalizeString(query), table)
  {
    result := [query];
    var normalizedQuery := NormalizeString(query);
    for i := 0 to |table|
      invariant result == [query] + MatchedValues(normalizedQuery, table[..i])
    {
      var (key, values) := table[i];
      assert table[..i + 1][..i] == table[..i];
      if Contains(normalizedQuery, NormalizeString(key)) {
        result := result + values;
      }
    }
    assert table[..|table|] == table;
  }

  /** `generateSynonyms`. */
  method GenerateSynonyms(query: string) returns (result: seq<string>)
    ensures result == Synonyms(query)
  {
    result := AppendSynonyms(query, SYNONYM_TABLE);
  }

  /** A synonym is a value of an entry whose key the query contains, and every such value is one. */
  lemma {:induction false} MatchedValuesMembers(nq: string, entries: seq<(string, seq<string>)>, x: string)
    ensures x in MatchedValues(nq, entries) <==>
            exists k :: 0 <= k < |entries| && Contains(nq, NormalizeString(entries[k].0)) && x in entries[k].1
    decreases |entries|
  {
    if entries != [] {
      var init := entries[..|entries| - 1];
      MatchedValuesMembers(nq, init, x);
      if x in MatchedValues(nq, entries) && x !in MatchedValues(nq, init) {
        assert Contains(nq, NormalizeString(entries[|entries| - 1].0)) && x in entries[|entries| - 1].1;
      }
      if k :| 0 <= k < |entries| && Contains(nq, NormalizeString(entries[k].0)) && x in entries[k].1 {
        if k < |entries| - 1 {
          assert init[k] == entries[k];
        }
      }
    }
  }

  lemma SynonymsMembers(query: string, x: string)
    ensures x in Synonyms(query) <==>
            x == query ||
            exists k :: 0 <= k < |SYNONYM_TABLE| &&
                        Contains(NormalizeString(query), NormalizeString(SYNONYM_TABLE[k].0)) &&
                        x in SYNONYM_TABLE[k].1
  {
    MatchedValuesMembers(NormalizeString(query), SYNONYM_TABLE, x);
  }

  /* ---------------------------------------------------------------- district extraction */

  /** The three patterns tried in turn: `/750(\d{2})/`, `/(\d{1,2})(e|eme|ème|er)/` and
      `/(\d{1,2})\s*arrondissement/`. */
  datatype DistrictPattern = PostalCode | Ordinal | ArrondissementWord

  /** The greedy `\d{1,2}` at `i`: two digits, one, or none. A two-digit group whose suffix fails is
      never retried with one digit, because the suffix would then start on a digit, which none of the
      suffixes allows. */
  function DigitGroupAt(q: string, i: nat): (n: nat)
    ensures n <= 2 && (n > 0 ==> i + n <= |q|)
    ensures n > 0 ==> forall k :: i <= k < i + n ==> IsDigit(q[k])
  {
    if i + 1 < |q| && IsDigit(q[i]) && IsDigit(q[i + 1]) then 2
    else if i < |q| && IsDigit(q[i]) then 1
    else 0
  }

  /** The first index from `j` on that is not JavaScript white space: what the greedy `\s*` consumes. */
  function SkipWhitespace(q: string, j: nat): (k: nat)
    requires j <= |q|
    ensures j <= k <= |q|
    ensures k < |q| ==> !IsJsWhitespace(q[k])
    ensures forall m :: j <= m < k ==> IsJsWhitespace(q[m])
    decreases |q| - j
  {
    if j < |q| && IsJsWhitespace(q[j]) then SkipWhitespace(q, j + 1) else j
  }

  /** The pattern's suffix after the digit group, starting at `j`. The alternatives `e`, `eme`, `er`
      all start with `e`, so `e` or `ème` decides. */
  predicate SuffixAt(q: string, j: nat, pat: DistrictPattern)
  {
    match pat
    case PostalCode => false
    case Ordinal => j < |q| && (q[j] == 'e' || (j + 3 <= |q| && q[j..j + 3] == "\U{00E8}me"))
    case ArrondissementWord =>
      j <= |q| && StartsWith(q[SkipWhitespace(q, j)..], "arrondissement")
  }

  /** The number of digits the pattern captures when its match starts at `i`, 0 when it does not match
      there. */
  function CaptureAt(q: string, i: nat, pat: DistrictPattern): (n: nat)
    ensures n <= 2
  {
    match pat
    case PostalCode =>
      if i + 5 <= |q| && q[i..i + 3] == "750" && IsDigit(q[i + 3]) && IsDigit(q[i + 4]) then 2 else 0
    case _ =>
      var n := DigitGroupAt(q, i);
      if n > 0 && SuffixAt(q, i + n, pat) then n else 0
  }

  /** The leftmost match of the pattern from `from` on. */
  function FirstMatch(q: string, pat: DistrictPattern, from: nat): (r: Option<nat>)
    requires from <= |q|
    ensures r.Some? ==> from <= r.value < |q| && CaptureAt(q, r.value, pat) > 0
    ensures r.Some? ==> forall j :: from <= j < r.value ==> CaptureAt(q, j, pat) == 0
    ensures r.None? <==> forall j :: from <= j < |q| ==> CaptureAt(q, j, pat) == 0
    decreases |q| - from
  {
    if from == |q| then None
    else if CaptureAt(q, from, pat) > 0 then Some(from)
    else FirstMatch(q, pat, from + 1)
  }

  /** The digits the pattern captures at a position where it matches. */
  function Captured(q: string, i: nat, pat: DistrictPattern): (d: string)
    requires i < |q| && CaptureAt(q, i, pat) > 0
    ensures 1 <= |d| <= 2 && AllDigits(d)
  {
    if pat == PostalCode then q[i + 3..i + 5] else q[i..i + CaptureAt(q, i, pat)]
  }

  /** Two digits read with `parseInt` and written back: the number without its leading zero. */
  lemma PostalDigitsText(digits: string)
    requires |digits| == 2 && AllDigits(digits)
    ensures ParseIntText(digits) == NatToString(DigitsValue(digits))
    ensures 1 <= |ParseIntText(digits)| <= 2 && AllDigits(ParseIntText(digits))
  {
    ParseIntTextOfDigits(digits);
    assert DigitsValue(digits) < 100 by {
      assert DigitsValue(digits[..1]) < 10;
    }
    if DigitsValue(digits) >= 10 {
      NatToStringTwoDigits(DigitsValue(digits));
    }
  }

  /** `extractDistrictNumber`: the first pattern that matches anywhere decides; a postal code's two
      digits go through `parseInt(...).toString()`, which drops a leading zero. */
  function ExtractDistrictNumber(q: string): (r: Option<string>)
    ensures r.Some? ==> 1 <= |r.value| <= 2 && AllDigits(r.value)
    ensures r.None? <==> forall pat, i :: 0 <= i < |q| ==> CaptureAt(q, i, pat) == 0
  {
    match FirstMatch(q, PostalCode, 0)
    case Some(i) =>
      var digits := Captured(q, i, PostalCode);
      PostalDigitsText(digits);
      Some(ParseIntText(digits))
    case None =>
      match FirstMatch(q, Ordinal, 0)
      case Some(i) => Some(Captured(q, i, Ordinal))
      case None =>
        match FirstMatch(q, ArrondissementWord, 0)
        case Some(i) => Some(Captured(q, i, ArrondissementWord))
        case None =>
          assert forall pat, i :: 0 <= i < |q| ==> CaptureAt(q, i, pat) == 0 by {
            forall pat, i | 0 <= i < |q| ensures CaptureAt(q, i, pat) == 0 {
              if pat == PostalCode { assert CaptureAt(q, i, PostalCode) == 0; }
              else if pat == Ordinal { assert CaptureAt(q, i, Ordinal) == 0; }
              else { assert CaptureAt(q, i, ArrondissementWord) == 0; }
            }
          }
          None
  }

  /** A query without digits names no district. */
  lemma NoDigitsNoDistrict(q: string)
    requires forall i :: 0 <= i < |q| ==> !IsDigit(q[i])
    ensures ExtractDistrictNumber(q) == None
  {
    forall pat, i | 0 <= i < |q| ensures CaptureAt(q, i, pat) == 0 {
      assert DigitGroupAt(q, i) == 0;
    }
  }

  /** No character of the text is a digit. */
  predicate NoDigits(s: string)
  {
    forall i :: 0 <= i < |s| ==> !IsDigit(s[i])
  }

  /** Every pattern starts on a digit, so none matches at a position that holds another character. */
  lemma NoCaptureAtNonDigit(q: string, i: nat, pat: DistrictPattern)
    requires i < |q| && !IsDigit(q[i])
    ensures CaptureAt(q, i, pat) == 0
  {
    if pat == PostalCode && i + 5 <= |q| {
      assert q[i..i + 3][0] == q[i];
    }
  }

  /** The leftmost match is the one with no match before it. */
  lemma FirstMatchIs(q: string, pat: DistrictPattern, i: nat)
    requires i < |q| && CaptureAt(q, i, pat) > 0
    requires forall j :: 0 <= j < i ==> CaptureAt(q, j, pat) == 0
    ensures FirstMatch(q, pat, 0) == Some(i)
  {
    var r := FirstMatch(q, pat, 0);
    assert r.Some?;
    assert r.value >= i;
  }

  /** A postal code "750dd" after a text without the character 7 decides the district, whatever
      ordinal or "arrondissement" word comes before or after it: "3e 75015" names district 15. */
  lemma PostalCodeWins(p: string, dd: string, rest: string)
    requires '7' !in p
    requires |dd| == 2 && AllDigits(dd)
    ensures ExtractDistrictNumber(p + "750" + dd + rest) == Some(NatToString(DigitsValue(dd)))
  {
    var q := p + "750" + dd + rest;
    PostalCodeAt(p, dd, rest);
    FirstMatchIs(q, PostalCode, |p|);
    PostalDigitsText(dd);
  }

  /** The code after `p` is a match, its digits are `dd`, and no match starts inside `p`. */
  lemma PostalCodeAt(p: string, dd: string, rest: string)
    requires '7' !in p
    requires |dd| == 2 && AllDigits(dd)
    ensures var q := p + "750" + dd + rest;
            |p| < |q| && CaptureAt(q, |p|, PostalCode) > 0 && Captured(q, |p|, PostalCode) == dd &&
            forall j :: 0 <= j < |p| ==> CaptureAt(q, j, PostalCode) == 0
  {
    var q := p + "750" + dd + rest;
    var i := |p|;
    assert q[i..i + 3] == "750" && q[i + 3] == dd[0] && q[i + 4] == dd[1];
    assert q[i + 3..i + 5] == dd;
    forall j | 0 <= j < i ensures CaptureAt(q, j, PostalCode) == 0 {
      assert q[j] == p[j];
    }
  }

  /** Without a postal code, an ordinal `<d>e`, `<d>eme`, `<d>ème` or `<d>er` after a text without
      digits names district `d`, whatever follows it, another number before "arrondissement" included. */
  lemma OrdinalDistrict(p: string, d: string, suffix: string, rest: string)
    requires NoDigits(p)
    requires 1 <= |d| <= 2 && AllDigits(d)
    requires suffix == "e" || suffix == "eme" || suffix == "\U{00E8}me" || suffix == "er"
    requires !Contains(rest, "750")
    ensures ExtractDistrictNumber(p + d + suffix + rest) == Some(d)
  {
    NoPostalAroundOrdinal(p, d, suffix, rest);
    OrdinalAt(p, d, suffix, rest);
    FirstMatchIs(p + d + suffix + rest, Ordinal, |p|);
  }

  /** The ordinal after `p` is a match of the second pattern capturing `d`, and none starts earlier. */
  lemma OrdinalAt(p: string, d: string, suffix: string, rest: string)
    requires NoDigits(p)
    requires 1 <= |d| <= 2 && AllDigits(d)
    requires suffix == "e" || suffix == "eme" || suffix == "\U{00E8}me" || suffix == "er"
    ensures var q := p + d + suffix + rest;
            |p| < |q| && CaptureAt(q, |p|, Ordinal) > 0 && Captured(q, |p|, Ordinal) == d &&
            forall j :: 0 <= j < |p| ==> CaptureAt(q, j, Ordinal) == 0
  {
    var q := p + d + suffix + rest;
    var e := |p| + |d|;
    assert q[e] == suffix[0];
    assert DigitGroupAt(q, |p|) == |d| by {
      assert q[|p|] == d[0];
      if |d| == 2 { assert q[|p| + 1] == d[1]; }
    }
    if suffix == "\U{00E8}me" {
      assert q[e..e + 3] == suffix;
    }
    assert q[|p|..e] == d;
    forall j | 0 <= j < |p| ensures CaptureAt(q, j, Ordinal) == 0 {
      assert q[j] == p[j];
      NoCaptureAtNonDigit(q, j, Ordinal);
    }
  }

  lemma NoPostalAroundOrdinal(p: string, d: string, suffix: string, rest: string)
    requires NoDigits(p)
    requires 1 <= |d| <= 2 && AllDigits(d)
    requires suffix == "e" || suffix == "eme" || suffix == "\U{00E8}me" || suffix == "er"
    requires !Contains(rest, "750")
    ensures forall j :: 0 <= j < |p + d + suffix + rest| ==> CaptureAt(p + d + suffix + rest, j, PostalCode) == 0
  {
    var q := p + d + suffix + rest;
    var e := |p| + |d|;
    var off := e + |suffix|;
    assert q[e] == suffix[0];
    forall j | 0 <= j < |q| ensures CaptureAt(q, j, PostalCode) == 0 {
      if j < |p| {
        assert q[j] == p[j];
        NoCaptureAtNonDigit(q, j, PostalCode);
      } else if j < e {
      } else if j < off {
        assert q[j] == suffix[j - e];
        NoCaptureAtNonDigit(q, j, PostalCode);
      } else if j + 5 <= |q| && q[j..j + 3] == "750" {
        assert rest[j - off..j - off + 3] == q[j..j + 3];
        ContainsAt(rest, "750", j - off);
      }
    }
  }

  /** Without a postal code or an ordinal, digits followed by white space and the word "arrondissement"
      name the district: with no other digit in the query, `<d> arrondissement` names district `d`. */
  lemma ArrondissementDistrict(p: string, d: string, sp: string, rest: string)
    requires NoDigits(p) && NoDigits(rest)
    requires 1 <= |d| <= 2 && AllDigits(d)
    requires forall i :: 0 <= i < |sp| ==> IsJsWhitespace(sp[i])
    ensures ExtractDistrictNumber(p + d + sp + "arrondissement" + rest) == Some(d)
  {
    var q := p + d + sp + "arrondissement" + rest;
    NoPostalNorOrdinal(p, d, sp, rest);
    ArrondissementAt(p, d, sp, rest);
    FirstMatchIs(q, ArrondissementWord, |p|);
  }

  lemma NoPostalNorOrdinal(p: string, d: string, sp: string, rest: string)
    requires NoDigits(p) && NoDigits(rest)
    requires 1 <= |d| <= 2 && AllDigits(d)
    requires forall i :: 0 <= i < |sp| ==> IsJsWhitespace(sp[i])
    ensures var q := p + d + sp + "arrondissement" + rest;
            forall j :: 0 <= j < |q| ==> CaptureAt(q, j, PostalCode) == 0 && CaptureAt(q, j, Ordinal) == 0
  {
    var q := p + d + sp + "arrondissement" + rest;
    DigitsOnlyInGroup(p, d, sp, rest);
    forall j | 0 <= j < |q| ensures CaptureAt(q, j, PostalCode) == 0 && CaptureAt(q, j, Ordinal) == 0 {
      if !IsDigit(q[j]) {
        NoCaptureAtNonDigit(q, j, PostalCode);
        NoCaptureAtNonDigit(q, j, Ordinal);
      } else {
        NoOrdinalOrPostalInGroup(q, |p|, |p| + |d|, j);
      }
    }
  }

  /** Inside a group of at most two digits followed by neither `e` nor `è`, neither a postal code nor an
      ordinal starts. */
  lemma NoOrdinalOrPostalInGroup(q: string, lo: nat, e: nat, j: nat)
    requires lo <= j < e < |q| && e - lo <= 2
    requires forall k :: 0 <= k < |q| ==> (IsDigit(q[k]) <==> lo <= k < e)
    requires q[e] != 'e' && q[e] != '\U{00E8}'
    ensures CaptureAt(q, j, PostalCode) == 0 && CaptureAt(q, j, Ordinal) == 0
  {
    if j + 5 <= |q| {
      assert !IsDigit(q[j + 2]);
      assert q[j..j + 3][2] == q[j + 2];
    }
    var n := DigitGroupAt(q, j);
    if n > 0 {
      assert j + n == e;
      if e + 3 <= |q| {
        assert q[e..e + 3][0] == q[e];
      }
    }
  }

  /** The word "arrondissement" after `<d>` and white space is a match of the third pattern capturing
      `d`, and no match of it starts earlier. */
  lemma ArrondissementAt(p: string, d: string, sp: string, rest: string)
    requires NoDigits(p) && NoDigits(rest)
    requires 1 <= |d| <= 2 && AllDigits(d)
    requires forall i :: 0 <= i < |sp| ==> IsJsWhitespace(sp[i])
    ensures var q := p + d + sp + "arrondissement" + rest;
            |p| < |q| && CaptureAt(q, |p|, ArrondissementWord) > 0 &&
            Captured(q, |p|, ArrondissementWord) == d &&
            forall j :: 0 <= j < |p| ==> CaptureAt(q, j, ArrondissementWord) == 0
  {
    var q := p + d + sp + "arrondissement" + rest;
    var e := |p| + |d|;
    DigitsOnlyInGroup(p, d, sp, rest);
    assert q[e + |sp|] == 'a';
    assert DigitGroupAt(q, |p|) == |d|;
    assert SkipWhitespace(q, e) == e + |sp|;
    assert q[e + |sp|..][..14] == "arrondissement";
    assert q[|p|..e] == d;
    forall j | 0 <= j < |p| ensures CaptureAt(q, j, ArrondissementWord) == 0 {
      NoCaptureAtNonDigit(q, j, ArrondissementWord);
    }
  }

  /** In `<p><d><sp>arrondissement<rest>` the only digits are those of `d`, and the character after
      them is white space or the word's first letter. */
  lemma DigitsOnlyInGroup(p: string, d: string, sp: string, rest: string)
    requires NoDigits(p) && NoDigits(rest)
    requires 1 <= |d| <= 2 && AllDigits(d)
    requires forall i :: 0 <= i < |sp| ==> IsJsWhitespace(sp[i])
    ensures var q := p + d + sp + "arrondissement" + rest;
            forall j :: 0 <= j < |q| ==> (IsDigit(q[j]) <==> |p| <= j < |p| + |d|)
    ensures var q := p + d + sp + "arrondissement" + rest;
            q[|p| + |d|] != 'e' && q[|p| + |d|] != '\U{00E8}' && !IsJsWhitespace(q[|p| + |d| + |sp|])
  {
    var q := p + d + sp + "arrondissement" + rest;
    var w := "arrondissement";
    var a := |p| + |d| + |sp|;
    forall j | 0 <= j < |q| ensures IsDigit(q[j]) <==> |p| <= j < |p| + |d| {
      if j < |p| { assert q[j] == p[j]; }
      else if j < |p| + |d| { assert q[j] == d[j - |p|]; }
      else if j < a { assert q[j] == sp[j - |p| - |d|]; }
      else if j < a + |w| { assert q[j] == w[j - a]; }
      else { assert q[j] == rest[j - a - |w|]; }
    }
    assert q[a] == 'a';
    if |sp| > 0 { assert q[|p| + |d|] == sp[0]; }
  }

  /** "3e 75015": the postal code wins over the ordinal before it. */
  lemma PostalCodeBeatsOrdinal()
    ensures ExtractDistrictNumber("3e 75015") == Some("15")
  {
    assert "3e " + "750" + "15" + "" == "3e 75015";
    PostalCodeWins("3e ", "15", "");
    FifteenText();
  }

  /** The digits "15" read back as "15". */
  lemma FifteenText()
    ensures NatToString(DigitsValue("15")) == "15"
  {
    assert DigitsValue("15") == 15 by {
      assert "15"[..1] == "1";
    }
    assert NatToString(15) == NatToString(1) + [DigitChar(5)];
  }

  /** An ordinal wins over an "arrondissement" word after it: "15e 3 arrondissement" names district 15. */
  lemma OrdinalBeatsArrondissement(d: string, n: string)
    requires 1 <= |d| <= 2 && AllDigits(d)
    requires 1 <= |n| <= 2 && AllDigits(n)
    ensures ExtractDistrictNumber(d + "e " + n + " arrondissement") == Some(d)
  {
    var rest := " " + n + " arrondissement";
    NumberWordNoPostal(n);
    assert d + "e " + n + " arrondissement" == "" + d + "e" + rest;
    OrdinalDistrict("", d, "e", rest);
  }

  /** " <n> arrondissement" holds at most two digits in a row, so no "750". */
  lemma NumberWordNoPostal(n: string)
    requires 1 <= |n| <= 2 && AllDigits(n)
    ensures !Contains(" " + n + " arrondissement", "750")
  {
    var rest := " " + n + " arrondissement";
    assert forall k :: 0 <= k < |rest| && IsDigit(rest[k]) ==> 1 <= k <= |n|;
    forall i: nat ensures !OccursAt(rest, "750", i) {
      if i + 3 <= |rest| {
        assert rest[i..i + 3][0] == rest[i];
        assert rest[i..i + 3][2] == rest[i + 2];
      }
    }
    ContainsIff(rest, "750");
  }

  /* ---------------------------------------------------------------- district membership */

  /** `isSpotInDistrict`. */
  predicate IsSpotInDistrict(spot: Spot, districtNumber: string)
  {
    var spotDistrict := NormalizeString(DistrictString(spot.district));
    Contains(spotDistrict, "750" + PadStart2(districtNumber)) ||
    Contains(spotDistrict, districtNumber + "e arrondissement") ||
    Contains(spotDistrict, districtNumber + "eme arrondissement") ||
    Contains(spotDistrict, districtNumber + "\U{00E8}me arrondissement")
  }

  lemma ContainsOnlyChars(s: string, t: string, c: char)
    requires c in t && c !in s
    ensures !Contains(s, t)
  {
    ContainsIff(s, t);
  }

  /** The `ème` form can never be found, since normalisation has already turned `è` into `e`: a spot is
      in the district exactly when the postal code, the `e` form or the `eme` form occurs. */
  lemma IsSpotInDistrictWithoutGraveForm(spot: Spot, districtNumber: string)
    ensures IsSpotInDistrict(spot, districtNumber) <==>
            var spotDistrict := NormalizeString(DistrictString(spot.district));
            Contains(spotDistrict, "750" + PadStart2(districtNumber)) ||
            Contains(spotDistrict, districtNumber + "e arrondissement") ||
            Contains(spotDistrict, districtNumber + "eme arrondissement")
  {
    var spotDistrict := NormalizeString(DistrictString(spot.district));
    var t := districtNumber + "\U{00E8}me arrondissement";
    assert t[|districtNumber|] == '\U{00E8}';
    assert !IsNormalized('\U{00E8}');
    ContainsOnlyChars(spotDistrict, t, '\U{00E8}');
  }

  /** `removeDistrictKeywords`' test: the keyword mentions "arrondissement" or is a bare district
      number, an ordinal `<n>e`, `<n>eme`, `<n>ème`, or a Paris postal code. */
  predicate IsDistrictKeyword(k: string)
  {
    Contains(k, "arrondissement") ||
    DigitsThen(k, "") || DigitsThen(k, "e") || DigitsThen(k, "eme") || DigitsThen(k, "\U{00E8}me") ||
    (|k| == 5 && k[..3] == "750" && IsDigit(k[3]) && IsDigit(k[4]))
  }

  /** `^\d{1,2}<suffix>$`. */
  predicate DigitsThen(k: string, suffix: string)
  {
    (|k| >= 1 && IsDigit(k[0]) && k[1..] == suffix) ||
    (|k| >= 2 && IsDigit(k[0]) && IsDigit(k[1]) && k[2..] == suffix)
  }

  /** `removeDistrictKeywords`. */
  function RemoveDistrictKeywords(keywords: seq<string>): (r: seq<string>)
    ensures SubseqOf(r, keywords)
    ensures forall k :: k in r <==> k in keywords && !IsDistrictKeyword(k)
  {
    Filter(k => !IsDistrictKeyword(k), keywords)
  }

  /* ---------------------------------------------------------------- search */

  /** The normalised text a spot is searched in: its category in French, name, type, address, district,
      category label and model, space separated. */
  function SearchableText(spot: Spot): string
  {
    NormalizeString(Join([TranslateCategoryToFrench(spot.category), OrEmpty(spot.name),
                          OrEmpty(spot.spotType), OrEmpty(spot.address), DistrictString(spot.district),
                          OrEmpty(spot.categoryLabel), OrEmpty(spot.model)], ' '))
  }

  /** What the query asks for once it is read: the normalised phrase, the district number if any, and
      the content keywords that must each be found. */
  datatype QueryPlan = QueryPlan(phrase: string, district: Option<string>, content: seq<string>)

  function Keywords(normalizedQuery: string): (r: seq<string>)
    ensures forall k :: k in r ==> k != "" && ' ' !in k
  {
    Filter((k: string) => |k| > 0, Split(normalizedQuery, ' '))
  }

  function PlanOf(query: string): (plan: QueryPlan)
    ensures plan.district.Some? ==> forall k :: k in plan.content ==> !IsDistrictKeyword(k)
    ensures forall k :: k in plan.content ==> k != ""
  {
    var originalQuery := Trim(query);
    var normalizedQuery := NormalizeString(originalQuery);
    var keywords := Keywords(normalizedQuery);
    var districtNumber := ExtractDistrictNumber(originalQuery);
    QueryPlan(normalizedQuery, districtNumber,
              if districtNumber.Some? then RemoveDistrictKeywords(keywords) else keywords)
  }

  /** A keyword is found when one of its non-empty normalised variations occurs in the text. */
  predicate KeywordFound(text: string, keyword: string)
  {
    var variations := Synonyms(keyword);
    exists i :: 0 <= i < |variations| && NormalizeString(variations[i]) != "" &&
                Contains(text, NormalizeString(variations[i]))
  }

  /** The per-spot decision of `searchSpots`. */
  predicate Matches(spot: Spot, plan: QueryPlan)
  {
    var text := SearchableText(spot);
    Contains(text, plan.phrase) ||
    ((plan.district.None? || IsSpotInDistrict(spot, plan.district.value)) &&
     if |plan.content| > 0 then forall k :: k in plan.content ==> KeywordFound(text, k)
     else plan.district.Some?)
  }

  /** `searchSpots`: a blank query returns every spot; otherwise the spots the plan accepts, in their
      original order. */
  function SearchSpots(spots: seq<Spot>, query: string): (r: seq<Spot>)
    ensures Trim(query) == "" ==> r == spots
    ensures SubseqOf(r, spots)
    ensures Trim(query) != "" ==> forall s :: s in r <==> s in spots && Matches(s, PlanOf(query))
  {
    if Trim(query) == "" then
      SubseqOfSelf(spots);
      spots
    else
      var plan := PlanOf(query);
      Filter(s => Matches(s, plan), spots)
  }

  /* ---------------------------------------------------------------- properties of the search */

  /** Searching a concatenation searches each part: the decision about a spot depends on that spot alone. */
  lemma SearchAppend(a: seq<Spot>, b: seq<Spot>, query: string)
    ensures SearchSpots(a + b, query) == SearchSpots(a, query) + SearchSpots(b, query)
  {
    if Trim(query) != "" {
      var plan := PlanOf(query);
      FilterAppend(s => Matches(s, plan), a, b);
    }
  }

  /** A query whose normalised form is empty (only combining marks, say) keeps every spot, since the
      empty phrase occurs in every text. */
  lemma EmptyPhraseKeepsAll(spots: seq<Spot>, query: string)
    requires NormalizeString(Trim(query)) == ""
    ensures SearchSpots(spots, query) == spots
  {
    if Trim(query) != "" {
      var plan := PlanOf(query);
      forall i | 0 <= i < |spots| ensures Matches(spots[i], plan) {
        assert StartsWith(SearchableText(spots[i]), "");
      }
      FilterAllPass(s => Matches(s, plan), spots);
    }
  }

  /** Without digits in the query, the search sees the query only through its normalised form: two
      queries that differ in letter case or accents return the same spots. */
  lemma SearchIgnoresCaseAndAccents(spots: seq<Spot>, q1: string, q2: string)
    requires forall i :: 0 <= i < |Trim(q1)| ==> !IsDigit(Trim(q1)[i])
    requires forall i :: 0 <= i < |Trim(q2)| ==> !IsDigit(Trim(q2)[i])
    requires NormalizeString(Trim(q1)) == NormalizeString(Trim(q2))
    ensures SearchSpots(spots, q1) == SearchSpots(spots, q2)
  {
    if Trim(q1) == "" || Trim(q2) == "" {
      EmptyPhraseKeepsAll(spots, q1);
      EmptyPhraseKeepsAll(spots, q2);
    } else {
      NoDigitsNoDistrict(Trim(q1));
      NoDigitsNoDistrict(Trim(q2));
      assert PlanOf(q1) == PlanOf(q2);
    }
  }

  /** A query that names a district and nothing else keeps exactly the spots of that district, together
      with the spots whose text contains the query itself. */
  lemma DistrictOnlyQuery(spots: seq<Spot>, query: string, d: string, s: Spot)
    requires Trim(query) != ""
    requires ExtractDistrictNumber(Trim(query)) == Some(d)
    requires forall k :: k in Keywords(NormalizeString(Trim(query))) ==> IsDistrictKeyword(k)
    ensures s in SearchSpots(spots, query) <==>
            s in spots &&
            (Contains(SearchableText(s), NormalizeString(Trim(query))) || IsSpotInDistrict(s, d))
  {
  }

  /** `DistrictOnlyQuery` for a query that is already trimmed and normalised. */
  lemma DistrictOnlyNormalQuery(spots: seq<Spot>, q: string, d: string, s: Spot)
    requires q != [] && Trim(q) == q && NormalizeString(q) == q
    requires ExtractDistrictNumber(q) == Some(d)
    requires forall k :: k in Keywords(q) ==> IsDistrictKeyword(k)
    ensures s in SearchSpots(spots, q) <==>
            s in spots && (Contains(SearchableText(s), q) || IsSpotInDistrict(s, d))
  {
    DistrictOnlyQuery(spots, q, d, s);
  }

  /** A word with no white space at either end is its own trim. */
  lemma TrimWord(w: string)
    requires w != [] && !IsJsWhitespace(w[0]) && !IsJsWhitespace(w[|w| - 1])
    ensures Trim(w) == w
  {
  }

  /** A single word is its own only keyword. */
  lemma KeywordsOfWord(w: string)
    requires w != [] && ' ' !in w
    ensures Keywords(w) == [w]
  {
    SplitJoin([w], ' ');
    assert Join([w], ' ') == w;
  }

  /** A Paris postal code names the district its last two digits give, read as a number. */
  lemma PostalCodeDistrict(dd: string)
    requires |dd| == 2 && AllDigits(dd)
    ensures ExtractDistrictNumber("750" + dd) == Some(NatToString(DigitsValue(dd)))
  {
    var q := "750" + dd;
    assert q[0..3] == "750" && q[3..5] == dd;
    assert CaptureAt(q, 0, PostalCode) == 2;
    assert FirstMatch(q, PostalCode, 0) == Some(0);
    PostalDigitsText(dd);
  }

  lemma PostalCodeText(dd: string)
    requires |dd| == 2 && AllDigits(dd)
    ensures var q := "750" + dd;
            Trim(q) == q && NormalizeString(q) == q && Keywords(q) == [q] && IsDistrictKeyword(q)
  {
    var q := "750" + dd;
    assert q[|q| - 1] == dd[1];
    TrimWord(q);
    assert forall i :: 0 <= i < |q| ==> IsDigit(q[i]);
    NormalizeNormalized(q);
    assert ' ' !in q;
    KeywordsOfWord(q);
    assert q[..3] == "750";
  }

  /** Searching a Paris postal code keeps exactly the spots of its district, together with the spots
      whose text contains the code itself. */
  lemma PostalCodeQuery(spots: seq<Spot>, dd: string, s: Spot)
    requires |dd| == 2 && AllDigits(dd)
    ensures s in SearchSpots(spots, "750" + dd) <==>
            s in spots &&
            (Contains(SearchableText(s), "750" + dd) || IsSpotInDistrict(s, NatToString(DigitsValue(dd))))
  {
    PostalCodeText(dd);
    PostalCodeDistrict(dd);
    DistrictOnlyQuery(spots, "750" + dd, NatToString(DigitsValue(dd)), s);
  }

  /** The query "<n>e arrondissement" is its own trim and its own normal form, names district `n`, and
      holds only district words. */
  lemma OrdinalQueryText(n: string)
    requires 1 <= |n| <= 2 && AllDigits(n)
    ensures var q := n + "e arrondissement";
            Trim(q) == q && NormalizeString(q) == q && ExtractDistrictNumber(q) == Some(n) &&
            forall k :: k in Keywords(q) ==> IsDistrictKeyword(k)
  {
    OrdinalQueryNormal(n);
    OrdinalQueryDistrict(n);
    OrdinalKeywords(n);
    OrdinalWordIsDistrictWord(n);
    ArrondissementIsDistrictWord();
  }

  lemma OrdinalQueryDistrict(n: string)
    requires 1 <= |n| <= 2 && AllDigits(n)
    ensures ExtractDistrictNumber(n + "e arrondissement") == Some(n)
  {
    var w := " arrondissement";
    assert NoDigits(w);
    assert n + "e arrondissement" == n + "e" + w;
    OrdinalThenWords(n, w);
  }

  /** An ordinal `<n>e` followed by text without digits names district `n`. */
  lemma OrdinalThenWords(n: string, w: string)
    requires 1 <= |n| <= 2 && AllDigits(n)
    requires NoDigits(w)
    ensures ExtractDistrictNumber(n + "e" + w) == Some(n)
  {
    NoDigitsNoPostal(w);
    assert n + "e" + w == "" + n + "e" + w;
    OrdinalDistrict("", n, "e", w);
  }

  lemma NoDigitsNoPostal(w: string)
    requires NoDigits(w)
    ensures !Contains(w, "750")
  {
    forall i: nat ensures !OccursAt(w, "750", i) {
      if i + 3 <= |w| {
        assert w[i..i + 3][0] == w[i];
      }
    }
    ContainsIff(w, "750");
  }

  lemma OrdinalQueryNormal(n: string)
    requires 1 <= |n| <= 2 && AllDigits(n)
    ensures Trim(n + "e arrondissement") == n + "e arrondissement"
    ensures NormalizeString(n + "e arrondissement") == n + "e arrondissement"
  {
    var q := n + "e arrondissement";
    assert q[0] == n[0] && q[|q| - 1] == 't';
    TrimWord(q);
    forall i | 0 <= i < |q| ensures IsNormalized(q[i]) {
      if i < |n| {
        assert IsDigit(q[i]);
      } else {
        assert 'a' <= q[i] <= 'z' || q[i] == ' ';
      }
      PlainCharNormalized(q[i]);
    }
    NormalizeNormalized(q);
  }

  /** Digits, the space and the ASCII lower-case letters are left as they are by normalisation. */
  lemma PlainCharNormalized(c: char)
    requires IsDigit(c) || c == ' ' || 'a' <= c <= 'z'
    ensures IsNormalized(c)
  {
  }

  lemma OrdinalKeywords(n: string)
    requires 1 <= |n| <= 2 && AllDigits(n)
    ensures forall k :: k in Keywords(n + "e arrondissement") ==> k == n + "e" || k == "arrondissement"
  {
    var ws := [n + "e", "arrondissement"];
    assert ws[1..] == ["arrondissement"];
    assert Join(ws, ' ') == (n + "e") + [' '] + "arrondissement";
    assert (n + "e") + [' '] + "arrondissement" == n + "e arrondissement";
    SplitJoin(ws, ' ');
  }

  lemma OrdinalWordIsDistrictWord(n: string)
    requires 1 <= |n| <= 2 && AllDigits(n)
    ensures IsDistrictKeyword(n + "e")
  {
    assert (n + "e")[1..] == n[1..] + "e";
  }

  lemma ArrondissementIsDistrictWord()
    ensures IsDistrictKeyword("arrondissement")
  {
    assert StartsWith("arrondissement", "arrondissement");
  }

  /** Searching "<n>e arrondissement" keeps exactly the spots of district `n`, together with the spots
      whose text contains the query itself. */
  lemma OrdinalQuery(spots: seq<Spot>, q: string, n: string, s: Spot)
    requires 1 <= |n| <= 2 && AllDigits(n)
    requires q == n + "e arrondissement"
    ensures s in SearchSpots(spots, q) <==>
            s in spots && (Contains(SearchableText(s), q) || IsSpotInDistrict(s, n))
  {
    OrdinalQueryText(n);
    DistrictOnlyNormalQuery(spots, q, n, s);
  }

  /** The postal code "750dd" and the ordinal query of the same district ("75015" and "15e arrondissement",
      "75005" and "5e arrondissement") keep the same spots, except a spot whose searchable text contains
      one of the two queries word for word: the whole-phrase test comes before the district test, so such
      a spot is kept by that query alone. */
  lemma PostalAndOrdinalAgree(spots: seq<Spot>, dd: string, s: Spot)
    requires |dd| == 2 && AllDigits(dd)
    requires !Contains(SearchableText(s), "750" + dd)
    requires !Contains(SearchableText(s), NatToString(DigitsValue(dd)) + "e arrondissement")
    ensures s in SearchSpots(spots, "750" + dd) <==>
            s in SearchSpots(spots, NatToString(DigitsValue(dd)) + "e arrondissement")
  {
    PostalDigitsText(dd);
    PostalCodeQuery(spots, dd, s);
    OrdinalQuery(spots, NatToString(DigitsValue(dd)) + "e arrondissement", NatToString(DigitsValue(dd)), s);
  }

  lemma PostalCodeAllDigits(n: string)
    requires AllDigits(n)
    ensures AllDigits("750" + PadStart2(n))
  {
    var p := PadStart2(n);
    forall i | 0 <= i < |p| ensures IsDigit(p[i]) {
      if i >= |p| - |n| {
        assert p[i] == p[|p| - |n|..][i - (|p| - |n|)];
      }
    }
  }

  /** Digits are left as they are by normalisation. */
  lemma NormalizeDigits(s: string)
    requires AllDigits(s)
    ensures NormalizeString(s) == s
  {
    forall i | 0 <= i < |s| ensures IsNormalized(s[i]) {
      assert IsDigit(s[i]);
    }
    NormalizeNormalized(s);
  }

  /** A spot whose district text is the Paris postal code of a district is in that district. */
  lemma PostalCodeInDistrict(spot: Spot, n: string)
    requires AllDigits(n)
    requires spot.district == Some(DistrictText("750" + PadStart2(n)))
    ensures IsSpotInDistrict(spot, n)
  {
    var code := "750" + PadStart2(n);
    PostalCodeAllDigits(n);
    NormalizeDigits(code);
    assert StartsWith(code, code);
  }

  /** A fountain whose commune is a district label is in that district. */
  lemma LabelledFountainInDistrict(item: FountainData, d: string, suffix: string)
    requires 1 <= |d| <= 2 && AllDigits(d)
    requires suffix == "ER" || suffix == "EME"
    requires AsciiUpperSeq(item.commune) == ParisLabel(d, suffix)
    ensures IsSpotInDistrict(FountainToSpot(item), NatToString(DigitsValue(d)))
  {
    TransformDistrictOfLabel(item.commune, d, suffix);
    PostalCodeInDistrict(FountainToSpot(item), NatToString(DigitsValue(d)));
  }

  /** A query of one word without digits is searched as its normalised phrase, with no district and
      with that phrase as its only keyword. */
  lemma OneWordPlan(query: string)
    requires Trim(query) == query && NormalizeString(query) != "" && ' ' !in NormalizeString(query)
    requires forall i :: 0 <= i < |query| ==> !IsDigit(query[i])
    ensures PlanOf(query) == QueryPlan(NormalizeString(query), None, [NormalizeString(query)])
  {
    NoDigitsNoDistrict(query);
    KeywordsOfWord(NormalizeString(query));
  }

  /** A keyword is found in a text that contains one of its non-empty normalised variations. */
  lemma KeywordFoundByVariation(text: string, keyword: string, v: string)
    requires v in Synonyms(keyword)
    requires NormalizeString(v) != "" && Contains(text, NormalizeString(v))
    ensures KeywordFound(text, keyword)
  {
    var variations := Synonyms(keyword);
    var i :| 0 <= i < |variations| && variations[i] == v;
  }

  /** A plan with no district whose one keyword is its phrase accepts a spot in which the keyword is
      found. */
  lemma MatchesOneWord(spot: Spot, keyword: string)
    requires KeywordFound(SearchableText(spot), keyword)
    ensures Matches(spot, QueryPlan(keyword, None, [keyword]))
  {
  }

  /** A query read as one keyword with no district keeps a spot in which that keyword is found. */
  lemma OneWordQueryFinds(spots: seq<Spot>, query: string, spot: Spot)
    requires Trim(query) != ""
    requires PlanOf(query) == QueryPlan(NormalizeString(query), None, [NormalizeString(query)])
    requires KeywordFound(SearchableText(spot), NormalizeString(query))
    requires spot in spots
    ensures spot in SearchSpots(spots, query)
  {
    MatchesOneWord(spot, NormalizeString(query));
  }

  /** The values of a table entry whose key a query contains are variations of the normalised query. */
  lemma SynonymOfKey(query: string, k: int, v: string)
    requires 0 <= k < |SYNONYM_TABLE| && v in SYNONYM_TABLE[k].1
    requires Contains(NormalizeString(query), NormalizeString(SYNONYM_TABLE[k].0))
    ensures v in Synonyms(NormalizeString(query))
  {
    NormalizeIdempotent(query);
    SynonymsMembers(NormalizeString(query), v);
  }

  /** Synonym expansion: a one-word query finds a spot whose text contains a synonym of a table key the
      query contains. */
  lemma SynonymFound(spots: seq<Spot>, query: string, k: int, v: string, spot: Spot)
    requires Trim(query) == query && NormalizeString(query) != "" && ' ' !in NormalizeString(query)
    requires forall i :: 0 <= i < |query| ==> !IsDigit(query[i])
    requires 0 <= k < |SYNONYM_TABLE| && v in SYNONYM_TABLE[k].1
    requires Contains(NormalizeString(query), NormalizeString(SYNONYM_TABLE[k].0))
    requires NormalizeString(v) != "" && Contains(SearchableText(spot), NormalizeString(v))
    requires spot in spots
    ensures spot in SearchSpots(spots, query)
  {
    SynonymOfKey(query, k, v);
    KeywordFoundByVariation(SearchableText(spot), NormalizeString(query), v);
    OneWordPlan(query);
    OneWordQueryFinds(spots, query, spot);
  }
}
