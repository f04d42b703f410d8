/** The Unicode library calls the core uses, restricted to the letters French text needs:
    `toLowerCase`/`toUpperCase` on ASCII, Latin-1 and Œ/Ÿ, and canonical decomposition (Normalization
    Form D of Unicode Standard Annex #15) followed by removal of the combining marks U+0300–U+036F,
    which on a lower-case precomposed letter leaves its base letter. */
module TextCase {

  predicate IsUpperLetter(c: char)
  {
    'A' <= c <= 'Z' || ('\U{00C0}' <= c <= '\U{00DE}' && c != '\U{00D7}') || c == '\U{0152}' || c == '\U{0178}'
  }

  predicate IsLowerLetter(c: char)
  {
    'a' <= c <= 'z' || ('\U{00E0}' <= c <= '\U{00FE}' && c != '\U{00F7}') || c == '\U{0153}' || c == '\U{00FF}'
  }

  /** `toLowerCase` of one character. */
  function LowerChar(c: char): (r: char)
    ensures IsUpperLetter(c) ==> IsLowerLetter(r)
    ensures !IsUpperLetter(c) ==> r == c
  {
    if 'A' <= c <= 'Z' || ('\U{00C0}' <= c <= '\U{00DE}' && c != '\U{00D7}') then (c as int + 32) as char
    else if c == '\U{0152}' then '\U{0153}'
    else if c == '\U{0178}' then '\U{00FF}'
    else c
  }

  /** `toUpperCase` of one character (one-to-many mappings such as ß are not modelled). */
  function UpperChar(c: char): (r: char)
    ensures IsLowerLetter(c) ==> IsUpperLetter(r)
    ensures !IsLowerLetter(c) ==> r == c
  {
    if 'a' <= c <= 'z' || ('\U{00E0}' <= c <= '\U{00FE}' && c != '\U{00F7}') then (c as int - 32) as char
    else if c == '\U{0153}' then '\U{0152}'
    else if c == '\U{00FF}' then '\U{0178}'
    else c
  }

  /** Lower-casing an upper-cased character gives the character's lower case. */
  lemma LowerUpper(c: char)
    ensures LowerChar(UpperChar(c)) == LowerChar(c)
  {
  }

  /** Upper-casing depends only on the lower case. */
  lemma UpperLower(c: char)
    ensures UpperChar(LowerChar(c)) == UpperChar(c)
  {
  }

  lemma LowerIdempotent(c: char)
    ensures LowerChar(LowerChar(c)) == LowerChar(c)
  {
  }

  /** `s.toLowerCase()`. */
  function LowerSeq(s: string): (r: string)
    ensures |r| == |s|
  {
    seq(|s|, i requires 0 <= i < |s| => LowerChar(s[i]))
  }

  predicate IsLowerCased(s: string)
  {
    forall i :: 0 <= i < |s| ==> LowerChar(s[i]) == s[i]
  }

  lemma LowerSeqIsLowerCased(s: string)
    ensures IsLowerCased(LowerSeq(s))
  {
    forall i | 0 <= i < |s| ensures LowerChar(LowerSeq(s)[i]) == LowerSeq(s)[i] {
      LowerIdempotent(s[i]);
    }
  }

  lemma LowerSeqAppend(a: string, b: string)
    ensures LowerSeq(a + b) == LowerSeq(a) + LowerSeq(b)
  {
  }

  /** A combining diacritical mark, the range `/[̀-ͯ]/` removes. */
  predicate IsCombiningMark(c: char)
  {
    '\U{0300}' <= c <= '\U{036F}'
  }

  /** The base letter Normalization Form D leaves of a lower-case precomposed Latin-1 letter once its
      combining marks are removed; every other character is left as it is. */
  function StripAccent(c: char): char
  {
    if '\U{00E0}' <= c <= '\U{00E5}' then 'a'
    else if c == '\U{00E7}' then 'c'
    else if '\U{00E8}' <= c <= '\U{00EB}' then 'e'
    else if '\U{00EC}' <= c <= '\U{00EF}' then 'i'
    else if c == '\U{00F1}' then 'n'
    else if '\U{00F2}' <= c <= '\U{00F6}' then 'o'
    else if '\U{00F9}' <= c <= '\U{00FC}' then 'u'
    else if c == '\U{00FD}' || c == '\U{00FF}' then 'y'
    else c
  }

  /** A character that normalisation leaves unchanged. */
  predicate IsNormalized(c: char)
  {
    LowerChar(c) == c && StripAccent(c) == c && !IsCombiningMark(c)
  }

  /** Normalising a character that survives mark removal gives a normalised character. */
  lemma NormalizedChar(c: char)
    requires !IsCombiningMark(c)
    ensures IsNormalized(StripAccent(LowerChar(c)))
  {
  }
}
