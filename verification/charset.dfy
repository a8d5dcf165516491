/** Character-set decisions for subtitle files (`SubtitleEncoder`): the
    byte-order-mark sniff over the first five bytes (`GetFileEncoding`), its
    combination with a statistical detector's answer
    (`GetSubtitleFileCharacterSet`), the static language-to-codepage table
    (`GetSubtitleFileCharacterSetFromLanguage`) and the encoder's
    `-sub_charenc` argument. The statistical detector is an oracle: its
    answer, or `null` when it failed, is an input. */
module Charset {
  import opened DotNet

  type Byte = b: int | 0 <= b < 256

  /** The encodings the sniff can return; `Unicode` is what `GetFileEncoding`
      returns for an `FE FF` mark, and `SystemDefault` stands for
      `Encoding.Default`, which `GetFileEncoding` assumes is not UTF-8. */
  datatype FileEncoding = Utf8 | Unicode | Utf32 | Utf7 | SystemDefault

  const Utf8Bom: seq<Byte> := [0xEF, 0xBB, 0xBF]
  const Utf16Bom: seq<Byte> := [0xFE, 0xFF]
  const Utf32Bom: seq<Byte> := [0x00, 0x00, 0xFE, 0xFF]
  const Utf7Bom: seq<Byte> := [0x2B, 0x2F, 0x76]

  predicate StartsWith(content: seq<Byte>, prefix: seq<Byte>) {
    |prefix| <= |content| && content[..|prefix|] == prefix
  }

  /** The buffer after reading up to five bytes into a zeroed `byte[5]`. */
  function ReadBuffer(content: seq<Byte>): (b: seq<Byte>)
    ensures |b| == 5
    ensures forall i :: 0 <= i < 5 ==> b[i] == (if i < |content| then content[i] else 0)
  {
    seq(5, i requires 0 <= i < 5 => if i < |content| then content[i] else 0)
  }

  /** `GetFileEncoding`: the marks are tried in the order UTF-8, `FE FF`,
      UTF-32 big-endian, UTF-7, and a file that starts with none of them
      gets the default. The zero padding of a short file never completes a
      mark, so each answer means the file really starts with that mark. */
  function GetFileEncoding(content: seq<Byte>): (e: FileEncoding)
    ensures e == Utf8 <==> StartsWith(content, Utf8Bom)
    ensures e == Unicode <==> !StartsWith(content, Utf8Bom) && StartsWith(content, Utf16Bom)
    ensures e == Utf32 <==> StartsWith(content, Utf32Bom)
    ensures e == Utf7 <==> StartsWith(content, Utf7Bom)
    ensures e == SystemDefault <==>
              !StartsWith(content, Utf8Bom) && !StartsWith(content, Utf16Bom)
              && !StartsWith(content, Utf32Bom) && !StartsWith(content, Utf7Bom)
  {
    var b := ReadBuffer(content);
    if b[0] == 0xEF && b[1] == 0xBB && b[2] == 0xBF then
      assert content[..3] == Utf8Bom;
      Utf8
    else if b[0] == 0xFE && b[1] == 0xFF then
      assert content[..2] == Utf16Bom;
      Unicode
    else if b[0] == 0 && b[1] == 0 && b[2] == 0xFE && b[3] == 0xFF then
      assert content[..4] == Utf32Bom;
      Utf32
    else if b[0] == 0x2B && b[1] == 0x2F && b[2] == 0x76 then
      assert content[..3] == Utf7Bom;
      Utf7
    else SystemDefault
  }

  /** The answer leaves the caller nothing to convert: "" (a UTF-8 mark) or
      `null`. */
  predicate NoConversion(charset: Option<string>) {
    charset == Some("") || charset.None?
  }

  /** `GetSubtitleFileCharacterSet(path)` for a file with content `content`
      and a detector answer `detected`. A UTF-8 mark gives "". Otherwise a
      blank answer, or one that names UTF-8 ignoring case, gives `null`, and
      any other answer is returned as it is; the other marks are not
      consulted. */
  function GetSubtitleFileCharacterSet(content: seq<Byte>, detected: Option<string>): (r: Option<string>)
    ensures r == Some("") <==> StartsWith(content, Utf8Bom)
    ensures !StartsWith(content, Utf8Bom) && NoConversion(r) ==> r.None?
    ensures NoConversion(r) <==>
              StartsWith(content, Utf8Bom) || IsNullOrWhiteSpace(detected) || EqualsIgnoreCase(detected.value, "utf-8")
    ensures !NoConversion(r) ==> r == detected && !IsBlank(r.value) && !EqualsIgnoreCase(r.value, "utf-8")
  {
    if GetFileEncoding(content) == Utf8 then Some("")
    else if !IsNullOrWhiteSpace(detected) then
      if EqualsIgnoreCase(detected.value, "utf-8") then None
      else
        assert detected.value != "";
        detected
    else None
  }

  /** The UTF-16, UTF-32 and UTF-7 marks change nothing: such a file is
      treated like one with no mark at all. */
  lemma OnlyUtf8MarkMatters(content: seq<Byte>, detected: Option<string>)
    requires !StartsWith(content, Utf8Bom)
    ensures GetSubtitleFileCharacterSet(content, detected) == GetSubtitleFileCharacterSet([], detected)
  {
  }

  /** The text the conversion command starts with: " -sub_charenc <name>"
      for a non-empty charset, nothing otherwise (`null` formats as ""). */
  function EncodingParameter(charset: Option<string>): (r: string)
    ensures r == "" <==> IsNullOrEmpty(charset)
  {
    if IsNullOrEmpty(charset) then "" else " -sub_charenc " + charset.value
  }

  // ------------------------------------------------------------------
  // Language to codepage

  /** The codepages the language table can answer. */
  datatype Codepage =
    | Windows1250 | Windows1251 | Windows1252 | Windows1253 | Windows1254
    | Windows1255 | Windows1256 | Windows1258 | Cp949

  function CodepageName(c: Codepage): string {
    match c
    case Windows1250 => "windows-1250"
    case Windows1251 => "windows-1251"
    case Windows1252 => "windows-1252"
    case Windows1253 => "windows-1253"
    case Windows1254 => "windows-1254"
    case Windows1255 => "windows-1255"
    case Windows1256 => "windows-1256"
    case Windows1258 => "windows-1258"
    case Cp949 => "cp949"
  }

  const CentralEuropeanLanguages: set<string> :=
    {"pol", "cze", "ces", "slo", "slk", "hun", "slv", "srp", "hrv", "rum", "ron", "rup", "alb", "sqi"}
  const GreekLanguages: set<string> := {"grc", "gre"}
  const TurkishLanguages: set<string> := {"crh", "ota", "tur"}

  /** The `switch` over a lower-cased ISO 639-2 code, with Western European
      as the default. */
  function CodepageForCode(code: string): Codepage {
    if code in CentralEuropeanLanguages then Windows1250
    else if code == "ara" then Windows1256
    else if code == "heb" then Windows1255
    else if code in GreekLanguages then Windows1253
    else if code in TurkishLanguages then Windows1254
    else if code == "rus" then Windows1251
    else if code == "vie" then Windows1258
    else if code == "kor" then Cp949
    else Windows1252
  }

  /** `GetSubtitleFileCharacterSetFromLanguage(language)`: total, and always
      one of the table's codepage names. */
  function CharacterSetFromLanguage(language: string): (r: string)
    ensures exists c :: r == CodepageName(c)
  {
    CodepageName(CodepageForCode(ToLower(language)))
  }

  /** The same table read the other way: the codes each codepage serves. */
  function LanguagesServedBy(c: Codepage): set<string> {
    match c
    case Windows1250 => CentralEuropeanLanguages
    case Windows1256 => {"ara"}
    case Windows1255 => {"heb"}
    case Windows1253 => GreekLanguages
    case Windows1254 => TurkishLanguages
    case Windows1251 => {"rus"}
    case Windows1258 => {"vie"}
    case Cp949 => {"kor"}
    case Windows1252 => {}
  }

  /** Every code the table lists. */
  function ListedLanguages(): set<string> {
    CentralEuropeanLanguages + GreekLanguages + TurkishLanguages + {"ara", "heb", "rus", "vie", "kor"}
  }

  /** The groups of the table do not overlap, so no code is shadowed by an
      earlier case. */
  lemma LanguageGroupsDisjoint()
    ensures "ara" !in CentralEuropeanLanguages && "heb" !in CentralEuropeanLanguages
    ensures "rus" !in CentralEuropeanLanguages && "vie" !in CentralEuropeanLanguages
    ensures "kor" !in CentralEuropeanLanguages
    ensures GreekLanguages !! CentralEuropeanLanguages && TurkishLanguages !! CentralEuropeanLanguages
    ensures "heb" !in GreekLanguages + TurkishLanguages && "ara" !in GreekLanguages + TurkishLanguages
    ensures "rus" !in GreekLanguages + TurkishLanguages && "vie" !in GreekLanguages + TurkishLanguages
    ensures "kor" !in GreekLanguages + TurkishLanguages && GreekLanguages !! TurkishLanguages
  {
  }

  /** A code (in any case) gets a codepage exactly when that codepage serves
      it, and the default exactly when the table does not list it. */
  lemma LanguageTableAgrees(language: string, c: Codepage)
    ensures c != Windows1252 ==>
              (CodepageForCode(ToLower(language)) == c <==> ToLower(language) in LanguagesServedBy(c))
    ensures CodepageForCode(ToLower(language)) == Windows1252 <==> ToLower(language) !in ListedLanguages()
  {
    LanguageGroupsDisjoint();
  }

  /** Distinct codepages have distinct names, so the name alone tells the
      caller which codepage the table chose. */
  lemma CodepageNamesDistinct(a: Codepage, b: Codepage)
    requires CodepageName(a) == CodepageName(b)
    ensures a == b
  {
    assert CodepageName(a)[|CodepageName(a)| - 1] == CodepageName(b)[|CodepageName(b)| - 1];
  }

  /** The table ignores case. */
  lemma LanguageIgnoresCase(a: string, b: string)
    requires EqualsIgnoreCase(a, b)
    ensures CharacterSetFromLanguage(a) == CharacterSetFromLanguage(b)
  {
    EqualsIgnoreCaseIffLower(a, b);
  }
}
