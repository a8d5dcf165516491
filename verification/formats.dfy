/** The subtitle format registry (`SubtitleEncoder.GetReader` and
    `GetWriter`): a format name, compared ignoring case, selects one of a
    closed set of parsers or writers. An empty name throws, an unknown reader
    name gives `null` or throws as the caller asks, and an unknown writer name
    always throws. The parser and writer bodies are not part of this model;
    only their identity is. */
module Formats {
  import opened DotNet

  // The `SubtitleFormat` names the registry compares against.
  const Srt: string := "srt"
  const Ssa: string := "ssa"
  const Ass: string := "ass"
  const Vtt: string := "vtt"
  const Ttml: string := "ttml"
  const Json: string := "json"

  datatype Reader = SrtParser | SsaParser | AssParser
  datatype Writer = JsonWriter | SrtWriter | VttWriter | TtmlWriter

  /** The name each parser is registered under. */
  function ReaderName(r: Reader): string {
    match r
    case SrtParser => Srt
    case SsaParser => Ssa
    case AssParser => Ass
  }

  /** The name each writer is registered under. */
  function WriterName(w: Writer): string {
    match w
    case JsonWriter => Json
    case SrtWriter => Srt
    case VttWriter => Vtt
    case TtmlWriter => Ttml
  }

  /** Some parser is registered under `format`, ignoring case. */
  ghost predicate NamesReader(format: string) {
    exists r: Reader :: EqualsIgnoreCase(format, ReaderName(r))
  }

  /** Some writer is registered under `format`, ignoring case. */
  ghost predicate NamesWriter(format: string) {
    exists w: Writer :: EqualsIgnoreCase(format, WriterName(w))
  }

  function UnsupportedFormat(format: string): Exception {
    ArgumentException("Unsupported format: " + format)
  }

  /** `GetReader(format, throwIfMissing)`; `null` and "" take the same branch. */
  function GetReader(format: string, throwIfMissing: bool): (r: Result<Option<Reader>>)
    ensures format == "" ==> r == Throws(ArgumentNullException("format"))
    ensures format != "" && NamesReader(format) ==>
              r.Ok? && r.value.Some? && EqualsIgnoreCase(format, ReaderName(r.value.value))
    ensures format != "" && !NamesReader(format) ==>
              r == (if throwIfMissing then Throws(UnsupportedFormat(format)) else Ok(None))
  {
    if format == "" then Throws(ArgumentNullException("format"))
    else if EqualsIgnoreCase(format, Srt) then
      assert EqualsIgnoreCase(format, ReaderName(SrtParser));
      Ok(Some(SrtParser))
    else if EqualsIgnoreCase(format, Ssa) then
      assert EqualsIgnoreCase(format, ReaderName(SsaParser));
      Ok(Some(SsaParser))
    else if EqualsIgnoreCase(format, Ass) then
      assert EqualsIgnoreCase(format, ReaderName(AssParser));
      Ok(Some(AssParser))
    else if throwIfMissing then Throws(UnsupportedFormat(format))
    else Ok(None)
  }

  /** `GetWriter(format)`; `null` and "" take the same branch. */
  function GetWriter(format: string): (r: Result<Writer>)
    ensures format == "" ==> r == Throws(ArgumentNullException("format"))
    ensures format != "" && NamesWriter(format) ==>
              r.Ok? && EqualsIgnoreCase(format, WriterName(r.value))
    ensures format != "" && !NamesWriter(format) ==> r == Throws(UnsupportedFormat(format))
  {
    if format == "" then Throws(ArgumentNullException("format"))
    else if EqualsIgnoreCase(format, Json) then
      assert EqualsIgnoreCase(format, WriterName(JsonWriter));
      Ok(JsonWriter)
    else if EqualsIgnoreCase(format, Srt) then
      assert EqualsIgnoreCase(format, WriterName(SrtWriter));
      Ok(SrtWriter)
    else if EqualsIgnoreCase(format, Vtt) then
      assert EqualsIgnoreCase(format, WriterName(VttWriter));
      Ok(VttWriter)
    else if EqualsIgnoreCase(format, Ttml) then
      assert EqualsIgnoreCase(format, WriterName(TtmlWriter));
      Ok(TtmlWriter)
    else Throws(UnsupportedFormat(format))
  }

  /** Every parser is found under its own name, whatever the caller asked
      about missing formats. */
  lemma ReaderRoundTrip(r: Reader, throwIfMissing: bool)
    ensures GetReader(ReaderName(r), throwIfMissing) == Ok(Some(r))
  {
    assert !EqualsIgnoreCase(Ssa, Srt) by { assert UpperChar(Ssa[1]) != UpperChar(Srt[1]); }
    assert !EqualsIgnoreCase(Ass, Srt) by { assert UpperChar(Ass[0]) != UpperChar(Srt[0]); }
    assert !EqualsIgnoreCase(Ass, Ssa) by { assert UpperChar(Ass[0]) != UpperChar(Ssa[0]); }
  }

  /** Every writer is found under its own name. */
  lemma WriterRoundTrip(w: Writer)
    ensures GetWriter(WriterName(w)) == Ok(w)
  {
    assert !EqualsIgnoreCase(Vtt, Srt) by { assert UpperChar(Vtt[0]) != UpperChar(Srt[0]); }
  }

  /** Two spellings that differ only in case select the same parser, and
      one of them throws exactly when the other does. */
  lemma ReaderIgnoresCase(f: string, g: string, throwIfMissing: bool)
    requires EqualsIgnoreCase(f, g)
    ensures GetReader(f, throwIfMissing).Ok? <==> GetReader(g, throwIfMissing).Ok?
    ensures GetReader(f, throwIfMissing).Ok? ==> GetReader(f, throwIfMissing) == GetReader(g, throwIfMissing)
  {
    forall n: string | EqualsIgnoreCase(f, n)
      ensures EqualsIgnoreCase(g, n)
    {
      EqualsIgnoreCaseTransitive(g, f, n);
    }
    forall n: string | EqualsIgnoreCase(g, n)
      ensures EqualsIgnoreCase(f, n)
    {
      EqualsIgnoreCaseTransitive(f, g, n);
    }
  }

  /** Two spellings that differ only in case select the same writer, and
      one of them throws exactly when the other does. */
  lemma WriterIgnoresCase(f: string, g: string)
    requires EqualsIgnoreCase(f, g)
    ensures GetWriter(f).Ok? <==> GetWriter(g).Ok?
    ensures GetWriter(f).Ok? ==> GetWriter(f) == GetWriter(g)
  {
    forall n: string | EqualsIgnoreCase(f, n)
      ensures EqualsIgnoreCase(g, n)
    {
      EqualsIgnoreCaseTransitive(g, f, n);
    }
    forall n: string | EqualsIgnoreCase(g, n)
      ensures EqualsIgnoreCase(f, n)
    {
      EqualsIgnoreCaseTransitive(f, g, n);
    }
  }

  /** Ass can be read but not written, and vtt written but not read. */
  lemma AssReadOnlyVttWriteOnly()
    ensures GetReader(Ass, true) == Ok(Some(AssParser))
    ensures GetWriter(Ass) == Throws(UnsupportedFormat(Ass))
    ensures GetReader(Vtt, false) == Ok(None)
    ensures GetWriter(Vtt) == Ok(VttWriter)
  {
    ReaderRoundTrip(AssParser, true);
    WriterRoundTrip(VttWriter);
    assert UpperChar(Ass[0]) != UpperChar(Srt[0]);
    assert UpperChar(Ass[0]) != UpperChar(Vtt[0]);
    assert UpperChar(Vtt[0]) != UpperChar(Srt[0]);
    assert UpperChar(Vtt[0]) != UpperChar(Ssa[0]);
    assert UpperChar(Vtt[0]) != UpperChar(Ass[0]);
    assert !EqualsIgnoreCase(Ass, Json) && !EqualsIgnoreCase(Ass, Ttml);
    assert !NamesWriter(Ass) by {
      forall w: Writer ensures !EqualsIgnoreCase(Ass, WriterName(w)) {
        match w
        case JsonWriter =>
        case SrtWriter =>
        case VttWriter =>
        case TtmlWriter =>
      }
    }
    assert !NamesReader(Vtt) by {
      forall r: Reader ensures !EqualsIgnoreCase(Vtt, ReaderName(r)) {
        match r
        case SrtParser =>
        case SsaParser =>
        case AssParser =>
      }
    }
  }
}
