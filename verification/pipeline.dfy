/** The subtitle delivery pipeline of `SubtitleEncoder`: choosing a
    readable file for a subtitle stream (`GetReadableFile`), opening it with
    or without charset conversion (`GetSubtitleStream(path, requiresCharset)`)
    and turning a parsed track into the requested output format
    (`ConvertSubtitles`). The library lookups that find the stream, the
    encoder's input argument, the media file's modification time, the digest
    and the content of the external file are inputs (`Environment`); parsing
    is a parameter from parser to track. */
module Pipeline {
  import opened DotNet
  import Charset
  import CachePath
  import Formats
  import Build
  import TrackFilter
  import AssFont

  /** The part of a media stream the pipeline reads. */
  datatype SubtitleStream = SubtitleStream(index: int, codec: Option<string>, isExternal: bool, path: Option<string>)

  /** What the rest of the server and the file system supply: the cache
      root, the media file's last-write time in ticks, the digest used for
      cache names, the encoder's input argument for the media source, and
      the bytes of the external subtitle file with the charset detector's
      answer for it. */
  datatype Environment = Environment(
    cacheRoot: string,
    lastWriteTicks: int,
    hash: string -> string,
    inputArgument: string,
    subtitleContent: seq<Charset.Byte>,
    detected: Option<string>)

  /** The tuple `GetReadableFile` returns: a path, the format of that file,
      and whether its charset must be checked before parsing. */
  datatype Readable = Readable(path: Option<string>, format: string, requiresCharset: bool)

  /** The answer of `GetReadableFile`, the cache after it and whether an
      encoder process was started. */
  datatype Served = Served(result: Result<Readable>, cache: Build.Cache, started: bool)

  /** The encoder codec and the file format for extracting an embedded
      stream: "ass" streams are copied as ass, "subrip"/"srt" streams are
      copied as srt, anything else (including no codec) is transcoded to
      srt. */
  function EmbeddedTarget(codec: Option<string>): (t: (string, string))
    ensures t.1 == Formats.Ass <==> NullableEqualsIgnoreCase(codec, "ass")
    ensures t.1 == Formats.Ass || t.1 == Formats.Srt
    ensures t.0 == "copy" <==>
              NullableEqualsIgnoreCase(codec, "ass") || NullableEqualsIgnoreCase(codec, "subrip")
              || NullableEqualsIgnoreCase(codec, "srt")
    ensures t.0 != "copy" ==> t.0 == "srt"
  {
    if NullableEqualsIgnoreCase(codec, "ass") then ("copy", "ass")
    else if NullableEqualsIgnoreCase(codec, "subrip") || NullableEqualsIgnoreCase(codec, "srt") then ("copy", "srt")
    else ("srt", "srt")
  }

  /** The cache file for this stream with a non-empty extension. */
  function CacheFile(env: Environment, mediaPath: string, index: int, extension: string): (p: string)
    requires extension != ""
  {
    CachePath.SubtitleCachePath(env.cacheRoot, mediaPath, index, env.lastWriteTicks, extension, env.hash).value
  }

  /** The format named by a path: its extension without the dot, or ""
      when it has none. */
  function ExtensionFormat(path: string): (f: string)
    ensures f == "" <==> GetExtension(path) == ""
    ensures f != "" ==> "." + f == GetExtension(path)
  {
    var e := GetExtension(path);
    if e == "" then TrimStart(e, '.')
    else
      TrimStartOne(e, '.');
      TrimStart(e, '.')
  }

  /** `(Path.GetExtension(path) ?? codec).TrimStart('.')` for an external
      stream. A path, even one without an extension, always wins over the
      codec; with neither, `TrimStart` is called on `null`. */
  function CurrentFormat(stream: SubtitleStream): (r: Result<string>)
    ensures r.Throws? <==> stream.path.None? && stream.codec.None?
    ensures r.Throws? ==> r.error == NullReferenceException
    ensures stream.path.Some? ==> r.Ok? && (r.value == "" <==> GetExtension(stream.path.value) == "")
    ensures stream.path.Some? && r.value != "" ==> "." + r.value == GetExtension(stream.path.value)
    ensures stream.path.None? && stream.codec.Some? ==>
              r.Ok? && |r.value| <= |stream.codec.value|
              && r.value == stream.codec.value[|stream.codec.value| - |r.value|..]
              && (forall i :: 0 <= i < |stream.codec.value| - |r.value| ==> stream.codec.value[i] == '.')
              && (r.value == "" || r.value[0] != '.')
  {
    if stream.path.Some? then Ok(ExtensionFormat(stream.path.value))
    else if stream.codec.Some? then Ok(TrimStart(stream.codec.value, '.'))
    else Throws(NullReferenceException)
  }

  /** Where an embedded stream is extracted to. */
  function ExtractPath(env: Environment, mediaPath: string, stream: SubtitleStream): string {
    CacheFile(env, mediaPath, stream.index, "." + EmbeddedTarget(stream.codec).1)
  }

  /** Where an external file without a parser is converted to. */
  function ConvertPath(env: Environment, mediaPath: string, stream: SubtitleStream): string {
    CacheFile(env, mediaPath, stream.index, ".srt")
  }

  function ServedBy(step: Build.Step, file: Readable): Served {
    if step.result.Ok? then Served(Ok(file), step.cache, step.started)
    else Served(Throws(step.result.error), step.cache, step.started)
  }

  /** The embedded branch: extract into the cache and hand on the cached
      file, which needs no charset check. */
  function Extracted(cache: Build.Cache, env: Environment, mediaPath: string,
                     stream: SubtitleStream, run: Build.ProcessRun): (s: Served)
    ensures s.result.Ok? <==> ExtractPath(env, mediaPath, stream) in s.cache
    ensures s.result.Ok? ==>
              s.result.value == Readable(Some(ExtractPath(env, mediaPath, stream)), EmbeddedTarget(stream.codec).1, false)
    ensures forall p :: p in cache ==> p in s.cache && s.cache[p] == cache[p]
    ensures s.result.Throws? ==> s.cache == cache
    ensures ExtractPath(env, mediaPath, stream) in cache ==>
              s == Served(Ok(Readable(Some(ExtractPath(env, mediaPath, stream)), EmbeddedTarget(stream.codec).1, false)), cache, false)
  {
    var (codec, format) := EmbeddedTarget(stream.codec);
    var outputPath := ExtractPath(env, mediaPath, stream);
    ServedBy(Build.EnsureBuilt(cache, outputPath, Build.ExtractJob(env.inputArgument, stream.index, codec), run),
             Readable(Some(outputPath), format, false))
  }

  /** The branch for an external file without a parser: convert it to srt
      in the cache; the converted file is still charset-checked. */
  function Converted(cache: Build.Cache, env: Environment, mediaPath: string,
                     stream: SubtitleStream, run: Build.ProcessRun): (s: Served)
    ensures s.result.Ok? <==> ConvertPath(env, mediaPath, stream) in s.cache
    ensures s.result.Ok? ==> s.result.value == Readable(Some(ConvertPath(env, mediaPath, stream)), Formats.Srt, true)
    ensures forall p :: p in cache ==> p in s.cache && s.cache[p] == cache[p]
    ensures s.result.Throws? ==> s.cache == cache
    ensures ConvertPath(env, mediaPath, stream) in cache ==>
              s == Served(Ok(Readable(Some(ConvertPath(env, mediaPath, stream)), Formats.Srt, true)), cache, false)
  {
    var outputPath := ConvertPath(env, mediaPath, stream);
    ServedBy(Build.EnsureBuilt(cache, outputPath, Build.ConvertJob(stream.path, env.subtitleContent, env.detected), run),
             Readable(Some(outputPath), Formats.Srt, true))
  }

  /** How an external stream is served: in place, in the format that has
      a parser (`Some`), by conversion to srt (`None`), or not at all when
      its format cannot be worked out or is empty. */
  function ExternalPlan(stream: SubtitleStream): (r: Result<Option<string>>)
    ensures r.Ok? && r.value.Some? ==> Formats.GetReader(r.value.value, true).Ok?
    ensures r.Ok? ==> CurrentFormat(stream).Ok?
    ensures r.Ok? ==> (r.value.Some? <==> Formats.NamesReader(CurrentFormat(stream).value))
    ensures r.Ok? && r.value.Some? ==> r.value.value == CurrentFormat(stream).value
    ensures r.Throws? <==> CurrentFormat(stream).Throws? || CurrentFormat(stream).value == ""
  {
    match CurrentFormat(stream)
    case Throws(e) => Throws(e)
    case Ok(format) =>
      match Formats.GetReader(format, false)
      case Throws(e) => Throws(e)
      case Ok(Some(_)) => Ok(Some(format))
      case Ok(None) => Ok(None)
  }

  /** The external branch: a file whose format has a parser is used where
      it is, any other is converted; either way it is charset-checked. */
  function External(cache: Build.Cache, env: Environment, mediaPath: string,
                    stream: SubtitleStream, run: Build.ProcessRun): (s: Served)
    ensures s.result.Ok? ==> Formats.GetReader(s.result.value.format, true).Ok? && s.result.value.requiresCharset
    ensures s.result.Ok? && s.result.value.path != stream.path ==>
              s.result.value.path == Some(ConvertPath(env, mediaPath, stream))
              && ConvertPath(env, mediaPath, stream) in s.cache
    ensures forall p :: p in cache ==> p in s.cache && s.cache[p] == cache[p]
    ensures s.result.Throws? ==> s.cache == cache
    ensures ExternalPlan(stream) != Ok(None) ==> s.cache == cache && !s.started
  {
    Formats.ReaderRoundTrip(Formats.SrtParser, true);
    match ExternalPlan(stream)
    case Throws(e) => Served(Throws(e), cache, false)
    case Ok(Some(format)) => Served(Ok(Readable(stream.path, format, true)), cache, false)
    case Ok(None) => Converted(cache, env, mediaPath, stream, run)
  }

  /** `GetReadableFile`. An embedded stream is extracted into the cache and
      parsed without a charset check. An external file whose format has a
      parser is used where it is; otherwise it is converted to srt in the
      cache, and the converted file is charset-checked too. The format
      handed on always has a parser, a path handed on is the external file
      itself or a file now in the cache, and no cache file is lost or
      changed. */
  function GetReadableFile(cache: Build.Cache, env: Environment, mediaPath: string,
                           stream: SubtitleStream, run: Build.ProcessRun): (s: Served)
    ensures s.result.Ok? ==> Formats.GetReader(s.result.value.format, true).Ok?
    ensures s.result.Ok? ==> (s.result.value.requiresCharset <==> stream.isExternal)
    ensures s.result.Ok? && s.result.value.path != stream.path ==>
              s.result.value.path.Some? && s.result.value.path.value in s.cache
    ensures !stream.isExternal && s.result.Ok? ==> s.result.value.format == EmbeddedTarget(stream.codec).1
    ensures forall p :: p in cache ==> p in s.cache && s.cache[p] == cache[p]
    ensures s.result.Throws? ==> s.cache == cache
    ensures stream.isExternal && stream.path.None? && stream.codec.None? ==>
              s == Served(Throws(NullReferenceException), cache, false)
  {
    Formats.ReaderRoundTrip(Formats.SrtParser, true);
    Formats.ReaderRoundTrip(Formats.AssParser, true);
    if !stream.isExternal then Extracted(cache, env, mediaPath, stream, run)
    else External(cache, env, mediaPath, stream, run)
  }

  /** An external file whose name has no extension is never looked up by
      its codec: `Path.GetExtension` answers "" rather than `null`, so the
      codec fallback is skipped and the empty format is rejected. */
  lemma ExtensionlessExternalFileThrows(cache: Build.Cache, env: Environment, mediaPath: string,
                                        stream: SubtitleStream, run: Build.ProcessRun)
    requires stream.isExternal && stream.path.Some? && GetExtension(stream.path.value) == ""
    ensures GetReadableFile(cache, env, mediaPath, stream, run)
         == Served(Throws(ArgumentNullException("format")), cache, false)
  {
  }

  /** For an external file with an extension, the format is the extension
      without its dot, and the file is used in place exactly when a parser
      is registered under that name. */
  lemma ExternalFileUsedInPlace(cache: Build.Cache, env: Environment, mediaPath: string,
                                stream: SubtitleStream, run: Build.ProcessRun)
    requires stream.isExternal && stream.path.Some? && GetExtension(stream.path.value) != ""
    ensures var s := GetReadableFile(cache, env, mediaPath, stream, run);
            var f := ExtensionFormat(stream.path.value);
            Formats.NamesReader(f) <==> s == Served(Ok(Readable(stream.path, f, true)), cache, false)
  {
    var f := ExtensionFormat(stream.path.value);
    assert CurrentFormat(stream) == Ok(f);
    if Formats.GetReader(f, false) == Ok(None) {
      assert !Formats.NamesReader(f);
      assert GetReadableFile(cache, env, mediaPath, stream, run) == Converted(cache, env, mediaPath, stream, run);
      Formats.ReaderRoundTrip(Formats.SrtParser, false);
    }
  }

  /** Extraction never applies the font fix-up: embedded ass streams are
      copied with codec "copy", so the cache file holds exactly what the
      encoder wrote. */
  lemma ExtractedTextIsUntouched(cache: Build.Cache, env: Environment, mediaPath: string,
                                 stream: SubtitleStream, run: Build.ProcessRun)
    requires !stream.isExternal
    requires GetReadableFile(cache, env, mediaPath, stream, run).result.Ok?
    requires GetReadableFile(cache, env, mediaPath, stream, run).started
    ensures var s := GetReadableFile(cache, env, mediaPath, stream, run);
            s.cache[s.result.value.path.value] == run.outputAfter.value
  {
    assert GetReadableFile(cache, env, mediaPath, stream, run) == Extracted(cache, env, mediaPath, stream, run);
    ExtractionStoresOutput(cache, env, mediaPath, stream, run);
  }

  /** The extraction half of `ExtractedTextIsUntouched`. */
  lemma ExtractionStoresOutput(cache: Build.Cache, env: Environment, mediaPath: string,
                               stream: SubtitleStream, run: Build.ProcessRun)
    requires Extracted(cache, env, mediaPath, stream, run).result.Ok?
    requires Extracted(cache, env, mediaPath, stream, run).started
    ensures run.Started? && run.outputAfter.Some?
    ensures Extracted(cache, env, mediaPath, stream, run).cache[ExtractPath(env, mediaPath, stream)] == run.outputAfter.value
  {
    var t := EmbeddedTarget(stream.codec);
    assert !EqualsIgnoreCase(t.0, "ass") by {
      if t.0 == "copy" { assert UpperChar(t.0[0]) != UpperChar("ass"[0]); }
      else { assert UpperChar(t.0[1]) != UpperChar("ass"[1]); }
    }
    var job := Build.ExtractJob(env.inputArgument, stream.index, t.0);
    var step := Build.EnsureBuilt(cache, ExtractPath(env, mediaPath, stream), job, run);
    assert step == Build.BuildInternal(cache, ExtractPath(env, mediaPath, stream), job, run);
    assert Build.Finished(job, run.outputAfter.value) == run.outputAfter.value;
  }

  /** A converted external file gets the font fix-up on its way into the
      cache. */
  lemma ConvertedTextIsFontFixed(cache: Build.Cache, env: Environment, mediaPath: string,
                                 stream: SubtitleStream, run: Build.ProcessRun)
    requires stream.isExternal
    requires GetReadableFile(cache, env, mediaPath, stream, run).result.Ok?
    requires GetReadableFile(cache, env, mediaPath, stream, run).started
    ensures var s := GetReadableFile(cache, env, mediaPath, stream, run);
            && run.Started? && run.outputAfter.Some?
            && s.result.value.path == Some(ConvertPath(env, mediaPath, stream))
            && ConvertPath(env, mediaPath, stream) !in cache
            && ConvertPath(env, mediaPath, stream) in s.cache
            && s.cache[ConvertPath(env, mediaPath, stream)] == AssFont.TextAfter(run.outputAfter.value)
  {
    assert ExternalPlan(stream) == Ok(None);
    assert GetReadableFile(cache, env, mediaPath, stream, run) == Converted(cache, env, mediaPath, stream, run);
    ConversionBuildsFontFixed(cache, env, mediaPath, stream, run);
  }

  /** The conversion half of `ConvertedTextIsFontFixed`. */
  lemma ConversionBuildsFontFixed(cache: Build.Cache, env: Environment, mediaPath: string,
                                  stream: SubtitleStream, run: Build.ProcessRun)
    requires Converted(cache, env, mediaPath, stream, run).result.Ok?
    requires Converted(cache, env, mediaPath, stream, run).started
    ensures var s := Converted(cache, env, mediaPath, stream, run);
            && run.Started? && run.outputAfter.Some?
            && ConvertPath(env, mediaPath, stream) !in cache
            && s.cache[ConvertPath(env, mediaPath, stream)] == AssFont.TextAfter(run.outputAfter.value)
  {
    var job := Build.ConvertJob(stream.path, env.subtitleContent, env.detected);
    var step := Build.EnsureBuilt(cache, ConvertPath(env, mediaPath, stream), job, run);
    assert step.started && step.result.Ok?;
    assert step == Build.BuildInternal(cache, ConvertPath(env, mediaPath, stream), job, run);
  }

  /** Once a request has been served, asking again for the same stream
      starts no process, changes no cache file and gives the same answer,
      whatever the encoder would do. */
  lemma SecondRequestStartsNothing(cache: Build.Cache, env: Environment, mediaPath: string,
                                   stream: SubtitleStream, first: Build.ProcessRun, second: Build.ProcessRun)
    requires GetReadableFile(cache, env, mediaPath, stream, first).result.Ok?
    ensures var s := GetReadableFile(cache, env, mediaPath, stream, first);
            GetReadableFile(s.cache, env, mediaPath, stream, second) == Served(s.result, s.cache, false)
  {
    if stream.isExternal {
      SecondExternalRequest(cache, env, mediaPath, stream, first, second);
    }
  }

  /** The external half of `SecondRequestStartsNothing`. */
  lemma SecondExternalRequest(cache: Build.Cache, env: Environment, mediaPath: string,
                              stream: SubtitleStream, first: Build.ProcessRun, second: Build.ProcessRun)
    requires External(cache, env, mediaPath, stream, first).result.Ok?
    ensures var s := External(cache, env, mediaPath, stream, first);
            External(s.cache, env, mediaPath, stream, second) == Served(s.result, s.cache, false)
  {
    if ExternalPlan(stream) == Ok(None) {
      var c := Converted(cache, env, mediaPath, stream, first);
      assert ConvertPath(env, mediaPath, stream) in c.cache;
    }
  }

  /** The file `GetSubtitleStream(path, requiresCharset)` opens: the file
      itself, or its text re-read in a named charset. */
  datatype Opened = RawFile(path: string) | Transcoded(path: string, charset: string)

  /** `GetSubtitleStream(path, requiresCharset)` for a file with bytes
      `content` and detector answer `detected`. The file is re-read in
      another charset exactly when a check is required and the check names
      a charset; a `null` path fails on opening. */
  function GetSubtitleStream(file: Readable, content: seq<Charset.Byte>, detected: Option<string>): (r: Result<Opened>)
    ensures r.Throws? <==> file.path.None?
    ensures r.Throws? ==> r.error == ArgumentNullException("path")
    ensures r.Ok? ==> r.value.path == file.path.value
    ensures r.Ok? ==> (r.value.Transcoded? <==>
                        file.requiresCharset && !Charset.NoConversion(Charset.GetSubtitleFileCharacterSet(content, detected)))
    ensures r.Ok? && r.value.Transcoded? ==>
              Some(r.value.charset) == detected && !Charset.StartsWith(content, Charset.Utf8Bom)
              && !IsBlank(r.value.charset) && !EqualsIgnoreCase(r.value.charset, "utf-8")
  {
    if file.path.None? then Throws(ArgumentNullException("path"))
    else if file.requiresCharset then
      var charset := Charset.GetSubtitleFileCharacterSet(content, detected);
      if !IsNullOrEmpty(charset) then Ok(Transcoded(file.path.value, charset.value))
      else Ok(RawFile(file.path.value))
    else Ok(RawFile(file.path.value))
  }

  /** Embedded streams are always opened as they are, whatever bytes the
      extracted file holds. */
  lemma EmbeddedStreamsOpenRaw(cache: Build.Cache, env: Environment, mediaPath: string, stream: SubtitleStream,
                               run: Build.ProcessRun, content: seq<Charset.Byte>, detected: Option<string>)
    requires !stream.isExternal
    requires GetReadableFile(cache, env, mediaPath, stream, run).result.Ok?
    ensures var f := GetReadableFile(cache, env, mediaPath, stream, run).result.value;
            GetSubtitleStream(f, content, detected) == Ok(RawFile(f.path.value))
  {
  }

  /** A converted track, ready for the chosen writer. */
  datatype Rendered = Rendered(writer: Formats.Writer, events: seq<TrackFilter.Event>)

  /** `ConvertSubtitles`: parse with the reader for `inputFormat` (a
      missing one throws), cut the track to the requested window with
      times made relative to its start, then pick the writer. The input
      format is checked before the output format, and the window always
      rebases the times. */
  function ConvertSubtitles(inputFormat: string, outputFormat: string, startTicks: Int64, endTicks: Option<Int64>,
                            parse: Formats.Reader -> seq<TrackFilter.Event>): (r: Result<Rendered>)
    ensures r.Ok? <==> inputFormat != "" && Formats.NamesReader(inputFormat)
                       && outputFormat != "" && Formats.NamesWriter(outputFormat)
    ensures Formats.GetReader(inputFormat, true).Throws? ==> r == Throws(Formats.GetReader(inputFormat, true).error)
    ensures r.Ok? ==> EqualsIgnoreCase(outputFormat, Formats.WriterName(r.value.writer))
    ensures r.Ok? ==> var reader := Formats.GetReader(inputFormat, true).value.value;
                      && EqualsIgnoreCase(inputFormat, Formats.ReaderName(reader))
                      && TrackFilter.Restore(r.value.events, startTicks)
                         == TrackFilter.Kept(parse(reader), startTicks, endTicks)
  {
    match Formats.GetReader(inputFormat, true)
    case Throws(e) => Throws(e)
    case Ok(None) => Throws(NullReferenceException)
    case Ok(Some(reader)) =>
      var events := TrackFilter.FilterEvents(parse(reader), startTicks, endTicks, false);
      match Formats.GetWriter(outputFormat)
      case Throws(e) => Throws(e)
      case Ok(writer) => Ok(Rendered(writer, events))
  }
}
