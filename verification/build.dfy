/** Building one cache file with the external encoder
    (`SubtitleEncoder.ExtractTextSubtitle`, `ConvertTextSubtitleToSrt` and
    their `...Internal` halves). The cache is the set of files that exist,
    each with its text. A build is skipped when its file already exists;
    otherwise the encoder runs, its exit is classified, a failed build leaves
    no file behind, and a successful one may get the Arial font fix-up.
    Spawning, the 60-second wait, the "q" sent on time-out and the log files
    are summarised by a `ProcessRun`: what the process did, as the caller
    observes it. The per-path locks are left out: calls are sequential. */
module Build {
  import opened DotNet
  import Charset
  import AssFont

  /** How long the caller waits for the encoder to exit. */
  const WaitForExitMs: nat := 60000

  /** What the encoder did: it could not be started, or it started, exited
      after some milliseconds (or never did by itself) with an exit code,
      and left the output file with some text, or no output file. */
  datatype ProcessRun =
    | FailedToStart
    | Started(exitedAfterMs: Option<nat>, exitCode: int, outputAfter: Option<string>)

  /** `process.WaitForExit(60000)` returned true. */
  predicate RanToCompletion(run: ProcessRun)
    requires run.Started?
  {
    run.exitedAfterMs.Some? && run.exitedAfterMs.value <= WaitForExitMs
  }

  /** The code the caller acts on: the real exit code, or -1 for a process
      that did not finish in time. */
  function ObservedExitCode(run: ProcessRun): (c: int)
    requires run.Started?
    ensures c == -1 <==> !RanToCompletion(run) || run.exitCode == -1
    ensures c != -1 ==> c == run.exitCode
  {
    if RanToCompletion(run) then run.exitCode else -1
  }

  /** How a started build ended; a failure with `deleteOutput` removes the
      output file. */
  datatype Outcome = Succeeded | Failed(deleteOutput: bool)

  /** The verdict on a finished encoder run: it failed exactly when the
      exit code is -1 or the output file is missing, and the output is
      deleted exactly when the code is -1. Any other code, zero or not,
      with the output present is a success. */
  function Classify(exitCode: int, outputExists: bool): (o: Outcome)
    ensures o.Failed? <==> exitCode == -1 || !outputExists
    ensures o.Failed? ==> (o.deleteOutput <==> exitCode == -1)
  {
    if exitCode == -1 then Failed(true)
    else if !outputExists then Failed(false)
    else Succeeded
  }

  /** The two kinds of build. An extraction copies or transcodes one stream
      of the media input; a conversion turns an external text file into
      SubRip, telling the encoder the input's charset when one was found. */
  datatype Job =
    | ExtractJob(inputArgument: string, streamIndex: int, outputCodec: string)
    | ConvertJob(inputPath: Option<string>, inputContent: seq<Charset.Byte>, detected: Option<string>)

  /** The encoder's argument string. Both kinds end with the quoted output
      path; an extraction starts with the input argument. */
  function Arguments(job: Job, outputPath: string): (r: string)
    ensures |r| >= |outputPath| + 2 && r[|r| - |outputPath| - 2..] == "\"" + outputPath + "\""
    ensures job.ExtractJob? ==> |r| >= 3 + |job.inputArgument| && r[..3 + |job.inputArgument|] == "-i " + job.inputArgument
  {
    match job
    case ExtractJob(input, index, codec) =>
      "-i " + input + " -map 0:" + IntToString(index) + " -an -vn -c:s " + codec + " \"" + outputPath + "\""
    case ConvertJob(input, content, detected) =>
      Charset.EncodingParameter(Charset.GetSubtitleFileCharacterSet(content, detected))
        + " -i \"" + input.GetOr("") + "\" -c:s srt \"" + outputPath + "\""
  }

  /** The extraction command carries the stream index after "-map 0:",
      readable back as that number and ended by a space, and the codec
      after "-c:s ", just before the quoted output path. */
  lemma ExtractArgumentFields(input: string, index: int, codec: string, outputPath: string)
    ensures var args := Arguments(ExtractJob(input, index, codec), outputPath);
            var pre := "-i " + input + " -map 0:";
            var n := |IntToString(index)|;
            var tail := " -c:s " + codec + " \"" + outputPath + "\"";
            && |args| > |pre| + n
            && args[..|pre|] == pre
            && ParseInt(args[|pre|..|pre| + n]) == index
            && args[|pre| + n] == ' '
            && |args| >= |tail| && args[|args| - |tail|..] == tail
  {
    var args := Arguments(ExtractJob(input, index, codec), outputPath);
    var pre := "-i " + input + " -map 0:";
    var rest := " -an -vn -c:s " + codec + " \"" + outputPath + "\"";
    assert args == pre + IntToString(index) + rest;
    assert args[|pre|..|pre| + |IntToString(index)|] == IntToString(index);
    IntToStringRoundTrip(index);
  }

  /** The conversion tells the encoder a charset exactly when the input has
      no UTF-8 mark and the detector named something other than UTF-8; the
      name is then the detector's. */
  lemma ConvertCharsetFlag(input: string, content: seq<Charset.Byte>, detected: Option<string>, outputPath: string)
    ensures var args := Arguments(ConvertJob(Some(input), content, detected), outputPath);
            var named := !Charset.StartsWith(content, Charset.Utf8Bom) && !IsNullOrWhiteSpace(detected)
                         && !EqualsIgnoreCase(detected.value, "utf-8");
            && (named ==> args == " -sub_charenc " + detected.value + " -i \"" + input + "\" -c:s srt \"" + outputPath + "\"")
            && (!named ==> args == " -i \"" + input + "\" -c:s srt \"" + outputPath + "\"")
  {
    var cs := Charset.GetSubtitleFileCharacterSet(content, detected);
    var param := Charset.EncodingParameter(cs);
    assert Arguments(ConvertJob(Some(input), content, detected), outputPath)
        == param + " -i \"" + input + "\" -c:s srt \"" + outputPath + "\"";
    if !Charset.StartsWith(content, Charset.Utf8Bom) && !IsNullOrWhiteSpace(detected)
       && !EqualsIgnoreCase(detected.value, "utf-8") {
      assert cs == detected && param == " -sub_charenc " + detected.value;
    } else {
      assert Charset.NoConversion(cs) && param == "";
    }
  }

  /** The text the extraction or conversion leaves in its file: conversions
      always get the font fix-up, extractions only for codec "ass". */
  function Finished(job: Job, text: string): (r: string)
    ensures r == text || r == AssFont.TextAfter(text)
    ensures r != text <==> (job.ConvertJob? || EqualsIgnoreCase(job.outputCodec, "ass")) && AssFont.TextAfter(text) != text
  {
    if job.ConvertJob? || EqualsIgnoreCase(job.outputCodec, "ass") then AssFont.TextAfter(text) else text
  }

  const ExtractFailedPrefix: string := "ffmpeg subtitle extraction failed for "
  const ConvertFailedPrefix: string := "ffmpeg subtitle converted failed for "

  /** The message of the `ApplicationException` a failed build throws. It
      says which kind of build failed and names the input right after that;
      an extraction also names the output path at the end. */
  function FailureMessage(job: Job, outputPath: string): (m: string)
    ensures var prefix := if job.ExtractJob? then ExtractFailedPrefix else ConvertFailedPrefix;
            var input := JobInput(job).GetOr("");
            |m| >= |prefix| + |input| && m[..|prefix|] == prefix && m[|prefix|..|prefix| + |input|] == input
    ensures job.ExtractJob? ==> |m| >= |outputPath| && m[|m| - |outputPath|..] == outputPath
  {
    match job
    case ExtractJob(input, _, _) => ExtractFailedPrefix + input + " to " + outputPath
    case ConvertJob(input, _, _) => ConvertFailedPrefix + input.GetOr("")
  }

  /** The files under the cache that exist, with their text. */
  type Cache = map<string, string>

  /** The cache after a call, what the call returned, and whether it
      started the encoder. */
  datatype Step = Step(cache: Cache, result: Result<()>, started: bool)

  function JobInput(job: Job): Option<string> {
    match job
    case ExtractJob(input, _, _) => Some(input)
    case ConvertJob(input, _, _) => input
  }

  /** The `...Internal` half: argument checks, one encoder run, and the
      verdict. */
  function BuildInternal(cache: Cache, outputPath: string, job: Job, run: ProcessRun): (s: Step)
    requires outputPath !in cache
    ensures s.started <==> !IsNullOrEmpty(JobInput(job)) && outputPath != "" && run.Started?
    ensures s.result.Ok? <==> s.started && Classify(ObservedExitCode(run), run.outputAfter.Some?) == Succeeded
    ensures s.result.Ok? ==> s.cache == cache[outputPath := Finished(job, run.outputAfter.value)]
    ensures s.result.Throws? ==> s.cache == cache
    ensures IsNullOrEmpty(JobInput(job)) ==> s.result == Throws(ArgumentNullException("inputPath"))
    ensures !IsNullOrEmpty(JobInput(job)) && outputPath == "" ==> s.result == Throws(ArgumentNullException("outputPath"))
    ensures !s.started && s.result.Throws? && !IsNullOrEmpty(JobInput(job)) && outputPath != "" ==>
              run.FailedToStart? && s.result.error == ProcessStartException
    ensures s.started && s.result.Throws? ==> s.result.error == ApplicationException(FailureMessage(job, outputPath))
  {
    if IsNullOrEmpty(JobInput(job)) then Step(cache, Throws(ArgumentNullException("inputPath")), false)
    else if outputPath == "" then Step(cache, Throws(ArgumentNullException("outputPath")), false)
    else if run.FailedToStart? then Step(cache, Throws(ProcessStartException), false)
    else
      match Classify(ObservedExitCode(run), run.outputAfter.Some?)
      case Failed(_) => Step(cache, Throws(ApplicationException(FailureMessage(job, outputPath))), true)
      case Succeeded => Step(cache[outputPath := Finished(job, run.outputAfter.value)], Ok(()), true)
  }

  /** `ExtractTextSubtitle` / `ConvertTextSubtitleToSrt`: build the file
      only if it does not exist. Afterwards the call succeeded exactly when
      the file exists; a failed call leaves the cache as it was (a partial
      output is deleted); and no other cache file is touched. */
  function EnsureBuilt(cache: Cache, outputPath: string, job: Job, run: ProcessRun): (s: Step)
    ensures outputPath in cache ==> s == Step(cache, Ok(()), false)
    ensures s.result.Ok? <==> outputPath in s.cache
    ensures s.result.Throws? ==> s.cache == cache
    ensures s.cache.Keys <= cache.Keys + {outputPath}
    ensures forall p :: p in cache ==> p in s.cache && s.cache[p] == cache[p]
    ensures s.started ==> outputPath !in cache
  {
    if outputPath in cache then Step(cache, Ok(()), false)
    else BuildInternal(cache, outputPath, job, run)
  }

  /** A process that is still running when the wait ends counts as exit
      code -1, so the build fails and its partial output is removed,
      whatever code it would have returned. */
  lemma TimeoutFails(cache: Cache, outputPath: string, job: Job, run: ProcessRun)
    requires outputPath !in cache
    requires run.Started? && !RanToCompletion(run)
    ensures var s := EnsureBuilt(cache, outputPath, job, run);
            s.result.Throws? && outputPath !in s.cache
    ensures Classify(ObservedExitCode(run), run.outputAfter.Some?) == Failed(true)
  {
  }

  /** A second request for a file that the first request built starts no
      process and changes nothing. */
  lemma SecondRequestIsCached(cache: Cache, outputPath: string, job: Job, first: ProcessRun, second: ProcessRun)
    requires EnsureBuilt(cache, outputPath, job, first).result.Ok?
    ensures var c := EnsureBuilt(cache, outputPath, job, first).cache;
            EnsureBuilt(c, outputPath, job, second) == Step(c, Ok(()), false)
  {
  }

  /** A sequence of requests for one file, each meeting the encoder run
      given for it: the cache at the end and how many runs were started. */
  function EnsureAll(cache: Cache, outputPath: string, job: Job, runs: seq<ProcessRun>): (r: (Cache, nat))
    ensures r.1 <= |runs|
    ensures outputPath in cache ==> r == (cache, 0)
    decreases |runs|
  {
    if |runs| == 0 then (cache, 0)
    else
      var s := EnsureBuilt(cache, outputPath, job, runs[0]);
      var rest := EnsureAll(s.cache, outputPath, job, runs[1..]);
      (rest.0, rest.1 + if s.started then 1 else 0)
  }

  /** When the first request builds the file, a whole series of requests
      starts the encoder exactly once. */
  lemma BuildsOnce(cache: Cache, outputPath: string, job: Job, runs: seq<ProcessRun>)
    requires |runs| > 0 && outputPath !in cache
    requires EnsureBuilt(cache, outputPath, job, runs[0]).result.Ok?
    ensures EnsureAll(cache, outputPath, job, runs).1 == 1
  {
  }

  /** The encoder started and the build failed. */
  predicate FailingRun(run: ProcessRun) {
    run.Started? && Classify(ObservedExitCode(run), run.outputAfter.Some?).Failed?
  }

  /** A failed build is not remembered: every request meets a missing file
      and starts the encoder again, so `n` failing runs start it `n` times
      and leave no file. */
  lemma {:induction false} FailuresAreRetried(cache: Cache, outputPath: string, job: Job, runs: seq<ProcessRun>)
    requires outputPath !in cache && outputPath != "" && !IsNullOrEmpty(JobInput(job))
    requires forall i :: 0 <= i < |runs| ==> FailingRun(runs[i])
    ensures EnsureAll(cache, outputPath, job, runs).1 == |runs|
    ensures outputPath !in EnsureAll(cache, outputPath, job, runs).0
    decreases |runs|
  {
    if |runs| > 0 {
      var s := EnsureBuilt(cache, outputPath, job, runs[0]);
      assert s.started && s.cache == cache;
      FailuresAreRetried(cache, outputPath, job, runs[1..]);
    }
  }
}
