/** The video converter: the requested format is the container verbatim,
    the codecs are chosen from its lower-cased form, then one ffmpeg run. */
module VideoProcessor {
  import opened Base
  import opened Text
  import opened Paths
  import opened Shared

  /** `None` for either codec leaves ffmpeg's default for the container. */
  datatype Codecs = Codecs(video: Option<string>, audio: Option<string>)

  function CodecsFor(targetFormat: string): Codecs {
    var f := Lower(targetFormat);
    if f == "mp4" then Codecs(Some("libx264"), Some("aac"))
    else if f == "webm" then Codecs(Some("libvpx-vp9"), Some("libopus"))
    else if f == "avi" then Codecs(Some("libx264"), Some("mp3"))
    else if f == "mov" then Codecs(Some("libx264"), Some("aac"))
    else if f == "mkv" then Codecs(Some("libx264"), Some("aac"))
    else Codecs(None, None)
  }

  datatype VideoCommand = VideoCommand(input: string, output: string, format: string, codecs: Codecs)

  function CommandFor(inputPath: string, targetFormat: string, uuid: string): (c: VideoCommand)
    ensures c.input == inputPath
    // the output sits in the input's directory under the artifact name
    ensures StartsWith(c.output, DirPrefix(inputPath))
    ensures c.output[|DirPrefix(inputPath)|..] == ArtifactName(uuid, targetFormat)
    // the container is the format as requested; the codecs ignore its case
    ensures c.format == targetFormat
    ensures c.codecs == CodecsFor(Lower(targetFormat))
  {
    LowerIdempotent(targetFormat);
    var out := Beside(inputPath, ArtifactName(uuid, targetFormat));
    assert out[|DirPrefix(inputPath)|..] == ArtifactName(uuid, targetFormat);
    VideoCommand(inputPath, out, targetFormat, CodecsFor(targetFormat))
  }

  const FailurePrefix := "Video conversion failed: "

  /** `processVideoConversion`, resolved by the ffmpeg run's `end` (no
      failure) or `error` event. An unknown format is no error of its own. */
  function ProcessVideo(inputPath: string, targetFormat: string, uuid: string,
                        runFailure: Option<Thrown>): (r: Result<string, Thrown>)
    ensures r.Ok? <==> runFailure.None?
    // the name handed back is the file name ffmpeg was told to write
    ensures r.Ok? ==>
              r.value == CommandFor(inputPath, targetFormat, uuid).output[|DirPrefix(inputPath)|..]
    // a failure is an Error: the prefix, then ffmpeg's message as interpolated
    ensures r.Err? ==> r.error.Error? && StartsWith(r.error.message, FailurePrefix)
    ensures r.Err? ==> r.error.message[|FailurePrefix|..] == InterpolatedMessage(runFailure.value)
  {
    if runFailure.Some? then
      var message := FailurePrefix + InterpolatedMessage(runFailure.value);
      assert message[|FailurePrefix|..] == InterpolatedMessage(runFailure.value);
      Err(Error(message))
    else Ok(ArtifactName(uuid, targetFormat))
  }

  /** Codec choice ignores letter case; the container does not. */
  lemma CodecsCaseInsensitive(targetFormat: string)
    ensures CodecsFor(targetFormat) == CodecsFor(Lower(targetFormat))
  {
    LowerIdempotent(targetFormat);
  }

  /** The codec table, each pair with the exact formats that select it. */
  lemma CodecTable(targetFormat: string)
    ensures var f := Lower(targetFormat);
      && (CodecsFor(targetFormat) == Codecs(Some("libx264"), Some("aac")) <==> f in {"mp4", "mov", "mkv"})
      && (CodecsFor(targetFormat) == Codecs(Some("libvpx-vp9"), Some("libopus")) <==> f == "webm")
      && (CodecsFor(targetFormat) == Codecs(Some("libx264"), Some("mp3")) <==> f == "avi")
      && (CodecsFor(targetFormat) == Codecs(None, None) <==> f !in {"mp4", "webm", "avi", "mov", "mkv"})
  {
  }

  /** The name handed back is the name of the file ffmpeg writes. */
  lemma WritesReturnedName(inputPath: string, targetFormat: string, uuid: string, runFailure: Option<Thrown>)
    requires !Contains(uuid, '/') && !Contains(targetFormat, '/')
    requires ProcessVideo(inputPath, targetFormat, uuid, runFailure).Ok?
    ensures BaseName(CommandFor(inputPath, targetFormat, uuid).output)
            == ProcessVideo(inputPath, targetFormat, uuid, runFailure).value
  {
    ArtifactBeside(inputPath, uuid, targetFormat);
  }
}
