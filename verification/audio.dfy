/** The audio converter: container, codec and bitrate chosen from the
    lower-cased format, then one ffmpeg run with video dropped. */
module AudioProcessor {
  import opened Base
  import opened Text
  import opened Paths
  import opened Shared

  /** The ffmpeg settings selected by the format switch. `codec = None`
      leaves ffmpeg's default codec for the container. */
  datatype AudioSettings = AudioSettings(
    container: string,
    codec: Option<string>,
    bitrate: Option<string>,
    outputOptions: seq<string>)

  const Bitrate := "192k"

  function SettingsFor(targetFormat: string): AudioSettings {
    var f := Lower(targetFormat);
    if f == "mp3" then AudioSettings("mp3", Some("libmp3lame"), Some(Bitrate), [])
    else if f == "wav" then AudioSettings("wav", Some("pcm_s16le"), None, [])
    else if f == "flac" then AudioSettings("flac", Some("flac"), None, [])
    else if f == "aac" then AudioSettings("adts", Some("aac"), Some(Bitrate), [])
    else if f == "ogg" then AudioSettings("ogg", Some("libvorbis"), Some(Bitrate), [])
    else if f == "m4a" then AudioSettings("ipod", Some("aac"), Some(Bitrate), ["-movflags", "use_metadata_tags"])
    else if f == "wma" then AudioSettings("asf", Some("wmav2"), Some(Bitrate), [])
    else AudioSettings(f, None, None, [])
  }

  /** The ffmpeg command line: input, output beside it, and the settings. */
  datatype AudioCommand = AudioCommand(input: string, output: string, settings: AudioSettings)

  function CommandFor(inputPath: string, targetFormat: string, uuid: string): (c: AudioCommand)
    ensures c.input == inputPath
    // the output sits in the input's directory under the artifact name
    ensures StartsWith(c.output, DirPrefix(inputPath))
    ensures c.output[|DirPrefix(inputPath)|..] == ArtifactName(uuid, targetFormat)
    // the settings depend on the format's lower-cased form only
    ensures c.settings == SettingsFor(Lower(targetFormat))
  {
    LowerIdempotent(targetFormat);
    var out := Beside(inputPath, ArtifactName(uuid, targetFormat));
    assert out[|DirPrefix(inputPath)|..] == ArtifactName(uuid, targetFormat);
    AudioCommand(inputPath, out, SettingsFor(targetFormat))
  }

  const FailurePrefix := "Audio conversion failed: "

  /** `processAudioConversion`, resolved by the ffmpeg run's `end` (no
      failure) or `error` event. Progress events are forwarded to the caller
      unchanged and are handled by the worker. An unknown format is no error
      of its own. */
  function ProcessAudio(inputPath: string, targetFormat: string, uuid: string,
                        runFailure: Option<Thrown>): (r: Result<string, Thrown>)
    ensures r.Ok? <==> runFailure.None?
    // the name handed back is the file name ffmpeg was told to write
    ensures r.Ok? ==>
              r.value == CommandFor(inputPath, targetFormat, uuid).output[|DirPrefix(inputPath)|..]
    // a failure is an Error: the prefix, then ffmpeg's message as interpolated
    ensures r.Err? ==> r.error.Error? && StartsWith(r.error.message, FailurePrefix)
    ensures r.Err? ==> r.error.message[|FailurePrefix|..] == InterpolatedMessage(runFailure.value)
  {
    if runFailure.Some? then
      var message := FailurePrefix + InterpolatedMessage(runFailure.value);
      assert message[|FailurePrefix|..] == InterpolatedMessage(runFailure.value);
      Err(Error(message))
    else Ok(ArtifactName(uuid, targetFormat))
  }

  /** The format is lower-cased before the lookup. */
  lemma SettingsCaseInsensitive(targetFormat: string)
    ensures SettingsFor(targetFormat) == SettingsFor(Lower(targetFormat))
  {
    LowerIdempotent(targetFormat);
  }

  /** The container table, the lossless formats without a bitrate, and the
      metadata flag for M4A alone. */
  lemma SettingsTable(targetFormat: string)
    ensures var f := Lower(targetFormat);
      && (f == "aac" ==> SettingsFor(targetFormat).container == "adts")
      && (f == "m4a" ==> SettingsFor(targetFormat).container == "ipod")
      && (f == "wma" ==> SettingsFor(targetFormat).container == "asf")
      && (SettingsFor(targetFormat).container == f <==> f !in {"aac", "m4a", "wma"})
      && (SettingsFor(targetFormat).bitrate == Some(Bitrate) <==> f in {"mp3", "aac", "ogg", "m4a", "wma"})
      && (SettingsFor(targetFormat).bitrate.None? <==> f !in {"mp3", "aac", "ogg", "m4a", "wma"})
      && (SettingsFor(targetFormat).outputOptions != [] <==> f == "m4a")
  {
  }

  /** An unlisted format is used as the container itself, with no codec,
      bitrate or extra option. */
  lemma UnknownFormatDefaults(targetFormat: string)
    requires Lower(targetFormat) !in {"mp3", "wav", "flac", "aac", "ogg", "m4a", "wma"}
    ensures SettingsFor(targetFormat) == AudioSettings(Lower(targetFormat), None, None, [])
  {
  }

  /** An AAC request is muxed as ADTS but the file keeps the requested
      extension. */
  lemma AacKeepsItsName(inputPath: string, uuid: string)
    ensures CommandFor(inputPath, "AAC", uuid).settings.container == "adts"
    ensures CommandFor(inputPath, "AAC", uuid).output == Beside(inputPath, uuid + ".AAC")
  {
    assert Lower("AAC") == "aac";
    assert SettingsFor("AAC").container == "adts";
    assert ArtifactName(uuid, "AAC") == uuid + ".AAC";
  }

  /** The name handed back is the name of the file ffmpeg writes. */
  lemma WritesReturnedName(inputPath: string, targetFormat: string, uuid: string, runFailure: Option<Thrown>)
    requires !Contains(uuid, '/') && !Contains(targetFormat, '/')
    requires ProcessAudio(inputPath, targetFormat, uuid, runFailure).Ok?
    ensures BaseName(CommandFor(inputPath, targetFormat, uuid).output)
            == ProcessAudio(inputPath, targetFormat, uuid, runFailure).value
  {
    ArtifactBeside(inputPath, uuid, targetFormat);
  }
}
