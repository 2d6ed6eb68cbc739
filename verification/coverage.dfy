/** How the advertised format lists line up with what each converter
    actually handles. */
module Coverage {
  import opened Base
  import opened Text
  import opened Shared
  import ImageProcessor
  import AudioProcessor
  import VideoProcessor
  import DocumentProcessor

  /** Every advertised format is spelled in lower case. */
  lemma ListedFormatsAreLower(f: string)
    requires f in VideoFormats || f in AudioFormats || f in ImageFormats || f in DocumentFormats
    ensures Lower(f) == f
  {
    assert IsLower(f);
    LowerOfLower(f);
  }

  /** The image converter accepts exactly the advertised image formats, in
      any letter case. */
  lemma ImageFormatsExact(targetFormat: string)
    ensures ImageProcessor.EncoderFor(targetFormat).Some? <==> Lower(targetFormat) in ImageFormats
  {
  }

  /** The audio converter has an explicit codec for exactly the advertised
      audio formats. */
  lemma AudioFormatsExact(targetFormat: string)
    ensures AudioProcessor.SettingsFor(targetFormat).codec.Some? <==> Lower(targetFormat) in AudioFormats
  {
  }

  /** Of the advertised video formats, only FLV and WMV get no explicit
      codecs. */
  lemma VideoFormatsDefaulted(targetFormat: string)
    requires targetFormat in VideoFormats
    ensures VideoProcessor.CodecsFor(targetFormat) == VideoProcessor.Codecs(None, None)
            <==> targetFormat in {"flv", "wmv"}
  {
    LowerOfLower(targetFormat);
  }

  /** An advertised document format other than PDF succeeds only by copying
      an input that already has that extension. */
  lemma DocumentFormatsOnlyPdfConverts(inputPath: string, targetFormat: string, uuid: string,
                                       ioFailure: Option<Thrown>)
    requires targetFormat in DocumentFormats && targetFormat != "pdf"
    requires DocumentProcessor.ProcessDocument(inputPath, targetFormat, uuid, ioFailure).Ok?
    ensures DocumentProcessor.InputExt(inputPath) == "." + targetFormat
  {
    assert Lower(targetFormat) == targetFormat by { ListedFormatsAreLower(targetFormat); }
    DocumentProcessor.NonPdfOnlyByCopy(inputPath, targetFormat, uuid, ioFailure);
  }
}
