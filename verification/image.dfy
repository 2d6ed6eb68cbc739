/** The image converter: a case-insensitive choice of encoder from the
    requested format, then a single write through the imaging library. */
module ImageProcessor {
  import opened Base
  import opened Text
  import opened Paths
  import opened Shared

  /** The encoder the imaging library is configured with. `Png(None)` is the
      library's default PNG settings. */
  datatype Encoder =
    | Jpeg(quality: nat)
    | Png(compressionLevel: Option<nat>)
    | Webp(quality: nat)
    | Avif(quality: nat)
    | Tiff(compression: string)

  /** The `switch (targetFormat.toLowerCase())`; `None` is its `default`
      branch. BMP and GIF have no encoder of their own and are written as
      PNG. */
  function EncoderFor(targetFormat: string): Option<Encoder> {
    var f := Lower(targetFormat);
    if f == "jpg" || f == "jpeg" then Some(Jpeg(90))
    else if f == "png" then Some(Png(Some(6)))
    else if f == "webp" then Some(Webp(90))
    else if f == "avif" then Some(Avif(90))
    else if f == "tiff" then Some(Tiff("lzw"))
    else if f == "bmp" || f == "gif" then Some(Png(None))
    else None
  }

  const FailurePrefix := "Image conversion failed: "

  /** The one file write the converter performs. */
  datatype ImageWrite = ImageWrite(input: string, output: string, encoder: Encoder)

  /** What is written for a request, or `None` when the format is refused
      before anything is written. */
  function WriteFor(inputPath: string, targetFormat: string, uuid: string): (w: Option<ImageWrite>)
    ensures w.Some? <==> EncoderFor(targetFormat).Some?
    ensures w.Some? ==> w.value.input == inputPath
                        && w.value.output == Beside(inputPath, ArtifactName(uuid, targetFormat))
    ensures w.Some? ==> w.value.encoder == EncoderFor(targetFormat).value
  {
    match EncoderFor(targetFormat)
    case None => None
    case Some(e) => Some(ImageWrite(inputPath, Beside(inputPath, ArtifactName(uuid, targetFormat)), e))
  }

  /** `processImageConversion`. `writeFailure` is what the library's
      `toFile` throws, if anything. */
  function ProcessImage(inputPath: string, targetFormat: string, uuid: string,
                        writeFailure: Option<Thrown>): (r: Result<string, Thrown>)
    ensures r.Ok? <==> EncoderFor(targetFormat).Some? && writeFailure.None?
    ensures r.Ok? ==> r.value == ArtifactName(uuid, targetFormat)
    ensures r.Err? ==> r.error.Error? && StartsWith(r.error.message, FailurePrefix)
    ensures EncoderFor(targetFormat).None? ==>
              r == Err(Error(FailurePrefix + ("Unsupported image format: " + targetFormat)))
    ensures EncoderFor(targetFormat).Some? && writeFailure.Some? ==>
              r == Err(Error(FailurePrefix + MessageOf(writeFailure.value)))
  {
    match WriteFor(inputPath, targetFormat, uuid)
    case None =>
      Err(Rewrap(FailurePrefix, Error("Unsupported image format: " + targetFormat)))
    case Some(_) =>
      if writeFailure.Some? then Err(Rewrap(FailurePrefix, writeFailure.value))
      else Ok(ArtifactName(uuid, targetFormat))
  }

  /** The format is matched without regard to letter case. */
  lemma EncoderCaseInsensitive(targetFormat: string)
    ensures EncoderFor(targetFormat) == EncoderFor(Lower(targetFormat))
  {
    LowerIdempotent(targetFormat);
  }

  /** The encoder table, each choice with the exact set of formats that
      selects it. */
  lemma EncoderTable(targetFormat: string)
    ensures EncoderFor(targetFormat) == Some(Jpeg(90)) <==> Lower(targetFormat) in {"jpg", "jpeg"}
    ensures EncoderFor(targetFormat) == Some(Png(Some(6))) <==> Lower(targetFormat) == "png"
    ensures EncoderFor(targetFormat) == Some(Webp(90)) <==> Lower(targetFormat) == "webp"
    ensures EncoderFor(targetFormat) == Some(Avif(90)) <==> Lower(targetFormat) == "avif"
    ensures EncoderFor(targetFormat) == Some(Tiff("lzw")) <==> Lower(targetFormat) == "tiff"
    ensures EncoderFor(targetFormat) == Some(Png(None)) <==> Lower(targetFormat) in {"bmp", "gif"}
  {
  }

  /** A refused format never reaches the library: the outcome is the same
      whatever the write would have done. */
  lemma UnsupportedBeforeWrite(inputPath: string, targetFormat: string, uuid: string,
                               f1: Option<Thrown>, f2: Option<Thrown>)
    requires EncoderFor(targetFormat).None?
    ensures WriteFor(inputPath, targetFormat, uuid).None?
    ensures ProcessImage(inputPath, targetFormat, uuid, f1) == ProcessImage(inputPath, targetFormat, uuid, f2)
  {
  }

  /** A GIF or BMP request is encoded as PNG but still named with the
      requested extension. */
  lemma GifKeepsItsName(inputPath: string, uuid: string)
    ensures WriteFor(inputPath, "gif", uuid).Some?
    ensures WriteFor(inputPath, "gif", uuid).value.encoder == Png(None)
    ensures ProcessImage(inputPath, "gif", uuid, None) == Ok(uuid + ".gif")
    ensures WriteFor(inputPath, "bmp", uuid).Some?
    ensures WriteFor(inputPath, "bmp", uuid).value.encoder == Png(None)
    ensures ProcessImage(inputPath, "bmp", uuid, None) == Ok(uuid + ".bmp")
  {
    LowerOfLower("gif");
    assert EncoderFor("gif").Some?;
    assert ArtifactName(uuid, "gif") == uuid + ".gif";
    LowerOfLower("bmp");
    assert EncoderFor("bmp").Some?;
    assert ArtifactName(uuid, "bmp") == uuid + ".bmp";
  }

  /** The name handed back is the name of the file written. */
  lemma WritesReturnedName(inputPath: string, targetFormat: string, uuid: string, writeFailure: Option<Thrown>)
    requires !Contains(uuid, '/') && !Contains(targetFormat, '/')
    requires ProcessImage(inputPath, targetFormat, uuid, writeFailure).Ok?
    ensures WriteFor(inputPath, targetFormat, uuid).Some?
    ensures BaseName(WriteFor(inputPath, targetFormat, uuid).value.output)
            == ProcessImage(inputPath, targetFormat, uuid, writeFailure).value
  {
    ArtifactBeside(inputPath, uuid, targetFormat);
  }
}
