/** The document converter's routing: copy when the input already has the
    requested extension, render text or Markdown to PDF, otherwise refuse.
    Every failure leaves it with one `Document conversion failed: ` prefix. */
module DocumentProcessor {
  import opened Base
  import opened Text
  import opened Paths
  import opened Shared

  const MarkdownExtensions: set<string> := {".md", ".markdown"}
  const TextLikeExtensions: set<string> := {".txt", ".text", ".md", ".markdown"}

  /** Which branch of the converter a request takes. */
  datatype Branch =
    | SameExtension          // input extension is already ".<target>": copy
    | PdfCopy                // the explicit ".pdf" to "pdf" copy
    | RenderText(markdown: bool)
    | FromUnsupported        // target "pdf" from a non-text source
    | ToUnimplemented        // any other target

  /** The lower-cased extension of the input, as compared by the converter. */
  function InputExt(inputPath: string): string {
    Lower(ExtName(inputPath))
  }

  function BranchFor(inputPath: string, targetFormat: string): Branch {
    var ext := InputExt(inputPath);
    var target := Lower(targetFormat);
    if ext == "." + target then SameExtension
    else if target == "pdf" then
      if ext == ".pdf" then PdfCopy
      else if ext in TextLikeExtensions then RenderText(ext in MarkdownExtensions)
      else FromUnsupported
    else ToUnimplemented
  }

  /** The file operation a branch performs. */
  datatype DocumentWrite =
    | CopyFile(source: string, destination: string)
    | RenderPdf(source: string, destination: string, markdown: bool)

  function WriteFor(inputPath: string, targetFormat: string, uuid: string): (w: Option<DocumentWrite>)
    ensures w.Some? <==> BranchFor(inputPath, targetFormat) !in {FromUnsupported, ToUnimplemented}
    ensures w.Some? ==> w.value.source == inputPath
                        && w.value.destination == Beside(inputPath, ArtifactName(uuid, targetFormat))
    // the two copy branches copy; the text branch renders, as Markdown or not
    ensures BranchFor(inputPath, targetFormat) in {SameExtension, PdfCopy} ==> w.Some? && w.value.CopyFile?
    ensures BranchFor(inputPath, targetFormat).RenderText? ==>
              w.Some? && w.value.RenderPdf? && w.value.markdown == BranchFor(inputPath, targetFormat).markdown
  {
    var out := Beside(inputPath, ArtifactName(uuid, targetFormat));
    match BranchFor(inputPath, targetFormat)
    case SameExtension => Some(CopyFile(inputPath, out))
    case PdfCopy => Some(CopyFile(inputPath, out))
    case RenderText(md) => Some(RenderPdf(inputPath, out, md))
    case FromUnsupported => None
    case ToUnimplemented => None
  }

  const FailurePrefix := "Document conversion failed: "

  function FromUnsupportedMessage(ext: string): string {
    "Document conversion from " + ext
      + " to PDF is not supported. Supported sources: Markdown (.md, .markdown) and plain text (.txt)."
  }

  function ToUnimplementedMessage(targetFormat: string): string {
    "Document conversion to " + targetFormat + " is not implemented yet."
  }

  /** `processDocumentConversion`. `ioFailure` is what the copy or the PDF
      rendering throws, if anything. */
  function ProcessDocument(inputPath: string, targetFormat: string, uuid: string,
                           ioFailure: Option<Thrown>): (r: Result<string, Thrown>)
    ensures r.Ok? <==> WriteFor(inputPath, targetFormat, uuid).Some? && ioFailure.None?
    ensures r.Ok? ==> r.value == ArtifactName(uuid, targetFormat)
    ensures r.Err? ==> r.error.Error? && StartsWith(r.error.message, FailurePrefix)
    ensures BranchFor(inputPath, targetFormat) == FromUnsupported ==>
              r == Err(Error(FailurePrefix + FromUnsupportedMessage(InputExt(inputPath))))
    ensures BranchFor(inputPath, targetFormat) == ToUnimplemented ==>
              r == Err(Error(FailurePrefix + ToUnimplementedMessage(targetFormat)))
    ensures WriteFor(inputPath, targetFormat, uuid).Some? && ioFailure.Some? ==>
              r == Err(Error(FailurePrefix + MessageOf(ioFailure.value)))
  {
    match BranchFor(inputPath, targetFormat)
    case FromUnsupported =>
      Err(Rewrap(FailurePrefix, Error(FromUnsupportedMessage(InputExt(inputPath)))))
    case ToUnimplemented =>
      Err(Rewrap(FailurePrefix, Error(ToUnimplementedMessage(targetFormat))))
    case _ =>
      if ioFailure.Some? then Err(Rewrap(FailurePrefix, ioFailure.value))
      else Ok(ArtifactName(uuid, targetFormat))
  }

  /** An input whose extension already is the target is copied, whatever the
      target is. */
  lemma SameExtensionCopies(inputPath: string, targetFormat: string, uuid: string)
    requires InputExt(inputPath) == "." + Lower(targetFormat)
    ensures WriteFor(inputPath, targetFormat, uuid)
            == Some(CopyFile(inputPath, Beside(inputPath, ArtifactName(uuid, targetFormat))))
  {
  }

  /** The explicit PDF-to-PDF copy can never be taken: the same-extension
      test before it already catches every such request. */
  lemma PdfCopyUnreachable(inputPath: string, targetFormat: string)
    ensures BranchFor(inputPath, targetFormat) != PdfCopy
  {
    var ext := InputExt(inputPath);
    var target := Lower(targetFormat);
    if target == "pdf" && ext == ".pdf" {
      assert "." + target == ".pdf";
    }
  }

  /** Text is rendered exactly for a PDF target from a text-like source, and
      as Markdown exactly for ".md" and ".markdown". */
  lemma RenderExactly(inputPath: string, targetFormat: string, markdown: bool)
    ensures BranchFor(inputPath, targetFormat) == RenderText(markdown)
            <==> Lower(targetFormat) == "pdf" && InputExt(inputPath) in TextLikeExtensions
                 && (markdown <==> InputExt(inputPath) in {".md", ".markdown"})
  {
    if Lower(targetFormat) == "pdf" {
      assert "." + Lower(targetFormat) == ".pdf";
    }
  }

  /** A target other than PDF can only succeed as a same-extension copy. */
  lemma NonPdfOnlyByCopy(inputPath: string, targetFormat: string, uuid: string, ioFailure: Option<Thrown>)
    requires Lower(targetFormat) != "pdf"
    requires ProcessDocument(inputPath, targetFormat, uuid, ioFailure).Ok?
    ensures InputExt(inputPath) == "." + Lower(targetFormat)
    ensures WriteFor(inputPath, targetFormat, uuid).value.CopyFile?
  {
  }

  /** The name handed back is the name of the file written. */
  lemma WritesReturnedName(inputPath: string, targetFormat: string, uuid: string, ioFailure: Option<Thrown>)
    requires !Contains(uuid, '/') && !Contains(targetFormat, '/')
    requires ProcessDocument(inputPath, targetFormat, uuid, ioFailure).Ok?
    ensures WriteFor(inputPath, targetFormat, uuid).Some?
    ensures BaseName(WriteFor(inputPath, targetFormat, uuid).value.destination)
            == ProcessDocument(inputPath, targetFormat, uuid, ioFailure).value
  {
    ArtifactBeside(inputPath, uuid, targetFormat);
  }
}
