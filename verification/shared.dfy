/** The types the API and the web client share: the job record, its status
    and media kind, and the table of formats offered per kind. */
module Shared {
  import opened Base
  import opened Text
  import opened Paths

  /** The four media kinds a conversion can be requested for. */
  datatype MediaType = Video | Audio | Image | Document

  /** The wire name of each kind. */
  function KindName(t: MediaType): string {
    match t
    case Video => "video"
    case Audio => "audio"
    case Image => "image"
    case Document => "document"
  }

  /** The worker's `switch (type)`: an exact, case-sensitive match on the four
      names. */
  function KindOf(s: string): Option<MediaType> {
    if s == "video" then Some(Video)
    else if s == "audio" then Some(Audio)
    else if s == "image" then Some(Image)
    else if s == "document" then Some(Document)
    else None
  }

  /** The four names and the four kinds correspond one to one, and no other
      string names a kind. */
  lemma KindNamesExact(t: MediaType, s: string)
    ensures KindOf(KindName(t)) == Some(t)
    ensures KindOf(s) == Some(t) <==> s == KindName(t)
  {
  }

  datatype Status = Pending | Processing | Completed | Failed

  function StatusName(s: Status): string {
    match s
    case Pending => "pending"
    case Processing => "processing"
    case Completed => "completed"
    case Failed => "failed"
  }

  /** The four status literals are pairwise different, so a status read back
      from its name is the status written. */
  lemma StatusNamesDistinct(a: Status, b: Status)
    ensures StatusName(a) == StatusName(b) <==> a == b
  {
  }

  /** The stored record of one conversion. `kind` is a string because the
      request layer forwards the client's `type` unchecked; `progress` is
      whatever the converter last reported; times are clock ticks. */
  datatype Job = Job(
    id: string,
    status: Status,
    kind: string,
    inputFile: string,
    outputFile: Option<string>,
    targetFormat: string,
    progress: int,
    error: Option<string>,
    createdAt: nat,
    updatedAt: nat)

  /** A value caught by a `catch`: an `Error` instance with its message, or
      anything else. */
  datatype Thrown = Error(message: string) | NonError

  /** `error instanceof Error ? error.message : 'Unknown error'` */
  function MessageOf(t: Thrown): string {
    match t
    case Error(m) => m
    case NonError => "Unknown error"
  }

  /** `${err.message}` for an error emitted by ffmpeg: a value without a
      message interpolates as "undefined". */
  function InterpolatedMessage(t: Thrown): string {
    match t
    case Error(m) => m
    case NonError => "undefined"
  }

  /** `throw new Error(prefix + MessageOf(t))`: how each converter re-throws a
      failure it caught. */
  function Rewrap(prefix: string, t: Thrown): (r: Thrown)
    ensures r.Error? && |r.message| >= |prefix|
    ensures r.message[..|prefix|] == prefix
    ensures r.message[|prefix|..] == MessageOf(t)
    // a thrown non-Error is reported as 'Unknown error'
    ensures t.NonError? ==> r.message == prefix + "Unknown error"
  {
    Error(prefix + MessageOf(t))
  }

  /** Every converter names its output `<uuid>.<targetFormat>`, keeping the
      requested format exactly as the client spelled it. */
  function ArtifactName(uuid: string, targetFormat: string): (r: string)
    ensures |r| == |uuid| + 1 + |targetFormat|
    ensures r[..|uuid|] == uuid && r[|uuid|] == '.'
    ensures r[|uuid| + 1..] == targetFormat
  {
    uuid + "." + targetFormat
  }

  /** Written beside any input, the output file's own name is the name the
      converter hands back, provided neither part holds a '/'. */
  lemma ArtifactBeside(inputPath: string, uuid: string, targetFormat: string)
    requires !Contains(uuid, '/') && !Contains(targetFormat, '/')
    ensures BaseName(Beside(inputPath, ArtifactName(uuid, targetFormat))) == ArtifactName(uuid, targetFormat)
  {
    var name := ArtifactName(uuid, targetFormat);
    forall i | 0 <= i < |name| ensures name[i] != '/' {
      if i < |uuid| {
        assert name[i] == name[..|uuid|][i];
      } else if i > |uuid| {
        assert name[i] == name[|uuid| + 1..][i - |uuid| - 1];
      }
    }
    BaseNameBeside(inputPath, name);
  }

  const VideoFormats: seq<string> := ["mp4", "avi", "mov", "mkv", "webm", "flv", "wmv"]
  const AudioFormats: seq<string> := ["mp3", "wav", "flac", "aac", "ogg", "m4a", "wma"]
  const ImageFormats: seq<string> := ["jpg", "jpeg", "png", "webp", "avif", "tiff", "bmp", "gif"]
  const DocumentFormats: seq<string> := ["pdf", "docx", "xlsx", "pptx", "txt", "rtf"]

  /** `SUPPORTED_FORMATS[kind]` */
  function SupportedFormats(t: MediaType): seq<string> {
    match t
    case Video => VideoFormats
    case Audio => AudioFormats
    case Image => ImageFormats
    case Document => DocumentFormats
  }

  predicate Distinct(s: seq<string>) {
    forall i, j :: 0 <= i < j < |s| ==> s[i] != s[j]
  }

  /** No list repeats a format. */
  lemma SupportedFormatsDistinct(t: MediaType)
    ensures Distinct(SupportedFormats(t))
  {
    match t
    case Video =>
    case Audio =>
    case Image =>
    case Document =>
  }

  /** Two of the lists share no format. */
  predicate ListsApart(xs: seq<string>, ys: seq<string>) {
    forall x :: x in xs ==> x !in ys
  }

  /** No format is offered for two kinds. */
  lemma SupportedFormatsDisjoint(a: MediaType, b: MediaType, f: string)
    requires a != b && f in SupportedFormats(a)
    ensures f !in SupportedFormats(b)
  {
    match (a, b)
    case (Video, Audio) => VideoAudioApart();
    case (Video, Image) => VideoImageApart();
    case (Video, Document) => VideoDocumentApart();
    case (Audio, Video) => VideoAudioApart();
    case (Audio, Image) => AudioImageApart();
    case (Audio, Document) => AudioDocumentApart();
    case (Image, Video) => VideoImageApart();
    case (Image, Audio) => AudioImageApart();
    case (Image, Document) => ImageDocumentApart();
    case (Document, Video) => VideoDocumentApart();
    case (Document, Audio) => AudioDocumentApart();
    case (Document, Image) => ImageDocumentApart();
    case _ =>
  }

  lemma VideoAudioApart()
    ensures ListsApart(VideoFormats, AudioFormats)
  {
  }

  lemma VideoImageApart()
    ensures ListsApart(VideoFormats, ImageFormats)
  {
  }

  lemma VideoDocumentApart()
    ensures ListsApart(VideoFormats, DocumentFormats)
  {
  }

  lemma AudioImageApart()
    ensures ListsApart(AudioFormats, ImageFormats)
  {
  }

  lemma AudioDocumentApart()
    ensures ListsApart(AudioFormats, DocumentFormats)
  {
  }

  lemma ImageDocumentApart()
    ensures ListsApart(ImageFormats, DocumentFormats)
  {
  }
}
