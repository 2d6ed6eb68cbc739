/** The web client's helpers for picking the media kind of a chosen file
    from its MIME type, and an icon for a kind. */
module WebUtils {
  import opened Text
  import opened Shared

  /** `getFileType`: the first of the "video/", "audio/", "image/" prefixes
      the lower-cased MIME type starts with, otherwise a document. */
  function FileType(mimeType: string): MediaType {
    var t := Lower(mimeType);
    if StartsWith(t, "video/") then Video
    else if StartsWith(t, "audio/") then Audio
    else if StartsWith(t, "image/") then Image
    else Document
  }

  const DefaultIcon := "\U{1F4C1}"

  /** `getFileIcon` */
  function FileIcon(kind: string): string {
    if kind == "video" then "\U{1F3AC}"
    else if kind == "audio" then "\U{1F3B5}"
    else if kind == "image" then "\U{1F5BC}\U{FE0F}"
    else if kind == "document" then "\U{1F4C4}"
    else DefaultIcon
  }

  /** The kind is chosen without regard to letter case. */
  lemma FileTypeCaseInsensitive(mimeType: string)
    ensures FileType(mimeType) == FileType(Lower(mimeType))
  {
    LowerIdempotent(mimeType);
  }

  /** Each kind with the exact MIME types that select it; everything else,
      the empty type included, is a document. */
  lemma FileTypeCases(mimeType: string)
    ensures FileType(mimeType) == Video <==> StartsWith(Lower(mimeType), "video/")
    ensures FileType(mimeType) == Audio <==>
              !StartsWith(Lower(mimeType), "video/") && StartsWith(Lower(mimeType), "audio/")
    ensures FileType(mimeType) == Image <==>
              !StartsWith(Lower(mimeType), "video/") && !StartsWith(Lower(mimeType), "audio/")
              && StartsWith(Lower(mimeType), "image/")
    ensures FileType("") == Document
  {
  }

  /** The four kinds have four different icons and only an unknown kind
      gets the folder. */
  lemma IconTable(kind: string)
    ensures FileIcon(kind) == DefaultIcon <==> KindOf(kind).None?
    ensures forall a, b :: FileIcon(KindName(a)) == FileIcon(KindName(b)) ==> a == b
  {
  }

  /** A kind derived from a MIME type always has its own icon. */
  lemma DerivedKindHasIcon(mimeType: string)
    ensures FileIcon(KindName(FileType(mimeType))) != DefaultIcon
  {
    IconTable(KindName(FileType(mimeType)));
  }
}
