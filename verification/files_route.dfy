/** The download endpoint: a file found under the storage directory is sent
    as an attachment with a content type chosen from its extension. */
module FilesRoute {
  import opened Base
  import opened Text
  import opened Paths

  /** The extension table, in the order it is written. */
  const ContentTypes: seq<(string, string)> := [
    (".mp4", "video/mp4"),
    (".avi", "video/x-msvideo"),
    (".mov", "video/quicktime"),
    (".mkv", "video/x-matroska"),
    (".webm", "video/webm"),
    (".mp3", "audio/mpeg"),
    (".wav", "audio/wav"),
    (".flac", "audio/flac"),
    (".aac", "audio/aac"),
    (".ogg", "audio/ogg"),
    (".jpg", "image/jpeg"),
    (".jpeg", "image/jpeg"),
    (".png", "image/png"),
    (".webp", "image/webp"),
    (".avif", "image/avif"),
    (".tiff", "image/tiff"),
    (".pdf", "application/pdf"),
    (".docx", "application/vnd.openxmlformats-officedocument.wordprocessingml.document"),
    (".xlsx", "application/vnd.openxmlformats-officedocument.spreadsheetml.sheet"),
    (".pptx", "application/vnd.openxmlformats-officedocument.presentationml.presentation")
  ]

  /** The type listed for `ext`, if any. */
  function Lookup(table: seq<(string, string)>, ext: string): (r: Option<string>)
    ensures r.Some? ==> (ext, r.value) in table
    ensures r.None? ==> forall i :: 0 <= i < |table| ==> table[i].0 != ext
  {
    if |table| == 0 then None
    else if table[0].0 == ext then Some(table[0].1)
    else Lookup(table[1..], ext)
  }

  /** The first entry for `ext` decides. */
  lemma {:induction false} LookupFirst(table: seq<(string, string)>, ext: string, i: nat)
    requires i < |table| && table[i].0 == ext
    requires forall j :: 0 <= j < i ==> table[j].0 != ext
    ensures Lookup(table, ext) == Some(table[i].1)
    decreases i
  {
    if i > 0 {
      LookupFirst(table[1..], ext, i - 1);
    }
  }

  const OctetStream := "application/octet-stream"

  /** Content type for an extension, compared in lower case. */
  function ContentTypeOfExt(ext: string): string {
    match Lookup(ContentTypes, Lower(ext))
    case Some(t) => t
    case None => OctetStream
  }

  function ContentTypeFor(filename: string): string {
    ContentTypeOfExt(ExtName(filename))
  }

  datatype Response =
    | NotFound(status: nat, error: string)
    | ServerError(status: nat, error: string)
    | Download(contentLength: nat, contentDisposition: string, contentType: string)

  /** A character Node accepts in a header value: tab, printable ASCII and
      the code points 0x80 to 0xFF. Setting a header with any other
      character throws. */
  predicate HeaderChar(c: char) {
    c == '\t' || (' ' <= c <= '~') || ('\U{80}' <= c <= '\U{FF}')
  }

  predicate HeaderSafe(value: string) {
    forall i :: 0 <= i < |value| ==> HeaderChar(value[i])
  }

  function Disposition(filename: string): string {
    "attachment; filename=\"" + filename + "\""
  }

  /** `GET /:filename`, the handler a request under `/files` reaches when
      the static file middleware mounted before it passes the request on.
      `storage` gives a size for each name under which something exists at
      the storage directory joined with that name. Setting the disposition
      header throws when the name holds a character Node refuses in a
      header, and the handler's catch answers 500. */
  function ServeFile(storage: map<string, nat>, filename: string): (r: Response)
    ensures r.NotFound? <==> filename !in storage
    ensures r.NotFound? ==> r.status == 404 && r.error == "File not found"
    ensures r.ServerError? <==> filename in storage && !HeaderSafe(Disposition(filename))
    ensures r.ServerError? ==> r.status == 500 && r.error == "Failed to serve file"
    ensures r.Download? ==> r.contentLength == storage[filename]
    ensures r.Download? ==>
              && r.contentDisposition == "attachment; filename=\"" + filename + "\""
              && HeaderSafe(r.contentDisposition)
    // the type listed for the lower-cased extension, or the fallback exactly
    // when the extension is not listed
    ensures r.Download? ==>
              forall i :: 0 <= i < |ContentTypes| && ContentTypes[i].0 == Lower(ExtName(filename)) ==>
                r.contentType == ContentTypes[i].1
    ensures r.Download? ==>
              (r.contentType == OctetStream
               <==> forall i :: 0 <= i < |ContentTypes| ==> ContentTypes[i].0 != Lower(ExtName(filename)))
  {
    if filename !in storage then NotFound(404, "File not found")
    else if !HeaderSafe(Disposition(filename)) then ServerError(500, "Failed to serve file")
    else
      ContentTypeListed(ExtName(filename));
      ContentTypeFallback(ExtName(filename));
      Download(storage[filename], Disposition(filename), ContentTypeFor(filename))
  }

  /** The disposition header is refused exactly when the name itself holds
      a refused character: the text around it is plain ASCII. */
  lemma {:induction false} DispositionSafe(filename: string)
    ensures HeaderSafe(Disposition(filename)) <==> HeaderSafe(filename)
  {
    var d := Disposition(filename);
    var pre := "attachment; filename=\"";
    assert d == pre + filename + "\"";
    if HeaderSafe(filename) {
      forall i | 0 <= i < |d| ensures HeaderChar(d[i]) {
        if i < |pre| {
          assert d[i] == pre[i];
        } else if i < |pre| + |filename| {
          assert d[i] == filename[i - |pre|];
        } else {
          assert d[i] == '"';
        }
      }
    }
    if HeaderSafe(d) {
      forall i | 0 <= i < |filename| ensures HeaderChar(filename[i]) {
        assert filename[i] == d[|pre| + i];
      }
    }
  }

  /** A stored name of printable ASCII is always sent; one holding a
      character above 0xFF, such as U+0100, answers 500. */
  lemma ServedNames(storage: map<string, nat>, filename: string)
    requires filename in storage
    ensures (forall i :: 0 <= i < |filename| ==> ' ' <= filename[i] <= '~') ==> ServeFile(storage, filename).Download?
    ensures (exists i :: 0 <= i < |filename| && filename[i] > '\U{FF}') ==>
              ServeFile(storage, filename) == ServerError(500, "Failed to serve file")
  {
    DispositionSafe(filename);
  }

  /** A listed extension gets the type it is listed with. */
  lemma ContentTypeListed(ext: string)
    ensures forall i :: 0 <= i < |ContentTypes| && ContentTypes[i].0 == Lower(ext) ==>
              ContentTypeOfExt(ext) == ContentTypes[i].1
  {
    forall i | 0 <= i < |ContentTypes| && ContentTypes[i].0 == Lower(ext)
      ensures ContentTypeOfExt(ext) == ContentTypes[i].1
    {
      ContentTypeTableShape();
      LookupFirst(ContentTypes, Lower(ext), i);
    }
  }

  /** The lookup ignores the letter case of the extension. */
  lemma ContentTypeCaseInsensitive(ext: string)
    ensures ContentTypeOfExt(ext) == ContentTypeOfExt(Lower(ext))
  {
    LowerIdempotent(ext);
  }

  /** The table lists twenty different extensions. */
  lemma ContentTypeTableShape()
    ensures |ContentTypes| == 20
    ensures forall i, j :: 0 <= i < j < |ContentTypes| ==> ContentTypes[i].0 != ContentTypes[j].0
  {
  }

  /** ".jpg" and ".jpeg", in any letter case, share the JPEG type. */
  lemma JpegExtensionsShareType(ext: string)
    requires Lower(ext) in {".jpg", ".jpeg"}
    ensures ContentTypeOfExt(ext) == "image/jpeg"
  {
    if Lower(ext) == ".jpg" {
      LookupFirst(ContentTypes, ".jpg", 10);
    } else {
      LookupFirst(ContentTypes, ".jpeg", 11);
    }
  }

  /** Anything unlisted is sent as an octet stream, and nothing listed is. */
  lemma ContentTypeFallback(ext: string)
    ensures (forall i :: 0 <= i < |ContentTypes| ==> ContentTypes[i].0 != Lower(ext))
            <==> ContentTypeOfExt(ext) == OctetStream
  {
    var r := Lookup(ContentTypes, Lower(ext));
    if r.Some? {
      assert (Lower(ext), r.value) in ContentTypes;
      var i :| 0 <= i < |ContentTypes| && ContentTypes[i] == (Lower(ext), r.value);
      NoEntryIsOctetStream(i);
    }
  }

  /** A file name without an extension is sent as an octet stream. */
  lemma NoExtensionFallback(filename: string)
    requires ExtName(filename) == ""
    ensures ContentTypeFor(filename) == OctetStream
  {
    assert Lower("") == "";
    NoEmptyExtension();
    ContentTypeFallback("");
  }

  lemma NoEntryIsOctetStream(i: nat)
    requires i < |ContentTypes|
    ensures ContentTypes[i].1 != OctetStream
  {
  }

  lemma NoEmptyExtension()
    ensures forall i :: 0 <= i < |ContentTypes| ==> ContentTypes[i].0 != ""
  {
  }

  /** A file `stem.ext` in any directory is typed by its extension. */
  lemma ContentTypeOfFile(dir: string, stem: string, ext: string)
    requires |stem| > 0 && |ext| > 0
    requires !Contains(stem, '/') && !Contains(ext, '/') && !Contains(ext, '.')
    ensures ContentTypeFor(dir + "/" + stem + "." + ext) == ContentTypeOfExt("." + ext)
  {
    ExtNameOfFile(dir, stem, ext);
  }
}
