/** The upload endpoint: validation of the multipart request, creation of
    the job with a fresh id, and the legacy endpoints that fill in the
    media type before handing over to it. */
module ConversionRoute {
  import opened Base
  import opened Shared
  import opened JobStore
  import opened JobQueue

  /** A file the upload middleware stored: it is saved under
      `<uuid>-<original name>` in the storage directory. */
  datatype UploadedFile = UploadedFile(
    storageDir: string,
    uploadUuid: string,
    originalName: string,
    size: nat,
    mimeType: string)

  function StoredName(f: UploadedFile): (r: string)
    ensures |r| == |f.uploadUuid| + 1 + |f.originalName|
    ensures r[..|f.uploadUuid|] == f.uploadUuid && r[|f.uploadUuid|] == '-'
    ensures r[|f.uploadUuid| + 1..] == f.originalName
  {
    f.uploadUuid + "-" + f.originalName
  }

  function StoredPath(f: UploadedFile): string {
    f.storageDir + "/" + StoredName(f)
  }

  /** The parsed request: the uploaded file and the two form fields, each
      possibly absent. */
  datatype Request = Request(file: Option<UploadedFile>, targetFormat: Option<string>, kind: Option<string>)

  /** A form field counts as given when it is present and not empty. */
  predicate Given(field: Option<string>) {
    field.Some? && field.value != ""
  }

  datatype Body =
    | Failure(error: string)
    | Uploaded(jobId: string, filename: string, size: nat, mimeType: string)

  datatype Response = Response(status: nat, body: Body)

  /** The store afterwards, the item offered to the queue (if the handler got
      that far) and the HTTP response. */
  datatype Outcome = Outcome(store: Store, offered: Option<QueueItem>, response: Response)

  function JobDataFor(f: UploadedFile, targetFormat: string, kind: string, jobId: string): JobData {
    JobData(jobId, kind, StoredName(f), targetFormat, f.originalName, StoredPath(f))
  }

  /** `POST /`. `jobId` is the freshly generated id and `enqueue` what the
      queue does with the item. */
  function PostConvert(s: Store, req: Request, jobId: string, now: nat, enqueue: EnqueueResult): (r: Outcome)
    requires Valid(s)
    ensures Valid(r.store)
    // the file is checked first, then the two fields; neither refusal touches the store
    ensures req.file.None? ==> r == Outcome(s, None, Response(400, Failure("No file uploaded")))
    ensures req.file.Some? && !(Given(req.targetFormat) && Given(req.kind)) ==>
              r == Outcome(s, None, Response(400, Failure("Missing targetFormat or type")))
    ensures r.offered.Some? <==> req.file.Some? && Given(req.targetFormat) && Given(req.kind)
    ensures r.offered.Some? ==>
      var item := r.offered.value;
      && item.data.id == jobId && item.options.jobId == jobId
      && item.data.kind == req.kind.value
      && item.data.targetFormat == req.targetFormat.value
      && item.data.inputFile == StoredName(req.file.value)
      && item.data.filePath == StoredPath(req.file.value)
      && item.data.originalName == req.file.value.originalName
      && jobId in r.store.jobs && r.store.jobs[jobId].status == Pending
      && r.store.jobs[jobId].kind == req.kind.value
      && r.store.jobs[jobId].inputFile == req.file.value.originalName
      && r.store.jobs[jobId].targetFormat == req.targetFormat.value
    // other records are untouched
    ensures r.store.jobs.Keys >= s.jobs.Keys
    ensures forall k :: k in s.jobs && k != jobId ==> r.store.jobs[k] == s.jobs[k]
    ensures r.offered.Some? && enqueue.Accepted? ==>
      r.response == Response(200, Uploaded(jobId, req.file.value.originalName, req.file.value.size, req.file.value.mimeType))
    ensures r.offered.Some? && enqueue.Refused? ==>
      r.response == Response(500, Failure("Failed to start conversion"))
  {
    if req.file.None? then Outcome(s, None, Response(400, Failure("No file uploaded")))
    else if !Given(req.targetFormat) || !Given(req.kind) then
      Outcome(s, None, Response(400, Failure("Missing targetFormat or type")))
    else
      var f := req.file.value;
      var added := AddConversionJob(s, JobDataFor(f, req.targetFormat.value, req.kind.value, jobId), now, enqueue);
      var response :=
        if added.outcome.Ok? then Response(200, Uploaded(jobId, f.originalName, f.size, f.mimeType))
        else Response(500, Failure("Failed to start conversion"));
      Outcome(added.store, Some(added.item), response)
  }

  /** The endpoints, the three legacy ones differing only in how they set
      the media type before delegating to `POST /`. */
  datatype Endpoint = Main | Media | ImageOnly | DocumentOnly

  function KindFor(e: Endpoint, kind: Option<string>): Option<string> {
    match e
    case Main => kind
    case Media => if Given(kind) then kind else Some("video")
    case ImageOnly => Some("image")
    case DocumentOnly => Some("document")
  }

  function Post(e: Endpoint, s: Store, req: Request, jobId: string, now: nat, enqueue: EnqueueResult): Outcome
    requires Valid(s)
  {
    PostConvert(s, req.(kind := KindFor(e, req.kind)), jobId, now, enqueue)
  }

  /** `/image` and `/document` overwrite the type whatever the client sent;
      `/media` uses "video" only when no type was given. */
  lemma LegacyKinds(kind: Option<string>)
    ensures KindFor(ImageOnly, kind) == Some("image") && KindFor(DocumentOnly, kind) == Some("document")
    ensures Given(kind) ==> KindFor(Media, kind) == kind
    ensures !Given(kind) ==> KindFor(Media, kind) == Some("video")
    ensures forall e :: e != Main ==> Given(KindFor(e, kind))
  {
  }

  /** A legacy endpoint never answers "Missing targetFormat or type" for a
      missing type: with a file and a format it always offers an item,
      carrying the type it filled in. */
  lemma LegacyEndpointsOffer(e: Endpoint, s: Store, req: Request, jobId: string, now: nat, enqueue: EnqueueResult)
    requires Valid(s) && e != Main && req.file.Some? && Given(req.targetFormat)
    ensures Post(e, s, req, jobId, now, enqueue).offered.Some?
    ensures Post(e, s, req, jobId, now, enqueue).offered.value.data.kind == KindFor(e, req.kind).value
  {
    LegacyKinds(req.kind);
  }

  /** A refused enqueue answers 500 but leaves the pending record behind,
      readable by its id. */
  lemma RefusedEnqueueLeavesRecord(s: Store, req: Request, jobId: string, now: nat, cause: Thrown)
    requires Valid(s) && req.file.Some? && Given(req.targetFormat) && Given(req.kind)
    ensures var r := PostConvert(s, req, jobId, now, Refused(cause));
      && r.response.status == 500
      && GetJobStatus(r.store, jobId).Some? && GetJobStatus(r.store, jobId).value.status == Pending
  {
  }

  /** Any non-empty type is accepted and reaches the worker, which then
      fails the job as an unsupported conversion type. */
  lemma ArbitraryKindReachesWorker(s: Store, req: Request, jobId: string, now: nat, a: Attempt)
    requires Valid(s) && req.file.Some? && Given(req.targetFormat) && Given(req.kind)
    requires KindOf(req.kind.value).None?
    ensures var r := PostConvert(s, req, jobId, now, Accepted);
      && r.response.status == 200
      && var (after, out) := Handle(r.store, r.offered.value.data, a);
      && out == Rethrown(UnsupportedKind(req.kind.value))
      && after.jobs[jobId].status == Failed
  {
  }
}
