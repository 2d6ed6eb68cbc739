# Magenta Converter: a model of the conversion core

Magenta Converter is a file-conversion service. A client uploads a file
together with a target format and a media kind (`video`, `audio`, `image`
or `document`). The API stores a `pending` job record, keyed by a fresh id,
in an in-memory map and puts a work item on a queue that allows 3 attempts
with exponential backoff. A worker then claims the item. It marks the record
`processing`, calls the converter for the kind, stores any progress the
converter reports, and ends the record as `completed` with the output name
or as `failed` with the error message. The converters work as follows:

- image: picks an encoder from the lower-cased format;
- audio: picks a container, codec and bitrate for ffmpeg;
- video: uses the requested format as the ffmpeg container and picks codecs;
- document: copies the file when its extension already is the target, or
  renders text and Markdown to PDF.

Each converter names its output `<uuid>.<format>` next to the input. When a
converter fails, it re-throws the error behind its own
`… conversion failed: ` prefix. The download handler `GET /files/:filename`
answers with the file found at the storage directory joined with the name,
as an attachment with a content type looked up from the lower-cased
extension. It is reached only when the static-file middleware mounted on
`/files` before it passes the request on: for a name that does not exist, a
dotfile, or a name whose encoded slashes decode to `..` segments. The web client
picks a kind from a MIME type and an icon for a kind.

The model is written in Dafny as pure functions over immutable data:

| module | file | what it models |
|---|---|---|
| `Base` | base.dfy | `Option` and `Result` |
| `Text` | text.dfy | ASCII `toLowerCase`, JavaScript white space and `trim`, the regular-expression `.` |
| `Paths` | paths.dfy | Node's `path.basename`, `path.extname` and `path.join(path.dirname(p), name)` for '/'-separated paths |
| `Shared` | shared.dfy | kinds, statuses, the job record, caught values, output names, `SUPPORTED_FORMATS` |
| `ImageProcessor`, `AudioProcessor`, `VideoProcessor`, `DocumentProcessor` | image.dfy, audio.dfy, video.dfy, document.dfy | the four converters, with the external library's outcome as a parameter |
| `Markdown` | markdown.dfy | the line split and the line classifier of the text-to-PDF renderer |
| `JobStore` | store.dfy | the job map, with JavaScript `Map` insertion order |
| `JobQueue` | queue.dfy | `addConversionJob`, `getJobStatus`, `getAllJobs`, the worker handler, and re-delivery by the queue |
| `ConversionRoute` | conversion_route.dfy | the upload endpoint and its three legacy variants |
| `FilesRoute` | files_route.dfy | the download endpoint |
| `WebUtils` | web_utils.dfy | `getFileType` and `getFileIcon` |
| `Coverage` | coverage.dfy | how the advertised format lists line up with the converters |

Whatever comes from outside is a parameter:

- each generated uuid;
- the clock;
- the queue's verdict on `add`;
- what sharp, ffmpeg, fs or pdfkit did during a run, given as
  `LibRun(reports, failure)`;
- which names exist on disk, given as a map from name to size: a name is in
  it when something exists at the storage directory joined with that name.

Some behaviours of the code are easy to miss:

- Progress is stored exactly as the converter reports it. It is not clamped
  to 0..100, and it can go down.
- The worker never checks for a terminal state. A re-delivered job that had
  `failed` goes back to `processing` and still carries the old error.
- Every failure is retried, a permanent one such as an unknown kind
  included, so an unknown kind runs once per attempt.
- `addConversionJob` stores the record before it enqueues the item. A
  refused enqueue answers 500 and leaves the `pending` record behind.
- A later success keeps an earlier `error`. A later failure keeps an
  earlier `outputFile`.
- The upload route generates the job id and passes it to
  `addConversionJob`.
- `getJobStatus` of an unknown id gives nothing.
- The upload route forwards any non-empty `type`, whether or not it is one
  of the four kinds.
- An unknown audio format is lower-cased and used as the ffmpeg container,
  with no codec or bitrate. An unknown video format is used as the
  container as written, with ffmpeg's default codecs. Neither is an error
  of the converter's own.

## Model

| member | source | states |
|---|---|---|
| Shared.KindNamesExact | apps/api/src/queue/index.ts:57-81 | the worker's switch recognises exactly the four wire names, case-sensitively, one kind per name |
| Shared.StatusNamesDistinct | packages/shared/src/index.ts:3 | the four status literals are pairwise different |
| Shared.Rewrap | apps/api/src/queue/processors/image.ts:48-50 | a re-thrown failure is an `Error` whose message is the converter's prefix followed by the caught message, or by 'Unknown error' when a non-Error was thrown |
| Shared.ArtifactName | apps/api/src/queue/processors/image.ts:9 | the output name is the uuid, a '.', then the target format exactly as the client spelled it |
| Shared.ArtifactBeside | apps/api/src/queue/processors/image.ts:9-10 | written beside any input, the output file's own name is the returned name when neither the uuid nor the format holds a '/' |
| Shared.SupportedFormatsDistinct | packages/shared/src/index.ts:43-48 | no advertised list repeats a format |
| Shared.SupportedFormatsDisjoint | packages/shared/src/index.ts:43-48 | no format is advertised for two kinds |
| Paths.ExtName | apps/api/src/queue/processors/document.ts:94 | an extension is empty or a '.' followed by text with no further '.' and no '/' |
| Paths.ExtNameOfFile | apps/api/src/routes/files.ts:30 | the file `stem.ext` has extension `.ext` in any directory |
| Paths.BaseNameBeside | apps/api/src/queue/processors/image.ts:10 | an output placed beside the input keeps its own name as base name |
| ImageProcessor.WriteFor | apps/api/src/queue/processors/image.ts:9-46 | a write happens exactly when the format has an encoder; it reads the input, writes `<uuid>.<format>` beside it, and uses the encoder the format selects |
| ImageProcessor.ProcessImage | apps/api/src/queue/processors/image.ts:5-51 | success exactly when the format is known and the write does not fail, giving the output name; an unknown format fails with "Unsupported image format: …" and a write failure with its message, both behind "Image conversion failed: " |
| ImageProcessor.WritesReturnedName | apps/api/src/queue/processors/image.ts:9-46 | on success the file written is named exactly as the returned name |
| ImageProcessor.EncoderCaseInsensitive | apps/api/src/queue/processors/image.ts:16 | the encoder choice ignores letter case |
| ImageProcessor.EncoderTable | apps/api/src/queue/processors/image.ts:16-43 | each encoder with its settings and the exact formats that select it; BMP and GIF get default PNG |
| ImageProcessor.UnsupportedBeforeWrite | apps/api/src/queue/processors/image.ts:41-45 | an unknown format is refused before any write, whatever the library would do |
| ImageProcessor.GifKeepsItsName | apps/api/src/queue/processors/image.ts:37-40 | a GIF or BMP request is encoded as PNG with default settings but named `<uuid>.gif` or `<uuid>.bmp` |
| AudioProcessor.ProcessAudio | apps/api/src/queue/processors/audio.ts:10-76 | success exactly when ffmpeg ends without error, and the name returned is the file name ffmpeg was told to write; a failure is an Error of "Audio conversion failed: " followed by ffmpeg's message, or "undefined" for a non-Error |
| AudioProcessor.WritesReturnedName | apps/api/src/queue/processors/audio.ts:11-68 | on success the file ffmpeg writes is named exactly as the returned name |
| AudioProcessor.CommandFor | apps/api/src/queue/processors/audio.ts:11-21 | ffmpeg reads the input and writes into the input's directory under `<uuid>.<format>`; the settings depend only on the lower-cased format |
| AudioProcessor.SettingsCaseInsensitive | apps/api/src/queue/processors/audio.ts:14 | the settings depend only on the lower-cased format |
| AudioProcessor.SettingsTable | apps/api/src/queue/processors/audio.ts:16-58 | AAC, M4A and WMA are muxed as adts, ipod and asf; every other format is its own container; 192k exactly for the lossy five; the metadata option for M4A alone |
| AudioProcessor.UnknownFormatDefaults | apps/api/src/queue/processors/audio.ts:53-58 | an unlisted format becomes the container, with no codec, bitrate or option |
| AudioProcessor.AacKeepsItsName | apps/api/src/queue/processors/audio.ts:36-39 | an "AAC" request is muxed as adts and named `<uuid>.AAC` |
| VideoProcessor.ProcessVideo | apps/api/src/queue/processors/video.ts:10-56 | success exactly when ffmpeg ends without error, and the name returned is the file name ffmpeg was told to write; a failure is an Error of "Video conversion failed: " followed by ffmpeg's message, or "undefined" for a non-Error |
| VideoProcessor.WritesReturnedName | apps/api/src/queue/processors/video.ts:11-48 | on success the file ffmpeg writes is named exactly as the returned name |
| VideoProcessor.CommandFor | apps/api/src/queue/processors/video.ts:11-19 | ffmpeg writes into the input's directory under `<uuid>.<format>`; the container is the format as written, while the codecs depend only on its lower-cased form |
| VideoProcessor.CodecsCaseInsensitive | apps/api/src/queue/processors/video.ts:19 | the codec choice ignores letter case |
| VideoProcessor.CodecTable | apps/api/src/queue/processors/video.ts:19-38 | each codec pair with the exact formats that select it; any other format keeps ffmpeg's defaults |
| DocumentProcessor.WriteFor | apps/api/src/queue/processors/document.ts:90-111 | a file operation happens exactly for the copy and render branches; both copy branches copy, the text branch renders to PDF as Markdown exactly when the branch says so, and each reads the input and writes `<uuid>.<format>` beside it |
| DocumentProcessor.ProcessDocument | apps/api/src/queue/processors/document.ts:86-121 | success exactly when a branch writes and the write does not fail; each refusal has its exact message, and every failure carries one "Document conversion failed: " prefix |
| DocumentProcessor.WritesReturnedName | apps/api/src/queue/processors/document.ts:90-111 | on success the file copied or rendered is named exactly as the returned name |
| DocumentProcessor.SameExtensionCopies | apps/api/src/queue/processors/document.ts:97-100 | an input that already has the target extension, in any case, is copied for any target |
| DocumentProcessor.PdfCopyUnreachable | apps/api/src/queue/processors/document.ts:102-106 | the explicit PDF-to-PDF copy branch can never be reached |
| DocumentProcessor.RenderExactly | apps/api/src/queue/processors/document.ts:102-111 | text is rendered exactly for a PDF target from .txt, .text, .md or .markdown, and as Markdown exactly for the last two |
| DocumentProcessor.NonPdfOnlyByCopy | apps/api/src/queue/processors/document.ts:97-116 | a non-PDF target succeeds only as a same-extension copy |
| Markdown.SplitLines | apps/api/src/queue/processors/document.ts:23 | splitting gives at least one line, none holding a "\n" |
| Markdown.SplitJoinLf | apps/api/src/queue/processors/document.ts:23 | splitting undoes joining with "\n" for lines without "\n" that do not end in "\r" |
| Markdown.SplitJoinCrLf | apps/api/src/queue/processors/document.ts:23 | splitting undoes joining with "\r\n" for lines without "\n" |
| Markdown.MatchHeading | apps/api/src/queue/processors/document.ts:57-60 | the pattern matches exactly when the trimmed line opens with 1 to 6 '#' and then white space; the level is that number of marks, and the text is what follows the whole run of white space, up to a line terminator |
| Markdown.MatchListItem | apps/api/src/queue/processors/document.ts:69-71 | the pattern matches exactly when, after the leading white space, the line has a marker ("-", "*", "+" or digits and ".") followed by white space; the text is what follows that white space, up to a line terminator |
| Markdown.ClassifyShape | apps/api/src/queue/processors/document.ts:24-45 | one block per line; code mode ends flipped exactly when the number of fence lines is odd |
| Markdown.ClassifyPointwise | apps/api/src/queue/processors/document.ts:32-80 | the fold classifies every line as it would be classified alone, in the mode left by the fences before it |
| Markdown.EndsInCodeIffOddFences | apps/api/src/queue/processors/document.ts:23-45 | a whole file leaves a code block open exactly when it has an odd number of fences |
| Markdown.FenceAlwaysToggles | apps/api/src/queue/processors/document.ts:35-45 | a fence line toggles code mode, even inside code |
| Markdown.CodeIsVerbatim | apps/api/src/queue/processors/document.ts:47-50 | inside code every non-fence line is kept as it is, and an empty one becomes a single space |
| Markdown.BlankIffWhiteSpace | apps/api/src/queue/processors/document.ts:52-55 | outside code a non-fence line is blank exactly when it is all white space |
| Markdown.HeadingSizes | apps/api/src/queue/processors/document.ts:57-61 | heading levels are 1 to 6 with size max(16, 26 - 2·level), between 16 and 24, shrinking with the level |
| Markdown.HeadingExample | apps/api/src/queue/processors/document.ts:57-61 | "## Setup" is a level-2 heading of size 22 with text "Setup" |
| Markdown.TrailingSpaceListExample | apps/api/src/queue/processors/document.ts:69-71 | "- " is an empty list item, because the list pattern runs on the untrimmed line |
| Markdown.BareMarkerExample | apps/api/src/queue/processors/document.ts:69-79 | "-" alone is a paragraph |
| Markdown.SevenHashesExample | apps/api/src/queue/processors/document.ts:57-79 | seven '#' are no heading: the line is a paragraph |
| JobStore.Put | apps/api/src/queue/index.ts:135 | `jobs.set` replaces the record under the id; a new id goes last in the order and an existing one keeps its place |
| JobStore.PutKeepsKeyedById | apps/api/src/queue/index.ts:135 | storing a record under its own id keeps every record under its own id |
| JobStore.Values | apps/api/src/queue/index.ts:154-156 | the listing holds every stored record exactly once, in insertion order |
| JobStore.PutNewThenValues | apps/api/src/queue/index.ts:154-156 | after storing a new id, the listing is the old one followed by the new record |
| JobStore.PutExistingThenValues | apps/api/src/queue/index.ts:46-51 | replacing a record keeps its place in the listing |
| JobQueue.AddConversionJob | apps/api/src/queue/index.ts:121-148 | a pending record with progress 0, the original name and no output or error is stored under the id, others untouched; the item is "convert" with jobId = id, 3 attempts and exponential backoff of 2000 ms; a refused enqueue returns its error but keeps the record |
| JobQueue.AddThenGet | apps/api/src/queue/index.ts:121-156 | right after adding, the record reads back pending and is listed |
| JobQueue.GetNeverAdded | apps/api/src/queue/index.ts:150-152 | an id never added reads back as nothing, before and after other adds |
| JobQueue.AddKeepsKeyedById | apps/api/src/queue/index.ts:123-135 | adding keeps every record under its own id |
| JobQueue.Claim | apps/api/src/queue/index.ts:46-51 | the claim marks the record processing with a new update time and changes nothing else; an absent id is left absent |
| JobQueue.ApplyReports | apps/api/src/queue/index.ts:59-72 | after the callbacks the record holds the last reported value, or is unchanged when there was none |
| JobQueue.Handle | apps/api/src/queue/index.ts:42-107 | one run creates nothing, touches only its own record and returns or re-throws the converter's outcome; on success the record is completed at 100 with the output name and keeps its old error; on failure it is failed with the message ('Unknown error' for a non-Error), keeps its old output and has the last progress reported |
| JobQueue.RetryReopensFailed | apps/api/src/queue/index.ts:46-51 | a re-delivered failed or completed record is processing again and still has its old error |
| JobQueue.ProgressVerbatim | apps/api/src/queue/index.ts:58-73 | after k callbacks of a video or audio run the record is processing with exactly the k-th reported value |
| JobQueue.ProgressNotMonotone | apps/api/src/queue/index.ts:58-64 | reports 50, 10, 250 are stored as 50, then 10, then 250 |
| JobQueue.NonStreamingIgnoresReports | apps/api/src/queue/index.ts:74-79 | image and document runs ignore library progress; a failed one keeps its previous progress |
| JobQueue.UnknownKindFails | apps/api/src/queue/index.ts:80-81 | an unknown kind fails with "Unsupported conversion type: <kind>" whatever the library would do |
| JobQueue.KnownKindFailuresArePrefixed | apps/api/src/queue/index.ts:57-79 | a converter failure for a known kind is an Error with that converter's prefix |
| JobQueue.StaleFieldsSurvive | apps/api/src/queue/index.ts:85-104 | success keeps the old error, and failure keeps the old output name |
| JobQueue.ImageScenario | apps/api/src/queue/index.ts:74-91 | a "photo.png" image job asked for "webp" ends completed at 100 with `<uuid>.webp` when the library succeeds |
| JobQueue.Deliver | apps/api/src/queue/index.ts:138-145 | at most 3 runs, run i being the handler's outcome on the i-th attempt; every run but the last re-threw, delivery stops early only on success, the record ends completed at 100 with the last run's output name or failed with its message, and every other record is untouched |
| JobQueue.AfterRun | apps/api/src/queue/index.ts:140 | after a run the queue stops on success or on the last attempt and delivers again otherwise, each later run being the handler's outcome on the next attempt; the record ends as the last run did and every other record is untouched |
| JobQueue.ThirdAttemptSucceeds | apps/api/src/queue/index.ts:84-145 | two failures and then a success use all three attempts; the record ends completed at 100 with the third output and still holds the second failure's message |
| JobQueue.UnknownKindUsesAllAttempts | apps/api/src/queue/index.ts:138-145 | an unknown kind is run once for every attempt left, each run re-throwing the same error |
| ConversionRoute.StoredName | apps/api/src/routes/conversion.ts:22-25 | an upload is stored as its uuid, a '-', then the original name |
| ConversionRoute.PostConvert | apps/api/src/routes/conversion.ts:40-87 | a missing file gets 400 "No file uploaded" before the fields are checked; a missing or empty format or type gets 400 "Missing targetFormat or type"; neither refusal touches the store; otherwise a pending record with the original name and format and an item with the given fields, the stored name and the stored path are created, every other record untouched, with 200 and the upload's name, size and MIME type, or 500 "Failed to start conversion" when the enqueue throws |
| ConversionRoute.LegacyKinds | apps/api/src/routes/conversion.ts:90-103 | `/image` and `/document` overwrite the type; `/media` fills in "video" only when no type was given |
| ConversionRoute.LegacyEndpointsOffer | apps/api/src/routes/conversion.ts:90-103 | handed the parsed request with a file and a format, a legacy endpoint creates a job of the type it filled in, as `POST /` would |
| ConversionRoute.RefusedEnqueueLeavesRecord | apps/api/src/routes/conversion.ts:60-86 | a refused enqueue answers 500 yet leaves a readable pending record |
| ConversionRoute.ArbitraryKindReachesWorker | apps/api/src/routes/conversion.ts:52-68 | any non-empty type is accepted with 200, and the worker then fails the job as an unsupported type |
| FilesRoute.Lookup | apps/api/src/routes/files.ts:54 | a found type is listed for the extension; nothing is found only when no entry has that extension |
| FilesRoute.LookupFirst | apps/api/src/routes/files.ts:31-54 | the first entry for an extension decides |
| FilesRoute.ServeFile | apps/api/src/routes/files.ts:9-67 | 404 "File not found" exactly when nothing exists at the joined path; 500 "Failed to serve file" exactly when the name holds a character refused in a header; otherwise the size, an attachment disposition with the name that is a valid header value, the type listed for the lower-cased extension, and "application/octet-stream" exactly when the extension is not listed |
| FilesRoute.DispositionSafe | apps/api/src/routes/files.ts:27 | the disposition header is refused exactly when the file name holds a refused character |
| FilesRoute.ServedNames | apps/api/src/routes/files.ts:9-67 | an existing printable-ASCII name is always sent; an existing name holding a character above U+00FF answers 500 |
| FilesRoute.ContentTypeListed | apps/api/src/routes/files.ts:30-54 | a listed extension, in any case, gets the type it is listed with |
| FilesRoute.ContentTypeCaseInsensitive | apps/api/src/routes/files.ts:30 | the type lookup ignores the letter case of the extension |
| FilesRoute.ContentTypeTableShape | apps/api/src/routes/files.ts:31-52 | the table lists twenty different extensions |
| FilesRoute.JpegExtensionsShareType | apps/api/src/routes/files.ts:42-43 | ".jpg" and ".jpeg", in any case, are "image/jpeg" |
| FilesRoute.ContentTypeFallback | apps/api/src/routes/files.ts:54 | the type is "application/octet-stream" exactly when the extension is not listed |
| FilesRoute.NoExtensionFallback | apps/api/src/routes/files.ts:30-54 | a name without an extension is an octet stream |
| FilesRoute.ContentTypeOfFile | apps/api/src/routes/files.ts:30-54 | `stem.ext` in any directory is typed by `.ext` |
| WebUtils.FileTypeCaseInsensitive | apps/web/lib/utils.ts:17 | the kind ignores the letter case of the MIME type |
| WebUtils.FileTypeCases | apps/web/lib/utils.ts:16-22 | video, audio and image each for exactly the MIME types with that prefix, tested in that order; everything else, the empty type included, is a document |
| WebUtils.IconTable | apps/web/lib/utils.ts:24-37 | the four kinds get four different icons; only an unknown kind gets the folder |
| WebUtils.DerivedKindHasIcon | apps/web/lib/utils.ts:16-37 | a kind derived from a MIME type never gets the folder icon |
| Coverage.ListedFormatsAreLower | packages/shared/src/index.ts:43-48 | every advertised format is in lower case |
| Coverage.ImageFormatsExact | apps/api/src/queue/processors/image.ts:16-43 | the image converter accepts exactly the advertised image formats, in any case |
| Coverage.AudioFormatsExact | apps/api/src/queue/processors/audio.ts:23-56 | the audio converter has an explicit codec for exactly the advertised audio formats |
| Coverage.VideoFormatsDefaulted | apps/api/src/queue/processors/video.ts:19-38 | of the advertised video formats only FLV and WMV get no explicit codecs |
| Coverage.DocumentFormatsOnlyPdfConverts | apps/api/src/queue/processors/document.ts:97-116 | an advertised non-PDF document format succeeds only by copying an input of that extension |

## Left out

- The backoff delays between attempts are computed by the queue library and are not modelled. Only the options handed to it are: 3 attempts, exponential, 2000 ms.
- The queue and its Redis connection are not modelled as a service. Re-delivery is the function `Deliver`, and the item offered to the queue is returned as a value. Concurrent workers and a record replaced while a run is in progress are not modelled.
- What sharp, ffmpeg, fs and pdfkit do internally is not modelled. Each run is summarised by the progress it reports and the error it raises, if any.
- The PDF drawing itself is left out: fonts, sizes, spacing and colours. Only the classification of each line is modelled.
- `removeMarkdown` is an external library and is not modelled. Heading and list blocks carry the captured text before `removeMarkdown`, which the renderer always applies to them. A `Paragraph` carries the raw line and a flag saying whether `removeMarkdown` is applied, which happens for Markdown input only.
- `uuidv4()` and `new Date()` are parameters. The two `new Date()` calls in `addConversionJob` are modelled as the same tick.
- Progress arrives already as the integer ffmpeg's callback produced. `Math.round` of the floating-point percent is not modelled.
- Letter case is folded for ASCII only. JavaScript's `toLowerCase` also folds non-ASCII letters.
- `Paths.Beside` joins the input's directory prefix and the name without Node's normalisation of "." and ".." segments.
- The upload middleware's 500 MB limit is not modelled, nor its file filter, which accepts every file.
- ConversionRoute.LegacyEndpointsOffer: assumes that the upload middleware, run a second time inside `POST /`, leaves the parsed request as it was. The model hands the already parsed request to `POST /`. On the real server that second pass may reset the form fields or fail on the request stream it already read, so a legacy call could then answer 400 or an error instead of creating a job.
- FilesRoute.ServeFile: the 500 "Failed to serve file" answer is modelled only for the error that reaches the handler's catch, a file name holding a character Node refuses in a header (outside tab, 0x20-0x7E and 0x80-0xFF, such as U+0100). A `statSync` that fails after `existsSync` succeeded is not modelled. A read-stream error comes later as an `error` event with no listener, which ends the process rather than answering 500; streaming is not modelled.
- The static-file middleware on `/files` answers every existing file whose name has no dot segment itself, with its own headers, and is not modelled. `ServeFile` is the handler behind it.
- The download handler joins the decoded name to the storage directory without checking it, so a name such as `..%2F..%2Fetc%2Fpasswd` reads a file outside the storage directory. The model does not restrict `storage` to the storage directory either: any name that exists at the joined path is in it.
- `formatFileSize` and `cn` in the web utilities are display helpers: the first is floating-point formatting and the second comes from a library.
- The job listing and status routes, the server set-up and the React client are not part of this model.
- The `completed` and `failed` worker event handlers only log.
