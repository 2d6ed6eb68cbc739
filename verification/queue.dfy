/** The conversion queue: creating a pending record and offering the work
    item to the queue, looking records up, and the worker handler that
    drives one delivery of an item through a converter to `completed` or
    `failed`. A re-delivery by the queue simply runs the handler again. */
module JobQueue {
  import opened Base
  import opened Text
  import opened Shared
  import opened JobStore
  import VideoProcessor
  import AudioProcessor
  import ImageProcessor
  import DocumentProcessor

  /** The payload carried by a queue item. `kind` is whatever the request
      layer passed along. */
  datatype JobData = JobData(
    id: string,
    kind: string,
    inputFile: string,
    targetFormat: string,
    originalName: string,
    filePath: string)

  /** Retry policy handed to the queue with every item. */
  const MaxAttempts: nat := 3
  const BackoffDelayMs: nat := 2000

  datatype Backoff = Exponential(delayMs: nat)

  datatype EnqueueOptions = EnqueueOptions(jobId: string, attempts: nat, backoff: Backoff)

  /** What is added to the queue: the item name, its payload and options. */
  datatype QueueItem = QueueItem(name: string, data: JobData, options: EnqueueOptions)

  /** Whether the queue accepted the item or the call threw. */
  datatype EnqueueResult = Accepted | Refused(cause: Thrown)

  datatype Added = Added(store: Store, item: QueueItem, outcome: Result<Job, Thrown>)

  function PendingRecord(data: JobData, now: nat): Job {
    Job(data.id, Pending, data.kind, data.originalName, None, data.targetFormat, 0, None, now, now)
  }

  /** `addConversionJob`: the record is stored first and the item enqueued
      afterwards, so a refused enqueue still leaves the pending record
      behind. */
  function AddConversionJob(s: Store, data: JobData, now: nat, enqueue: EnqueueResult): (r: Added)
    requires Valid(s)
    ensures Valid(r.store)
    ensures r.store.jobs.Keys == s.jobs.Keys + {data.id}
    ensures forall k :: k in s.jobs && k != data.id ==> r.store.jobs[k] == s.jobs[k]
    ensures var j := r.store.jobs[data.id];
      && j.id == data.id && j.status == Pending && j.progress == 0
      && j.kind == data.kind && j.inputFile == data.originalName
      && j.targetFormat == data.targetFormat
      && j.outputFile.None? && j.error.None?
    ensures r.item == QueueItem("convert", data, EnqueueOptions(data.id, MaxAttempts, Exponential(BackoffDelayMs)))
    ensures r.outcome.Ok? <==> enqueue.Accepted?
    ensures r.outcome.Ok? ==> r.outcome.value == r.store.jobs[data.id]
    ensures enqueue.Refused? ==> r.outcome == Err(enqueue.cause)
  {
    var job := PendingRecord(data, now);
    var stored := Put(s, data.id, job);
    var item := QueueItem("convert", data, EnqueueOptions(data.id, MaxAttempts, Exponential(BackoffDelayMs)));
    match enqueue
    case Accepted => Added(stored, item, Ok(job))
    case Refused(cause) => Added(stored, item, Err(cause))
  }

  /** `getJobStatus` */
  function GetJobStatus(s: Store, id: string): Option<Job> {
    Get(s, id)
  }

  /** `getAllJobs` */
  function GetAllJobs(s: Store): seq<Job>
    requires Valid(s)
  {
    Values(s)
  }

  /** A record can be read back right after it was added, still pending with
      no progress, and the listing then holds it. */
  lemma AddThenGet(s: Store, data: JobData, now: nat, enqueue: EnqueueResult)
    requires Valid(s)
    ensures var r := AddConversionJob(s, data, now, enqueue);
      && GetJobStatus(r.store, data.id) == Some(PendingRecord(data, now))
      && PendingRecord(data, now) in GetAllJobs(r.store)
  {
  }

  /** Looking up an id that was never added gives nothing, before and after
      any other add. */
  lemma GetNeverAdded(s: Store, data: JobData, now: nat, enqueue: EnqueueResult, id: string)
    requires Valid(s) && id !in s.jobs && id != data.id
    ensures GetJobStatus(s, id) == None
    ensures GetJobStatus(AddConversionJob(s, data, now, enqueue).store, id) == None
  {
  }

  /** Adding keeps every record under its own id. */
  lemma AddKeepsKeyedById(s: Store, data: JobData, now: nat, enqueue: EnqueueResult)
    requires Valid(s) && KeyedById(s)
    ensures KeyedById(AddConversionJob(s, data, now, enqueue).store)
  {
    PutKeepsKeyedById(s, data.id, PendingRecord(data, now));
  }

  // ---------------------------------------------------------------------
  // The worker handler

  /** What the external library did during one converter call: the progress
      percentages it reported, in order, and the error it raised, if any. */
  datatype LibRun = LibRun(reports: seq<int>, failure: Option<Thrown>)

  /** Everything one delivery depends on from outside: the generated output
      name, the library's behaviour and the clock at the two writes. */
  datatype Attempt = Attempt(uuid: string, run: LibRun, claimedAt: nat, settledAt: nat)

  /** The handler either returns `{ outputFile }` or re-throws the error. */
  datatype HandlerResult = Returned(outputFile: string) | Rethrown(cause: Thrown)

  /** First write: mark the record `processing`, whatever its status. */
  function Claim(s: Store, id: string, now: nat): (r: Store)
    requires Valid(s)
    ensures Valid(r) && r.order == s.order && r.jobs.Keys == s.jobs.Keys
    ensures id !in s.jobs ==> r == s
    ensures id in s.jobs ==> r.jobs == s.jobs[id := s.jobs[id].(status := Processing, updatedAt := now)]
  {
    if id in s.jobs then Put(s, id, s.jobs[id].(status := Processing, updatedAt := now)) else s
  }

  /** The progress callback: the reported value is stored as it is; the
      update time is not refreshed. */
  function Report(s: Store, id: string, progress: int): (r: Store)
    requires Valid(s)
    ensures Valid(r) && r.order == s.order && r.jobs.Keys == s.jobs.Keys
  {
    if id in s.jobs then Put(s, id, s.jobs[id].(progress := progress)) else s
  }

  /** The callbacks of one run, in order. */
  function ApplyReports(s: Store, id: string, reports: seq<int>): (r: Store)
    requires Valid(s)
    ensures Valid(r) && r.order == s.order && r.jobs.Keys == s.jobs.Keys
    ensures id !in s.jobs || |reports| == 0 ==> r == s
    ensures id in s.jobs && |reports| > 0 ==>
              r.jobs == s.jobs[id := s.jobs[id].(progress := reports[|reports| - 1])]
    decreases |reports|
  {
    if |reports| == 0 then s
    else Report(ApplyReports(s, id, reports[..|reports| - 1]), id, reports[|reports| - 1])
  }

  /** Only the streaming converters take a progress callback. */
  predicate ReportsProgress(kind: string) {
    KindOf(kind) == Some(Video) || KindOf(kind) == Some(Audio)
  }

  function UnsupportedKind(kind: string): Thrown {
    Error("Unsupported conversion type: " + kind)
  }

  /** The `switch (type)`: call the converter for the kind, or throw for an
      unknown kind without calling any. */
  function Convert(data: JobData, uuid: string, run: LibRun): Result<string, Thrown> {
    match KindOf(data.kind)
    case Some(Video) => VideoProcessor.ProcessVideo(data.filePath, data.targetFormat, uuid, run.failure)
    case Some(Audio) => AudioProcessor.ProcessAudio(data.filePath, data.targetFormat, uuid, run.failure)
    case Some(Image) => ImageProcessor.ProcessImage(data.filePath, data.targetFormat, uuid, run.failure)
    case Some(Document) => DocumentProcessor.ProcessDocument(data.filePath, data.targetFormat, uuid, run.failure)
    case None => Err(UnsupportedKind(data.kind))
  }

  /** Last write: `completed` with progress 100 and the output name, or
      `failed` with the error's message. The other optional field is left as
      it was. */
  function Settle(s: Store, id: string, result: Result<string, Thrown>, now: nat): (r: Store)
    requires Valid(s)
    ensures Valid(r) && r.order == s.order && r.jobs.Keys == s.jobs.Keys
  {
    if id !in s.jobs then s
    else
      var j := s.jobs[id];
      match result
      case Ok(name) => Put(s, id, j.(status := Completed, progress := 100, outputFile := Some(name), updatedAt := now))
      case Err(t) => Put(s, id, j.(status := Failed, error := Some(MessageOf(t)), updatedAt := now))
  }

  /** The store after the claim and the progress callbacks, just before the
      converter's outcome is recorded. */
  function Running(s: Store, data: JobData, a: Attempt): (r: Store)
    requires Valid(s)
    ensures Valid(r) && r.order == s.order && r.jobs.Keys == s.jobs.Keys
  {
    var claimed := Claim(s, data.id, a.claimedAt);
    if ReportsProgress(data.kind) then ApplyReports(claimed, data.id, a.run.reports) else claimed
  }

  /** A record that says how a run ended: `completed` at 100 after a
      return, `failed` with the thrown message after a re-throw. */
  predicate Reflects(j: Job, out: HandlerResult) {
    && (out.Returned? ==> j.status == Completed && j.progress == 100 && j.outputFile == Some(out.outputFile))
    && (out.Rethrown? ==> j.status == Failed && j.error == Some(MessageOf(out.cause)))
  }

  /** How the handler ends for a converter result: it returns the output
      name, or re-throws what the converter threw. */
  function OutcomeOf(result: Result<string, Thrown>): HandlerResult {
    match result
    case Ok(name) => Returned(name)
    case Err(t) => Rethrown(t)
  }

  /** One run of the worker handler on a delivered item. */
  function Handle(s: Store, data: JobData, a: Attempt): (r: (Store, HandlerResult))
    requires Valid(s)
    ensures Valid(r.0) && r.0.order == s.order && r.0.jobs.Keys == s.jobs.Keys
    // nothing is created or changed for an id the store does not hold
    ensures data.id !in s.jobs ==> r.0 == s
    // other records are untouched
    ensures forall k :: k in s.jobs && k != data.id ==> r.0.jobs[k] == s.jobs[k]
    // the outcome is the converter's, passed on unchanged
    ensures r.1 == OutcomeOf(Convert(data, a.uuid, a.run))
    ensures data.id in s.jobs ==> Reflects(r.0.jobs[data.id], r.1)
    ensures data.id in s.jobs ==>
      var before := s.jobs[data.id];
      var after := r.0.jobs[data.id];
      && after.id == before.id && after.kind == before.kind && after.inputFile == before.inputFile
      && after.targetFormat == before.targetFormat && after.createdAt == before.createdAt
      && after.updatedAt == a.settledAt
      && (r.1.Returned? ==> after.outputFile == Some(r.1.outputFile) && after.error == before.error)
      && (r.1.Rethrown? ==>
            after.outputFile == before.outputFile
            && after.progress == (if ReportsProgress(data.kind) && |a.run.reports| > 0
                                  then a.run.reports[|a.run.reports| - 1] else before.progress))
  {
    var result := Convert(data, a.uuid, a.run);
    (Settle(Running(s, data, a), data.id, result, a.settledAt), OutcomeOf(result))
  }

  /** While a re-delivery is running, a record that had failed is back in
      `processing` and still carries the old error message: there is no
      guard on terminal states. */
  lemma RetryReopensFailed(s: Store, data: JobData, a: Attempt)
    requires Valid(s) && data.id in s.jobs && s.jobs[data.id].status in {Failed, Completed}
    ensures Running(s, data, a).jobs[data.id].status == Processing
    ensures Running(s, data, a).jobs[data.id].error == s.jobs[data.id].error
  {
  }

  /** The store as observed after the first `k` progress callbacks of a
      video or audio run: still `processing`, with exactly the `k`-th
      reported value, neither clamped to 0..100 nor kept from going down. */
  lemma ProgressVerbatim(s: Store, data: JobData, a: Attempt, k: nat)
    requires Valid(s) && data.id in s.jobs && ReportsProgress(data.kind)
    requires 1 <= k <= |a.run.reports|
    ensures var observed := ApplyReports(Claim(s, data.id, a.claimedAt), data.id, a.run.reports[..k]);
      && observed.jobs[data.id].status == Processing
      && observed.jobs[data.id].progress == a.run.reports[k - 1]
  {
  }

  /** A concrete run whose progress goes from 50 down to 10 and then to 250,
      all stored as reported. */
  lemma ProgressNotMonotone(s: Store, data: JobData, a: Attempt)
    requires Valid(s) && data.id in s.jobs && data.kind == "video"
    requires a.run.reports == [50, 10, 250]
    ensures ApplyReports(Claim(s, data.id, a.claimedAt), data.id, a.run.reports[..1]).jobs[data.id].progress == 50
    ensures ApplyReports(Claim(s, data.id, a.claimedAt), data.id, a.run.reports[..2]).jobs[data.id].progress == 10
    ensures Running(s, data, a).jobs[data.id].progress == 250
  {
    ProgressVerbatim(s, data, a, 1);
    ProgressVerbatim(s, data, a, 2);
    assert a.run.reports[..3] == a.run.reports;
    ProgressVerbatim(s, data, a, 3);
  }

  /** Image and document conversions install no progress callback: what the
      library reports has no effect, and a failed record keeps its previous
      progress. */
  lemma NonStreamingIgnoresReports(s: Store, data: JobData, a: Attempt)
    requires Valid(s) && !ReportsProgress(data.kind)
    ensures Handle(s, data, a) == Handle(s, data, a.(run := a.run.(reports := [])))
    ensures data.id in s.jobs && Handle(s, data, a).1.Rethrown? ==>
              Handle(s, data, a).0.jobs[data.id].progress == s.jobs[data.id].progress
  {
  }

  /** A kind outside the four fails without calling any converter: the
      outcome does not depend on the library at all. */
  lemma UnknownKindFails(s: Store, data: JobData, a: Attempt, b: Attempt)
    requires Valid(s) && KindOf(data.kind).None?
    requires a.claimedAt == b.claimedAt && a.settledAt == b.settledAt
    ensures Handle(s, data, a).1 == Rethrown(Error("Unsupported conversion type: " + data.kind))
    ensures Handle(s, data, a) == Handle(s, data, b)
    ensures data.id in s.jobs ==>
              Handle(s, data, a).0.jobs[data.id].status == Failed
              && Handle(s, data, a).0.jobs[data.id].error == Some("Unsupported conversion type: " + data.kind)
  {
  }

  function FailurePrefixOf(t: MediaType): string {
    match t
    case Video => VideoProcessor.FailurePrefix
    case Audio => AudioProcessor.FailurePrefix
    case Image => ImageProcessor.FailurePrefix
    case Document => DocumentProcessor.FailurePrefix
  }

  /** Every converter re-throws an `Error` carrying its own prefix, so for a
      known kind the stored error is never 'Unknown error'. */
  lemma KnownKindFailuresArePrefixed(data: JobData, a: Attempt)
    requires KindOf(data.kind).Some? && Convert(data, a.uuid, a.run).Err?
    ensures Convert(data, a.uuid, a.run).error.Error?
    ensures StartsWith(MessageOf(Convert(data, a.uuid, a.run).error), FailurePrefixOf(KindOf(data.kind).value))
  {
  }

  /** A success after a failure leaves the old error message on the
      completed record; a failure after a success leaves the old output
      name on the failed record. */
  lemma StaleFieldsSurvive(s: Store, data: JobData, a: Attempt)
    requires Valid(s) && data.id in s.jobs
    ensures var (r, out) := Handle(s, data, a);
      && (out.Returned? ==> r.jobs[data.id].error == s.jobs[data.id].error)
      && (out.Rethrown? ==> r.jobs[data.id].outputFile == s.jobs[data.id].outputFile)
  {
  }

  /** The image scenario: a pending "photo.png" job asked for "webp" ends
      completed at 100 with `<uuid>.webp`, when the library succeeds. */
  lemma ImageScenario(s: Store, data: JobData, now: nat, a: Attempt)
    requires Valid(s)
    requires data.kind == "image" && data.targetFormat == "webp" && data.originalName == "photo.png"
    requires a.run.failure.None?
    ensures var added := AddConversionJob(s, data, now, Accepted).store;
      var (r, out) := Handle(added, data, a);
      && out == Returned(a.uuid + ".webp")
      && r.jobs[data.id].status == Completed && r.jobs[data.id].progress == 100
      && r.jobs[data.id].outputFile == Some(a.uuid + ".webp")
      && r.jobs[data.id].inputFile == "photo.png"
  {
    var added := AddConversionJob(s, data, now, Accepted).store;
    assert added.jobs[data.id].inputFile == "photo.png";
    LowerOfLower("webp");
    assert ImageProcessor.EncoderFor("webp").Some?;
    assert ArtifactName(a.uuid, "webp") == a.uuid + ".webp";
    assert Convert(data, a.uuid, a.run) == Ok(a.uuid + ".webp");
  }

  // ---------------------------------------------------------------------
  // Re-delivery by the queue

  /** The handler runs once per delivery; after a re-throw the queue delivers
      again while fewer than `MaxAttempts` runs were made. `attempts` supplies
      the outside world for each possible run. At most `MaxAttempts` runs
      happen, every run but the last re-threw, delivery stops before the
      attempts run out only on success, and the record ends `completed` or
      `failed` as the last run did. */
  function Deliver(s: Store, data: JobData, attempts: seq<Attempt>, made: nat): (r: (Store, seq<HandlerResult>))
    requires Valid(s) && made < MaxAttempts
    ensures Valid(r.0) && r.0.jobs.Keys == s.jobs.Keys
    // other records are untouched
    ensures forall k :: k in s.jobs && k != data.id ==> r.0.jobs[k] == s.jobs[k]
    ensures |r.1| <= MaxAttempts - made && |r.1| <= |attempts|
    ensures |attempts| > 0 ==> |r.1| > 0
    // run `i` is the handler on the `i`-th supplied attempt
    ensures r.1 <= Outcomes(data, attempts)
    ensures forall i :: 0 <= i < |r.1| - 1 ==> r.1[i].Rethrown?
    ensures |r.1| < |attempts| && |r.1| < MaxAttempts - made ==> r.1[|r.1| - 1].Returned?
    // the final record reflects the last run
    ensures data.id in s.jobs && |r.1| > 0 ==> Reflects(r.0.jobs[data.id], r.1[|r.1| - 1])
    decreases |attempts|, 1
  {
    if |attempts| == 0 then (s, [])
    else
      var step := Handle(s, data, attempts[0]);
      assert data.id in s.jobs ==> data.id in step.0.jobs && Reflects(step.0.jobs[data.id], step.1);
      var r := AfterRun(step, data, attempts[1..], made + 1);
      PrefixCons(r.1, Outcomes(data, attempts[1..]));
      r
  }

  /** What the queue does once run number `made` has ended with `step`:
      stop after a return or when no attempt is left, deliver again after a
      re-throw otherwise. */
  function AfterRun(step: (Store, HandlerResult), data: JobData, rest: seq<Attempt>, made: nat): (r: (Store, seq<HandlerResult>))
    requires Valid(step.0) && 0 < made <= MaxAttempts
    ensures Valid(r.0) && r.0.jobs.Keys == step.0.jobs.Keys
    ensures forall k :: k in step.0.jobs && k != data.id ==> r.0.jobs[k] == step.0.jobs[k]
    ensures 0 < |r.1| <= MaxAttempts - made + 1 && |r.1| <= |rest| + 1 && r.1[0] == step.1
    ensures r.1[1..] <= Outcomes(data, rest)
    ensures forall i :: 0 <= i < |r.1| - 1 ==> r.1[i].Rethrown?
    ensures |r.1| < |rest| + 1 && |r.1| < MaxAttempts - made + 1 ==> r.1[|r.1| - 1].Returned?
    ensures data.id in step.0.jobs && Reflects(step.0.jobs[data.id], step.1) ==>
              Reflects(r.0.jobs[data.id], r.1[|r.1| - 1])
    decreases |rest| + 1, 0
  {
    if step.1.Returned? || made >= MaxAttempts then (step.0, [step.1])
    else
      var next := Deliver(step.0, data, rest, made);
      var runs := [step.1] + next.1;
      assert runs[1..] == next.1;
      assert runs[|runs| - 1] == if |next.1| == 0 then step.1 else next.1[|next.1| - 1];
      (next.0, runs)
  }

  /** The handler's outcome on each supplied attempt, in order. */
  function Outcomes(data: JobData, attempts: seq<Attempt>): (o: seq<HandlerResult>)
    ensures |o| == |attempts|
    ensures forall i :: 0 <= i < |attempts| ==> o[i] == OutcomeOf(Convert(data, attempts[i].uuid, attempts[i].run))
    decreases |attempts|
  {
    if |attempts| == 0 then []
    else [OutcomeOf(Convert(data, attempts[0].uuid, attempts[0].run))] + Outcomes(data, attempts[1..])
  }

  lemma PrefixCons(runs: seq<HandlerResult>, tail: seq<HandlerResult>)
    requires |runs| > 0 && runs[1..] <= tail
    ensures runs <= [runs[0]] + tail
  {
    assert runs == [runs[0]] + runs[1..];
  }

  /** A permanent error is retried like any other: an unknown kind is run
      once for every attempt left and ends `failed`. */
  lemma {:induction false} UnknownKindUsesAllAttempts(s: Store, data: JobData, attempts: seq<Attempt>, made: nat)
    requires Valid(s) && KindOf(data.kind).None?
    requires made < MaxAttempts && |attempts| >= MaxAttempts - made
    ensures |Deliver(s, data, attempts, made).1| == MaxAttempts - made
    ensures forall i :: 0 <= i < |Deliver(s, data, attempts, made).1| ==>
              Deliver(s, data, attempts, made).1[i] == Rethrown(UnsupportedKind(data.kind))
    decreases |attempts|
  {
    var step := Handle(s, data, attempts[0]);
    assert Deliver(s, data, attempts, made) == AfterRun(step, data, attempts[1..], made + 1);
    if made + 1 < MaxAttempts {
      UnknownKindUsesAllAttempts(step.0, data, attempts[1..], made + 1);
    }
  }

  /** Two failed runs and a successful third: all three attempts are used,
      the record ends `completed` at 100 with the third run's output, and it
      still carries the second run's error message. */
  lemma ThirdAttemptSucceeds(s: Store, data: JobData, attempts: seq<Attempt>)
    requires Valid(s) && data.id in s.jobs && |attempts| == MaxAttempts
    requires Convert(data, attempts[0].uuid, attempts[0].run).Err?
    requires Convert(data, attempts[1].uuid, attempts[1].run).Err?
    requires Convert(data, attempts[2].uuid, attempts[2].run).Ok?
    ensures var (r, runs) := Deliver(s, data, attempts, 0);
      && |runs| == 3 && runs[0].Rethrown? && runs[1].Rethrown?
      && runs[2] == Returned(Convert(data, attempts[2].uuid, attempts[2].run).value)
      && r.jobs[data.id].status == Completed && r.jobs[data.id].progress == 100
      && r.jobs[data.id].outputFile == Some(Convert(data, attempts[2].uuid, attempts[2].run).value)
      && r.jobs[data.id].error == Some(MessageOf(Convert(data, attempts[1].uuid, attempts[1].run).error))
  {
    var step1 := Handle(s, data, attempts[0]);
    var step2 := Handle(step1.0, data, attempts[1]);
    var step3 := Handle(step2.0, data, attempts[2]);
    assert step2.0.jobs[data.id].error == Some(MessageOf(Convert(data, attempts[1].uuid, attempts[1].run).error));
    assert step3.0.jobs[data.id].error == step2.0.jobs[data.id].error;
    assert Deliver(s, data, attempts, 0) == AfterRun(step1, data, attempts[1..], 1);
    assert attempts[1..][0] == attempts[1] && attempts[1..][1..][0] == attempts[2];
    assert Deliver(step1.0, data, attempts[1..], 1) == AfterRun(step2, data, attempts[1..][1..], 2);
    assert Deliver(step2.0, data, attempts[1..][1..], 2) == AfterRun(step3, data, attempts[1..][1..][1..], 3);
    assert AfterRun(step3, data, attempts[1..][1..][1..], 3) == (step3.0, [step3.1]);
  }
}
