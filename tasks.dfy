/** The extraction task: the status writes it makes to the job record on its
    way through the pipeline, the failure write that ends a run that raised,
    the company name it derives, the PDF path, and the inputs it hands to
    the extractors.

    The extractors, the browser, the AI call and the PDF rendering are not
    run here. Which stage raised, if any, and with what message, is the
    parameter `outcome`; the visible text of a page is the parameter
    `pageText`. */
module Tasks {
  import opened Wrappers
  import opened Text
  import opened Json
  import opened Job
  import opened Store
  import opened Url
  import opened WebsiteScraper
  import opened Routes

  // ---- update_job_status ----

  /** The keys every status write sets. */
  const StatusKeys: set<string> := {"job_id", "status", "progress_percent", "current_step"}

  /** The record `update_job_status` stores: the old record, updated with the
      four status fields and then with the keyword arguments. */
  function Updated(existing: Record, jobId: string, status: JobStatus, progress: int, step: string, extra: Record): Record
  {
    existing + (map["job_id" := JStr(jobId), "status" := JStr(status.Value()),
                    "progress_percent" := JNum(progress), "current_step" := JStr(step)] + extra)
  }

  /** An update sets the four status fields, lets the keyword arguments win,
      and keeps every other key of the old record. */
  lemma UpdatedSpec(existing: Record, jobId: string, status: JobStatus, progress: int, step: string, extra: Record)
    ensures Updated(existing, jobId, status, progress, step, extra).Keys == existing.Keys + StatusKeys + extra.Keys
    ensures forall k :: k in extra ==> Updated(existing, jobId, status, progress, step, extra)[k] == extra[k]
    ensures "job_id" !in extra ==> Updated(existing, jobId, status, progress, step, extra)["job_id"] == JStr(jobId)
    ensures "status" !in extra ==> Updated(existing, jobId, status, progress, step, extra)["status"] == JStr(status.Value())
    ensures "progress_percent" !in extra ==>
      Updated(existing, jobId, status, progress, step, extra)["progress_percent"] == JNum(progress)
    ensures "current_step" !in extra ==> Updated(existing, jobId, status, progress, step, extra)["current_step"] == JStr(step)
    ensures forall k :: k in existing && k !in StatusKeys && k !in extra ==>
      Updated(existing, jobId, status, progress, step, extra)[k] == existing[k]
  {
  }

  /** Writing a key twice keeps the second value. */
  lemma Overwrite<K, V>(m: map<K, V>, k: K, a: V, b: V)
    ensures m[k := a][k := b] == m[k := b]
  {
  }

  /** The record the job has in `records`, or `{}` when it has none. */
  function Current(records: map<string, Record>, jobId: string): Record
  {
    if JobKey(jobId) in records then records[JobKey(jobId)] else map[]
  }

  /** `update_job_status`: read the record, update it, write it back. */
  method UpdateJobStatus(store: JobStore, jobId: string, status: JobStatus, progress: int, step: string, extra: Record)
    modifies store
    ensures store.records ==
      old(store.records)[JobKey(jobId) := Updated(Current(old(store.records), jobId), jobId, status, progress, step, extra)]
  {
    var existing := store.GetJob(jobId);
    var jobData: Record := if existing.Some? then existing.value else map[];
    jobData := jobData + (map["job_id" := JStr(jobId), "status" := JStr(status.Value()),
                              "progress_percent" := JNum(progress), "current_step" := JStr(step)] + extra);
    store.SetJob(jobId, jobData);
  }

  /** One call of `update_job_status`. */
  datatype StatusWrite = StatusWrite(status: JobStatus, progress: int, step: string, extra: Record)

  function Apply(record: Record, jobId: string, w: StatusWrite): Record
  {
    Updated(record, jobId, w.status, w.progress, w.step, w.extra)
  }

  /** A write keeps every key it does not name. */
  lemma ApplyKeeps(record: Record, jobId: string, w: StatusWrite, key: string)
    requires key !in StatusKeys && key !in w.extra
    ensures key in Apply(record, jobId, w) <==> key in record
    ensures key in record ==> Apply(record, jobId, w)[key] == record[key]
  {
    UpdatedSpec(record, jobId, w.status, w.progress, w.step, w.extra);
  }

  /** A write sets the four status fields, unless its extra fields name
      them, and its extra fields. */
  lemma ApplySets(record: Record, jobId: string, w: StatusWrite)
    requires "job_id" !in w.extra && "status" !in w.extra
    requires "progress_percent" !in w.extra && "current_step" !in w.extra
    ensures Get(Apply(record, jobId, w), "job_id") == JStr(jobId)
    ensures Get(Apply(record, jobId, w), "status") == JStr(w.status.Value())
    ensures Get(Apply(record, jobId, w), "progress_percent") == JNum(w.progress)
    ensures Get(Apply(record, jobId, w), "current_step") == JStr(w.step)
    ensures forall k :: k in w.extra ==> Get(Apply(record, jobId, w), k) == w.extra[k]
  {
    UpdatedSpec(record, jobId, w.status, w.progress, w.step, w.extra);
  }

  /** The record after the writes `ws`, oldest first. */
  function Replayed(record: Record, jobId: string, ws: seq<StatusWrite>): Record
  {
    if ws == [] then record else Apply(Replayed(record, jobId, ws[..|ws| - 1]), jobId, ws[|ws| - 1])
  }

  lemma ReplayedStep(record: Record, jobId: string, ws: seq<StatusWrite>, w: StatusWrite)
    ensures Replayed(record, jobId, ws + [w]) == Apply(Replayed(record, jobId, ws), jobId, w)
  {
    assert (ws + [w])[..|ws|] == ws;
  }

  // ---- the pipeline ----

  /** The stages that can raise: scraping, colours, typography, logo, AI
      content and the PDF, each entered by one checkpoint write. */
  type Stage = k: nat | k < 6

  /** How a run ends: a stage raised an exception with a message, or every
      stage returned. */
  datatype Outcome = RaisedAt(stage: Stage, message: string) | Finished

  /** The `k`-th checkpoint write of a run. */
  function Checkpoint(k: nat, pdfPath: string): (w: StatusWrite)
    requires k <= 6
    ensures w.extra == if k == 6 then map["pdf_path" := JStr(pdfPath)] else map[]
  {
    if k == 0 then StatusWrite(Scraping, 10, "Scraping website...", map[])
    else if k == 1 then StatusWrite(ExtractingColors, 30, "Extracting colors...", map[])
    else if k == 2 then StatusWrite(ExtractingTypography, 45, "Analyzing typography...", map[])
    else if k == 3 then StatusWrite(ExtractingLogo, 55, "Finding logo...", map[])
    else if k == 4 then StatusWrite(GeneratingContent, 70, "Generating brand content with AI...", map[])
    else if k == 5 then StatusWrite(BuildingPdf, 90, "Building PDF...", map[])
    else StatusWrite(Completed, 100, "Complete!", map["pdf_path" := JStr(pdfPath)])
  }

  /** The first `n` checkpoint writes. */
  function Checkpoints(n: nat, pdfPath: string): (ws: seq<StatusWrite>)
    requires n <= 7
    ensures |ws| == n
  {
    if n == 0 then [] else Checkpoints(n - 1, pdfPath) + [Checkpoint(n - 1, pdfPath)]
  }

  /** The `i`-th of the first `n` checkpoints is the `i`-th checkpoint. */
  lemma {:induction false} CheckpointsAt(n: nat, pdfPath: string)
    requires n <= 7
    ensures forall i :: 0 <= i < n ==> Checkpoints(n, pdfPath)[i] == Checkpoint(i, pdfPath)
  {
    if n > 0 {
      CheckpointsAt(n - 1, pdfPath);
    }
  }

  const FailedStep: string := "Failed"

  /** The write of the `except` branch. */
  function FailedWrite(message: string): StatusWrite
  {
    StatusWrite(Failed, 0, FailedStep, map["error_message" := JStr(message)])
  }

  /** The writes of one run, oldest first. */
  function TaskWrites(outcome: Outcome, pdfPath: string): seq<StatusWrite>
  {
    match outcome
    case RaisedAt(stage, message) => Checkpoints(stage + 1, pdfPath) + [FailedWrite(message)]
    case Finished => Checkpoints(7, pdfPath)
  }

  /** The record after the first `n` checkpoint writes. */
  function AfterCheckpoints(base: Record, jobId: string, n: nat, pdfPath: string): Record
    requires n <= 7
  {
    if n == 0 then base else Apply(AfterCheckpoints(base, jobId, n - 1, pdfPath), jobId, Checkpoint(n - 1, pdfPath))
  }

  /** One more checkpoint is one more write. */
  lemma AfterCheckpointsStep(base: Record, jobId: string, k: nat, pdfPath: string)
    requires k <= 6
    ensures AfterCheckpoints(base, jobId, k + 1, pdfPath) ==
      Apply(AfterCheckpoints(base, jobId, k, pdfPath), jobId, Checkpoint(k, pdfPath))
  {
  }

  /** The record a run leaves. */
  function RunRecord(base: Record, jobId: string, outcome: Outcome, pdfPath: string): Record
  {
    match outcome
    case RaisedAt(stage, message) => Apply(AfterCheckpoints(base, jobId, stage + 1, pdfPath), jobId, FailedWrite(message))
    case Finished => AfterCheckpoints(base, jobId, 7, pdfPath)
  }

  /** A record that is the replay of `ws`, with `w` applied on top, is the
      replay of `ws + [w]`. */
  lemma ReplayedAfter(base: Record, jobId: string, ws: seq<StatusWrite>, w: StatusWrite, before: Record, after: Record)
    requires before == Replayed(base, jobId, ws)
    requires after == Apply(before, jobId, w)
    ensures after == Replayed(base, jobId, ws + [w])
  {
    ReplayedStep(base, jobId, ws, w);
  }

  /** The record the first `n` checkpoints leave is those writes replayed in
      order. */
  lemma {:induction false} AfterCheckpointsReplayed(base: Record, jobId: string, n: nat, pdfPath: string)
    requires n <= 7
    ensures AfterCheckpoints(base, jobId, n, pdfPath) == Replayed(base, jobId, Checkpoints(n, pdfPath))
  {
    if n > 0 {
      AfterCheckpointsReplayed(base, jobId, n - 1, pdfPath);
      ReplayedAfter(base, jobId, Checkpoints(n - 1, pdfPath), Checkpoint(n - 1, pdfPath),
                    AfterCheckpoints(base, jobId, n - 1, pdfPath), AfterCheckpoints(base, jobId, n, pdfPath));
    }
  }

  /** The record a run leaves is its writes replayed in order. */
  lemma RunRecordReplayed(base: Record, jobId: string, outcome: Outcome, pdfPath: string)
    ensures RunRecord(base, jobId, outcome, pdfPath) == Replayed(base, jobId, TaskWrites(outcome, pdfPath))
  {
    match outcome {
      case RaisedAt(stage, message) =>
        AfterCheckpointsReplayed(base, jobId, stage + 1, pdfPath);
        ReplayedAfter(base, jobId, Checkpoints(stage + 1, pdfPath), FailedWrite(message),
                      AfterCheckpoints(base, jobId, stage + 1, pdfPath), RunRecord(base, jobId, outcome, pdfPath));
      case Finished =>
        AfterCheckpointsReplayed(base, jobId, 7, pdfPath);
    }
  }

  /** One checkpoint write. */
  method WriteCheckpoint(store: JobStore, jobId: string, k: nat, pdfPath: string)
    requires k <= 6
    modifies store
    ensures store.records ==
      old(store.records)[JobKey(jobId) := Apply(Current(old(store.records), jobId), jobId, Checkpoint(k, pdfPath))]
  {
    var w := Checkpoint(k, pdfPath);
    UpdateJobStatus(store, jobId, w.status, w.progress, w.step, w.extra);
  }

  /** The checkpoint of stage `k`, written over the record the `k` earlier
      checkpoints left in a store that otherwise still holds `orig`. */
  method AdvanceCheckpoint(store: JobStore, jobId: string, k: nat, pdfPath: string,
                           ghost orig: map<string, Record>, ghost base: Record)
    requires k <= 6
    requires store.records == orig[JobKey(jobId) := AfterCheckpoints(base, jobId, k, pdfPath)]
    modifies store
    ensures store.records == orig[JobKey(jobId) := AfterCheckpoints(base, jobId, k + 1, pdfPath)]
  {
    ghost var before := AfterCheckpoints(base, jobId, k, pdfPath);
    WriteCheckpoint(store, jobId, k, pdfPath);
    AfterCheckpointsStep(base, jobId, k, pdfPath);
    Overwrite(orig, JobKey(jobId), before, AfterCheckpoints(base, jobId, k + 1, pdfPath));
  }

  /** After the checkpoint of stage `k`: when that stage raises, the
      `except` branch's failure write. */
  method ExceptIfRaised(store: JobStore, jobId: string, k: Stage, pdfPath: string, outcome: Outcome,
                        ghost orig: map<string, Record>, ghost base: Record)
    returns (raised: bool)
    requires store.records == orig[JobKey(jobId) := AfterCheckpoints(base, jobId, k + 1, pdfPath)]
    modifies store
    ensures raised <==> outcome.RaisedAt? && outcome.stage == k
    ensures raised ==> store.records == orig[JobKey(jobId) := RunRecord(base, jobId, outcome, pdfPath)]
    ensures !raised ==> store.records == old(store.records)
  {
    raised := outcome.RaisedAt? && outcome.stage == k;
    if raised {
      ghost var before := AfterCheckpoints(base, jobId, k + 1, pdfPath);
      UpdateJobStatus(store, jobId, Failed, 0, FailedStep, map["error_message" := JStr(outcome.message)]);
      Overwrite(orig, JobKey(jobId), before, RunRecord(base, jobId, outcome, pdfPath));
    }
  }

  /** `extract_brand_task`: a checkpoint as each stage starts; a stage that
      raises leaves the `try` block, gets the failure write, and the
      exception is raised again; a run that finishes returns the PDF path. */
  method ExtractBrandTask(store: JobStore, jobId: string, outputDir: string, outcome: Outcome)
    returns (r: Result<string>)
    modifies store
    ensures r == if outcome.RaisedAt? then Err(outcome.message) else Ok(PdfPath(outputDir, jobId))
    ensures store.records ==
      old(store.records)[JobKey(jobId) := RunRecord(Current(old(store.records), jobId), jobId, outcome, PdfPath(outputDir, jobId))]
  {
    ghost var orig := store.records;
    ghost var base := Current(orig, jobId);
    var pdfPath := PdfPath(outputDir, jobId);
    // The stages in order: scrape, colours, typography, logo, AI content,
    // PDF; each starts with its checkpoint and may raise.
    var stage: Stage := 0;
    WriteCheckpoint(store, jobId, stage, pdfPath);
    var raised := ExceptIfRaised(store, jobId, stage, pdfPath, outcome, orig, base);
    if raised { return Err(outcome.message); }
    stage := stage + 1;
    AdvanceCheckpoint(store, jobId, stage, pdfPath, orig, base);
    raised := ExceptIfRaised(store, jobId, stage, pdfPath, outcome, orig, base);
    if raised { return Err(outcome.message); }
    stage := stage + 1;
    AdvanceCheckpoint(store, jobId, stage, pdfPath, orig, base);
    raised := ExceptIfRaised(store, jobId, stage, pdfPath, outcome, orig, base);
    if raised { return Err(outcome.message); }
    stage := stage + 1;
    AdvanceCheckpoint(store, jobId, stage, pdfPath, orig, base);
    raised := ExceptIfRaised(store, jobId, stage, pdfPath, outcome, orig, base);
    if raised { return Err(outcome.message); }
    stage := stage + 1;
    AdvanceCheckpoint(store, jobId, stage, pdfPath, orig, base);
    raised := ExceptIfRaised(store, jobId, stage, pdfPath, outcome, orig, base);
    if raised { return Err(outcome.message); }
    stage := stage + 1;
    AdvanceCheckpoint(store, jobId, stage, pdfPath, orig, base);
    raised := ExceptIfRaised(store, jobId, stage, pdfPath, outcome, orig, base);
    if raised { return Err(outcome.message); }
    AdvanceCheckpoint(store, jobId, stage + 1, pdfPath, orig, base);
    return Ok(pdfPath);
  }

  /** A run that finishes writes every status from `scraping` to `completed`
      in the enum's order, with strictly rising progress ending at 100. */
  lemma SuccessOrder(pdfPath: string)
    ensures |TaskWrites(Finished, pdfPath)| == 7
    ensures forall i :: 0 <= i < 7 ==> TaskWrites(Finished, pdfPath)[i].status == AllStatuses[i + 1]
    ensures forall i, j :: 0 <= i < j < 7 ==>
      TaskWrites(Finished, pdfPath)[i].progress < TaskWrites(Finished, pdfPath)[j].progress
    ensures TaskWrites(Finished, pdfPath)[6].progress == 100
  {
    var ws := TaskWrites(Finished, pdfPath);
    CheckpointsAt(7, pdfPath);
    forall i | 0 <= i < 7 ensures ws[i].status == AllStatuses[i + 1] {
      CheckpointStatus(i, pdfPath);
    }
    forall i, j | 0 <= i < j < 7 ensures ws[i].progress < ws[j].progress {
      CheckpointProgress(i, j, pdfPath);
    }
  }

  /** Checkpoint `k` writes the status after the `k`-th one in the enum's
      order, `pending` being the first. */
  lemma CheckpointStatus(k: nat, pdfPath: string)
    requires k <= 6
    ensures Checkpoint(k, pdfPath).status == AllStatuses[k + 1]
  {
  }

  /** Progress rises from one checkpoint to the next. */
  lemma CheckpointProgress(i: nat, j: nat, pdfPath: string)
    requires i < j <= 6
    ensures Checkpoint(i, pdfPath).progress < Checkpoint(j, pdfPath).progress
  {
  }

  /** A run that raised wrote the checkpoints of a finished run up to the
      stage that raised, then the failure write, which is the last; progress
      drops to 0. */
  lemma FailureOrder(stage: Stage, message: string, pdfPath: string)
    ensures |TaskWrites(RaisedAt(stage, message), pdfPath)| == stage + 2
    ensures TaskWrites(RaisedAt(stage, message), pdfPath)[..stage + 1] == TaskWrites(Finished, pdfPath)[..stage + 1]
    ensures TaskWrites(RaisedAt(stage, message), pdfPath)[stage + 1] == FailedWrite(message)
    ensures forall i :: 0 <= i <= stage ==> TaskWrites(RaisedAt(stage, message), pdfPath)[i].status != Failed
    ensures TaskWrites(RaisedAt(stage, message), pdfPath)[stage + 1].progress <
            TaskWrites(RaisedAt(stage, message), pdfPath)[stage].progress
  {
    var ws := TaskWrites(RaisedAt(stage, message), pdfPath);
    var all := TaskWrites(Finished, pdfPath);
    CheckpointsAt(stage + 1, pdfPath);
    CheckpointsAt(7, pdfPath);
    assert forall i :: 0 <= i <= stage ==> ws[i] == Checkpoint(i, pdfPath) == all[i];
  }

  /** Only the `completed` write carries `pdf_path`, and it carries the
      computed path. */
  lemma PdfPathOnlyAtCompletion(outcome: Outcome, pdfPath: string)
    ensures forall i :: 0 <= i < |TaskWrites(outcome, pdfPath)| ==>
      ("pdf_path" in TaskWrites(outcome, pdfPath)[i].extra <==> TaskWrites(outcome, pdfPath)[i].status == Completed)
    ensures forall i :: 0 <= i < |TaskWrites(outcome, pdfPath)| && "pdf_path" in TaskWrites(outcome, pdfPath)[i].extra ==>
      TaskWrites(outcome, pdfPath)[i].extra["pdf_path"] == JStr(pdfPath)
  {
    var ws := TaskWrites(outcome, pdfPath);
    CheckpointsAt(if outcome.RaisedAt? then outcome.stage + 1 else 7, pdfPath);
    forall i | 0 <= i < |ws|
      ensures "pdf_path" in ws[i].extra <==> ws[i].status == Completed
      ensures "pdf_path" in ws[i].extra ==> ws[i].extra["pdf_path"] == JStr(pdfPath)
    {
      if outcome.RaisedAt? && i == |ws| - 1 {
        assert ws[i] == FailedWrite(outcome.message);
      } else {
        assert ws[i] == Checkpoint(i, pdfPath);
      }
    }
  }

  /** A key no checkpoint among the first `n` names keeps what the record
      held. */
  lemma {:induction false} AfterCheckpointsKeeps(base: Record, jobId: string, n: nat, pdfPath: string, key: string)
    requires n <= 7
    requires key !in StatusKeys && (key == "pdf_path" ==> n < 7)
    ensures key in AfterCheckpoints(base, jobId, n, pdfPath) <==> key in base
    ensures key in base ==> AfterCheckpoints(base, jobId, n, pdfPath)[key] == base[key]
  {
    if n > 0 {
      AfterCheckpointsKeeps(base, jobId, n - 1, pdfPath, key);
      ApplyKeeps(AfterCheckpoints(base, jobId, n - 1, pdfPath), jobId, Checkpoint(n - 1, pdfPath), key);
    }
  }

  /** Every key a run never names, such as `created_at` and `url`, keeps
      its value. */
  lemma RunKeeps(base: Record, jobId: string, outcome: Outcome, pdfPath: string, key: string)
    requires key !in StatusKeys && key != "pdf_path" && key != "error_message"
    ensures key in RunRecord(base, jobId, outcome, pdfPath) <==> key in base
    ensures key in base ==> RunRecord(base, jobId, outcome, pdfPath)[key] == base[key]
  {
    if outcome.RaisedAt? {
      AfterCheckpointsKeeps(base, jobId, outcome.stage + 1, pdfPath, key);
      ApplyKeeps(AfterCheckpoints(base, jobId, outcome.stage + 1, pdfPath), jobId, FailedWrite(outcome.message), key);
    } else {
      AfterCheckpointsKeeps(base, jobId, 7, pdfPath, key);
    }
  }

  /** After a finished run the record reads `completed`, 100%, `Complete!`,
      with the PDF path. */
  lemma FinishedRecord(base: Record, jobId: string, pdfPath: string)
    ensures var r := RunRecord(base, jobId, Finished, pdfPath);
      && Get(r, "job_id") == JStr(jobId)
      && Get(r, "status") == JStr(Completed.Value()) && Get(r, "progress_percent") == JNum(100)
      && Get(r, "current_step") == JStr("Complete!") && Get(r, "pdf_path") == JStr(pdfPath)
  {
    var w := Checkpoint(6, pdfPath);
    assert w == StatusWrite(Completed, 100, "Complete!", map["pdf_path" := JStr(pdfPath)]);
    ApplySets(AfterCheckpoints(base, jobId, 6, pdfPath), jobId, w);
  }

  /** A finished run leaves the error message as it was. */
  lemma FinishedKeepsError(base: Record, jobId: string, pdfPath: string)
    ensures Get(RunRecord(base, jobId, Finished, pdfPath), "error_message") == Get(base, "error_message")
  {
    AfterCheckpointsKeeps(base, jobId, 7, pdfPath, "error_message");
  }

  /** After a run that raised the record reads `failed`, 0%, `Failed`, with
      the message. */
  lemma FailedRecord(base: Record, jobId: string, stage: Stage, message: string, pdfPath: string)
    ensures var r := RunRecord(base, jobId, RaisedAt(stage, message), pdfPath);
      && Get(r, "job_id") == JStr(jobId)
      && Get(r, "status") == JStr(Failed.Value()) && Get(r, "progress_percent") == JNum(0)
      && Get(r, "current_step") == JStr(FailedStep) && Get(r, "error_message") == JStr(message)
  {
    ApplySets(AfterCheckpoints(base, jobId, stage + 1, pdfPath), jobId, FailedWrite(message));
  }

  /** A run that raised leaves the PDF path as it was. */
  lemma FailedKeepsPdfPath(base: Record, jobId: string, stage: Stage, message: string, pdfPath: string)
    ensures Get(RunRecord(base, jobId, RaisedAt(stage, message), pdfPath), "pdf_path") == Get(base, "pdf_path")
  {
    AfterCheckpointsKeeps(base, jobId, stage + 1, pdfPath, "pdf_path");
    ApplyKeeps(AfterCheckpoints(base, jobId, stage + 1, pdfPath), jobId, FailedWrite(message), "pdf_path");
  }

  /** After a finished run over a record without an error message, the
      status reads `completed` at 100% with the path. */
  lemma FinishedStatus(base: Record, jobId: string, pdfPath: string)
    requires "error_message" !in base
    ensures StatusResponseOf(RunRecord(base, jobId, Finished, pdfPath)) ==
      Reply(JobStatusResponse(jobId, "completed", 100, "Complete!", None, Some(pdfPath)))
  {
    var r := RunRecord(base, jobId, Finished, pdfPath);
    FinishedRecord(base, jobId, pdfPath);
    FinishedKeepsError(base, jobId, pdfPath);
    StatusOfFields(r, jobId, "completed", 100, "Complete!", None, Some(pdfPath));
  }

  /** After a finished run the PDF is served under the job's file name. */
  lemma FinishedDownload(base: Record, jobId: string, outputDir: string)
    ensures PdfResponseOf(RunRecord(base, jobId, Finished, PdfPath(outputDir, jobId)), jobId) ==
      Reply(PdfFile(JStr(PdfPath(outputDir, jobId)), "application/pdf", PdfFilename(jobId)))
  {
    var p := PdfPath(outputDir, jobId);
    FinishedRecord(base, jobId, p);
    PdfPathNonEmpty(outputDir, jobId);
  }

  /** After a run that raised over a record without a PDF path, the status
      reads `failed` at 0% with the message. */
  lemma FailedStatus(base: Record, jobId: string, pdfPath: string, stage: Stage, message: string)
    requires "pdf_path" !in base
    ensures StatusResponseOf(RunRecord(base, jobId, RaisedAt(stage, message), pdfPath)) ==
      Reply(JobStatusResponse(jobId, "failed", 0, "Failed", Some(message), None))
  {
    var r := RunRecord(base, jobId, RaisedAt(stage, message), pdfPath);
    FailedRecord(base, jobId, stage, message, pdfPath);
    FailedKeepsPdfPath(base, jobId, stage, message, pdfPath);
    StatusOfFields(r, jobId, "failed", 0, "Failed", Some(message), None);
  }

  /** After a run that raised the download is refused with a 400. */
  lemma FailedDownload(base: Record, jobId: string, pdfPath: string, stage: Stage, message: string)
    ensures PdfResponseOf(RunRecord(base, jobId, RaisedAt(stage, message), pdfPath), jobId) ==
      HttpError(400, NotReadyPrefix + "failed")
  {
    FailedRecord(base, jobId, stage, message, pdfPath);
    NotReadyOf(RunRecord(base, jobId, RaisedAt(stage, message), pdfPath), jobId, Failed);
  }

  /** A record `create_job` stored holds neither an error message nor a PDF
      path. */
  lemma FreshRecordClean(jobId: string, createdAt: string, url: string)
    ensures "error_message" !in FreshRecord(jobId, createdAt, url)
    ensures "pdf_path" !in FreshRecord(jobId, createdAt, url)
  {
  }

  // ---- the PDF path ----

  /** The components `pathlib` keeps: empty and `.` components are dropped. */
  function PathParts(parts: seq<string>): (kept: seq<string>)
    ensures forall i :: 0 <= i < |kept| ==> kept[i] != "" && kept[i] != "."
  {
    if parts == [] then []
    else
      var rest := PathParts(parts[..|parts| - 1]);
      var last := parts[|parts| - 1];
      if last == "" || last == "." then rest else rest + [last]
  }

  /** `str(Path(output_dir) / f"{job_id}.pdf")` */
  function PdfPath(outputDir: string, jobId: string): string
  {
    (if "/" <= outputDir then "/" else "") + Join(PathParts(Split(outputDir, "/")) + [jobId + ".pdf"], "/")
  }

  /** The last part of a join is its tail. */
  lemma {:induction false} JoinEndsWithLast(parts: seq<string>, last: string, sep: string)
    ensures EndsWith(Join(parts + [last], sep), last)
  {
    if parts != [] {
      assert (parts + [last])[1..] == parts[1..] + [last];
      JoinEndsWithLast(parts[1..], last, sep);
      var tail := Join(parts[1..] + [last], sep);
      assert Join(parts + [last], sep) == parts[0] + sep + tail;
      assert (parts[0] + sep + tail)[|parts[0] + sep + tail| - |last|..] == tail[|tail| - |last|..];
    } else {
      assert parts + [last] == [last];
    }
  }

  /** The path names the job's file. */
  lemma PdfPathNonEmpty(outputDir: string, jobId: string)
    ensures EndsWith(PdfPath(outputDir, jobId), jobId + ".pdf")
    ensures PdfPath(outputDir, jobId) != ""
  {
    var lead: string := if "/" <= outputDir then "/" else "";
    var joined := Join(PathParts(Split(outputDir, "/")) + [jobId + ".pdf"], "/");
    JoinEndsWithLast(PathParts(Split(outputDir, "/")), jobId + ".pdf", "/");
    assert (lead + joined)[|lead + joined| - |jobId + ".pdf"|..] == joined[|joined| - |jobId + ".pdf"|..];
  }

  // ---- the company name ----

  /** `name.split('|')[0].split('-')[0].strip()` */
  function CleanName(name: string): string
  {
    Strip(CutAt(CutAt(name, {'|'}), {'-'}))
  }

  /** A cleaned name holds no `|` and no `-` and has no surrounding
      whitespace. */
  lemma CleanNameShape(name: string)
    ensures Avoids(CleanName(name), {'|', '-'})
    ensures CleanName(name) == [] ||
      (CleanName(name)[0] !in Whitespace && CleanName(name)[|CleanName(name)| - 1] !in Whitespace)
  {
    var cut1 := CutAt(name, {'|'});
    CutAtAvoids(name, {'|'}, {});
    var cut2 := CutAt(cut1, {'-'});
    CutAtAvoids(cut1, {'-'}, {} + {'|'});
    StripCharsAvoids(cut2, Whitespace, {} + {'|'} + {'-'});
  }

  /** Cleaning a cleaned name changes nothing. */
  lemma CleanNameIdempotent(name: string)
    ensures CleanName(CleanName(name)) == CleanName(name)
  {
    var c := CleanName(name);
    CleanNameShape(name);
    CutAtAll(c, {'|'});
    CutAtAll(c, {'-'});
    assert TrimStart(c, Whitespace) == c;
    assert TrimEnd(c, Whitespace) == c;
  }

  /** A string with none of the stop characters is cut nowhere. */
  lemma CutAtAll(s: string, cs: set<char>)
    requires Avoids(s, cs)
    ensures CutAt(s, cs) == s
  {
    CutAtPrefix(s, [], cs);
    assert s + [] == s;
  }

  /** The character `title()` writes for `c`: a letter is lower-cased when
      it follows a letter and upper-cased otherwise; anything else is kept. */
  function TitleChar(c: char, afterLetter: bool): char
  {
    if !IsAsciiLetter(c) then c else if afterLetter then LowerChar(c) else UpperChar(c)
  }

  /** `str.title()` on ASCII text, with `afterLetter` telling whether a
      letter came before `s`. */
  function TitleFrom(s: string, afterLetter: bool): (r: string)
    ensures |r| == |s|
  {
    if s == [] then [] else [TitleChar(s[0], afterLetter)] + TitleFrom(s[1..], IsAsciiLetter(s[0]))
  }

  function TitleCase(s: string): string
  {
    TitleFrom(s, false)
  }

  /** Whether a letter comes just before position `i`. */
  function AfterLetterAt(s: string, afterLetter: bool, i: nat): bool
    requires i < |s|
  {
    if i == 0 then afterLetter else IsAsciiLetter(s[i - 1])
  }

  /** Position by position, each character is cased by what precedes it
      alone. */
  lemma {:induction false} TitleFromSpec(s: string, afterLetter: bool)
    ensures forall i :: 0 <= i < |s| ==> TitleFrom(s, afterLetter)[i] == TitleChar(s[i], AfterLetterAt(s, afterLetter, i))
  {
    if s != [] {
      var t := s[1..];
      var a := IsAsciiLetter(s[0]);
      TitleFromSpec(t, a);
      var r := TitleFrom(s, afterLetter);
      assert r[1..] == TitleFrom(t, a);
      forall i | 0 <= i < |s| ensures r[i] == TitleChar(s[i], AfterLetterAt(s, afterLetter, i)) {
        if i > 0 {
          assert r[i] == TitleFrom(t, a)[i - 1] && s[i] == t[i - 1];
          if i > 1 {
            assert s[i - 1] == t[i - 2];
          }
          assert AfterLetterAt(t, a, i - 1) == AfterLetterAt(s, afterLetter, i);
        }
      }
    }
  }

  /** Casing keeps a letter a letter, and a non-letter itself. */
  lemma TitleCharKind(c: char, afterLetter: bool)
    ensures IsAsciiLetter(TitleChar(c, afterLetter)) <==> IsAsciiLetter(c)
    ensures !IsAsciiLetter(c) ==> TitleChar(c, afterLetter) == c
  {
  }

  /** Title-casing twice is title-casing once. */
  lemma {:induction false} TitleFromIdempotent(s: string, afterLetter: bool)
    ensures TitleFrom(TitleFrom(s, afterLetter), afterLetter) == TitleFrom(s, afterLetter)
  {
    if s != [] {
      var c := s[0];
      TitleFromIdempotent(s[1..], IsAsciiLetter(c));
      var r := TitleFrom(s, afterLetter);
      assert r[1..] == TitleFrom(s[1..], IsAsciiLetter(c));
      TitleCharKind(c, afterLetter);
      assert TitleChar(r[0], afterLetter) == r[0];
    }
  }

  /** `meta.get(key)`, where the page script reports every key, `''` when
      the page has none. */
  function MetaText(meta: map<string, string>, key: string): string
  {
    if key in meta then meta[key] else ""
  }

  /** `domain.split('.')[0].title()` */
  function DomainName(domain: string): string
  {
    TitleCase(CutAt(domain, {'.'}))
  }

  /** The first non-empty of the `og:title`, the page title and the domain's
      first label, cleaned. */
  function CompanyName(meta: map<string, string>, domain: string): string
  {
    var og := MetaText(meta, "ogTitle");
    var title := MetaText(meta, "title");
    CleanName(if og != "" then og else if title != "" then title else DomainName(domain))
  }

  /** The name comes from the first of `og:title` and the title that is
      non-empty, and from the domain only when both are empty. */
  lemma CompanyNameSource(meta: map<string, string>, domain: string)
    ensures MetaText(meta, "ogTitle") != "" ==> CompanyName(meta, domain) == CleanName(MetaText(meta, "ogTitle"))
    ensures MetaText(meta, "ogTitle") == "" && MetaText(meta, "title") != "" ==>
      CompanyName(meta, domain) == CleanName(MetaText(meta, "title"))
    ensures MetaText(meta, "ogTitle") == "" && MetaText(meta, "title") == "" ==>
      CompanyName(meta, domain) == CleanName(DomainName(domain))
  {
  }

  /** A name taken from the domain holds no `.`, besides what cleaning
      removes. */
  lemma DomainNameShape(domain: string)
    ensures Avoids(CleanName(DomainName(domain)), {'.', '|', '-'})
  {
    var firstLabel := CutAt(domain, {'.'});
    var t := TitleCase(firstLabel);
    TitleFromSpec(firstLabel, false);
    forall i | 0 <= i < |t| ensures t[i] != '.' {
      TitleCharKind(firstLabel[i], AfterLetterAt(firstLabel, false, i));
    }
    assert Avoids(t, {'.'});
    var cut1 := CutAt(t, {'|'});
    CutAtAvoids(t, {'|'}, {'.'});
    var cut2 := CutAt(cut1, {'-'});
    CutAtAvoids(cut1, {'-'}, {'.'} + {'|'});
    StripCharsAvoids(cut2, Whitespace, {'.'} + {'|'} + {'-'});
  }

  /** `domain = urlparse(url).netloc`, from the URL the job was created with. */
  function Domain(url: string): string
  {
    Netloc(url)
  }

  // ---- the extractors' inputs ----

  /** `pages[name]`: the first page with that name. */
  function PageNamed(pages: seq<(string, ScrapedPage)>, name: string): (r: Option<ScrapedPage>)
    ensures r.Some? ==> exists i :: 0 <= i < |pages| && pages[i] == (name, r.value)
    ensures r.None? ==> forall i :: 0 <= i < |pages| ==> pages[i].0 != name
  {
    if pages == [] then None
    else if pages[0].0 == name then Some(pages[0].1)
    else
      var r := PageNamed(pages[1..], name);
      assert forall i :: 1 <= i < |pages| ==> pages[i] == pages[1..][i - 1];
      r
  }

  /** What the colour, typography and logo extractors are given. */
  datatype StageInputs = StageInputs(
    colorCss: seq<string>, colorImages: seq<string>,
    typographyHtml: string, typographyCss: seq<string>,
    logoHtml: string, logoBaseUrl: string, logoMeta: map<string, string>)

  /** `all_css` and the other arguments; `None` when there is no home page
      (a `KeyError`). */
  function StageInputsOf(data: ScrapedData): Option<StageInputs>
  {
    match PageNamed(data.pages, "home")
    case None => None
    case Some(home) =>
      var allCss := home.cssContents + data.externalCss;
      Some(StageInputs(allCss, [], home.html, allCss, home.html, data.baseUrl, data.meta))
  }

  /** For a scrape result the home page is found: colours come from its
      stylesheets followed by the external ones, with no images, and
      typography reads its HTML with the same stylesheets. */
  lemma ScrapedInputs(data: ScrapedData, home: ScrapedPage, rest: seq<(string, ScrapedPage)>)
    requires data.pages == [("home", home)] + rest
    ensures StageInputsOf(data).Some?
    ensures StageInputsOf(data).value.colorCss == home.cssContents + data.externalCss
    ensures StageInputsOf(data).value.colorImages == []
    ensures StageInputsOf(data).value.typographyHtml == home.html
    ensures StageInputsOf(data).value.typographyCss == StageInputsOf(data).value.colorCss
    ensures StageInputsOf(data).value.logoHtml == home.html
  {
    assert data.pages[0] == ("home", home);
  }

  // ---- the text for the AI ----

  /** Every page's visible text followed by a blank line, in page order. */
  function PagesText(pages: seq<(string, ScrapedPage)>, pageText: ScrapedPage -> string): string
  {
    if pages == [] then ""
    else PagesText(pages[..|pages| - 1], pageText) + pageText(pages[|pages| - 1].1) + "\n\n"
  }

  /** The loop that builds `text_content`. */
  method CollectText(pages: seq<(string, ScrapedPage)>, pageText: ScrapedPage -> string) returns (text: string)
    ensures text == PagesText(pages, pageText)
  {
    text := "";
    for i := 0 to |pages|
      invariant text == PagesText(pages[..i], pageText)
    {
      assert pages[..i + 1][..i] == pages[..i];
      var (_, page) := pages[i];
      text := text + pageText(page) + "\n\n";
    }
    assert pages[..|pages|] == pages;
  }

  /** The text of two runs of pages is their texts one after the other. */
  lemma {:induction false} PagesTextAppend(a: seq<(string, ScrapedPage)>, b: seq<(string, ScrapedPage)>,
                                           pageText: ScrapedPage -> string)
    ensures PagesText(a + b, pageText) == PagesText(a, pageText) + PagesText(b, pageText)
    decreases |b|
  {
    if b == [] {
      assert a + b == a;
    } else {
      var init := b[..|b| - 1];
      assert (a + b)[..|a + b| - 1] == a + init;
      assert (a + b)[|a + b| - 1] == b[|b| - 1];
      PagesTextAppend(a, init, pageText);
    }
  }

  /** The home page's text comes first. */
  lemma HomeTextFirst(home: ScrapedPage, rest: seq<(string, ScrapedPage)>, pageText: ScrapedPage -> string)
    ensures PagesText([("home", home)] + rest, pageText) == pageText(home) + "\n\n" + PagesText(rest, pageText)
  {
    PagesTextAppend([("home", home)], rest, pageText);
    assert [("home", home)][..0] == [];
  }
}
