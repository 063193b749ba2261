/** The HTTP handlers: creating a job, reading its status, and serving its
    PDF once the job is complete. The job id and the creation time are
    parameters (they come from `uuid4` and the clock); the Celery queue is a
    list of the calls it has received. */
module Routes {
  import opened Wrappers
  import opened Text
  import opened Json
  import opened Job
  import opened Store

  /** What a handler answers: its value, or an `HTTPException`. */
  datatype Reply<T> = Reply(value: T) | HttpError(code: int, detail: string)

  datatype JobResponse = JobResponse(jobId: string, status: string)

  /** The status response, after the response model has checked its types. */
  datatype JobStatusResponse = JobStatusResponse(
    jobId: string, status: string, progressPercent: int, currentStep: string,
    errorMessage: Option<string>, pdfPath: Option<string>)

  datatype PdfFile = PdfFile(path: Json, mediaType: string, filename: string)

  /** The calls `extract_brand_task.delay` has received, oldest first. */
  class TaskQueue {
    var queued: seq<(string, string)>

    constructor ()
      ensures queued == []
    {
      queued := [];
    }

    method Delay(jobId: string, url: string)
      modifies this
      ensures queued == old(queued) + [(jobId, url)]
    {
      queued := queued + [(jobId, url)];
    }
  }

  const QueuedStep: string := "Queued for processing"

  /** The record `create_job` stores. */
  function FreshRecord(jobId: string, createdAt: string, url: string): Record
  {
    map["job_id" := JStr(jobId), "status" := JStr(Pending.Value()), "progress_percent" := JNum(0),
        "current_step" := JStr(QueuedStep), "created_at" := JStr(createdAt), "url" := JStr(url)]
  }

  /** `create_job`: the record is stored, then the extraction task is queued. */
  method CreateJob(store: JobStore, queue: TaskQueue, jobId: string, createdAt: string, url: string)
    returns (resp: JobResponse)
    modifies store, queue
    ensures store.records == old(store.records)[JobKey(jobId) := FreshRecord(jobId, createdAt, url)]
    ensures queue.queued == old(queue.queued) + [(jobId, url)]
    ensures resp == JobResponse(jobId, Pending.Value())
  {
    store.SetJob(jobId, FreshRecord(jobId, createdAt, url));
    queue.Delay(jobId, url);
    return JobResponse(jobId, Pending.Value());
  }

  const JobNotFound: string := "Job not found"
  const PdfNotFound: string := "PDF file not found"
  const NotReadyPrefix: string := "PDF not ready. Current status: "
  const InternalError: string := "Internal Server Error"

  /** `job["key"]` on a missing key, or a value the response model refuses,
      ends the request with a server error. */
  function AsString(v: Json): Option<string>
  {
    if v.JStr? then Some(v.s) else None
  }

  function AsInt(v: Json): Option<int>
  {
    if v.JNum? then Some(v.n) else None
  }

  /** An optional string field: `None` for `null`. */
  function AsOptString(v: Json): Option<Option<string>>
  {
    match v
    case JNull => Some(None)
    case JStr(s) => Some(Some(s))
    case _ => None
  }

  /** The status response for a stored record. */
  function StatusResponseOf(job: Record): Reply<JobStatusResponse>
  {
    if job == map[] then HttpError(404, JobNotFound)
    else if "job_id" !in job || "status" !in job then HttpError(500, InternalError)
    else
      var progress := if "progress_percent" in job then job["progress_percent"] else JNum(0);
      var step := if "current_step" in job then job["current_step"] else JStr("");
      match (AsString(job["job_id"]), AsString(job["status"]), AsInt(progress), AsString(step),
             AsOptString(Get(job, "error_message")), AsOptString(Get(job, "pdf_path")))
      case (Some(id), Some(status), Some(p), Some(s), Some(e), Some(path)) =>
        Reply(JobStatusResponse(id, status, p, s, e, path))
      case _ => HttpError(500, InternalError)
  }

  /** A record whose fields hold these values answers with them; a missing
      error message or PDF path reads as `None`. */
  lemma StatusOfFields(job: Record, id: string, status: string, progress: int, step: string,
                       err: Option<string>, path: Option<string>)
    requires Get(job, "job_id") == JStr(id) && Get(job, "status") == JStr(status)
    requires Get(job, "progress_percent") == JNum(progress) && Get(job, "current_step") == JStr(step)
    requires Get(job, "error_message") == if err.Some? then JStr(err.value) else JNull
    requires Get(job, "pdf_path") == if path.Some? then JStr(path.value) else JNull
    ensures StatusResponseOf(job) == Reply(JobStatusResponse(id, status, progress, step, err, path))
  {
    assert "job_id" in job;
  }

  /** `get_job_status`: it only reads the store. */
  function GetJobStatus(store: JobStore, jobId: string): Reply<JobStatusResponse>
    reads store
  {
    match store.GetJob(jobId)
    case None => HttpError(404, JobNotFound)
    case Some(job) => StatusResponseOf(job)
  }

  /** An unknown job is a 404; a record without progress or step reads as
      0 and `""`. */
  lemma StatusDefaults(store: JobStore, jobId: string, id: string, status: string)
    ensures store.GetJob(jobId).None? ==> GetJobStatus(store, jobId) == HttpError(404, JobNotFound)
    ensures store.GetJob(jobId) == Some(map["job_id" := JStr(id), "status" := JStr(status)]) ==>
      GetJobStatus(store, jobId) == Reply(JobStatusResponse(id, status, 0, "", None, None))
  {
    var job := map["job_id" := JStr(id), "status" := JStr(status)];
    assert "job_id" in job && job != map[];
    assert "progress_percent" !in job && "current_step" !in job;
    assert Get(job, "error_message") == JNull && Get(job, "pdf_path") == JNull;
    assert StatusResponseOf(job) == Reply(JobStatusResponse(id, status, 0, "", None, None));
  }

  /** A job just created reads back as pending, at 0%, queued. */
  lemma CreatedJobStatus(jobId: string, createdAt: string, url: string)
    ensures StatusResponseOf(FreshRecord(jobId, createdAt, url)) ==
      Reply(JobStatusResponse(jobId, "pending", 0, QueuedStep, None, None))
  {
    var job := FreshRecord(jobId, createdAt, url);
    assert "job_id" in job && job != map[];
    assert job["status"] == JStr("pending") && job["progress_percent"] == JNum(0);
    assert job["current_step"] == JStr(QueuedStep) && job["job_id"] == JStr(jobId);
    assert Get(job, "error_message") == JNull && Get(job, "pdf_path") == JNull;
  }

  /** `str(value)` for the status shown in the 400 detail. Nested lists and
      objects are not rendered. */
  function Shown(v: Json): string
  {
    match v
    case JNull => "None"
    case JBool(b) => if b then "True" else "False"
    case JNum(n) => if n < 0 then "-" + Decimal(-n) else Decimal(n)
    case JStr(s) => s
    case _ => ""
  }

  /** `f"brand_guidelines_{job_id[:8]}.pdf"` */
  function PdfFilename(jobId: string): (f: string)
    ensures |f| == |"brand_guidelines_"| + (if |jobId| < 8 then |jobId| else 8) + |".pdf"|
    ensures "brand_guidelines_" <= f && f[|f| - 4..] == ".pdf"
    ensures f[17..|f| - 4] <= jobId
  {
    "brand_guidelines_" + (if |jobId| <= 8 then jobId else jobId[..8]) + ".pdf"
  }

  /** The PDF answer for a stored record. */
  function PdfResponseOf(job: Record, jobId: string): Reply<PdfFile>
  {
    if job == map[] then HttpError(404, JobNotFound)
    else if Get(job, "status") != JStr(Completed.Value()) then HttpError(400, NotReadyPrefix + Shown(Get(job, "status")))
    else if !Truthy(Get(job, "pdf_path")) then HttpError(404, PdfNotFound)
    else Reply(PdfFile(Get(job, "pdf_path"), "application/pdf", PdfFilename(jobId)))
  }

  /** A record in any status but `completed` is refused with a 400 that
      names the status. */
  lemma NotReadyOf(job: Record, jobId: string, status: JobStatus)
    requires Get(job, "status") == JStr(status.Value()) && status != Completed
    ensures PdfResponseOf(job, jobId) == HttpError(400, NotReadyPrefix + status.Value())
  {
    ValueInjective(status, Completed);
    assert "status" in job;
  }

  /** `download_pdf`: it only reads the store. */
  function DownloadPdf(store: JobStore, jobId: string): Reply<PdfFile>
    reads store
  {
    match store.GetJob(jobId)
    case None => HttpError(404, JobNotFound)
    case Some(job) => PdfResponseOf(job, jobId)
  }

  /** The download is served exactly for a completed job with a path: an
      unknown job is 404, a job in any other status 400, a completed job
      without a path 404. */
  lemma DownloadGating(store: JobStore, jobId: string)
    ensures store.GetJob(jobId).None? ==> DownloadPdf(store, jobId) == HttpError(404, JobNotFound)
    ensures DownloadPdf(store, jobId).Reply? <==>
      && store.GetJob(jobId).Some?
      && Get(store.GetJob(jobId).value, "status") == JStr("completed")
      && Truthy(Get(store.GetJob(jobId).value, "pdf_path"))
    ensures store.GetJob(jobId).Some? && store.GetJob(jobId).value != map[]
            && Get(store.GetJob(jobId).value, "status") != JStr("completed") ==>
      DownloadPdf(store, jobId).HttpError? && DownloadPdf(store, jobId).code == 400
    ensures store.GetJob(jobId).Some? && Get(store.GetJob(jobId).value, "status") == JStr("completed")
            && !Truthy(Get(store.GetJob(jobId).value, "pdf_path")) ==>
      DownloadPdf(store, jobId) == HttpError(404, PdfNotFound)
    ensures DownloadPdf(store, jobId).Reply? ==>
      DownloadPdf(store, jobId).value == PdfFile(Get(store.GetJob(jobId).value, "pdf_path"), "application/pdf", PdfFilename(jobId))
  {
  }

  /** A job just created is not ready for download. */
  lemma CreatedJobNotReady(jobId: string, createdAt: string, url: string)
    ensures PdfResponseOf(FreshRecord(jobId, createdAt, url), jobId) == HttpError(400, NotReadyPrefix + "pending")
  {
  }
}
