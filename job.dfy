/** The status values a job moves through and the progress record. */
module Job {
  import opened Wrappers

  datatype JobStatus =
    | Pending
    | Scraping
    | ExtractingColors
    | ExtractingTypography
    | ExtractingLogo
    | GeneratingContent
    | BuildingPdf
    | Completed
    | Failed
  {
    /** The string stored for the status. */
    function Value(): string
    {
      match this
      case Pending => "pending"
      case Scraping => "scraping"
      case ExtractingColors => "extracting_colors"
      case ExtractingTypography => "extracting_typography"
      case ExtractingLogo => "extracting_logo"
      case GeneratingContent => "generating_content"
      case BuildingPdf => "building_pdf"
      case Completed => "completed"
      case Failed => "failed"
    }
  }

  /** Every member in declaration order. */
  const AllStatuses: seq<JobStatus> :=
    [Pending, Scraping, ExtractingColors, ExtractingTypography, ExtractingLogo,
     GeneratingContent, BuildingPdf, Completed, Failed]

  /** `JobStatus(value)`: the member with that value, if any. */
  function StatusOf(value: string): (r: Option<JobStatus>)
    ensures r.Some? ==> r.value.Value() == value
    ensures r.None? ==> forall s: JobStatus :: s.Value() != value
  {
    if value == "pending" then Some(Pending)
    else if value == "scraping" then Some(Scraping)
    else if value == "extracting_colors" then Some(ExtractingColors)
    else if value == "extracting_typography" then Some(ExtractingTypography)
    else if value == "extracting_logo" then Some(ExtractingLogo)
    else if value == "generating_content" then Some(GeneratingContent)
    else if value == "building_pdf" then Some(BuildingPdf)
    else if value == "completed" then Some(Completed)
    else if value == "failed" then Some(Failed)
    else None
  }

  /** There are exactly nine members, with pairwise different values, and
      each value reads back as its member. */
  lemma StatusValuesDistinct()
    ensures |AllStatuses| == 9
    ensures forall s: JobStatus :: s in AllStatuses
    ensures forall i, j :: 0 <= i < j < |AllStatuses| ==> AllStatuses[i].Value() != AllStatuses[j].Value()
    ensures forall s: JobStatus :: StatusOf(s.Value()) == Some(s)
  {
    forall s: JobStatus ensures s in AllStatuses {
      match s
      case Pending => assert AllStatuses[0] == s;
      case Scraping => assert AllStatuses[1] == s;
      case ExtractingColors => assert AllStatuses[2] == s;
      case ExtractingTypography => assert AllStatuses[3] == s;
      case ExtractingLogo => assert AllStatuses[4] == s;
      case GeneratingContent => assert AllStatuses[5] == s;
      case BuildingPdf => assert AllStatuses[6] == s;
      case Completed => assert AllStatuses[7] == s;
      case Failed => assert AllStatuses[8] == s;
    }
  }

  /** Different members have different values. */
  lemma ValueInjective(a: JobStatus, b: JobStatus)
    ensures a.Value() == b.Value() <==> a == b
  {
    StatusValuesDistinct();
    assert StatusOf(a.Value()) == Some(a) && StatusOf(b.Value()) == Some(b);
  }

  /** `created_at` and `completed_at` are opaque timestamps. */
  datatype JobProgress = JobProgress(
    jobId: string,
    status: JobStatus,
    progressPercent: int,
    currentStep: string,
    errorMessage: Option<string>,
    createdAt: string,
    completedAt: Option<string>,
    pdfPath: Option<string>)

  /** `JobProgress(job_id=..., status=..., created_at=...)` with every other
      field at its default; the type puts no bound on the percentage. */
  function NewJobProgress(jobId: string, status: JobStatus, createdAt: string): (p: JobProgress)
    ensures p.jobId == jobId && p.status == status && p.createdAt == createdAt
    ensures p.progressPercent == 0 && p.currentStep == ""
    ensures p.errorMessage == None && p.completedAt == None && p.pdfPath == None
  {
    JobProgress(jobId, status, 0, "", None, createdAt, None, None)
  }
}
