/** The job records shared by the API and the worker: one JSON object per
    job, stored under `job:<id>`. Records are kept as the values
    `json.loads(json.dumps(record))` gives back, which for the strings,
    integers and `None` written here are the records themselves. */
module Store {
  import opened Wrappers
  import opened Json

  const KeyPrefix: string := "job:"

  /** Seconds a record lives after each write. Expiry is not modelled. */
  const RecordTtlSeconds: nat := 86400

  /** `f"job:{job_id}"` */
  function JobKey(jobId: string): (k: string)
    ensures KeyPrefix <= k && k[|KeyPrefix|..] == jobId
  {
    KeyPrefix + jobId
  }

  /** Different jobs never share a record. */
  lemma JobKeyInjective(a: string, b: string)
    ensures JobKey(a) == JobKey(b) <==> a == b
  {
    if JobKey(a) == JobKey(b) {
      assert a == JobKey(a)[|KeyPrefix|..];
    }
  }

  type Record = map<string, Json>

  class JobStore {
    /** The stored records by key. */
    var records: map<string, Record>

    constructor ()
      ensures records == map[]
    {
      records := map[];
    }

    /** `get_job`: the stored record, if any. A stored JSON text is never
        empty, so `if data:` only tests presence. */
    function GetJob(jobId: string): (r: Option<Record>)
      reads this
      ensures r.Some? <==> JobKey(jobId) in records
    {
      if JobKey(jobId) in records then Some(records[JobKey(jobId)]) else None
    }

    /** `set_job`: the record replaces whatever was stored for the job. */
    method SetJob(jobId: string, data: Record)
      modifies this
      ensures records == old(records)[JobKey(jobId) := data]
      ensures GetJob(jobId) == Some(data)
      ensures forall other :: other != jobId ==> GetJob(other) == old(GetJob(other))
    {
      records := records[JobKey(jobId) := data];
      forall other | other != jobId
        ensures GetJob(other) == old(GetJob(other))
      {
        JobKeyInjective(other, jobId);
      }
    }
  }
}
