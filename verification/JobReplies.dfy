/** What the server answers about a job, and the parts of the answer the pollers read. */
module JobReplies {
  import opened Wrappers

  /** A job dictionary; a missing key and a null value are the same thing here. */
  datatype JobInfo = JobInfo(status: Option<string>, ops: Option<seq<string>>, endTs: Option<(nat, nat)>)

  datatype Reply = Failed(code: int) | Answer(info: JobInfo)

  const SUCCESS := Some("success")
  const ERROR := Some("error")
  const UNKNOWN := Some("unknown")

  predicate ValidJob(info: JobInfo) {
    !(info.ops.None? && info.status.None?)
  }

  /** The most recent operation. */
  function ParseOp(info: JobInfo): Option<string> {
    if info.ops.Some? && |info.ops.value| > 0 then Some(info.ops.value[|info.ops.value| - 1]) else None
  }

  /** The statuses after which a job is no longer of interest.  A canceled job is not among them. */
  predicate Final(status: Option<string>) {
    status == SUCCESS || status == ERROR
  }
}
