/**
 * The ORM variant of the job table: rows keyed by job id whose status is a
 * free string, a session factory that retries a failing connection, and a
 * health record the connection code keeps up to date.
 *
 * The table is a map from job id to row; timestamps are integer seconds and
 * the clock is the `now` parameter. The outcome of each connection attempt
 * is a parameter, as are the texts of the database's exceptions.
 */
module Database {
  import opened Wrappers
  import Text
  import Sets

  const MaxRetries: nat := 3
  const RetryDelay: real := 1.0
  const MaxErrorLength: nat := 5000
  const TruncationMarker: string := "... [truncated]"

  /** One row of the `jobs` table, without its key. */
  datatype Row = Row(
    jobType: string,
    status: string,
    createdAt: int,
    updatedAt: int,
    completedAt: Option<int>,
    errorMessage: Option<string>,
    resultPath: Option<string>,
    progress: real,
    metadata: Option<string>)

  datatype DbError =
    | AlreadyExists(message: string)    // the unique job id rejected a second row
    | ConnectionFailed(message: string) // the last of the connection attempts failed
    | Unexpected(message: string)       // any other error while connecting

  /** The row `create_job` adds: status "pending", both timestamps `now`, progress 0. */
  function NewRow(jobType: string, metadata: Option<string>, now: int): Row
  {
    Row(jobType, "pending", now, now, None, None, None, 0.0, metadata)
  }

  /** Progress outside [0, 1] is clamped to the nearer end; inside it is kept. */
  function Clamp(p: real): (r: real)
    ensures 0.0 <= r <= 1.0
    ensures 0.0 <= p <= 1.0 ==> r == p
    ensures p < 0.0 ==> r == 0.0
    ensures p > 1.0 ==> r == 1.0
  {
    if p < 0.0 || p > 1.0 then
      var low := if p < 1.0 then p else 1.0;
      if 0.0 < low then low else 0.0
    else p
  }

  /**
   * The stored form of an error message: kept when at most 5000 characters,
   * otherwise its first 5000 characters and a truncation marker.
   */
  function StoredError(message: string): (r: string)
    ensures |message| <= MaxErrorLength ==> r == message
    ensures |message| > MaxErrorLength ==>
      |r| == MaxErrorLength + |TruncationMarker| && r[..MaxErrorLength] == message[..MaxErrorLength] &&
      Text.EndsWith(r, TruncationMarker)
    ensures |r| <= MaxErrorLength + |TruncationMarker|
  {
    if |message| > MaxErrorLength then message[..MaxErrorLength] + TruncationMarker else message
  }

  /** Two long messages with the same first 5000 characters are stored alike. */
  lemma StoredErrorForgetsTail(a: string, b: string)
    requires |a| > MaxErrorLength && |b| > MaxErrorLength
    requires a[..MaxErrorLength] == b[..MaxErrorLength]
    ensures StoredError(a) == StoredError(b)
  {
  }

  /** `status in ["completed", "failed"]`. */
  predicate Finishing(status: string)
  {
    status == "completed" || status == "failed"
  }

  /**
   * The row after `update_job_status`: the status (recognised or not) and
   * `updated_at` are always written; progress, clamped, when given; the
   * error message only when non-empty; the result path only when non-empty;
   * `completed_at` exactly on a completed or failed update.
   */
  function Updated(row: Row, status: string, progress: Option<real>, errorMessage: Option<string>,
                   resultPath: Option<string>, now: int): (r: Row)
    ensures r.status == status && r.updatedAt == now
    ensures r.jobType == row.jobType && r.createdAt == row.createdAt && r.metadata == row.metadata
    ensures progress.Some? ==> r.progress == Clamp(progress.value) && 0.0 <= r.progress <= 1.0
    ensures progress.None? ==> r.progress == row.progress
    ensures errorMessage.Some? && errorMessage.value != [] ==> r.errorMessage == Some(StoredError(errorMessage.value))
    ensures errorMessage.None? || errorMessage.value == [] ==> r.errorMessage == row.errorMessage
    ensures resultPath.Some? && resultPath.value != [] ==> r.resultPath == resultPath
    ensures resultPath.None? || resultPath.value == [] ==> r.resultPath == row.resultPath
    ensures r.completedAt == (if Finishing(status) then Some(now) else row.completedAt)
  {
    row.(status := status, updatedAt := now,
         progress := if progress.Some? then Clamp(progress.value) else row.progress,
         errorMessage := if errorMessage.Some? && errorMessage.value != [] then Some(StoredError(errorMessage.value)) else row.errorMessage,
         resultPath := if resultPath.Some? && resultPath.value != [] then resultPath else row.resultPath,
         completedAt := if Finishing(status) then Some(now) else row.completedAt)
  }

  /** Repeating an update with the same arguments and time leaves the row as the first call left it. */
  lemma UpdateIdempotent(row: Row, status: string, progress: Option<real>, errorMessage: Option<string>,
                         resultPath: Option<string>, now: int)
    ensures var once := Updated(row, status, progress, errorMessage, resultPath, now);
      Updated(once, status, progress, errorMessage, resultPath, now) == once
  {
  }

  /** A row's progress stays in [0, 1] through any update when it starts there. */
  lemma UpdateKeepsProgressInRange(row: Row, status: string, progress: Option<real>, errorMessage: Option<string>,
                                   resultPath: Option<string>, now: int)
    requires 0.0 <= row.progress <= 1.0
    ensures 0.0 <= Updated(row, status, progress, errorMessage, resultPath, now).progress <= 1.0
  {
  }

  /** The outcome of one connection attempt (`SessionLocal()` and `SELECT 1`). */
  datatype Attempt = Connected | OperationalFailure(message: string) | OtherFailure(message: string)

  /** The shared health record `_db_health` (pool sizes left out). */
  datatype Health = Health(status: string, lastError: Option<string>, errorCount: int, lastSuccess: Option<int>)

  /**
   * How many attempts, from the `k`-th on, fail with an operational error
   * before one that does not, counting no further than the last retry.
   */
  function LeadingFailures(outcome: nat -> Attempt, k: nat): (n: nat)
    requires k <= MaxRetries
    ensures n <= MaxRetries - k
    ensures forall i :: k <= i < k + n ==> outcome(i).OperationalFailure?
    ensures k + n < MaxRetries ==> !outcome(k + n).OperationalFailure?
    decreases MaxRetries - k
  {
    if k == MaxRetries || !outcome(k).OperationalFailure? then 0
    else 1 + LeadingFailures(outcome, k + 1)
  }

  /** The kind of error raised inside a session: the rollback records it with its own prefix. */
  datatype SessionError = IntegrityFailure(message: string) | SqlFailure(message: string) | OtherSessionFailure(message: string)

  /** The `last_error` text a failing session records. */
  function SessionErrorText(e: SessionError): (r: string)
    ensures Text.EndsWith(r, e.message)
    ensures Text.StartsWith(r, "Database ") || Text.StartsWith(r, "Unexpected ")
  {
    match e
    case IntegrityFailure(m) =>
      Text.JoinedEnds("Database ", "integrity error: ", m);
      "Database " + "integrity error: " + m
    case SqlFailure(m) =>
      Text.JoinedEnds("Database ", "error: ", m);
      "Database " + "error: " + m
    case OtherSessionFailure(m) =>
      Text.JoinedEnds("Unexpected ", "error in database session: ", m);
      "Unexpected " + "error in database session: " + m
  }

  /** The job counts and success rate of `get_pipeline_stats`. */
  datatype JobStats = JobStats(total: nat, pending: nat, processing: nat, completed: nat, failed: nat, successRate: real)

  /** The ids of the rows with a given status. */
  function WithStatus(rows: map<string, Row>, status: string): (r: set<string>)
    ensures r <= rows.Keys
  {
    set id | id in rows && rows[id].status == status
  }

  /** Rows with different statuses are different rows. */
  lemma {:induction false} DisjointCount(rows: map<string, Row>, a: string, b: string)
    requires a != b
    ensures |WithStatus(rows, a) + WithStatus(rows, b)| == |WithStatus(rows, a)| + |WithStatus(rows, b)|
  {
    assert WithStatus(rows, a) * WithStatus(rows, b) == {};
  }

  /** The success rate is the percentage of all jobs that completed, and 0 with no jobs. */
  function SuccessRate(completed: nat, total: nat): (r: real)
    requires completed <= total
    ensures 0.0 <= r <= 100.0
    ensures total == 0 ==> r == 0.0
    ensures total > 0 ==> r * (total as real) == (completed as real) * 100.0
    ensures total > 0 && completed == total ==> r == 100.0
  {
    if total > 0 then completed as real / total as real * 100.0 else 0.0
  }

  /** `get_pipeline_stats` on the jobs table. */
  function Stats(rows: map<string, Row>): (r: JobStats)
    ensures r.total == |rows|
    ensures r.pending == |WithStatus(rows, "pending")| && r.processing == |WithStatus(rows, "processing")|
    ensures r.completed == |WithStatus(rows, "completed")| && r.failed == |WithStatus(rows, "failed")|
    ensures r.pending + r.processing + r.completed + r.failed <= r.total
    ensures r.completed <= r.total && r.successRate == SuccessRate(r.completed, r.total)
    ensures 0.0 <= r.successRate <= 100.0
    ensures r.total == 0 ==> r.successRate == 0.0
  {
    var pending := |WithStatus(rows, "pending")|;
    var processing := |WithStatus(rows, "processing")|;
    var completed := |WithStatus(rows, "completed")|;
    var failed := |WithStatus(rows, "failed")|;
    StatusCountsBound(rows);
    JobStats(|rows|, pending, processing, completed, failed, SuccessRate(completed, |rows|))
  }

  /** The four status groups are disjoint parts of the table. */
  lemma StatusCountsBound(rows: map<string, Row>)
    ensures |WithStatus(rows, "pending")| + |WithStatus(rows, "processing")| +
            |WithStatus(rows, "completed")| + |WithStatus(rows, "failed")| <= |rows|
  {
    var pending := WithStatus(rows, "pending");
    var processing := WithStatus(rows, "processing");
    var completed := WithStatus(rows, "completed");
    var failed := WithStatus(rows, "failed");
    DisjointCount(rows, "pending", "processing");
    DisjointCount(rows, "completed", "failed");
    assert (pending + processing) * (completed + failed) == {};
    assert |pending + processing + completed + failed| == |pending + processing| + |completed + failed|;
    Sets.SubsetCard(pending + processing + completed + failed, rows.Keys);
  }

  class JobTable {
    var rows: map<string, Row>
    var health: Health

    constructor ()
      ensures rows == map[] && health == Health("healthy", None, 0, None)
    {
      rows := map[];
      health := Health("healthy", None, 0, None);
    }

    /** `get_job`: the row, or None; reading changes nothing. */
    function GetJob(jobId: string): (r: Option<Row>)
      reads this
      ensures r.Some? <==> jobId in rows
      ensures r.Some? ==> r.value == rows[jobId]
    {
      if jobId in rows then Some(rows[jobId]) else None
    }

    /** `create_job`: a pending row, or an error naming the id when the id is taken. */
    method CreateJob(jobId: string, jobType: string, metadata: Option<string>, now: int) returns (r: Result<Row, DbError>)
      modifies this`rows
      ensures jobId in old(rows) ==> r == Err(AlreadyExists("Job " + jobId + " already exists")) && rows == old(rows)
      ensures jobId !in old(rows) ==> r == Ok(NewRow(jobType, metadata, now)) && rows == old(rows)[jobId := r.value]
    {
      if jobId in rows {
        return Err(AlreadyExists("Job " + jobId + " already exists"));
      }
      var row := NewRow(jobType, metadata, now);
      rows := rows[jobId := row];
      return Ok(row);
    }

    /**
     * `update_job_status`: None, and no change, for an unknown id; otherwise
     * the fields are assigned one by one as `Updated` describes and the new
     * row is returned.
     */
    method UpdateJobStatus(jobId: string, status: string, progress: Option<real>, errorMessage: Option<string>,
                           resultPath: Option<string>, now: int) returns (r: Option<Row>)
      modifies this`rows
      ensures jobId !in old(rows) ==> r.None? && rows == old(rows)
      ensures jobId in old(rows) ==>
        r == Some(Updated(old(rows)[jobId], status, progress, errorMessage, resultPath, now)) &&
        rows == old(rows)[jobId := r.value]
    {
      if jobId !in rows {
        return None;
      }
      var job := rows[jobId];
      var p := progress;
      if p.Some? && (p.value < 0.0 || p.value > 1.0) {
        p := Some(Clamp(p.value));
      }
      job := job.(status := status, updatedAt := now);
      if p.Some? {
        job := job.(progress := p.value);
      }
      if errorMessage.Some? && errorMessage.value != [] {
        if |errorMessage.value| > MaxErrorLength {
          job := job.(errorMessage := Some(errorMessage.value[..MaxErrorLength] + TruncationMarker));
        } else {
          job := job.(errorMessage := errorMessage);
        }
      }
      if resultPath.Some? && resultPath.value != [] {
        job := job.(resultPath := resultPath);
      }
      if status == "completed" || status == "failed" {
        job := job.(completedAt := Some(now));
      }
      rows := rows[jobId := job];
      return Some(job);
    }

    /**
     * `get_db`'s connection loop. `outcome(i)` is how attempt `i` ends.
     * Operational failures are retried after `RETRY_DELAY * attempt`
     * seconds, up to three attempts in all; each marks the health degraded
     * and counts an error. A connection marks it healthy and resets the
     * count; any other failure is raised at once. Returns the number of
     * attempts made on success, and the delays slept.
     */
    method Connect(outcome: nat -> Attempt, now: int) returns (r: Result<nat, DbError>, delays: seq<real>)
      modifies this`health
      ensures var f := LeadingFailures(outcome, 0);
        && |delays| == (if f == MaxRetries then MaxRetries - 1 else f)
        && (forall i :: 0 <= i < |delays| ==> delays[i] == RetryDelay * (i + 1) as real)
        && (f == MaxRetries ==>
              r == Err(ConnectionFailed(outcome(MaxRetries - 1).message)) &&
              health == Health("degraded", Some(outcome(MaxRetries - 1).message), old(health.errorCount) + MaxRetries, old(health.lastSuccess)))
        && (f < MaxRetries && outcome(f).Connected? ==>
              r == Ok(f + 1) &&
              health == Health("healthy", if f == 0 then old(health.lastError) else Some(outcome(f - 1).message), 0, Some(now)))
        && (f < MaxRetries && outcome(f).OtherFailure? ==>
              r == Err(Unexpected(outcome(f).message)) &&
              health == if f == 0 then old(health)
                else Health("degraded", Some(outcome(f - 1).message), old(health.errorCount) + f, old(health.lastSuccess)))
    {
      var retryCount: nat := 0;
      delays := [];
      while retryCount < MaxRetries
        invariant retryCount < MaxRetries
        invariant forall i :: 0 <= i < retryCount ==> outcome(i).OperationalFailure?
        invariant |delays| == retryCount
        invariant forall i :: 0 <= i < |delays| ==> delays[i] == RetryDelay * (i + 1) as real
        invariant health.errorCount == old(health.errorCount) + retryCount
        invariant health.lastSuccess == old(health.lastSuccess)
        invariant retryCount == 0 ==> health == old(health)
        invariant retryCount > 0 ==> health.status == "degraded" && health.lastError == Some(outcome(retryCount - 1).message)
        decreases MaxRetries - retryCount
      {
        LeadingFailuresFrom(outcome, retryCount);
        match outcome(retryCount)
        case Connected =>
          health := health.(status := "healthy", lastSuccess := Some(now), errorCount := 0);
          return Ok(retryCount + 1), delays;
        case OperationalFailure(message) =>
          retryCount := retryCount + 1;
          health := health.(status := "degraded", lastError := Some(message), errorCount := health.errorCount + 1);
          if retryCount >= MaxRetries {
            return Err(ConnectionFailed(message)), delays;
          }
          delays := delays + [RetryDelay * retryCount as real];
        case OtherFailure(message) =>
          return Err(Unexpected(message)), delays;
      }
      assert false;
    }

    /** An error inside a session: it is recorded as the last error and counted, then re-raised. */
    method RecordSessionError(e: SessionError)
      modifies this`health
      ensures health == old(health).(lastError := Some(SessionErrorText(e)), errorCount := old(health.errorCount) + 1)
    {
      health := health.(lastError := Some(SessionErrorText(e)), errorCount := health.errorCount + 1);
    }

    /** `get_pipeline_stats` over the current rows; reading changes nothing. */
    function PipelineStats(): (r: JobStats)
      reads this
      ensures r.total == |rows| && 0.0 <= r.successRate <= 100.0
      ensures r.pending == |WithStatus(rows, "pending")| && r.processing == |WithStatus(rows, "processing")|
      ensures r.completed == |WithStatus(rows, "completed")| && r.failed == |WithStatus(rows, "failed")|
      ensures r.completed <= r.total && r.successRate == SuccessRate(r.completed, r.total)
    {
      Stats(rows)
    }
  }

  /**
   * When the attempts before `k` all failed operationally, the leading
   * failures counted from 0 are those counted from `k`, plus `k`.
   */
  lemma {:induction false} LeadingFailuresFrom(outcome: nat -> Attempt, k: nat)
    requires k <= MaxRetries
    requires forall i :: 0 <= i < k ==> outcome(i).OperationalFailure?
    ensures LeadingFailures(outcome, 0) == k + LeadingFailures(outcome, k)
    decreases k
  {
    if k > 0 {
      LeadingFailuresFrom(outcome, k - 1);
    }
  }
}
