/**
 * The job table behind asynchronous avatar generation: one row per job id,
 * holding its status, timestamps, progress and error/result fields.
 *
 * The SQLite table is a map from job id to row; timestamps are integer
 * seconds since the epoch (UTC), which order like the ISO-8601 strings the
 * table stores; the clock is the `now` parameter of each operation.
 */
module JobTracker {
  import opened Wrappers
  import Locks

  datatype JobStatus = Pending | Processing | Completed | Failed | Cancelled

  /** The text stored in the `status` column. */
  function StatusValue(s: JobStatus): (v: string)
    ensures |v| > 0
  {
    match s
    case Pending => "pending"
    case Processing => "processing"
    case Completed => "completed"
    case Failed => "failed"
    case Cancelled => "cancelled"
  }

  /** Distinct statuses are stored as distinct texts, so a row's status reads back unambiguously. */
  lemma StatusValueInjective(a: JobStatus, b: JobStatus)
    requires StatusValue(a) == StatusValue(b)
    ensures a == b
  {
    match a
    case Pending =>
    case Processing => assert StatusValue(a)[0] == 'p' && StatusValue(a)[1] == 'r';
    case Completed => assert StatusValue(a)[1] == 'o';
    case Failed =>
    case Cancelled => assert StatusValue(a)[1] == 'a';
  }

  /** A value in a job's JSON metadata: the submitted texts and the speed. */
  datatype MetaValue = Str(s: string) | Num(x: real)

  /** One row of the `jobs` table, without its key. */
  datatype Job = Job(
    status: JobStatus,
    createdAt: int,
    updatedAt: int,
    startedAt: Option<int>,
    completedAt: Option<int>,
    progress: real,
    errorMessage: Option<string>,
    resultPath: Option<string>,
    metadata: map<string, MetaValue>)

  datatype TrackerError =
    | DuplicateJobId   // the PRIMARY KEY constraint rejects a second row for an id
    | JobNotFound      // `get_job` returned None and `.get` was called on it

  /** The row `create_job` inserts: `metadata or {}`, status pending, both timestamps `now`. */
  function NewJob(metadata: Option<map<string, MetaValue>>, now: int): Job
  {
    Job(Pending, now, now, None, None, 0.0, None, None,
        if metadata.Some? then metadata.value else map[])
  }

  /**
   * The row after one `update_job_status` call. Any status replaces any
   * other; `started_at` is written only by a processing update that finds
   * it unset; `completed_at` is written exactly by completed and failed
   * updates; the optional fields change only when given.
   */
  function ApplyUpdate(j: Job, status: JobStatus, progress: Option<real>,
                       errorMessage: Option<string>, resultPath: Option<string>, now: int): (r: Job)
    ensures r.status == status && r.updatedAt == now
    ensures r.createdAt == j.createdAt && r.metadata == j.metadata
    ensures r.startedAt != j.startedAt <==> status == Processing && j.startedAt.None?
    ensures r.startedAt.Some? <==> j.startedAt.Some? || status == Processing
    ensures status in {Completed, Failed} ==> r.completedAt == Some(now)
    ensures r.completedAt != j.completedAt ==> status in {Completed, Failed}
    ensures r.progress == (if progress.Some? then progress.value else j.progress)
    ensures status == Processing && j.startedAt.None? ==> r.startedAt == Some(now)
    ensures errorMessage.Some? ==> r.errorMessage == errorMessage
    ensures errorMessage.None? ==> r.errorMessage == j.errorMessage
    ensures resultPath.Some? ==> r.resultPath == resultPath
    ensures resultPath.None? ==> r.resultPath == j.resultPath
  {
    j.(status := status,
       updatedAt := now,
       startedAt := if status == Processing && j.startedAt.None? then Some(now) else j.startedAt,
       completedAt := if status in {Completed, Failed} then Some(now) else j.completedAt,
       progress := if progress.Some? then progress.value else j.progress,
       errorMessage := if errorMessage.Some? then errorMessage else j.errorMessage,
       resultPath := if resultPath.Some? then resultPath else j.resultPath)
  }

  /** The arguments of one `update_job_status` call, with the time it ran. */
  datatype Update = Update(status: JobStatus, progress: Option<real>,
                           errorMessage: Option<string>, resultPath: Option<string>, at: int)

  /** A row after a series of updates, oldest first. */
  function ApplyAll(j: Job, us: seq<Update>): Job
    decreases |us|
  {
    if us == [] then j
    else
      var u := us[0];
      ApplyAll(ApplyUpdate(j, u.status, u.progress, u.errorMessage, u.resultPath, u.at), us[1..])
  }

  /** The time of the first processing update, if any. */
  function FirstProcessing(us: seq<Update>): Option<int>
  {
    if us == [] then None
    else if us[0].status == Processing then Some(us[0].at)
    else FirstProcessing(us[1..])
  }

  /** The time of the last completed or failed update, if any. */
  function LastFinish(us: seq<Update>): Option<int>
  {
    if us == [] then None
    else if us[|us| - 1].status in {Completed, Failed} then Some(us[|us| - 1].at)
    else LastFinish(us[..|us| - 1])
  }

  /**
   * `started_at` is set at most once: once set it never changes, and a row
   * created without it ends up with the time of its first processing update.
   */
  lemma {:induction false} StartedAtSetOnce(j: Job, us: seq<Update>)
    ensures j.startedAt.Some? ==> ApplyAll(j, us).startedAt == j.startedAt
    ensures j.startedAt.None? ==> ApplyAll(j, us).startedAt == FirstProcessing(us)
    decreases |us|
  {
    if us != [] {
      var u := us[0];
      StartedAtSetOnce(ApplyUpdate(j, u.status, u.progress, u.errorMessage, u.resultPath, u.at), us[1..]);
    }
  }

  /** A series of updates ending with `last`. */
  lemma {:induction false} ApplyAllSnoc(j: Job, us: seq<Update>, last: Update)
    ensures ApplyAll(j, us + [last]) ==
      var p := ApplyAll(j, us);
      ApplyUpdate(p, last.status, last.progress, last.errorMessage, last.resultPath, last.at)
    decreases |us|
  {
    if us == [] {
      assert us + [last] == [last];
    } else {
      var u := us[0];
      assert (us + [last])[0] == u && (us + [last])[1..] == us[1..] + [last];
      ApplyAllSnoc(ApplyUpdate(j, u.status, u.progress, u.errorMessage, u.resultPath, u.at), us[1..], last);
    }
  }

  /**
   * `completed_at` holds the time of the last completed or failed update;
   * pending, processing and cancelled updates never touch it.
   */
  lemma {:induction false} CompletedAtIsLastFinish(j: Job, us: seq<Update>)
    ensures ApplyAll(j, us).completedAt == (if LastFinish(us).Some? then LastFinish(us) else j.completedAt)
    decreases |us|
  {
    if us != [] {
      var init := us[..|us| - 1];
      var last := us[|us| - 1];
      assert us == init + [last];
      CompletedAtIsLastFinish(j, init);
      ApplyAllSnoc(j, init, last);
    }
  }

  /** Whether a row passes `get_jobs`' optional status filter. */
  predicate Matches(j: Job, status: Option<JobStatus>)
  {
    status.None? || j.status == status.value
  }

  function MatchingIds(jobs: map<string, Job>, status: Option<JobStatus>): set<string>
  {
    set id | id in jobs && Matches(jobs[id], status)
  }

  /** How many of `available` rows SQLite's `LIMIT limit` lets through; a negative limit means no limit. */
  function LimitCount(available: nat, limit: int): (n: nat)
    ensures n <= available
    ensures limit < 0 ==> n == available
    ensures 0 <= limit ==> n == (if limit < available then limit else available)
  {
    if limit < 0 || available <= limit then available else limit
  }

  /** Midnight (UTC) of the day `now` falls in, moved back by `days` days. */
  function Cutoff(now: int, days: int): (c: int)
    ensures c % 86400 == 0
    ensures now - days * 86400 - 86400 < c <= now - days * 86400
  {
    now - now % 86400 - days * 86400
  }

  function Expired(jobs: map<string, Job>, cutoff: int): set<string>
  {
    set id | id in jobs && jobs[id].createdAt < cutoff
  }

  function Kept(jobs: map<string, Job>, cutoff: int): map<string, Job>
  {
    map id | id in jobs && jobs[id].createdAt >= cutoff :: jobs[id]
  }

  /** Cleanup splits the table: expired rows go, every other row stays as it was, and the counts add up. */
  lemma CleanupPartition(jobs: map<string, Job>, cutoff: int)
    ensures Kept(jobs, cutoff).Keys == jobs.Keys - Expired(jobs, cutoff)
    ensures forall id :: id in Kept(jobs, cutoff) ==> Kept(jobs, cutoff)[id] == jobs[id]
    ensures |Expired(jobs, cutoff)| + |Kept(jobs, cutoff)| == |jobs|
  {
    var e := Expired(jobs, cutoff);
    var k := Kept(jobs, cutoff).Keys;
    assert k == jobs.Keys - e;
    assert e <= jobs.Keys;
    assert |jobs.Keys| == |k| + |e| by {
      assert jobs.Keys == k + e && k !! e;
    }
  }

  /**
   * The lock steps of `update_job_status` as written: a processing update
   * calls `get_job`, which takes the same lock again before the first is released.
   */
  function UpdateLockStepsAsWritten(status: JobStatus): seq<Locks.Step>
  {
    if status == Processing
    then [Locks.Acquire, Locks.Acquire, Locks.Release, Locks.Release]
    else [Locks.Acquire, Locks.Release]
  }

  /** As written, every processing update blocks its thread for good. */
  lemma ProcessingUpdateSelfDeadlocks()
    ensures Locks.Run(UpdateLockStepsAsWritten(Processing), false, 0) == Locks.SelfDeadlock(1)
  {
    Locks.NestedAcquireBlocks([], [Locks.Release, Locks.Release]);
    assert [] + [Locks.Acquire, Locks.Acquire] + [Locks.Release, Locks.Release]
        == UpdateLockStepsAsWritten(Processing);
  }

  /**
   * The lock steps of the update modelled below: the row is read inside the
   * one critical section, so every update takes the lock exactly once.
   * The trace is written down for that corrected code; it is not derived
   * from `Tracker.UpdateJobStatus`, which has no lock in this model.
   */
  function UpdateLockSteps(status: JobStatus): (r: seq<Locks.Step>)
    ensures r == Locks.Sections(1)
  {
    [Locks.Acquire, Locks.Release]
  }

  /** The lock steps of a series of corrected updates, one after another. */
  function UpdatesLockSteps(statuses: seq<JobStatus>): (r: seq<Locks.Step>)
    ensures r == Locks.Sections(|statuses|)
  {
    if statuses == [] then [] else UpdateLockSteps(statuses[0]) + UpdatesLockSteps(statuses[1..])
  }

  /**
   * Any series of corrected updates, processing ones included, runs to the
   * end and leaves the lock free.
   */
  lemma UpdatesNeverBlock(statuses: seq<JobStatus>)
    ensures Locks.Run(UpdatesLockSteps(statuses), false, 0) == Locks.Done(false)
  {
    Locks.SectionsNeverBlock(|statuses|, 0);
  }

  class Tracker {
    var jobs: map<string, Job>

    constructor ()
      ensures jobs == map[]
    {
      jobs := map[];
    }

    /** `create_job`: a fresh pending row, or the PRIMARY KEY error for a known id. */
    method CreateJob(jobId: string, metadata: Option<map<string, MetaValue>>, now: int)
      returns (r: Result<string, TrackerError>)
      modifies this
      ensures jobId in old(jobs) ==> r == Err(DuplicateJobId) && jobs == old(jobs)
      ensures jobId !in old(jobs) ==> r == Ok(jobId) && jobs == old(jobs)[jobId := NewJob(metadata, now)]
    {
      if jobId in jobs {
        return Err(DuplicateJobId);
      }
      jobs := jobs[jobId := NewJob(metadata, now)];
      return Ok(jobId);
    }

    /**
     * `update_job_status` with the row read inside its one critical section.
     * A processing update of an unknown id fails (the source calls `.get` on
     * the None that `get_job` returns); any other update of an unknown id
     * matches no row and changes nothing.
     */
    method UpdateJobStatus(jobId: string, status: JobStatus, progress: Option<real>,
                           errorMessage: Option<string>, resultPath: Option<string>, now: int)
      returns (r: Result<(), TrackerError>)
      modifies this
      ensures jobId !in old(jobs) ==> jobs == old(jobs)
      ensures jobId !in old(jobs) ==> (r == Err(JobNotFound) <==> status == Processing)
      ensures jobId in old(jobs) ==> r == Ok(())
      ensures jobId in old(jobs) ==>
                jobs == old(jobs)[jobId := ApplyUpdate(old(jobs)[jobId], status, progress, errorMessage, resultPath, now)]
    {
      var row := GetJob(jobId);
      if row.None? {
        if status == Processing {
          return Err(JobNotFound);
        }
        return Ok(());
      }
      jobs := jobs[jobId := ApplyUpdate(row.value, status, progress, errorMessage, resultPath, now)];
      return Ok(());
    }

    /** `get_job`: the row for an id, None for an unknown one; reading changes nothing. */
    function GetJob(jobId: string): (r: Option<Job>)
      reads this
      ensures r.None? <==> jobId !in jobs
      ensures r.Some? ==> jobId in jobs && r.value == jobs[jobId]
    {
      if jobId in jobs then Some(jobs[jobId]) else None
    }

    /** The matching id with the latest `created_at`. */
    method Newest(ids: set<string>) returns (m: string)
      requires ids != {} && ids <= jobs.Keys
      ensures m in ids
      ensures forall id :: id in ids ==> jobs[id].createdAt <= jobs[m].createdAt
    {
      m :| m in ids;
      var rest := ids - {m};
      while rest != {}
        invariant rest <= ids && m in ids && m !in rest
        invariant forall id :: id in ids && id !in rest ==> jobs[id].createdAt <= jobs[m].createdAt
        decreases |rest|
      {
        var x :| x in rest;
        if jobs[x].createdAt > jobs[m].createdAt {
          m := x;
        }
        rest := rest - {x};
      }
    }

    /**
     * `get_jobs`: the ids of the matching rows, newest first, cut to `limit`;
     * no matching row left out is newer than one returned.
     */
    method GetJobs(status: Option<JobStatus>, limit: int) returns (rows: seq<string>)
      ensures |rows| == LimitCount(|MatchingIds(jobs, status)|, limit)
      ensures forall i :: 0 <= i < |rows| ==> rows[i] in MatchingIds(jobs, status)
      ensures forall i, k :: 0 <= i < k < |rows| ==> rows[i] != rows[k]
      ensures forall i, k :: 0 <= i < k < |rows| ==> jobs[rows[i]].createdAt >= jobs[rows[k]].createdAt
      ensures forall id, i :: id in MatchingIds(jobs, status) && id !in rows && 0 <= i < |rows| ==>
                jobs[id].createdAt <= jobs[rows[i]].createdAt
    {
      var matching := MatchingIds(jobs, status);
      var want := LimitCount(|matching|, limit);
      var remaining := matching;
      rows := [];
      while |rows| < want
        invariant remaining <= matching
        invariant |rows| <= want
        invariant |rows| + |remaining| == |matching|
        invariant forall i :: 0 <= i < |rows| ==> rows[i] in matching && rows[i] !in remaining
        invariant forall id :: id in matching && id !in remaining ==> id in rows
        invariant forall i, k :: 0 <= i < k < |rows| ==> rows[i] != rows[k]
        invariant forall i, k :: 0 <= i < k < |rows| ==> jobs[rows[i]].createdAt >= jobs[rows[k]].createdAt
        invariant forall id, i :: id in remaining && 0 <= i < |rows| ==> jobs[id].createdAt <= jobs[rows[i]].createdAt
        decreases want - |rows|
      {
        var m := Newest(remaining);
        rows := rows + [m];
        remaining := remaining - {m};
      }
    }

    /**
     * `cleanup_old_jobs`: deletes exactly the rows created before midnight
     * `days` days back, keeps every other row unchanged, and returns how many went.
     */
    method CleanupOldJobs(days: int, now: int) returns (deleted: nat)
      modifies this
      ensures jobs == Kept(old(jobs), Cutoff(now, days))
      ensures deleted == |Expired(old(jobs), Cutoff(now, days))|
      ensures deleted + |jobs| == |old(jobs)|
    {
      var cutoff := Cutoff(now, days);
      CleanupPartition(jobs, cutoff);
      deleted := |Expired(jobs, cutoff)|;
      jobs := Kept(jobs, cutoff);
    }
  }
}
