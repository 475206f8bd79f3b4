/**
 * The bounded worker pool that runs avatar-generation jobs: a FIFO queue of
 * submitted tasks and a counter of running workers capped at `max_workers`.
 *
 * Threads become events: a dispatch hands the task at the head of the queue
 * to a new worker, and `RunWorker` is that worker running to the end. What
 * the speech and avatar services do is an input (`BodyOutcome`).
 */
module BackgroundTasks {
  import opened Wrappers
  import opened JobTracker
  import Text

  /** One queued avatar job, as `submit_avatar_job` enqueues it. */
  datatype Task = Task(jobId: string, text: string, voice: string, speed: real, imagePath: string)

  /** The metadata `submit_avatar_job` stores with the job. */
  function TaskMetadata(t: Task): map<string, MetaValue>
  {
    map["text" := Str(t.text), "voice" := Str(t.voice), "speed" := Num(t.speed), "image_path" := Str(t.imagePath)]
  }

  /** The part of the pool's state that dispatching reads and writes. */
  datatype Pool = Pool(active: int, queue: seq<Task>)

  /** The bound `active_workers >= max_workers` keeps: no negative counts, at most `max_workers` running. */
  predicate WithinCapacity(active: int, maxWorkers: int)
  {
    0 <= active && (active <= maxWorkers || active == 0)
  }

  /**
   * `_process_queue`: when a worker is free and the queue is not empty, pop
   * the head and start it; otherwise change nothing.
   */
  function Dispatch(p: Pool, maxWorkers: int): (r: (Pool, Option<Task>))
    ensures r.1.Some? <==> p.active < maxWorkers && |p.queue| > 0
    ensures r.1.Some? ==> r.1.value == p.queue[0] && r.0 == Pool(p.active + 1, p.queue[1..])
    ensures r.1.None? ==> r.0 == p
  {
    if p.active >= maxWorkers || |p.queue| == 0 then (p, None)
    else (Pool(p.active + 1, p.queue[1..]), Some(p.queue[0]))
  }

  /** A dispatch never takes the pool past `max_workers`. */
  lemma DispatchWithinCapacity(p: Pool, maxWorkers: int)
    requires WithinCapacity(p.active, maxWorkers)
    ensures WithinCapacity(Dispatch(p, maxWorkers).0.active, maxWorkers)
  {
  }

  /** What the pool sees: a submission, or one running worker finishing. */
  datatype Event = Submitted(t: Task) | Finished

  /**
   * The pool after one event, and the task that event caused to start. A
   * submission appends and dispatches; a finishing worker frees its slot and
   * dispatches. With no worker running there is nothing to finish.
   */
  function Step(p: Pool, e: Event, maxWorkers: int): (Pool, Option<Task>)
  {
    match e
    case Submitted(t) => Dispatch(Pool(p.active, p.queue + [t]), maxWorkers)
    case Finished => if p.active > 0 then Dispatch(Pool(p.active - 1, p.queue), maxWorkers) else (p, None)
  }

  function Started(o: Option<Task>): seq<Task>
  {
    if o.Some? then [o.value] else []
  }

  /** The pool after a series of events, with the tasks started along the way, in order. */
  function RunEvents(p: Pool, es: seq<Event>, maxWorkers: int): (Pool, seq<Task>)
    decreases |es|
  {
    if es == [] then (p, [])
    else
      var (q, s) := Step(p, es[0], maxWorkers);
      var (fin, rest) := RunEvents(q, es[1..], maxWorkers);
      (fin, Started(s) + rest)
  }

  function SubmittedTasks(es: seq<Event>): seq<Task>
  {
    if es == [] then []
    else (if es[0].Submitted? then [es[0].t] else []) + SubmittedTasks(es[1..])
  }

  /**
   * Tasks start in the order they were submitted: the started tasks followed
   * by those still queued are exactly the queue followed by the submissions.
   */
  lemma {:induction false} FifoOrder(p: Pool, es: seq<Event>, maxWorkers: int)
    ensures RunEvents(p, es, maxWorkers).1 + RunEvents(p, es, maxWorkers).0.queue
         == p.queue + SubmittedTasks(es)
    decreases |es|
  {
    if es != [] {
      var (q, s) := Step(p, es[0], maxWorkers);
      FifoOrder(q, es[1..], maxWorkers);
      StepFifo(p, es[0], maxWorkers);
      var (fin, rest) := RunEvents(q, es[1..], maxWorkers);
      var sub := if es[0].Submitted? then [es[0].t] else [];
      assert RunEvents(p, es, maxWorkers) == (fin, Started(s) + rest);
      assert SubmittedTasks(es) == sub + SubmittedTasks(es[1..]);
      Regroup(Started(s), rest, fin.queue, q.queue, p.queue, sub, SubmittedTasks(es[1..]));
    }
  }

  /** The concatenation step of `FifoOrder`, over plain sequences. */
  lemma Regroup(started: seq<Task>, rest: seq<Task>, left: seq<Task>, mid: seq<Task>, queue: seq<Task>, sub: seq<Task>, later: seq<Task>)
    requires rest + left == mid + later
    requires started + mid == queue + sub
    ensures started + rest + left == queue + (sub + later)
  {
    calc {
      started + rest + left;
      started + (rest + left);
      started + (mid + later);
      (started + mid) + later;
      (queue + sub) + later;
    }
  }

  /** One event: the task it starts, then the queue it leaves, are the old queue and what it submitted. */
  lemma StepFifo(p: Pool, e: Event, maxWorkers: int)
    ensures Started(Step(p, e, maxWorkers).1) + Step(p, e, maxWorkers).0.queue
         == p.queue + (if e.Submitted? then [e.t] else [])
  {
    var before := if e.Submitted? then p.queue + [e.t] else p.queue;
    var (q, s) := Step(p, e, maxWorkers);
    if s.Some? {
      assert before == [s.value] + q.queue;
    }
  }

  /** However events arrive, no more than `max_workers` workers ever run at once. */
  lemma {:induction false} CapacityKept(p: Pool, es: seq<Event>, maxWorkers: int)
    requires WithinCapacity(p.active, maxWorkers)
    ensures WithinCapacity(RunEvents(p, es, maxWorkers).0.active, maxWorkers)
    decreases |es|
  {
    if es != [] {
      var q := Step(p, es[0], maxWorkers).0;
      if es[0].Submitted? {
        DispatchWithinCapacity(Pool(p.active, p.queue + [es[0].t]), maxWorkers);
      } else if p.active > 0 {
        DispatchWithinCapacity(Pool(p.active - 1, p.queue), maxWorkers);
      }
      CapacityKept(q, es[1..], maxWorkers);
    }
  }

  /** What the external steps of one job did, in the order the worker reaches them. */
  datatype BodyOutcome = BodyOutcome(
    audio: Result<(), string>,     // speech synthesis, or the text of its exception
    save: Result<(), string>,      // writing the WAV file
    imageExists: bool,
    avatar: Result<string, string>, // the returned video path, or the text of the exception
    videoExists: bool)

  /** Whether every step of the job succeeds. */
  predicate Succeeds(t: Task, o: BodyOutcome)
  {
    t.text != [] && t.voice != [] && o.audio.Ok? && o.save.Ok? && o.imageExists &&
    o.avatar.Ok? && o.avatar.value != [] && o.videoExists
  }

  /** A progress report while processing. */
  function Progress(x: real, now: int): Update
  {
    Update(Processing, Some(x), None, None, now)
  }

  /** The worker's failure report: the exception text and traceback, cut to 1000 characters. */
  function Failure(message: string, traceback: string, now: int): Update
  {
    Update(Failed, None, Some(Text.Take(message + "\n\nTraceback:\n" + traceback, 1000)), None, now)
  }

  /** The exception text of the first step that fails. */
  function FailureMessage(t: Task, o: BodyOutcome): string
  {
    if t.text == [] || t.voice == [] then "Text and voice are required"
    else if o.audio.Err? then "Audio generation failed: " + o.audio.error
    else if o.save.Err? then "Failed to save audio file: " + o.save.error
    else if !o.imageExists then "Image file not found: " + t.imagePath
    else if o.avatar.Err? then "Avatar generation failed: " + o.avatar.error
    else "Generated video file not found"
  }

  /** The status updates one worker run writes for its job, in order. */
  function WorkerUpdates(t: Task, o: BodyOutcome, traceback: string, now: int): seq<Update>
  {
    var fail := Failure(FailureMessage(t, o), traceback, now);
    if t.text == [] || t.voice == [] then [Progress(0.1, now), fail]
    else if o.audio.Err? || o.save.Err? then [Progress(0.1, now), Progress(0.2, now), fail]
    else if !o.imageExists then [Progress(0.1, now), Progress(0.2, now), Progress(0.4, now), fail]
    else if !Succeeds(t, o) then
      [Progress(0.1, now), Progress(0.2, now), Progress(0.4, now), Progress(0.5, now), fail]
    else
      [Progress(0.1, now), Progress(0.2, now), Progress(0.4, now), Progress(0.5, now), Progress(0.9, now),
       Update(Completed, Some(1.0), None, Some(o.avatar.value), now)]
  }

  /**
   * One worker run's updates: progress only rises, stays within [0, 1], and
   * the run ends with one completed update (progress 1.0, the video path)
   * when every step succeeds, or one failed update whose message is at most
   * 1000 characters otherwise; nothing before the last update finishes the job.
   */
  lemma WorkerLadder(t: Task, o: BodyOutcome, traceback: string, now: int)
    ensures var us := WorkerUpdates(t, o, traceback, now);
      && |us| >= 2
      && (forall i :: 0 <= i < |us| - 1 ==> us[i].status == Processing)
      && (forall i, k :: 0 <= i < k < |us| && us[i].progress.Some? && us[k].progress.Some? ==>
            0.0 <= us[i].progress.value <= us[k].progress.value <= 1.0)
      && (Succeeds(t, o) <==> us[|us| - 1].status == Completed)
      && (Succeeds(t, o) ==> us[|us| - 1] == Update(Completed, Some(1.0), None, Some(o.avatar.value), now))
      && (!Succeeds(t, o) ==>
            us[|us| - 1].status == Failed && us[|us| - 1].errorMessage.Some? &&
            |us[|us| - 1].errorMessage.value| <= 1000)
  {
  }

  /** Only the last update of a series decides the row's status. */
  lemma ApplyAllLastStatus(j: Job, us: seq<Update>)
    requires us != []
    ensures ApplyAll(j, us).status == us[|us| - 1].status
  {
    assert us == us[..|us| - 1] + [us[|us| - 1]];
    ApplyAllSnoc(j, us[..|us| - 1], us[|us| - 1]);
  }

  /** A job whose worker ran to the end is completed exactly when every step succeeded, and failed otherwise. */
  lemma WorkerFinalStatus(j: Job, t: Task, o: BodyOutcome, traceback: string, now: int)
    ensures ApplyAll(j, WorkerUpdates(t, o, traceback, now)).status == (if Succeeds(t, o) then Completed else Failed)
  {
    WorkerLadder(t, o, traceback, now);
    ApplyAllLastStatus(j, WorkerUpdates(t, o, traceback, now));
  }

  /** A worker's effect on the table: its row goes through the updates; a missing row stays missing. */
  function WorkerEffect(jobs: map<string, Job>, id: string, us: seq<Update>): map<string, Job>
  {
    if id in jobs then jobs[id := ApplyAll(jobs[id], us)] else jobs
  }

  /** The cancellation `shutdown` writes for a queued job. */
  function Cancel(j: Job, now: int): Job
  {
    ApplyUpdate(j, Cancelled, None, Some("Service shutdown"), None, now)
  }

  /** The table after `shutdown` has cancelled `ids`, in order. */
  function CancelAll(jobs: map<string, Job>, ids: seq<string>, now: int): map<string, Job>
    decreases |ids|
  {
    if ids == [] then jobs
    else
      var before := CancelAll(jobs, ids[..|ids| - 1], now);
      var id := ids[|ids| - 1];
      if id in before then before[id := Cancel(before[id], now)] else before
  }

  /**
   * Shutdown leaves every row in place, cancels exactly the rows of queued
   * jobs (once, even if an id was queued twice), and touches no other row.
   */
  lemma {:induction false} CancelAllEffect(jobs: map<string, Job>, ids: seq<string>, now: int)
    ensures CancelAll(jobs, ids, now).Keys == jobs.Keys
    ensures forall id :: id in jobs ==>
      CancelAll(jobs, ids, now)[id] == (if id in ids then Cancel(jobs[id], now) else jobs[id])
    decreases |ids|
  {
    if ids != [] {
      var init := ids[..|ids| - 1];
      var last := ids[|ids| - 1];
      CancelAllEffect(jobs, init, now);
      forall id | id in jobs
        ensures CancelAll(jobs, ids, now)[id] == (if id in ids then Cancel(jobs[id], now) else jobs[id])
      {
        assert id in ids <==> id in init || id == last by {
          assert ids == init + [last];
        }
      }
    }
  }

  /** The job ids of the queued tasks, in queue order. */
  function JobIds(q: seq<Task>): (r: seq<string>)
    ensures |r| == |q| && forall i :: 0 <= i < |q| ==> r[i] == q[i].jobId
  {
    seq(|q|, i requires 0 <= i < |q| => q[i].jobId)
  }

  /** What `get_queue_status` reports. */
  datatype QueueStatus = QueueStatus(queueSize: nat, activeWorkers: int, maxWorkers: int, availableWorkers: int)

  class TaskManager {
    const tracker: Tracker
    const maxWorkers: int
    var activeWorkers: int
    var taskQueue: seq<Task>
    /** The tasks handed to a worker that has not finished yet. */
    ghost var running: multiset<Task>

    ghost predicate Valid()
      reads this
    {
      activeWorkers == |running| && WithinCapacity(activeWorkers, maxWorkers)
    }

    function State(): Pool
      reads this
    {
      Pool(activeWorkers, taskQueue)
    }

    constructor (tracker: Tracker, maxWorkers: int)
      ensures Valid()
      ensures this.tracker == tracker && this.maxWorkers == maxWorkers
      ensures activeWorkers == 0 && taskQueue == [] && running == multiset{}
    {
      this.tracker := tracker;
      this.maxWorkers := maxWorkers;
      activeWorkers := 0;
      taskQueue := [];
      running := multiset{};
    }

    /** `_process_queue`: starts at most one worker, on the task at the head of the queue. */
    method ProcessQueue() returns (started: Option<Task>)
      requires Valid()
      modifies this`activeWorkers, this`taskQueue, this`running
      ensures Valid()
      ensures (State(), started) == Dispatch(old(State()), maxWorkers)
      ensures running == old(running) + multiset(Started(started))
    {
      if activeWorkers >= maxWorkers {
        return None;
      }
      if |taskQueue| == 0 {
        return None;
      }
      var task := taskQueue[0];
      taskQueue := taskQueue[1..];
      activeWorkers := activeWorkers + 1;
      running := running + multiset{task};
      return Some(task);
    }

    /**
     * `submit_avatar_job`: records the job (a known id fails there, before
     * anything is queued), appends the task and dispatches. `newId` is the
     * fresh UUID used when no id is given.
     */
    method SubmitAvatarJob(text: string, voice: string, speed: real, imagePath: string,
                           jobId: Option<string>, newId: string, now: int)
      returns (r: Result<string, TrackerError>, started: Option<Task>)
      requires Valid()
      modifies this`activeWorkers, this`taskQueue, this`running, tracker
      ensures Valid()
      ensures var id := if jobId.Some? then jobId.value else newId;
        var task := Task(id, text, voice, speed, imagePath);
        && (r.Err? <==> id in old(tracker.jobs))
        && (r.Err? ==> tracker.jobs == old(tracker.jobs) && State() == old(State()) && started.None?)
        && (r.Ok? ==>
              && r.value == id
              && tracker.jobs == old(tracker.jobs)[id := NewJob(Some(TaskMetadata(task)), now)]
              && (State(), started) == Dispatch(Pool(old(activeWorkers), old(taskQueue) + [task]), maxWorkers))
      ensures running == old(running) + multiset(Started(started))
    {
      var id := if jobId.Some? then jobId.value else newId;
      var task := Task(id, text, voice, speed, imagePath);
      var created := tracker.CreateJob(id, Some(TaskMetadata(task)), now);
      if created.Err? {
        return Err(created.error), None;
      }
      taskQueue := taskQueue + [task];
      started := ProcessQueue();
      r := Ok(id);
    }

    /**
     * `_worker`, run to the end for one started task: the job's row goes
     * through the progress ladder to completed or failed, then the worker
     * frees its slot and dispatches the next task.
     */
    method RunWorker(task: Task, outcome: BodyOutcome, traceback: string, now: int)
      returns (started: Option<Task>)
      requires Valid() && task in running
      modifies this`activeWorkers, this`taskQueue, this`running, tracker
      ensures Valid()
      ensures tracker.jobs == WorkerEffect(old(tracker.jobs), task.jobId, WorkerUpdates(task, outcome, traceback, now))
      ensures (State(), started) == Dispatch(Pool(old(activeWorkers) - 1, old(taskQueue)), maxWorkers)
      ensures running == old(running) - multiset{task} + multiset(Started(started))
    {
      var us := WorkerUpdates(task, outcome, traceback, now);
      ApplyUpdates(task.jobId, us, now);
      FreeSlot(task);
      started := ProcessQueue();
    }

    /** The `finally` block's decrement: the finishing worker gives back its slot. */
    method FreeSlot(task: Task)
      requires Valid() && task in running
      modifies this`activeWorkers, this`running
      ensures Valid()
      ensures activeWorkers == old(activeWorkers) - 1 && running == old(running) - multiset{task}
    {
      activeWorkers := activeWorkers - 1;
      running := running - multiset{task};
    }

    /**
     * The worker's calls to `update_job_status`, in order. An update that
     * finds the row gone raises; the worker's handler then writes a failed
     * update, which matches no row either.
     */
    method ApplyUpdates(id: string, us: seq<Update>, now: int)
      modifies tracker
      ensures tracker.jobs == WorkerEffect(old(tracker.jobs), id, us)
    {
      ghost var jobs0 := tracker.jobs;
      var i := 0;
      while i < |us|
        invariant 0 <= i <= |us|
        invariant tracker.jobs == WorkerEffect(jobs0, id, us[..i])
      {
        var u := us[i];
        var res := tracker.UpdateJobStatus(id, u.status, u.progress, u.errorMessage, u.resultPath, u.at);
        if res.Err? {
          var _ := tracker.UpdateJobStatus(id, Failed, None, Some("'NoneType' object has no attribute 'get'"), None, now);
          assert id !in jobs0;
          return;
        }
        if id in jobs0 {
          ApplyAllSnoc(jobs0[id], us[..i], u);
          assert us[..i + 1] == us[..i] + [u];
        }
        i := i + 1;
      }
      assert us[..i] == us;
    }

    /** `get_queue_status`: with a non-negative cap, the free workers never go below zero. */
    function GetQueueStatus(): (s: QueueStatus)
      reads this
      requires Valid()
      ensures s.queueSize == |taskQueue| && s.activeWorkers == activeWorkers && s.maxWorkers == maxWorkers
      ensures s.activeWorkers + s.availableWorkers == s.maxWorkers
      ensures maxWorkers >= 0 ==> 0 <= s.availableWorkers <= maxWorkers
    {
      QueueStatus(|taskQueue|, activeWorkers, maxWorkers, maxWorkers - activeWorkers)
    }

    /**
     * `shutdown`'s cancel loop: every queued job is marked cancelled with
     * "Service shutdown", the queue is emptied, and the count is returned.
     * Running workers are left alone.
     */
    method Shutdown(now: int) returns (cancelled: nat)
      requires Valid()
      modifies this`taskQueue, tracker
      ensures Valid()
      ensures cancelled == |old(taskQueue)| && taskQueue == []
      ensures tracker.jobs == CancelAll(old(tracker.jobs), JobIds(old(taskQueue)), now)
    {
      cancelled := |taskQueue|;
      var ids := JobIds(taskQueue);
      ghost var jobs0 := tracker.jobs;
      var i := 0;
      while i < |ids|
        invariant 0 <= i <= |ids|
        invariant tracker.jobs == CancelAll(jobs0, ids[..i], now)
      {
        var _ := tracker.UpdateJobStatus(ids[i], Cancelled, None, Some("Service shutdown"), None, now);
        assert ids[..i + 1][..i] == ids[..i];
        i := i + 1;
      }
      assert ids[..i] == ids;
      taskQueue := [];
    }
  }
}
