/**
 * The periodic reclaimer: a `running` flag switched by `start` and `stop`,
 * and a loop that sweeps old jobs, idle rate-limiter buckets and old
 * temporary files, then sleeps for the interval one second at a time.
 *
 * The file system is two maps from file name to entry: the temporary
 * directory (which may be missing or unreadable) and the working directory,
 * where the `temp_*` patterns are matched. The clock is the `now` parameter.
 */
module CleanupScheduler {
  import opened Wrappers
  import Text
  import JobTracker
  import RateLimiter

  /** A directory entry; `removable` is false when deleting it raises (in use, no permission). */
  datatype Entry = RegularFile(mtime: real, removable: bool) | Directory

  /** The temporary directory as the sweep finds it. */
  datatype TempDir = Missing | Inaccessible | Listed(entries: map<string, Entry>)

  /** One of the three steps of a sweep, in the order they run. */
  datatype Step = JobCleanup | BucketCleanup | TempCleanup

  const MaxFileAge: real := 3600.0
  const JobRetentionDays: int := 7
  const BucketMaxAge: real := 3600.0

  /**
   * A name matched by one of the working-directory patterns: `temp_*.wav`,
   * `temp_*.mp4`, `temp_*.jpg`, `temp_*.jpeg`, `temp_*.png`, `temp_*.webp`
   * (`temp_audio_*.wav` is a special case of `temp_*.wav`). The prefix ends
   * in `_` and every suffix starts with `.`, so they cannot overlap.
   */
  predicate TempGlob(name: string)
  {
    Text.StartsWith(name, "temp_") &&
    (Text.EndsWith(name, ".wav") || Text.EndsWith(name, ".mp4") || Text.EndsWith(name, ".jpg") ||
     Text.EndsWith(name, ".jpeg") || Text.EndsWith(name, ".png") || Text.EndsWith(name, ".webp"))
  }

  /** A regular file, older than an hour, that can be deleted. */
  predicate Reclaimable(e: Entry, now: real)
  {
    e.RegularFile? && now - e.mtime > MaxFileAge && e.removable
  }

  /** Whether a sweep deletes the entry `n`: a reclaimable file, whose name matches the patterns when `globbed`. */
  predicate Deletes(entries: map<string, Entry>, now: real, globbed: bool, n: string)
    requires n in entries
  {
    (globbed ==> TempGlob(n)) && Reclaimable(entries[n], now)
  }

  /** The names a sweep deletes from `entries`. */
  function Doomed(entries: map<string, Entry>, now: real, globbed: bool): set<string>
  {
    set n | n in entries && Deletes(entries, now, globbed, n)
  }

  /** `entries` without the names in `gone`. */
  function Remove(entries: map<string, Entry>, gone: set<string>): (r: map<string, Entry>)
    ensures r.Keys == entries.Keys - gone
    ensures forall n :: n in r ==> r[n] == entries[n]
  {
    map n | n in entries && n !in gone :: entries[n]
  }

  /**
   * After a sweep of `entries`, directories, young files and files that
   * cannot be removed are all still there, unchanged; nothing else is.
   */
  lemma SweepKeepsExactly(entries: map<string, Entry>, now: real, n: string)
    requires n in entries
    ensures n in Remove(entries, Doomed(entries, now, false)) <==>
      (entries[n].Directory? || now - entries[n].mtime <= MaxFileAge || !entries[n].removable)
  {
  }

  /** Only pattern-matching names are deleted from the working directory. */
  lemma RootSweepOnlyPatterns(entries: map<string, Entry>, now: real, n: string)
    requires n in entries && !TempGlob(n)
    ensures n in Remove(entries, Doomed(entries, now, true))
  {
  }

  /** The steps a sweep means to run: buckets only when a rate limiter is configured. */
  function Planned(hasLimiter: bool): seq<Step>
  {
    [JobCleanup] + (if hasLimiter then [BucketCleanup] else []) + [TempCleanup]
  }

  /**
   * The steps that complete when `fault` (if any) raises: everything before
   * it. The steps share one `try`, so the faulting step and every step after
   * it are skipped for this sweep.
   */
  function Performed(plan: seq<Step>, fault: Option<Step>): (r: seq<Step>)
    ensures r <= plan
    ensures fault.None? ==> r == plan
    ensures fault.Some? ==> fault.value !in r
    ensures fault.Some? && fault.value in plan ==> |r| < |plan| && plan[|r|] == fault.value
  {
    if plan == [] then []
    else if fault == Some(plan[0]) then []
    else [plan[0]] + Performed(plan[1..], fault)
  }

  /**
   * The outcome of a sweep for each fault: a fault in the job step skips
   * everything; one in the bucket step (with a limiter) leaves only the job
   * sweep done; one in the temp step leaves the earlier steps done.
   */
  lemma StepsForFault(hasLimiter: bool, fault: Option<Step>)
    ensures Performed(Planned(hasLimiter), fault) ==
      if fault == Some(JobCleanup) then []
      else if hasLimiter && fault == Some(BucketCleanup) then [JobCleanup]
      else if fault == Some(TempCleanup) then [JobCleanup] + (if hasLimiter then [BucketCleanup] else [])
      else Planned(hasLimiter)
  {
    var last := [TempCleanup];
    assert Performed(last, fault) == if fault == Some(TempCleanup) then [] else [TempCleanup] by {
      assert last[1..] == [];
    }
    var tail := if hasLimiter then [BucketCleanup, TempCleanup] else last;
    if hasLimiter {
      assert tail[1..] == last;
      assert Performed(tail, fault) == if fault == Some(BucketCleanup) then [] else [BucketCleanup] + Performed(last, fault);
    }
    assert Planned(hasLimiter)[1..] == tail;
  }

  lemma RemoveOneMore(entries: map<string, Entry>, gone: set<string>, n: string)
    ensures Remove(entries, gone + {n}) == Remove(entries, gone) - {n}
  {
  }

  /** Visiting `n` adds it to the visited part of `doomed` exactly when it is doomed. */
  lemma VisitOne(doomed: set<string>, todo: set<string>, n: string)
    requires n in todo
    ensures n in doomed ==> doomed - (todo - {n}) == (doomed - todo) + {n}
    ensures n in doomed ==> |doomed - (todo - {n})| == |doomed - todo| + 1
    ensures n !in doomed ==> doomed - (todo - {n}) == doomed - todo
  {
    if n in doomed {
      assert doomed - (todo - {n}) == (doomed - todo) + {n};
    }
  }

  /**
   * Deletes the reclaimable entries of one listing, one name at a time,
   * skipping the names whose deletion would fail; `removed` counts the
   * deletions.
   */
  method SweepEntries(entries: map<string, Entry>, now: real, globbed: bool)
    returns (remaining: map<string, Entry>, removed: nat)
    ensures remaining == Remove(entries, Doomed(entries, now, globbed))
    ensures removed == |Doomed(entries, now, globbed)|
  {
    ghost var doomed := Doomed(entries, now, globbed);
    var todo := entries.Keys;
    remaining := entries;
    assert Remove(entries, {}) == entries;
    removed := 0;
    while todo != {}
      invariant todo <= entries.Keys
      invariant remaining == Remove(entries, doomed - todo)
      invariant removed == |doomed - todo|
      decreases |todo|
    {
      var n :| n in todo;
      VisitOne(doomed, todo, n);
      if Deletes(entries, now, globbed, n) {
        RemoveOneMore(entries, doomed - todo, n);
        remaining := remaining - {n};
        removed := removed + 1;
      }
      todo := todo - {n};
    }
    assert doomed - todo == doomed;
  }

  /** How long the sleep loop of a round lasts: the whole interval, unless `stop` runs after `stopAt` seconds of it. */
  function SleepLength(interval: int, wasRunning: bool, stopAt: Option<nat>): (slept: nat)
    ensures slept <= (if interval < 0 then 0 else interval)
    ensures !wasRunning ==> slept == 0
    ensures stopAt.Some? ==> slept <= stopAt.value
    ensures wasRunning && stopAt.None? ==> slept == (if interval < 0 then 0 else interval)
  {
    if !wasRunning then 0
    else if stopAt.Some? && stopAt.value < interval then stopAt.value
    else if interval < 0 then 0
    else interval
  }

  class Scheduler {
    const tracker: JobTracker.Tracker
    const limiter: RateLimiter.Limiter?
    const cleanupInterval: int
    var running: bool
    /** Whether a loop thread has been created; `loops` counts them. */
    var hasThread: bool
    var loops: nat
    var temp: TempDir
    var root: map<string, Entry>

    constructor (tracker: JobTracker.Tracker, limiter: RateLimiter.Limiter?, cleanupInterval: int,
                 temp: TempDir, root: map<string, Entry>)
      ensures this.tracker == tracker && this.limiter == limiter && this.cleanupInterval == cleanupInterval
      ensures !running && !hasThread && loops == 0
      ensures this.temp == temp && this.root == root
    {
      this.tracker := tracker;
      this.limiter := limiter;
      this.cleanupInterval := cleanupInterval;
      running := false;
      hasThread := false;
      loops := 0;
      this.temp := temp;
      this.root := root;
    }

    /** `start`: a no-op when already running; otherwise sets the flag and starts exactly one loop. */
    method Start()
      modifies this`running, this`hasThread, this`loops
      ensures old(running) ==> running && hasThread == old(hasThread) && loops == old(loops)
      ensures !old(running) ==> running && hasThread && loops == old(loops) + 1
    {
      if running {
        return;
      }
      running := true;
      hasThread := true;
      loops := loops + 1;
    }

    /** `stop`: clears the flag; the thread (if any) is joined, which changes no state here. */
    method Stop()
      modifies this`running
      ensures !running
    {
      running := false;
    }

    /**
     * `_cleanup_temp_files`: nothing happens when the temporary directory is
     * missing; otherwise its reclaimable files are deleted (an unreadable
     * directory is skipped), then the reclaimable `temp_*` files of the
     * working directory. Returns how many files were deleted.
     */
    method CleanupTempFiles(now: real) returns (cleaned: nat)
      modifies this`temp, this`root
      ensures old(temp).Missing? ==> temp == old(temp) && root == old(root) && cleaned == 0
      ensures old(temp).Inaccessible? ==> temp == old(temp)
      ensures old(temp).Listed? ==> temp == Listed(Remove(old(temp).entries, Doomed(old(temp).entries, now, false)))
      ensures !old(temp).Missing? ==> root == Remove(old(root), Doomed(old(root), now, true))
      ensures !old(temp).Missing? ==>
        cleaned == (if old(temp).Listed? then |Doomed(old(temp).entries, now, false)| else 0)
                   + |Doomed(old(root), now, true)|
    {
      if temp.Missing? {
        return 0;
      }
      cleaned := 0;
      if temp.Listed? {
        var remaining, removed := SweepEntries(temp.entries, now, false);
        temp := Listed(remaining);
        cleaned := removed;
      }
      var remaining, removed := SweepEntries(root, now, true);
      root := remaining;
      cleaned := cleaned + removed;
    }

    /**
     * One sweep at time `now`, with `fault` the step that raises (if any).
     * Jobs older than seven days go, then (with a limiter) buckets idle for
     * an hour, then old temporary files; a raising step is taken to raise
     * before it changes anything, and skips the steps after it.
     */
    method Sweep(now: int, fault: Option<Step>) returns (done: seq<Step>)
      modifies tracker, limiter, this`temp, this`root
      ensures done == Performed(Planned(limiter != null), fault)
      ensures running == old(running)
      ensures tracker.jobs ==
        if JobCleanup in done then JobTracker.Kept(old(tracker.jobs), JobTracker.Cutoff(now, JobRetentionDays))
        else old(tracker.jobs)
      ensures limiter != null ==>
        limiter.buckets ==
          if BucketCleanup in done then old(limiter.buckets) - RateLimiter.Stale(old(limiter.buckets), now as real, BucketMaxAge)
          else old(limiter.buckets)
      ensures TempCleanup !in done ==> temp == old(temp) && root == old(root)
      ensures TempCleanup in done && !old(temp).Missing? ==>
        root == Remove(old(root), Doomed(old(root), now as real, true))
      ensures TempCleanup in done && old(temp).Missing? ==> temp == old(temp) && root == old(root)
      ensures TempCleanup in done && old(temp).Inaccessible? ==> temp == old(temp)
      ensures TempCleanup in done && old(temp).Listed? ==>
        temp == Listed(Remove(old(temp).entries, Doomed(old(temp).entries, now as real, false)))
    {
      StepsForFault(limiter != null, fault);
      done := [];
      if fault == Some(JobCleanup) {
        return;
      }
      var _ := tracker.CleanupOldJobs(JobRetentionDays, now);
      done := [JobCleanup];
      if limiter != null {
        if fault == Some(BucketCleanup) {
          return;
        }
        limiter.CleanupOldBuckets(BucketMaxAge, now as real);
        done := done + [BucketCleanup];
      }
      if fault == Some(TempCleanup) {
        return;
      }
      var _ := CleanupTempFiles(now as real);
      done := done + [TempCleanup];
    }

    /**
     * The sleep at the end of a loop round: one-second sleeps, each after a
     * check of the flag. `stopAt`, when given, is the number of seconds slept
     * before `stop` clears the flag from the other thread; the loop leaves
     * at the next check.
     */
    method Sleep(stopAt: Option<nat>) returns (slept: nat)
      modifies this`running
      ensures slept == SleepLength(cleanupInterval, old(running), stopAt)
      ensures running == (old(running) && !(stopAt.Some? && stopAt.value < cleanupInterval))
    {
      slept := 0;
      var i := 0;
      while i < cleanupInterval
        invariant 0 <= i <= (if cleanupInterval < 0 then 0 else cleanupInterval)
        invariant slept == i
        invariant running == (old(running) && !(stopAt.Some? && stopAt.value < i))
        invariant !old(running) ==> i == 0
        invariant stopAt.Some? ==> i <= stopAt.value
        decreases cleanupInterval - i
      {
        if stopAt == Some(i) {
          running := false;
        }
        if !running {
          break;
        }
        slept := slept + 1;
        i := i + 1;
      }
    }

    /**
     * One round of `_run`: when the flag is still set, a sweep and then the
     * sleep. A fault in the sweep does not clear the flag, so the next round
     * still runs unless `stop` was called.
     */
    method Round(now: int, fault: Option<Step>, stopAt: Option<nat>) returns (done: seq<Step>, slept: nat)
      modifies tracker, limiter, this`temp, this`root, this`running
      ensures !old(running) ==> done == [] && slept == 0 && !running
      ensures old(running) ==> done == Performed(Planned(limiter != null), fault)
      ensures old(running) ==> slept == SleepLength(cleanupInterval, true, stopAt)
      ensures running == (old(running) && !(stopAt.Some? && stopAt.value < cleanupInterval))
    {
      if !running {
        return [], 0;
      }
      done := Sweep(now, fault);
      slept := Sleep(stopAt);
    }
  }
}
