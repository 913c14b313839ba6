/** The conversion-job table: one row per job, keyed by job id, created
    when a conversion is accepted, merged into by every pipeline step,
    swept when old, and counted for the stats endpoints. The table is a
    map; the clock is a parameter. */
module JobStore {
  import opened Wrappers

  /** The `metadata` document a pipeline stores: track or video details,
      or, for a playlist, its name and owner with the track count. */
  datatype JobMetadata = JobMetadata(
    title: string,
    artist: string,
    album: Option<string>,
    coverUrl: Option<string>,
    duration: Option<int>,
    playlistTracks: Option<nat>)

  /** The `playlistInfo` document: counters of a playlist download. */
  datatype PlaylistInfo = PlaylistInfo(
    name: string,
    totalTracks: nat,
    completedTracks: nat,
    failedTracks: nat,
    inProgress: Option<nat>,
    currentTracks: Option<string>,
    failedTrackNames: Option<seq<string>>)

  /** A row of the table, as `get` returns it. */
  datatype Job = Job(
    id: string,
    status: string,
    step: string,
    progress: int,
    urlType: Option<string>,
    sourceId: Option<string>,
    metadata: Option<JobMetadata>,
    playlistInfo: Option<PlaylistInfo>,
    downloadUrl: Option<string>,
    filename: Option<string>,
    fileSize: Option<int>,
    quality: Option<string>,
    error: Option<string>,
    createdAt: int,
    updatedAt: int,
    completedAt: Option<int>)

  /** The fields `create` is given; an absent or falsy field takes its default. */
  datatype NewJob = NewJob(
    id: string,
    status: Option<string>,
    step: Option<string>,
    progress: Option<int>,
    urlType: Option<string>,
    sourceId: Option<string>)

  /** A partial record for `update`: `None` is a field left undefined. */
  datatype Update = Update(
    status: Option<string>,
    step: Option<string>,
    progress: Option<int>,
    metadata: Option<JobMetadata>,
    playlistInfo: Option<PlaylistInfo>,
    downloadUrl: Option<string>,
    filename: Option<string>,
    fileSize: Option<int>,
    quality: Option<string>,
    error: Option<string>,
    completedAt: Option<int>)

  const NoChange := Update(None, None, None, None, None, None, None, None, None, None, None)

  const DuplicateId := "UNIQUE constraint failed: jobs.id"

  // ---------------------------------------------------------------- create

  /** `x || fallback` on a string. */
  function StringOr(v: Option<string>, fallback: string): string {
    if v.Some? && v.value != "" then v.value else fallback
  }

  /** `x || null` on a string. */
  function StringOrNull(v: Option<string>): Option<string> {
    if v.Some? && v.value != "" then v else None
  }

  /** The row `create` inserts. */
  function NewRecord(data: NewJob, now: int): Job {
    Job(data.id,
        StringOr(data.status, "pending"),
        StringOr(data.step, "Initializing..."),
        data.progress.GetOr(0),
        StringOrNull(data.urlType),
        StringOrNull(data.sourceId),
        None, None, None, None, None, None, None,
        now, now, None)
  }

  /** A new row is a fresh job: the given values or their defaults, no
      result fields, and both timestamps at the moment of creation. */
  lemma {:induction false} NewRecordDefaults(data: NewJob, now: int)
    ensures var j := NewRecord(data, now);
      && j.id == data.id
      && (data.status.None? || data.status.value == "" ==> j.status == "pending")
      && (data.step.None? || data.step.value == "" ==> j.step == "Initializing...")
      && (data.progress.None? ==> j.progress == 0)
      && j.createdAt == now && j.updatedAt == now
      && j.metadata.None? && j.playlistInfo.None? && j.downloadUrl.None? && j.completedAt.None?
  {
  }

  // ---------------------------------------------------------------- update

  /** The row after `update`: exactly the supplied fields replaced, and the
      update time set. */
  function Merge(job: Job, u: Update, now: int): Job {
    MergeResult(MergeDocuments(MergeProgress(job, u), u), u).(updatedAt := now)
  }

  /** The status, step and progress part of an update. */
  function MergeProgress(job: Job, u: Update): Job {
    job.(
      status := u.status.GetOr(job.status),
      step := u.step.GetOr(job.step),
      progress := u.progress.GetOr(job.progress))
  }

  /** The stored documents part of an update. */
  function MergeDocuments(job: Job, u: Update): Job {
    job.(
      metadata := if u.metadata.Some? then u.metadata else job.metadata,
      playlistInfo := if u.playlistInfo.Some? then u.playlistInfo else job.playlistInfo)
  }

  /** The result part of an update. */
  function MergeResult(job: Job, u: Update): Job {
    job.(
      downloadUrl := if u.downloadUrl.Some? then u.downloadUrl else job.downloadUrl,
      filename := if u.filename.Some? then u.filename else job.filename,
      fileSize := if u.fileSize.Some? then u.fileSize else job.fileSize,
      quality := if u.quality.Some? then u.quality else job.quality,
      error := if u.error.Some? then u.error else job.error,
      completedAt := if u.completedAt.Some? then u.completedAt else job.completedAt)
  }

  /** Two updates in a row: the later one's supplied fields win. */
  function Combine(first: Update, second: Update): Update {
    Update(
      if second.status.Some? then second.status else first.status,
      if second.step.Some? then second.step else first.step,
      if second.progress.Some? then second.progress else first.progress,
      if second.metadata.Some? then second.metadata else first.metadata,
      if second.playlistInfo.Some? then second.playlistInfo else first.playlistInfo,
      if second.downloadUrl.Some? then second.downloadUrl else first.downloadUrl,
      if second.filename.Some? then second.filename else first.filename,
      if second.fileSize.Some? then second.fileSize else first.fileSize,
      if second.quality.Some? then second.quality else first.quality,
      if second.error.Some? then second.error else first.error,
      if second.completedAt.Some? then second.completedAt else first.completedAt)
  }

  /** Applying two updates is applying their combination at the later time. */
  lemma {:induction false} MergeCombine(job: Job, u1: Update, t1: int, u2: Update, t2: int)
    ensures Merge(Merge(job, u1, t1), u2, t2) == Merge(job, Combine(u1, u2), t2)
  {
  }

  /** Repeating an update at the same time changes nothing more. */
  lemma {:induction false} MergeIdempotent(job: Job, u: Update, now: int)
    ensures Merge(Merge(job, u, now), u, now) == Merge(job, u, now)
  {
    MergeCombine(job, u, now, u, now);
    assert Combine(u, u) == u;
  }

  /** An update never changes the id or the creation time, and an empty
      update only touches the update time. */
  lemma {:induction false} MergeKeepsIdentity(job: Job, u: Update, now: int)
    ensures Merge(job, u, now).id == job.id
    ensures Merge(job, u, now).createdAt == job.createdAt
    ensures Merge(job, u, now).updatedAt == now
    ensures Merge(job, NoChange, now) == job.(updatedAt := now)
  {
  }

  /** Every supplied field is read back after the update, every field
      left out keeps its old value, and the id, source, creation time and
      update time are as `update` leaves them. */
  lemma {:induction false} MergeReadsBack(job: Job, u: Update, now: int)
    ensures var j := Merge(job, u, now);
      && (u.status.Some? ==> j.status == u.status.value) && (u.status.None? ==> j.status == job.status)
      && (u.step.Some? ==> j.step == u.step.value) && (u.step.None? ==> j.step == job.step)
      && (u.progress.Some? ==> j.progress == u.progress.value) && (u.progress.None? ==> j.progress == job.progress)
      && (u.metadata.Some? ==> j.metadata == u.metadata) && (u.metadata.None? ==> j.metadata == job.metadata)
      && (u.playlistInfo.Some? ==> j.playlistInfo == u.playlistInfo) && (u.playlistInfo.None? ==> j.playlistInfo == job.playlistInfo)
      && (u.downloadUrl.Some? ==> j.downloadUrl == u.downloadUrl) && (u.downloadUrl.None? ==> j.downloadUrl == job.downloadUrl)
      && (u.filename.Some? ==> j.filename == u.filename) && (u.filename.None? ==> j.filename == job.filename)
      && (u.fileSize.Some? ==> j.fileSize == u.fileSize) && (u.fileSize.None? ==> j.fileSize == job.fileSize)
      && (u.quality.Some? ==> j.quality == u.quality) && (u.quality.None? ==> j.quality == job.quality)
      && (u.error.Some? ==> j.error == u.error) && (u.error.None? ==> j.error == job.error)
      && (u.completedAt.Some? ==> j.completedAt == u.completedAt) && (u.completedAt.None? ==> j.completedAt == job.completedAt)
      && j.id == job.id && j.urlType == job.urlType && j.sourceId == job.sourceId
      && j.createdAt == job.createdAt && j.updatedAt == now
  {
  }

  /** `update` assigning the supplied fields one by one, then the update time. */
  method ApplyUpdate(job: Job, u: Update, now: int) returns (j: Job)
    ensures j == Merge(job, u, now)
  {
    j := ApplyProgress(job, u);
    j := ApplyDocuments(j, u);
    j := ApplyResult(j, u);
    j := j.(updatedAt := now);
  }

  method ApplyProgress(job: Job, u: Update) returns (j: Job)
    ensures j == MergeProgress(job, u)
  {
    j := job;
    if u.status.Some? { j := j.(status := u.status.value); }
    if u.step.Some? { j := j.(step := u.step.value); }
    if u.progress.Some? { j := j.(progress := u.progress.value); }
  }

  method ApplyDocuments(job: Job, u: Update) returns (j: Job)
    ensures j == MergeDocuments(job, u)
  {
    j := job;
    if u.metadata.Some? { j := j.(metadata := u.metadata); }
    if u.playlistInfo.Some? { j := j.(playlistInfo := u.playlistInfo); }
  }

  method ApplyResult(job: Job, u: Update) returns (j: Job)
    ensures j == MergeResult(job, u)
  {
    j := job;
    if u.downloadUrl.Some? { j := j.(downloadUrl := u.downloadUrl); }
    if u.filename.Some? { j := j.(filename := u.filename); }
    if u.fileSize.Some? { j := j.(fileSize := u.fileSize); }
    if u.quality.Some? { j := j.(quality := u.quality); }
    if u.error.Some? { j := j.(error := u.error); }
    if u.completedAt.Some? { j := j.(completedAt := u.completedAt); }
  }

  // ---------------------------------------------------------------- sweeps and counts

  /** A job `cleanupOld` removes: created before the cutoff and finished. */
  predicate Stale(job: Job, cutoff: int) {
    job.createdAt < cutoff && (job.status == "completed" || job.status == "error")
  }

  function Cutoff(now: int, minutes: int): int { now - minutes * 60 * 1000 }

  function StaleIds(jobs: map<string, Job>, cutoff: int): set<string> {
    set id | id in jobs && Stale(jobs[id], cutoff)
  }

  /** Pending jobs are never swept, however old. */
  lemma {:induction false} SweepKeepsPending(jobs: map<string, Job>, cutoff: int, id: string)
    requires id in jobs && jobs[id].status == "pending"
    ensures id in jobs - StaleIds(jobs, cutoff)
  {
  }

  /** A sweep removes nothing a second time. */
  lemma {:induction false} SweepIdempotent(jobs: map<string, Job>, cutoff: int)
    ensures StaleIds(jobs - StaleIds(jobs, cutoff), cutoff) == {}
  {
    var rest := jobs - StaleIds(jobs, cutoff);
    forall id | id in rest
      ensures !Stale(rest[id], cutoff)
    {
      assert rest[id] == jobs[id];
    }
  }

  function IdsWithStatus(jobs: map<string, Job>, status: string): set<string> {
    set id | id in jobs && jobs[id].status == status
  }

  function CountStatus(jobs: map<string, Job>, status: string): nat {
    |IdsWithStatus(jobs, status)|
  }

  /** `getStats`: a `SUM` over no rows is `NULL`. */
  datatype Stats = Stats(total: nat, pending: Option<nat>, completed: Option<nat>, errors: Option<nat>)

  function StatsOf(jobs: map<string, Job>): Stats {
    if |jobs| == 0 then Stats(0, None, None, None)
    else Stats(|jobs|, Some(CountStatus(jobs, "pending")), Some(CountStatus(jobs, "completed")),
               Some(CountStatus(jobs, "error")))
  }

  /** The three status counts are disjoint parts of the total, and the
      pending count is what the active-count query returns. */
  lemma {:induction false} StatsPartition(jobs: map<string, Job>)
    requires |jobs| > 0
    ensures var s := StatsOf(jobs);
      && s.pending.Some? && s.completed.Some? && s.errors.Some?
      && s.pending.value + s.completed.value + s.errors.value <= s.total
      && s.pending.value == CountStatus(jobs, "pending")
  {
    var p, c, e := IdsWithStatus(jobs, "pending"), IdsWithStatus(jobs, "completed"), IdsWithStatus(jobs, "error");
    assert p !! c && (p + c) !! e;
    assert p + c + e <= jobs.Keys;
    assert |p + c| == |p| + |c|;
    assert |p + c + e| == |p + c| + |e|;
    SubsetCard(p + c + e, jobs.Keys);
  }

  lemma {:induction false} SubsetCard(a: set<string>, b: set<string>)
    requires a <= b
    ensures |a| <= |b|
  {
    assert b == a + (b - a);
  }

  /** Adding a fresh job with a given status raises that status's count by one
      and leaves the other counts alone. */
  lemma {:induction false} CountAfterInsert(jobs: map<string, Job>, j: Job, status: string)
    requires j.id !in jobs
    ensures CountStatus(jobs[j.id := j], status)
         == CountStatus(jobs, status) + if j.status == status then 1 else 0
  {
    var before := IdsWithStatus(jobs, status);
    var after := IdsWithStatus(jobs[j.id := j], status);
    if j.status == status {
      assert after == before + {j.id};
    } else {
      assert after == before;
    }
  }

  // ---------------------------------------------------------------- the store

  class Store {
    var jobs: map<string, Job>

    /** Every row is stored under its own id. */
    ghost predicate Valid()
      reads this
    {
      forall id :: id in jobs ==> jobs[id].id == id
    }

    constructor ()
      ensures jobs == map[] && Valid()
    {
      jobs := map[];
    }

    /** `create(jobData)`: inserts the new row and returns it; inserting an
        id that is already present fails and changes nothing. */
    method Create(data: NewJob, now: int) returns (r: Result<Job>)
      requires Valid()
      modifies this
      ensures Valid()
      ensures data.id in old(jobs) ==> r == Failure(DuplicateId) && jobs == old(jobs)
      ensures data.id !in old(jobs) ==>
        && r == Success(NewRecord(data, now))
        && jobs == old(jobs)[data.id := NewRecord(data, now)]
    {
      if data.id in jobs {
        return Failure(DuplicateId);
      }
      var job := NewRecord(data, now);
      jobs := jobs[data.id := job];
      r := Success(job);
    }

    /** `get(jobId)`: the row, or nothing for an unknown id. */
    method Get(id: string) returns (r: Option<Job>)
      ensures id in jobs <==> r.Some?
      ensures r.Some? ==> r.value == jobs[id]
      ensures Valid() && r.Some? ==> r.value.id == id
    {
      if id in jobs {
        r := Some(jobs[id]);
      } else {
        r := None;
      }
    }

    /** `update(jobId, updates)`: merges the supplied fields into the row and
        returns the stored result; an unknown id yields nothing and changes
        nothing. */
    method Update(id: string, u: Update, now: int) returns (r: Option<Job>)
      requires Valid()
      modifies this
      ensures Valid()
      ensures id !in old(jobs) ==> r.None? && jobs == old(jobs)
      ensures id in old(jobs) ==>
        && r == Some(Merge(old(jobs)[id], u, now))
        && jobs == old(jobs)[id := r.value]
    {
      if id !in jobs {
        return None;
      }
      var job := ApplyUpdate(jobs[id], u, now);
      MergeKeepsIdentity(jobs[id], u, now);
      jobs := jobs[id := job];
      r := Some(job);
    }

    /** `delete(jobId)`: removes that row only. */
    method Delete(id: string)
      requires Valid()
      modifies this
      ensures Valid()
      ensures jobs == old(jobs) - {id}
    {
      jobs := jobs - {id};
    }

    /** `cleanupOld(olderThanMinutes)`: removes the finished jobs created
        before the cutoff and returns how many were removed. */
    method CleanupOld(now: int, minutes: int) returns (changes: nat)
      requires Valid()
      modifies this
      ensures Valid()
      ensures jobs == old(jobs) - StaleIds(old(jobs), Cutoff(now, minutes))
      ensures changes == |StaleIds(old(jobs), Cutoff(now, minutes))|
    {
      var stale := StaleIds(jobs, Cutoff(now, minutes));
      changes := |stale|;
      jobs := jobs - stale;
    }

    /** `getStats()`. */
    method GetStats() returns (s: Stats)
      ensures s == StatsOf(jobs)
    {
      s := StatsOf(jobs);
    }

    /** `getActiveCount()`: the number of pending jobs. */
    method GetActiveCount() returns (n: nat)
      ensures n == CountStatus(jobs, "pending")
    {
      n := CountStatus(jobs, "pending");
    }
  }
}
