/** The background conversions of one Spotify track and of one YouTube
    video. Each is a fixed sequence of job updates around the metadata
    lookup, the source search and the acquisition, ending in a completed
    row or, when any step throws, an error row with progress 0. What the
    outside world answers is a parameter; the job table and the temporary
    directory are the objects the pipelines change. */
module Pipelines {
  import opened Wrappers
  import opened JobStore
  import SpotifyService
  import YouTubeService
  import ArtistInference
  import ConversionService
  import Filenames
  import FileManager

  /** The environment `getDownloadUrl` reads. */
  datatype Env = Env(backendUrl: Option<string>, port: Option<string>)

  // ---------------------------------------------------------------- the updates a pipeline posts

  const ConversionFailed := "An unexpected error occurred during conversion"
  const NoSourceMessage := "Could not find a matching audio source for this track"

  /** `{ step, progress }`. */
  function StepUpdate(step: string, progress: int): Update {
    NoChange.(step := Some(step), progress := Some(progress))
  }

  /** `{ step: "Metadata retrieved", progress, metadata }`. */
  function Retrieved(doc: JobMetadata, progress: int): Update {
    StepUpdate("Metadata retrieved", progress).(metadata := Some(doc))
  }

  /** `{ metadata }` alone. */
  function DocUpdate(doc: JobMetadata): Update {
    NoChange.(metadata := Some(doc))
  }

  /** The catch block's update: `error.message || fallback`. */
  function ErrorUpdate(message: string, fallback: string): Update {
    NoChange.(
      status := Some("error"),
      step := Some("Conversion failed"),
      progress := Some(0),
      error := Some(if message != "" then message else fallback))
  }

  /** `Math.floor(p * 0.35)`; exact for every value `downloadAndConvert`
      reports (10, 90 and 100). */
  function EncodedShare(p: int): int { (35 * p) / 100 }

  /** The update the `onProgress` callback posts for `p`. */
  function EncodingUpdate(p: int): Update {
    StepUpdate(if p < 90 then "Encoding MP3..." else "Finalizing...", 60 + EncodedShare(p))
  }

  function EncodingUpdates(ps: seq<int>): seq<Update> {
    if ps == [] then [] else EncodingUpdates(ps[..|ps| - 1]) + [EncodingUpdate(ps[|ps| - 1])]
  }

  /** The success update. */
  function CompletedUpdate(downloadUrl: string, filename: string, fileSize: int, now: int): Update {
    NoChange.(
      status := Some("completed"),
      step := Some("Ready for download!"),
      progress := Some(100),
      downloadUrl := Some(downloadUrl),
      filename := Some(filename),
      fileSize := Some(fileSize),
      quality := Some("320kbps"),
      completedAt := Some(now))
  }

  /** The failure update reports status error, progress 0 and a non-empty
      message: the thrown one, or the fallback when it is empty. */
  lemma {:induction false} ErrorUpdateShape(message: string)
    ensures var u := ErrorUpdate(message, ConversionFailed);
      && u.status == Some("error") && u.progress == Some(0) && u.error.Some? && u.error.value != ""
      && (message != "" ==> u.error == Some(message))
      && (message == "" ==> u.error == Some(ConversionFailed))
      && u.downloadUrl.None? && u.filename.None? && u.completedAt.None?
  {
  }

  // ---------------------------------------------------------------- replaying updates on the table

  /** `jobStore.update(id, u)` on the table. */
  function Apply(jobs: map<string, Job>, id: string, u: Update, now: int): map<string, Job> {
    if id in jobs then jobs[id := Merge(jobs[id], u, now)] else jobs
  }

  /** The table after posting `us` in order, all at time `now`. */
  function Replay(jobs: map<string, Job>, id: string, us: seq<Update>, now: int): map<string, Job>
    decreases |us|
  {
    if us == [] then jobs else Apply(Replay(jobs, id, us[..|us| - 1], now), id, us[|us| - 1], now)
  }

  function Last<T>(s: seq<T>): T
    requires s != []
  {
    s[|s| - 1]
  }

  /** Posting updates for one job leaves every other row as it was, and
      keeps that job's row if it had one. */
  lemma {:induction false} ReplayOthers(jobs: map<string, Job>, id: string, us: seq<Update>, now: int)
    ensures var r := Replay(jobs, id, us, now);
      && (id in r <==> id in jobs)
      && (forall k :: k != id ==> (k in r <==> k in jobs))
      && (forall k :: k != id && k in jobs ==> r[k] == jobs[k])
    decreases |us|
  {
    if us != [] {
      ReplayOthers(jobs, id, us[..|us| - 1], now);
    }
  }

  /** After a run of updates, the job reads back what the last one supplied. */
  lemma {:induction false} ReplayReadsLast(jobs: map<string, Job>, id: string, us: seq<Update>, now: int)
    requires id in jobs && us != []
    ensures var r := Replay(jobs, id, us, now);
      && id in r
      && r[id].id == jobs[id].id && r[id].createdAt == jobs[id].createdAt && r[id].updatedAt == now
      && (Last(us).status.Some? ==> r[id].status == Last(us).status.value)
      && (Last(us).step.Some? ==> r[id].step == Last(us).step.value)
      && (Last(us).progress.Some? ==> r[id].progress == Last(us).progress.value)
      && (Last(us).error.Some? ==> r[id].error == Last(us).error)
      && (Last(us).completedAt.Some? ==> r[id].completedAt == Last(us).completedAt)
  {
    var front := Replay(jobs, id, us[..|us| - 1], now);
    ReplayIdentity(jobs, id, us[..|us| - 1], now);
    MergeReadsBack(front[id], Last(us), now);
    MergeKeepsIdentity(front[id], Last(us), now);
  }

  /** The row keeps its id and creation time through any run of updates. */
  lemma {:induction false} ReplayIdentity(jobs: map<string, Job>, id: string, us: seq<Update>, now: int)
    requires id in jobs
    ensures var r := Replay(jobs, id, us, now);
      id in r && r[id].id == jobs[id].id && r[id].createdAt == jobs[id].createdAt
    decreases |us|
  {
    if us != [] {
      var front := us[..|us| - 1];
      ReplayIdentity(jobs, id, front, now);
      MergeKeepsIdentity(Replay(jobs, id, front, now)[id], Last(us), now);
    }
  }

  /** The progress values a run of updates writes, in order. */
  function ProgressOf(us: seq<Update>): seq<int> {
    if us == [] then []
    else ProgressOf(us[..|us| - 1]) + (if Last(us).progress.Some? then [Last(us).progress.value] else [])
  }

  lemma {:induction false} ProgressOfAppend(a: seq<Update>, b: seq<Update>)
    ensures ProgressOf(a + b) == ProgressOf(a) + ProgressOf(b)
    decreases |b|
  {
    if b != [] {
      var front := b[..|b| - 1];
      var tail := if Last(b).progress.Some? then [Last(b).progress.value] else [];
      assert (a + b)[..|a + b| - 1] == a + front;
      assert Last(a + b) == Last(b);
      ProgressOfAppend(a, front);
      calc {
        ProgressOf(a + b);
        ProgressOf(a + front) + tail;
        ProgressOf(a) + ProgressOf(front) + tail;
        ProgressOf(a) + (ProgressOf(front) + tail);
        ProgressOf(a) + ProgressOf(b);
      }
    } else {
      assert a + b == a;
    }
  }

  /** One more update adds its progress value, if it has one. */
  lemma {:induction false} ProgressOfSnoc(us: seq<Update>, u: Update)
    ensures ProgressOf(us + [u]) == ProgressOf(us) + (if u.progress.Some? then [u.progress.value] else [])
  {
    assert (us + [u])[..|us|] == us;
  }

  /** The values `downloadAndConvert` reports, and what the callback
      writes for them. */
  const Reported: seq<int> := [10, 90, 100]
  const Posted: seq<int> := [63, 91, 95]

  /** The values the callback writes for the reports 10, 90, 100 or a
      non-empty prefix of them: 63, 91, 95 or the matching prefix. */
  lemma {:induction false} EncodingProgress(ps: seq<int>)
    requires 1 <= |ps| && ps <= Reported
    ensures ProgressOf(EncodingUpdates(ps)) == Posted[..|ps|]
  {
    assert ps == Reported[..|ps|];
    EncodingPrefix(|ps|);
  }

  lemma {:induction false} EncodingPrefix(k: nat)
    requires k <= 3
    ensures ProgressOf(EncodingUpdates(Reported[..k])) == Posted[..k]
  {
    if k > 0 {
      var front := Reported[..k - 1];
      EncodingPrefix(k - 1);
      EncodingSnoc(front, Reported[k - 1]);
      PrefixSnoc(Reported, k);
      PostedSnoc(k);
    } else {
      assert Reported[..0] == [];
    }
  }

  lemma {:induction false} PrefixSnoc(s: seq<int>, k: nat)
    requires 0 < k <= |s|
    ensures s[..k] == s[..k - 1] + [s[k - 1]]
  {
  }

  /** Each posted value is what the callback writes for the report. */
  lemma {:induction false} PostedSnoc(k: nat)
    requires 0 < k <= 3
    ensures Posted[..k] == Posted[..k - 1] + [60 + EncodedShare(Reported[k - 1])]
  {
    PrefixSnoc(Posted, k);
  }

  /** One more report adds the value the callback writes for it. */
  lemma {:induction false} EncodingSnoc(ps: seq<int>, p: int)
    ensures ProgressOf(EncodingUpdates(ps + [p])) == ProgressOf(EncodingUpdates(ps)) + [60 + EncodedShare(p)]
  {
    assert (ps + [p])[..|ps|] == ps;
    ProgressOfSnoc(EncodingUpdates(ps), EncodingUpdate(p));
  }

  /** `ps` only rises. */
  predicate Climbs(ps: seq<int>) {
    forall i, j :: 0 <= i < j < |ps| ==> ps[i] <= ps[j]
  }

  // ---------------------------------------------------------------- posting

  /** One `updateJob(u)` call. */
  method Post(store: Store, id: string, u: Update, now: int,
              ghost start: map<string, Job>, ghost done: seq<Update>)
    requires store.Valid() && store.jobs == Replay(start, id, done, now)
    modifies store
    ensures store.Valid() && store.jobs == Replay(start, id, done + [u], now)
  {
    var stored := store.Update(id, u, now);
    assert (done + [u])[..|done|] == done;
  }

  /** The `onProgress` callback, once per reported value, in order. */
  method PostEncoding(store: Store, id: string, ps: seq<int>, now: int,
                      ghost start: map<string, Job>, ghost done: seq<Update>)
    requires store.Valid() && store.jobs == Replay(start, id, done, now)
    modifies store
    ensures store.Valid() && store.jobs == Replay(start, id, done + EncodingUpdates(ps), now)
  {
    assert done + EncodingUpdates(ps[..0]) == done by { assert ps[..0] == []; }
    for i := 0 to |ps|
      invariant store.Valid() && store.jobs == Replay(start, id, done + EncodingUpdates(ps[..i]), now)
    {
      ghost var before := done + EncodingUpdates(ps[..i]);
      Post(store, id, EncodingUpdate(ps[i]), now, start, before);
      EncodingStep(done, ps, i);
    }
    assert ps[..|ps|] == ps;
  }

  lemma {:induction false} EncodingStep(done: seq<Update>, ps: seq<int>, i: nat)
    requires i < |ps|
    ensures done + EncodingUpdates(ps[..i + 1]) == done + EncodingUpdates(ps[..i]) + [EncodingUpdate(ps[i])]
  {
    assert ps[..i + 1][..i] == ps[..i];
  }

  // ---------------------------------------------------------------- the runs as values

  /** The updates a pipeline posts and the temporary directory afterwards. */
  datatype Run = Run(updates: seq<Update>, files: set<string>)

  /** The run ended with the success update. */
  predicate Completes(r: Run) {
    r.updates != [] && Last(r.updates).status == Some("completed")
  }

  /** The updates after "Converting to MP3...": the callback's, then the
      success update or the error update. */
  function Finish(start: seq<Update>, a: ConversionService.Acquisition, filename: string, env: Env, now: int): Run {
    var encoded := start + EncodingUpdates(a.progress);
    match a.outcome
    case Failure(e) => Run(encoded + [ErrorUpdate(e, ConversionFailed)], a.files)
    case Success(f) =>
      var url := FileManager.GetDownloadUrl(env.backendUrl, env.port, f.filename);
      Run(encoded + [CompletedUpdate(url, filename, f.fileSize, now)], a.files)
  }

  /** The end of a pipeline: the run completes exactly when the
      acquisition succeeds, offering the job's MP3, and otherwise ends with
      the acquisition's error; the directory is the one it leaves. */
  lemma {:induction false} FinishOutcome(
    start: seq<Update>, files: set<string>, jobId: string, meta: ConversionService.TagSource,
    dl: ConversionService.Downloader, filename: string, env: Env, now: int)
    ensures var a := ConversionService.Acquire(files, jobId, meta, dl);
      var r := Finish(start, a, filename, env, now);
      && r.updates != [] && r.files == a.files
      && (Completes(r) <==> a.outcome.Success?)
      && (a.outcome.Success? ==>
            Last(r.updates) == CompletedUpdate(
              FileManager.GetDownloadUrl(env.backendUrl, env.port, ConversionService.OutputName(jobId)),
              filename, dl.size, now))
      && (a.outcome.Failure? ==> Last(r.updates) == ErrorUpdate(a.outcome.message, ConversionFailed))
  {
    ConversionService.AcquireSuccess(files, jobId, meta, dl);
  }

  /** `ps` is `full` when the run completed, and otherwise a proper prefix
      of `full` followed by 0. */
  predicate EndsLike(ps: seq<int>, full: seq<int>, completed: bool) {
    && ps != []
    && (completed ==> ps == full)
    && (!completed ==> ps[..|ps| - 1] < full && ps[|ps| - 1] == 0)
  }

  /** The progress of a whole run, given the progress `p` of the updates
      before the acquisition: `p` then 63, 91, 95, 100 on success, and a
      proper prefix of that followed by 0 on failure. */
  lemma {:induction false} FinishProgress(
    start: seq<Update>, p: seq<int>, full: seq<int>, files: set<string>, jobId: string,
    meta: ConversionService.TagSource, dl: ConversionService.Downloader, filename: string, env: Env, now: int)
    requires ProgressOf(start) == p && full == p + [63, 91, 95, 100]
    ensures var r := Finish(start, ConversionService.Acquire(files, jobId, meta, dl), filename, env, now);
      EndsLike(ProgressOf(r.updates), full, Completes(r))
  {
    var a := ConversionService.Acquire(files, jobId, meta, dl);
    ConversionService.AcquireProgress(files, jobId, meta, dl);
    var k := |a.progress|;
    EncodingProgress(a.progress);
    FinishUpdates(start, a, filename, env, now);
    var r := Finish(start, a, filename, env, now);
    var ps := ProgressOf(r.updates);
    if a.outcome.Success? {
      assert Posted[..k] == Posted;
    } else {
      assert ps[..|ps| - 1] == p + Posted[..k];
      ShorterPosted(p, k);
    }
  }

  /** The progress of `Finish`: the updates before, the callback's, then
      100 on success or 0 on failure. */
  lemma {:induction false} FinishUpdates(
    start: seq<Update>, a: ConversionService.Acquisition, filename: string, env: Env, now: int)
    ensures ProgressOf(Finish(start, a, filename, env, now).updates)
         == ProgressOf(start) + ProgressOf(EncodingUpdates(a.progress)) + [if a.outcome.Success? then 100 else 0]
  {
    var encoded := start + EncodingUpdates(a.progress);
    var r := Finish(start, a, filename, env, now);
    var u := Last(r.updates);
    assert r.updates == encoded + [u];
    ProgressOfAppend(start, EncodingUpdates(a.progress));
    ProgressOfSnoc(encoded, u);
  }

  /** Fewer than all posted values, then the final 100, is shorter than the whole run. */
  lemma {:induction false} ShorterPosted(p: seq<int>, k: nat)
    requires k <= 3
    ensures p + Posted[..k] < p + [63, 91, 95, 100]
  {
    var full := p + [63, 91, 95, 100];
    assert forall i :: 0 <= i < |p| + k ==> (p + Posted[..k])[i] == full[i];
  }

  // ---------------------------------------------------------------- the Spotify track pipeline

  const FetchingTrack := "Fetching track metadata..."
  const FindingSource := "Finding audio source..."
  const SourceFound := "Source found, starting download..."
  const Converting := "Converting to MP3..."

  /** What the source search is told about the track. */
  function TrackInfoOf(md: SpotifyService.TrackMetadata): YouTubeService.TrackInfo {
    YouTubeService.TrackInfo(md.title, md.artist, md.duration)
  }

  /** `findYouTubeMatch(metadata)` as a value. */
  function Found(md: SpotifyService.TrackMetadata, search: YouTubeService.Search): Option<YouTubeService.Match> {
    var t := TrackInfoOf(md);
    YouTubeService.SearchFrom(YouTubeService.SearchQueries(t), t, search)
  }

  /** What the search returns in a run: nothing is searched for when the
      metadata lookup throws. */
  function SearchOutcome(meta: Result<SpotifyService.TrackMetadata>, search: YouTubeService.Search)
    : Option<YouTubeService.Match>
  {
    if meta.Success? then Found(meta.value, search) else None
  }

  /** The artist after inference from the match's title. */
  function TrackArtist(md: SpotifyService.TrackMetadata, m: YouTubeService.Match): string {
    ArtistInference.Inferred(md.artist, Some(m.title))
  }

  /** The `metadata` document a track job stores. */
  function TrackDoc(md: SpotifyService.TrackMetadata, artist: string): JobMetadata {
    JobMetadata(md.title, artist, Some(md.album), md.coverUrl, md.duration, None)
  }

  /** What the tagger is given. */
  function TrackTags(md: SpotifyService.TrackMetadata, artist: string): ConversionService.TagSource {
    ConversionService.TagSource(md.title, artist, Some(md.album), md.coverUrl, md.releaseDate, md.trackNumber)
  }

  /** `processSpotifyConversion` on values: `meta` is what the metadata
      lookup returns or throws, `found` what the source search returns for
      that metadata (see `SearchOutcome`) and `dl`
      the acquisition. */
  function TrackRun(jobId: string, meta: Result<SpotifyService.TrackMetadata>, found: Option<YouTubeService.Match>,
                    files: set<string>, dl: ConversionService.Downloader, env: Env, now: int): Run
  {
    match meta
    case Failure(e) => Run([StepUpdate(FetchingTrack, 10)] + [ErrorUpdate(e, ConversionFailed)], files)
    case Success(md) =>
      match found
      case None => Run(TrackLookup(md) + [ErrorUpdate(NoSourceMessage, ConversionFailed)], files)
      case Some(m) => TrackAcquire(jobId, md, TrackArtist(md, m), files, dl, env, now)
  }

  /** The run once a source is found and the artist settled. */
  function TrackAcquire(jobId: string, md: SpotifyService.TrackMetadata, artist: string,
                        files: set<string>, dl: ConversionService.Downloader, env: Env, now: int): Run
  {
    var a := ConversionService.Acquire(files, jobId, TrackTags(md, artist), dl);
    Finish(TrackStart(md, artist), a, Filenames.TrackFileName(artist, md.title), env, now)
  }

  /** The updates up to the source search. */
  function TrackLookup(md: SpotifyService.TrackMetadata): seq<Update> {
    [StepUpdate(FetchingTrack, 10)] + [Retrieved(TrackDoc(md, md.artist), 25)] + [StepUpdate(FindingSource, 35)]
  }

  /** The updates up to the acquisition, once a source is found. */
  function TrackStart(md: SpotifyService.TrackMetadata, artist: string): seq<Update> {
    TrackLookup(md) + [DocUpdate(TrackDoc(md, artist))] + [StepUpdate(SourceFound, 50)]
      + [StepUpdate(Converting, 60)]
  }

  const TrackProgress: seq<int> := [10, 25, 35, 50, 60, 63, 91, 95, 100]

  /** A track job completes exactly when metadata, a source and the MP3 are
      all obtained; it then offers the job's MP3 under the sanitised
      "artist - title.mp3", with the possibly inferred artist. Otherwise it
      ends with the error thrown at the first failing step, and a lookup or
      search failure leaves the directory as it was. */
  lemma {:induction false} TrackRunOutcome(
    jobId: string, meta: Result<SpotifyService.TrackMetadata>, found: Option<YouTubeService.Match>,
    files: set<string>, dl: ConversionService.Downloader, env: Env, now: int)
    ensures var r := TrackRun(jobId, meta, found, files, dl, env, now);
      && r.updates != []
      && (Completes(r) <==>
            meta.Success? && found.Some? && dl.run.ok && !ConversionService.TempUnlinkFails(files, jobId, dl)
            && ConversionService.OutputName(jobId) in files + dl.run.written)
      && (Completes(r) ==>
            var md := meta.value;
            var name := Filenames.TrackFileName(TrackArtist(md, found.value), md.title);
            && Last(r.updates) == CompletedUpdate(
                 FileManager.GetDownloadUrl(env.backendUrl, env.port, jobId + ".mp3"), name, dl.size, now)
            && Filenames.IsSafeName(name) && Filenames.EndsWith(name, ".mp3"))
      && (meta.Failure? ==> Last(r.updates) == ErrorUpdate(meta.message, ConversionFailed) && r.files == files)
      && (meta.Success? && found.None? ==>
            Last(r.updates) == ErrorUpdate(NoSourceMessage, ConversionFailed) && r.files == files)
      && (meta.Success? && found.Some? && !dl.run.ok ==>
            Last(r.updates) == ErrorUpdate(dl.run.message, ConversionFailed))
      && (meta.Success? && found.Some? && dl.run.ok && ConversionService.TempUnlinkFails(files, jobId, dl) ==>
            Last(r.updates) == ErrorUpdate(dl.unlinkMessage, ConversionFailed))
      && (meta.Success? && found.Some? && dl.run.ok && !ConversionService.TempUnlinkFails(files, jobId, dl)
          && ConversionService.OutputName(jobId) !in files + dl.run.written ==>
            Last(r.updates) == ErrorUpdate(dl.statMessage, ConversionFailed))
  {
    if meta.Success? && found.Some? {
      var md := meta.value;
      var artist := TrackArtist(md, found.value);
      var start := TrackStart(md, artist);
      FinishOutcome(start, files, jobId, TrackTags(md, artist), dl, Filenames.TrackFileName(artist, md.title), env, now);
      ConversionService.AcquireSuccess(files, jobId, TrackTags(md, artist), dl);
      Filenames.TrackFileNameShape(artist, md.title);
    }
  }

  /** The progress a track job writes: 10, 25, 35, 50, 60, 63, 91, 95, 100
      on success, and on failure a proper prefix of that followed by 0. */
  lemma {:induction false} TrackRunProgress(
    jobId: string, meta: Result<SpotifyService.TrackMetadata>, found: Option<YouTubeService.Match>,
    files: set<string>, dl: ConversionService.Downloader, env: Env, now: int)
    ensures var r := TrackRun(jobId, meta, found, files, dl, env, now);
      EndsLike(ProgressOf(r.updates), TrackProgress, Completes(r))
  {
    match meta
    case Failure(e) =>
      FetchFailsProgress(StepUpdate(FetchingTrack, 10), e, TrackProgress);
    case Success(md) =>
      match found
      case None => NoSourceProgress(md);
      case Some(m) => TrackAcquireProgress(jobId, md, TrackArtist(md, m), files, dl, env, now);
  }

  lemma {:induction false} NoSourceProgress(md: SpotifyService.TrackMetadata)
    ensures EndsLike(ProgressOf(TrackLookup(md) + [ErrorUpdate(NoSourceMessage, ConversionFailed)]), TrackProgress, false)
  {
    TrackLookupProgress(md);
    ProgressOfSnoc(TrackLookup(md), ErrorUpdate(NoSourceMessage, ConversionFailed));
    var ps := ProgressOf(TrackLookup(md) + [ErrorUpdate(NoSourceMessage, ConversionFailed)]);
    assert ps == [10, 25, 35, 0];
    assert ps[..3] == [10, 25, 35];
  }

  lemma {:induction false} TrackAcquireProgress(
    jobId: string, md: SpotifyService.TrackMetadata, artist: string,
    files: set<string>, dl: ConversionService.Downloader, env: Env, now: int)
    ensures var r := TrackAcquire(jobId, md, artist, files, dl, env, now);
      EndsLike(ProgressOf(r.updates), TrackProgress, Completes(r))
  {
    TrackStartProgress(md, artist);
    FinishProgress(TrackStart(md, artist), [10, 25, 35, 50, 60], TrackProgress, files, jobId,
                   TrackTags(md, artist), dl, Filenames.TrackFileName(artist, md.title), env, now);
  }

  /** A failed metadata lookup writes 10 and then 0. */
  lemma {:induction false} FetchFailsProgress(fetch: Update, message: string, full: seq<int>)
    requires fetch.progress == Some(10) && |full| > 1 && full[0] == 10
    ensures EndsLike(ProgressOf([fetch] + [ErrorUpdate(message, ConversionFailed)]), full, false)
  {
    ProgressOfSnoc([], fetch);
    assert [] + [fetch] == [fetch];
    ProgressOfSnoc([fetch], ErrorUpdate(message, ConversionFailed));
    var ps := ProgressOf([fetch] + [ErrorUpdate(message, ConversionFailed)]);
    assert ps == [10, 0];
    assert ps[..1] == [10];
  }

  lemma {:induction false} TrackLookupProgress(md: SpotifyService.TrackMetadata)
    ensures ProgressOf(TrackLookup(md)) == [10, 25, 35]
  {
    var fetch := [StepUpdate(FetchingTrack, 10)];
    ProgressOfSnoc([], StepUpdate(FetchingTrack, 10));
    assert [] + fetch == fetch;
    ProgressOfSnoc(fetch, Retrieved(TrackDoc(md, md.artist), 25));
    ProgressOfSnoc(fetch + [Retrieved(TrackDoc(md, md.artist), 25)], StepUpdate(FindingSource, 35));
  }

  lemma {:induction false} TrackStartProgress(md: SpotifyService.TrackMetadata, artist: string)
    ensures ProgressOf(TrackStart(md, artist)) == [10, 25, 35, 50, 60]
  {
    var lookup := TrackLookup(md);
    TrackLookupProgress(md);
    ProgressOfSnoc(lookup, DocUpdate(TrackDoc(md, artist)));
    ProgressOfSnoc(lookup + [DocUpdate(TrackDoc(md, artist))], StepUpdate(SourceFound, 50));
    ProgressOfSnoc(lookup + [DocUpdate(TrackDoc(md, artist))] + [StepUpdate(SourceFound, 50)],
                   StepUpdate(Converting, 60));
  }

  /** `processSpotifyConversion(jobId, ...)`: posts its updates to the job
      table as it goes and leaves the temporary directory as the run says. */
  method ProcessSpotifyConversion(
    store: Store, folder: ConversionService.TempFolder, jobId: string,
    meta: Result<SpotifyService.TrackMetadata>, search: YouTubeService.Search,
    dl: ConversionService.Downloader, env: Env, now: int)
    requires store.Valid()
    modifies store, folder
    ensures store.Valid()
    ensures var r := TrackRun(jobId, meta, SearchOutcome(meta, search), old(folder.files), dl, env, now);
      store.jobs == Replay(old(store.jobs), jobId, r.updates, now) && folder.files == r.files
  {
    ghost var start := store.jobs;
    var u := StepUpdate(FetchingTrack, 10);
    Post(store, jobId, u, now, start, []);
    ghost var done := [u];
    if meta.Failure? {
      Post(store, jobId, ErrorUpdate(meta.message, ConversionFailed), now, start, done);
      return;
    }
    var md := meta.value;
    u := Retrieved(TrackDoc(md, md.artist), 25);
    Post(store, jobId, u, now, start, done);
    done := done + [u];
    u := StepUpdate(FindingSource, 35);
    Post(store, jobId, u, now, start, done);
    done := done + [u];
    var found := YouTubeService.FindYouTubeMatch(TrackInfoOf(md), search);
    if found.None? {
      Post(store, jobId, ErrorUpdate(NoSourceMessage, ConversionFailed), now, start, done);
      return;
    }
    var artist := ArtistInference.InferArtist(md.artist, Some(found.value.title));
    u := DocUpdate(TrackDoc(md, artist));
    Post(store, jobId, u, now, start, done);
    done := done + [u];
    u := StepUpdate(SourceFound, 50);
    Post(store, jobId, u, now, start, done);
    done := done + [u];
    u := StepUpdate(Converting, 60);
    Post(store, jobId, u, now, start, done);
    done := done + [u];
    var outcome, progress, tags := folder.DownloadAndConvert(jobId, TrackTags(md, artist), dl);
    PostEncoding(store, jobId, progress, now, start, done);
    done := done + EncodingUpdates(progress);
    if outcome.Failure? {
      Post(store, jobId, ErrorUpdate(outcome.message, ConversionFailed), now, start, done);
      return;
    }
    var url := FileManager.GetDownloadUrl(env.backendUrl, env.port, outcome.value.filename);
    u := CompletedUpdate(url, Filenames.TrackFileName(artist, md.title), outcome.value.fileSize, now);
    Post(store, jobId, u, now, start, done);
  }

  // ---------------------------------------------------------------- the YouTube video pipeline

  /** The video metadata the pipeline reads. */
  datatype VideoMetadata = VideoMetadata(
    title: string, artist: string, album: Option<string>, coverUrl: Option<string>,
    duration: Option<int>, releaseDate: Option<string>, trackNumber: Option<int>)

  const FetchingVideo := "Fetching video metadata..."
  const StartingDownload := "Starting download..."

  function VideoDoc(md: VideoMetadata): JobMetadata {
    JobMetadata(md.title, md.artist, md.album, md.coverUrl, md.duration, None)
  }

  function VideoTags(md: VideoMetadata): ConversionService.TagSource {
    ConversionService.TagSource(md.title, md.artist, md.album, md.coverUrl, md.releaseDate, md.trackNumber)
  }

  /** `processYouTubeConversion` on values: `meta` is what the video
      metadata lookup returns or throws. */
  function VideoRun(jobId: string, meta: Result<VideoMetadata>, files: set<string>,
                    dl: ConversionService.Downloader, env: Env, now: int): Run
  {
    match meta
    case Failure(e) => Run([StepUpdate(FetchingVideo, 10)] + [ErrorUpdate(e, ConversionFailed)], files)
    case Success(md) =>
      var a := ConversionService.Acquire(files, jobId, VideoTags(md), dl);
      Finish(VideoStart(md), a, Filenames.TrackFileName(md.artist, md.title), env, now)
  }

  /** The updates up to the acquisition. */
  function VideoStart(md: VideoMetadata): seq<Update> {
    [StepUpdate(FetchingVideo, 10)] + [Retrieved(VideoDoc(md), 30)] + [StepUpdate(StartingDownload, 50)]
      + [StepUpdate(Converting, 60)]
  }

  const VideoProgress: seq<int> := [10, 30, 50, 60, 63, 91, 95, 100]

  /** A video job completes exactly when the metadata and the MP3 are
      obtained, offering the job's MP3 under the sanitised "artist -
      title.mp3"; otherwise it ends with the error of the failing step. */
  lemma {:induction false} VideoRunOutcome(
    jobId: string, meta: Result<VideoMetadata>, files: set<string>,
    dl: ConversionService.Downloader, env: Env, now: int)
    ensures var r := VideoRun(jobId, meta, files, dl, env, now);
      && r.updates != []
      && (Completes(r) <==>
            meta.Success? && dl.run.ok && !ConversionService.TempUnlinkFails(files, jobId, dl)
            && ConversionService.OutputName(jobId) in files + dl.run.written)
      && (Completes(r) ==>
            var name := Filenames.TrackFileName(meta.value.artist, meta.value.title);
            && Last(r.updates) == CompletedUpdate(
                 FileManager.GetDownloadUrl(env.backendUrl, env.port, jobId + ".mp3"), name, dl.size, now)
            && Filenames.IsSafeName(name))
      && (meta.Failure? ==> Last(r.updates) == ErrorUpdate(meta.message, ConversionFailed) && r.files == files)
      && (meta.Success? && !dl.run.ok ==> Last(r.updates) == ErrorUpdate(dl.run.message, ConversionFailed))
      && (meta.Success? && dl.run.ok && ConversionService.TempUnlinkFails(files, jobId, dl) ==>
            Last(r.updates) == ErrorUpdate(dl.unlinkMessage, ConversionFailed))
      && (meta.Success? && dl.run.ok && !ConversionService.TempUnlinkFails(files, jobId, dl)
          && ConversionService.OutputName(jobId) !in files + dl.run.written ==>
            Last(r.updates) == ErrorUpdate(dl.statMessage, ConversionFailed))
  {
    if meta.Success? {
      var md := meta.value;
      FinishOutcome(VideoStart(md), files, jobId, VideoTags(md), dl, Filenames.TrackFileName(md.artist, md.title), env, now);
      ConversionService.AcquireSuccess(files, jobId, VideoTags(md), dl);
      Filenames.TrackFileNameShape(md.artist, md.title);
    }
  }

  /** The progress a video job writes: 10, 30, 50, 60, 63, 91, 95, 100 on
      success, and on failure a proper prefix of that followed by 0. */
  lemma {:induction false} VideoRunProgress(
    jobId: string, meta: Result<VideoMetadata>, files: set<string>,
    dl: ConversionService.Downloader, env: Env, now: int)
    ensures var r := VideoRun(jobId, meta, files, dl, env, now);
      EndsLike(ProgressOf(r.updates), VideoProgress, Completes(r))
  {
    match meta
    case Failure(e) =>
      FetchFailsProgress(StepUpdate(FetchingVideo, 10), e, VideoProgress);
    case Success(md) =>
      VideoStartProgress(md);
      FinishProgress(VideoStart(md), [10, 30, 50, 60], VideoProgress, files, jobId, VideoTags(md), dl,
                     Filenames.TrackFileName(md.artist, md.title), env, now);
  }

  lemma {:induction false} VideoStartProgress(md: VideoMetadata)
    ensures ProgressOf(VideoStart(md)) == [10, 30, 50, 60]
  {
    var fetch := [StepUpdate(FetchingVideo, 10)];
    ProgressOfSnoc([], StepUpdate(FetchingVideo, 10));
    assert [] + fetch == fetch;
    ProgressOfSnoc(fetch, Retrieved(VideoDoc(md), 30));
    ProgressOfSnoc(fetch + [Retrieved(VideoDoc(md), 30)], StepUpdate(StartingDownload, 50));
    ProgressOfSnoc(fetch + [Retrieved(VideoDoc(md), 30)] + [StepUpdate(StartingDownload, 50)],
                   StepUpdate(Converting, 60));
  }

  /** `processYouTubeConversion(jobId, ...)`. */
  method ProcessYouTubeConversion(
    store: Store, folder: ConversionService.TempFolder, jobId: string,
    meta: Result<VideoMetadata>, dl: ConversionService.Downloader, env: Env, now: int)
    requires store.Valid()
    modifies store, folder
    ensures store.Valid()
    ensures var r := VideoRun(jobId, meta, old(folder.files), dl, env, now);
      store.jobs == Replay(old(store.jobs), jobId, r.updates, now) && folder.files == r.files
  {
    ghost var start := store.jobs;
    var u := StepUpdate(FetchingVideo, 10);
    Post(store, jobId, u, now, start, []);
    ghost var done := [u];
    if meta.Failure? {
      Post(store, jobId, ErrorUpdate(meta.message, ConversionFailed), now, start, done);
      return;
    }
    var md := meta.value;
    u := Retrieved(VideoDoc(md), 30);
    Post(store, jobId, u, now, start, done);
    done := done + [u];
    u := StepUpdate(StartingDownload, 50);
    Post(store, jobId, u, now, start, done);
    done := done + [u];
    u := StepUpdate(Converting, 60);
    Post(store, jobId, u, now, start, done);
    done := done + [u];
    var outcome, progress, tags := folder.DownloadAndConvert(jobId, VideoTags(md), dl);
    PostEncoding(store, jobId, progress, now, start, done);
    done := done + EncodingUpdates(progress);
    if outcome.Failure? {
      Post(store, jobId, ErrorUpdate(outcome.message, ConversionFailed), now, start, done);
      return;
    }
    var url := FileManager.GetDownloadUrl(env.backendUrl, env.port, outcome.value.filename);
    u := CompletedUpdate(url, Filenames.TrackFileName(md.artist, md.title), outcome.value.fileSize, now);
    Post(store, jobId, u, now, start, done);
  }

  // ---------------------------------------------------------------- the row a pipeline leaves

  /** After a track pipeline, the job's row is either completed at 100 with
      the offered file name, or in error at 0 with a non-empty message;
      every other row is untouched. */
  lemma {:induction false} TrackJobEnds(
    jobs: map<string, Job>, jobId: string, meta: Result<SpotifyService.TrackMetadata>,
    found: Option<YouTubeService.Match>, files: set<string>, dl: ConversionService.Downloader, env: Env, now: int)
    requires jobId in jobs
    ensures var r := TrackRun(jobId, meta, found, files, dl, env, now);
      var after := Replay(jobs, jobId, r.updates, now);
      && jobId in after
      && (Completes(r) ==> after[jobId].status == "completed" && after[jobId].progress == 100
                           && after[jobId].completedAt == Some(now))
      && (!Completes(r) ==> after[jobId].status == "error" && after[jobId].progress == 0
                            && after[jobId].error.Some? && after[jobId].error.value != "")
      && (forall k :: k != jobId && k in jobs ==> k in after && after[k] == jobs[k])
  {
    var r := TrackRun(jobId, meta, found, files, dl, env, now);
    TrackRunOutcome(jobId, meta, found, files, dl, env, now);
    ReplayReadsLast(jobs, jobId, r.updates, now);
    ReplayOthers(jobs, jobId, r.updates, now);
    if meta.Failure? {
      ErrorUpdateShape(meta.message);
    } else if found.None? {
      ErrorUpdateShape(NoSourceMessage);
    } else if !dl.run.ok {
      ErrorUpdateShape(dl.run.message);
    } else if ConversionService.TempUnlinkFails(files, jobId, dl) {
      ErrorUpdateShape(dl.unlinkMessage);
    } else {
      ErrorUpdateShape(dl.statMessage);
    }
  }
}
