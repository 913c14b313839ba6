/** The playlist pipeline of the conversion route: fetch the playlist,
    download its tracks four at a time into a playlist directory, pack the
    files that arrived into a ZIP archive and post the archive's link.

    The scheduler is a class whose fields are the variables the route's
    closures share (the queue, the active downloads, the counters, the
    failed names and the slot array). Each download runs to its end at the
    moment the scheduler lets it settle; which active download settles
    next is a nondeterministic choice, as `Promise.race` leaves it. */
module PlaylistPipeline {
  import opened Wrappers
  import opened Text
  import opened JobStore
  import SpotifyService
  import YouTubeService
  import Filenames
  import FileManager
  import Pipelines

  /** `CONCURRENT_DOWNLOADS`. */
  const Concurrency := 4
  const PlaylistFailed := "An unexpected error occurred during playlist conversion"
  const FetchingPlaylist := "Fetching playlist info..."
  const CreatingZip := "Creating ZIP file..."

  // ---------------------------------------------------------------- one track

  /** What the downloader and the file system answer for one track:
      whether `downloadAndConvert` resolved, and whether copying its MP3
      into the playlist directory and removing the original both succeeded. */
  datatype Attempt = Attempt(converted: bool, moved: bool)

  /** What `downloadTrack` resolves to: the file's new path, or the title
      of a track that could not be fetched. */
  datatype TrackResult = Saved(index: nat, path: string) | Missed(index: nat, trackName: string)

  /** The job id a track's download runs under. */
  function TrackJobId(jobId: string, index: nat): string {
    jobId + "-track-" + NatToString(index)
  }

  /** `path.join(tempDir, "playlist-" + jobId)`. */
  function PlaylistDir(tempDir: string, jobId: string): string {
    tempDir + "/playlist-" + jobId
  }

  /** `path.join(dir, name)`. */
  function EntryPath(dir: string, name: string): string {
    dir + "/" + name
  }

  /** The query a playlist track is searched with. */
  function TrackQuery(t: SpotifyService.PlaylistTrack): YouTubeService.TrackInfo {
    YouTubeService.TrackInfo(t.title, t.artist, Some(t.duration))
  }

  function TrackFound(t: SpotifyService.PlaylistTrack, search: YouTubeService.Search)
    : Option<YouTubeService.Match>
  {
    var q := TrackQuery(t);
    YouTubeService.SearchFrom(YouTubeService.SearchQueries(q), q, search)
  }

  /** `downloadTrack`: any throw along the way turns into a miss. */
  function DownloadTrack(dir: string, index: nat, t: SpotifyService.PlaylistTrack,
                         found: Option<YouTubeService.Match>, a: Attempt): TrackResult
  {
    if found.Some? && a.converted && a.moved
    then Saved(index, EntryPath(dir, Filenames.PlaylistEntryName(index, t.artist, t.title)))
    else Missed(index, t.title)
  }

  method DownloadTrackRun(dir: string, index: nat, t: SpotifyService.PlaylistTrack,
                          search: YouTubeService.Search, a: Attempt)
    returns (r: TrackResult)
    ensures r == DownloadTrack(dir, index, t, TrackFound(t, search), a)
  {
    var m := YouTubeService.FindYouTubeMatch(TrackQuery(t), search);
    if m.None? {
      // "No match found"
      return Missed(index, t.title);
    }
    if !a.converted || !a.moved {
      return Missed(index, t.title);
    }
    var name := Filenames.PlaylistEntryName(index, t.artist, t.title);
    return Saved(index, EntryPath(dir, name));
  }

  /** A track is saved exactly when a source was found, the download
      converted and the move succeeded; a saved track lies in the playlist
      directory under its safe, numbered entry name, a missed one reports
      its title; both carry their own index. */
  lemma {:induction false} DownloadTrackSpec(dir: string, index: nat, t: SpotifyService.PlaylistTrack,
                                             found: Option<YouTubeService.Match>, a: Attempt)
    ensures var r := DownloadTrack(dir, index, t, found, a);
      && r.index == index
      && (r.Saved? <==> found.Some? && a.converted && a.moved)
      && (r.Saved? ==> exists name :: r.path == EntryPath(dir, name) && Filenames.IsSafeName(name)
                                     && Filenames.EndsWith(name, ".mp3")
                                     && name == Filenames.PlaylistEntryName(index, t.artist, t.title))
      && (r.Missed? ==> r.trackName == t.title)
  {
    Filenames.PlaylistEntryNameShape(index, t.artist, t.title);
  }

  /** Tracks at different positions download under different job ids, so
      their temporary files never collide. */
  lemma {:induction false} TrackJobIdsDistinct(jobId: string, i: nat, j: nat)
    requires TrackJobId(jobId, i) == TrackJobId(jobId, j)
    ensures i == j
  {
    var p := jobId + "-track-";
    assert TrackJobId(jobId, i)[|p|..] == NatToString(i);
    assert TrackJobId(jobId, j)[|p|..] == NatToString(j);
    NatToStringInjective(i, j);
  }

  /** `found` holds what the search finds for each track. */
  ghost predicate FoundBy(found: seq<Option<YouTubeService.Match>>, tracks: seq<SpotifyService.PlaylistTrack>,
                          search: YouTubeService.Search)
  {
    && |found| == |tracks|
    && forall i {:trigger TrackFound(tracks[i], search)} :: 0 <= i < |tracks| ==>
         found[i] == TrackFound(tracks[i], search)
  }

  /** Every track's result, in playlist order, given what the search finds. */
  function Results(p: SpotifyService.Playlist, dir: string, found: seq<Option<YouTubeService.Match>>,
                   attempts: nat -> Attempt): (rs: seq<TrackResult>)
    requires |found| == |p.tracks|
    ensures |rs| == |p.tracks|
  {
    seq(|p.tracks|, i requires 0 <= i < |p.tracks| => DownloadTrack(dir, i, p.tracks[i], found[i], attempts(i)))
  }

  // ---------------------------------------------------------------- file names in the archive

  /** `path.basename` of a path that does not end in '/': what follows the
      last '/'. */
  function Basename(path: string): string {
    if path == [] then []
    else if path[|path| - 1] == '/' then []
    else Basename(path[..|path| - 1]) + [path[|path| - 1]]
  }

  /** A name without '/' is its own base name, whatever directory holds it. */
  lemma {:induction false} BasenameOfEntry(dir: string, name: string)
    requires forall i :: 0 <= i < |name| ==> name[i] != '/'
    ensures Basename(EntryPath(dir, name)) == name
  {
    if name != [] {
      var front := name[..|name| - 1];
      assert EntryPath(dir, name)[..|EntryPath(dir, name)| - 1] == EntryPath(dir, front);
      BasenameOfEntry(dir, front);
      assert front + [name[|name| - 1]] == name;
    }
  }

  /** A saved track is stored in the archive under its entry name. */
  lemma {:induction false} ArchiveEntryName(dir: string, index: nat, artist: string, title: string)
    ensures Basename(EntryPath(dir, Filenames.PlaylistEntryName(index, artist, title)))
         == Filenames.PlaylistEntryName(index, artist, title)
  {
    var name := Filenames.PlaylistEntryName(index, artist, title);
    Filenames.PlaylistEntryNameShape(index, artist, title);
    assert forall i :: 0 <= i < |name| ==> !Filenames.IsForbidden(name[i]);
    BasenameOfEntry(dir, name);
  }

  /** Two saved tracks never share an archive entry. */
  lemma {:induction false} SavedEntriesDistinct(dir: string, i: nat, ti: SpotifyService.PlaylistTrack,
                                                fi: Option<YouTubeService.Match>, ai: Attempt,
                                                j: nat, tj: SpotifyService.PlaylistTrack,
                                                fj: Option<YouTubeService.Match>, aj: Attempt)
    requires i != j
    requires DownloadTrack(dir, i, ti, fi, ai).Saved? && DownloadTrack(dir, j, tj, fj, aj).Saved?
    ensures Basename(DownloadTrack(dir, i, ti, fi, ai).path) != Basename(DownloadTrack(dir, j, tj, fj, aj).path)
  {
    ArchiveEntryName(dir, i, ti.artist, ti.title);
    ArchiveEntryName(dir, j, tj.artist, tj.title);
    Filenames.PlaylistEntryNamesDistinct(i, ti.artist, ti.title, j, tj.artist, tj.title);
  }

  // ---------------------------------------------------------------- the progress update

  /** `10 + Math.floor(((completed + failed) / n) * 80)`, in exact arithmetic. */
  function BatchProgress(settled: nat, n: nat): int
    requires n > 0
  {
    10 + (80 * settled) / n
  }

  /** Progress starts at 10, never falls as tracks settle, and reaches 90
      when every track has. */
  lemma {:induction false} BatchProgressMonotone(a: nat, b: nat, n: nat)
    requires a <= b <= n && n > 0
    ensures 10 <= BatchProgress(a, n) <= BatchProgress(b, n) <= BatchProgress(n, n) == 90
    ensures BatchProgress(0, n) == 10
  {
    DivMonotone(80 * a, 80 * b, n);
    DivMonotone(80 * b, 80 * n, n);
    assert (80 * n) / n == 80 by { DivExact(80, n); }
  }

  lemma {:induction false} DivMonotone(x: nat, y: nat, n: nat)
    requires x <= y && n > 0
    ensures x / n <= y / n
  {
    var qx, qy := x / n, y / n;
    assert x == n * qx + x % n && y == n * qy + y % n;
    if qx > qy {
      assert n * qx >= n * (qy + 1) by { MulMonotone(n, qy + 1, qx); }
      assert false;
    }
  }

  lemma {:induction false} MulMonotone(n: nat, a: nat, b: nat)
    requires a <= b
    ensures n * a <= n * b
  {
    assert n * b == n * a + n * (b - a);
  }

  lemma {:induction false} DivExact(k: nat, n: nat)
    requires n > 0
    ensures (k * n) / n == k
  {
    var q, r := (k * n) / n, (k * n) % n;
    assert k * n == n * q + r && 0 <= r < n;
    if q < k {
      MulMonotone(n, q + 1, k);
      assert false;
    } else if q > k {
      MulMonotone(n, k + 1, q);
      assert false;
    }
  }

  function TitlesOf(tracks: seq<SpotifyService.PlaylistTrack>, ids: seq<nat>): seq<string>
    requires forall k :: 0 <= k < |ids| ==> ids[k] < |tracks|
  {
    seq(|ids|, k requires 0 <= k < |ids| => tracks[ids[k]].title)
  }

  /** The titles of the first three active downloads, in the order they
      started, separated by ", ". */
  function CurrentTracks(tracks: seq<SpotifyService.PlaylistTrack>, active: seq<nat>): string
    requires forall k :: 0 <= k < |active| ==> active[k] < |tracks|
  {
    if |active| == 0 then ""
    else if |active| == 1 then tracks[active[0]].title
    else if |active| == 2 then tracks[active[0]].title + ", " + tracks[active[1]].title
    else tracks[active[0]].title + ", " + tracks[active[1]].title + ", " + tracks[active[2]].title
  }

  /** `currentTracks` is `slice(0, 3)` of the active downloads' titles
      joined with ", ". */
  lemma {:induction false} CurrentTracksJoined(tracks: seq<SpotifyService.PlaylistTrack>, active: seq<nat>)
    requires forall k :: 0 <= k < |active| ==> active[k] < |tracks|
    ensures CurrentTracks(tracks, active) == Join(TitlesOf(tracks, if |active| <= 3 then active else active[..3]), ", ")
  {
    var titles := TitlesOf(tracks, if |active| <= 3 then active else active[..3]);
    assert forall k :: 0 <= k < |titles| ==> titles[k] == tracks[active[k]].title;
    if |titles| == 2 {
      assert titles[1..] == [titles[1]];
    } else if |titles| == 3 {
      assert titles[1..][1..] == [titles[2]];
      assert Join(titles[1..], ", ") == titles[1] + ", " + titles[2];
    }
  }

  /** `updateProgress()`. */
  function ProgressUpdate(p: SpotifyService.Playlist, completed: nat, failed: nat, inProgress: nat,
                          active: seq<nat>): Update
    requires |p.tracks| > 0
    requires forall k :: 0 <= k < |active| ==> active[k] < |p.tracks|
  {
    var settled := completed + failed;
    Pipelines.StepUpdate(
      "Downloading " + NatToString(inProgress) + " tracks... (" + NatToString(settled) + "/"
        + NatToString(p.totalTracks) + ")",
      BatchProgress(settled, |p.tracks|)
    ).(playlistInfo := Some(PlaylistInfo(p.name, p.totalTracks, completed, failed, Some(inProgress),
                                         Some(CurrentTracks(p.tracks, active)), None)))
  }

  /** An update of the download phase: its progress lies in [10, 90] and it
      reports at most four downloads in progress. */
  predicate WithinBatch(u: Update) {
    && u.progress.Some? && 10 <= u.progress.value <= 90
    && u.playlistInfo.Some? && u.playlistInfo.value.inProgress.Some?
    && u.playlistInfo.value.inProgress.value <= Concurrency
  }

  /** Every update carries a progress value and none is below an earlier one. */
  predicate Rising(us: seq<Update>) {
    && (forall k :: 0 <= k < |us| ==> us[k].progress.Some?)
    && (forall i, j :: 0 <= i < j < |us| ==> us[i].progress.value <= us[j].progress.value)
  }

  // ---------------------------------------------------------------- the scheduler's bookkeeping

  predicate Distinct(s: seq<nat>) {
    forall i, j :: 0 <= i < j < |s| ==> s[i] != s[j]
  }

  function SlotOf(r: TrackResult): Option<string> {
    if r.Saved? then Some(r.path) else None
  }

  /** How many of the settled tracks were saved. */
  function CountSaved(rs: seq<TrackResult>, order: seq<nat>): nat
    requires forall k :: 0 <= k < |order| ==> order[k] < |rs|
  {
    if order == [] then 0
    else CountSaved(rs, order[..|order| - 1]) + (if rs[order[|order| - 1]].Saved? then 1 else 0)
  }

  /** The titles of the missed tracks, in the order they settled. */
  function MissedNames(rs: seq<TrackResult>, order: seq<nat>): seq<string>
    requires forall k :: 0 <= k < |order| ==> order[k] < |rs|
  {
    if order == [] then []
    else MissedNames(rs, order[..|order| - 1])
         + (if rs[order[|order| - 1]].Missed? then [rs[order[|order| - 1]].trackName] else [])
  }

  /** The scheduler's state is consistent: the queue holds the tracks not yet
      started, in order; at most four are active; every started track is
      either active or settled, exactly once; the counters and the failed
      names are those of the settled tracks; and a slot holds a path exactly
      when its track has settled as saved. */
  ghost predicate Scheduled(n: nat, rs: seq<TrackResult>, queue: seq<nat>, active: seq<nat>,
                            order: seq<nat>, completed: nat, failed: nat, names: seq<string>,
                            slots: seq<Option<string>>)
  {
    && |rs| == n && |slots| == n && |queue| <= n
    && (forall k :: 0 <= k < |queue| ==> queue[k] == n - |queue| + k)
    && |active| <= Concurrency && |active| + |order| == n - |queue|
    && Distinct(active) && Distinct(order)
    && (forall k :: 0 <= k < |active| ==> active[k] < n - |queue| && active[k] !in order)
    && (forall k :: 0 <= k < |order| ==> order[k] < n - |queue|)
    && (forall i :: 0 <= i < n - |queue| ==> i in active || i in order)
    && completed == CountSaved(rs, order) && names == MissedNames(rs, order)
    && failed == |names| && completed + failed == |order|
    && (forall i :: 0 <= i < n ==> slots[i] == (if i in order then SlotOf(rs[i]) else None))
  }

  /** Starting the next queued track keeps the state consistent. */
  lemma {:induction false} AdmitKeeps(n: nat, rs: seq<TrackResult>, queue: seq<nat>, active: seq<nat>,
                                      order: seq<nat>, completed: nat, failed: nat, names: seq<string>,
                                      slots: seq<Option<string>>)
    requires Scheduled(n, rs, queue, active, order, completed, failed, names, slots)
    requires |queue| > 0 && |active| < Concurrency
    ensures queue[0] == n - |queue|
    ensures Scheduled(n, rs, queue[1..], active + [queue[0]], order, completed, failed, names, slots)
  {
    var next := queue[0];
    var active' := active + [next];
    forall i, j | 0 <= i < j < |active'| ensures active'[i] != active'[j] {
      if j == |active| {
        assert active[i] in active;
      }
    }
    assert next !in order;
  }

  function RemoveAt(s: seq<nat>, pos: nat): seq<nat>
    requires pos < |s|
  {
    s[..pos] + s[pos + 1..]
  }

  lemma {:induction false} RemoveAtSpec(s: seq<nat>, pos: nat)
    requires pos < |s| && Distinct(s)
    ensures |RemoveAt(s, pos)| == |s| - 1 && Distinct(RemoveAt(s, pos))
    ensures forall k :: 0 <= k < |RemoveAt(s, pos)| ==> RemoveAt(s, pos)[k] == (if k < pos then s[k] else s[k + 1])
    ensures forall i :: i in RemoveAt(s, pos) <==> i in s && i != s[pos]
  {
    var r := RemoveAt(s, pos);
    assert forall k :: 0 <= k < pos ==> r[k] == s[k];
    assert forall k :: pos <= k < |r| ==> r[k] == s[k + 1];
    forall i | i in s && i != s[pos] ensures i in r {
      var k :| 0 <= k < |s| && s[k] == i;
      if k < pos { assert r[k] == i; } else { assert r[k - 1] == i; }
    }
  }

  lemma {:induction false} SettleCounts(rs: seq<TrackResult>, order: seq<nat>, i: nat)
    requires i < |rs| && forall k :: 0 <= k < |order| ==> order[k] < |rs|
    ensures var order' := order + [i];
      && CountSaved(rs, order') == CountSaved(rs, order) + (if rs[i].Saved? then 1 else 0)
      && MissedNames(rs, order') == MissedNames(rs, order) + (if rs[i].Missed? then [rs[i].trackName] else [])
  {
    assert (order + [i])[..|order|] == order;
  }

  /** Letting the active download at `pos` settle keeps the state
      consistent: it leaves the active list, joins the settled ones, and
      counts as saved (its slot taking its path) or as missed (its title
      joining the failed names). */
  lemma {:induction false} SettleKeeps(n: nat, rs: seq<TrackResult>, queue: seq<nat>, active: seq<nat>,
                                       order: seq<nat>, completed: nat, failed: nat, names: seq<string>,
                                       slots: seq<Option<string>>, pos: nat,
                                       active': seq<nat>, order': seq<nat>, completed': nat, failed': nat,
                                       names': seq<string>, slots': seq<Option<string>>)
    requires Scheduled(n, rs, queue, active, order, completed, failed, names, slots)
    requires pos < |active| && active' == RemoveAt(active, pos) && order' == order + [active[pos]]
    requires rs[active[pos]].Saved? ==> completed' == completed + 1 && failed' == failed && names' == names
                                        && slots' == slots[active[pos] := Some(rs[active[pos]].path)]
    requires rs[active[pos]].Missed? ==> completed' == completed && failed' == failed + 1
                                         && names' == names + [rs[active[pos]].trackName] && slots' == slots
    ensures Scheduled(n, rs, queue, active', order', completed', failed', names', slots')
  {
    var i := active[pos];
    RemoveAtSpec(active, pos);
    SettleCounts(rs, order, i);
    assert i in active;
    forall a, b | 0 <= a < b < |order'| ensures order'[a] != order'[b] {
      if b == |order| {
        assert order[a] in order;
      }
    }
    assert forall k :: k in order' <==> k in order || k == i;
  }

  /** Once nothing is queued or active, every track has settled exactly once
      and the slots hold exactly the saved tracks' paths. */
  lemma {:induction false} SchedulerDone(n: nat, rs: seq<TrackResult>, order: seq<nat>, completed: nat,
                                         failed: nat, names: seq<string>, slots: seq<Option<string>>)
    requires Scheduled(n, rs, [], [], order, completed, failed, names, slots)
    ensures completed + failed == n == |order|
    ensures forall i :: 0 <= i < n ==> i in order
    ensures forall i :: 0 <= i < n ==> slots[i] == SlotOf(rs[i])
  {
  }

  // ---------------------------------------------------------------- the scheduler

  /** `processInBatches` and the variables its closures share. */
  class Batch {
    const jobId: string
    const playlist: SpotifyService.Playlist
    const dir: string
    const search: YouTubeService.Search
    const attempts: nat -> Attempt
    const now: int
    ghost const start: map<string, Job>
    ghost const before: seq<Update>
    /** What the search finds for each track. */
    ghost const found: seq<Option<YouTubeService.Match>>
    /** What each track's download comes to. */
    ghost const rs: seq<TrackResult>

    var queue: seq<nat>
    /** The keys of `activePromises`, in the order they were set. */
    var active: seq<nat>
    var completedTracks: nat
    var failedTracks: nat
    var inProgress: nat
    var failedTrackNames: seq<string>
    const trackResults: array<Option<string>>
    /** The tracks that have settled, in the order they did. */
    ghost var order: seq<nat>
    /** The updates posted so far. */
    ghost var posted: seq<Update>
    /** How many tracks had settled when the last update was posted. */
    ghost var level: nat

    /** `found` and `rs` hold what each track's search and download come
        to; stated track by track, so that a mention of `rs[i]` alone does
        not bring in how the download's result is made. */
    ghost predicate Resolved() {
      && FoundBy(found, playlist.tracks, search)
      && |rs| == |playlist.tracks|
      && forall i {:trigger DownloadTrack(dir, i, playlist.tracks[i], found[i], attempts(i))} ::
           0 <= i < |playlist.tracks| ==> rs[i] == DownloadTrack(dir, i, playlist.tracks[i], found[i], attempts(i))
    }

    ghost predicate Consistent()
      reads this`queue, this`active, this`order, this`completedTracks, this`failedTracks
      reads this`failedTrackNames, this`inProgress, trackResults
    {
      && trackResults.Length == |playlist.tracks|
      && Scheduled(|playlist.tracks|, rs, queue, active, order, completedTracks, failedTracks,
                   failedTrackNames, trackResults[..])
      && inProgress == |active|
    }

    ghost predicate Reported(store: Store)
      reads this`posted, this`level, this`completedTracks, this`failedTracks, store
    {
      && store.Valid() && store.jobs == Pipelines.Replay(start, jobId, before + posted, now)
      && Progressing(posted, level, |playlist.tracks|) && level <= completedTracks + failedTracks
    }

    /** One update is posted when a track is admitted and one when it
        settles, and the last one reports the tracks settled so far. */
    ghost predicate Tally()
      reads this`posted, this`order, this`active
    {
      && |posted| == 2 * |order| + |active|
      && (posted != [] ==>
            |playlist.tracks| > 0 && Pipelines.Last(posted).progress == Some(BatchProgress(|order|, |playlist.tracks|)))
    }

    ghost predicate Valid(store: Store)
      reads this, trackResults, store
    {
      Consistent() && Reported(store) && Tally()
    }

    constructor (store: Store, jobId: string, playlist: SpotifyService.Playlist, dir: string,
                 search: YouTubeService.Search, attempts: nat -> Attempt, now: int,
                 ghost start: map<string, Job>, ghost before: seq<Update>)
      requires store.Valid() && store.jobs == Pipelines.Replay(start, jobId, before, now)
      ensures Valid(store) && Resolved() && fresh(trackResults)
      ensures this.jobId == jobId && this.playlist == playlist && this.dir == dir
      ensures this.search == search && this.attempts == attempts && this.now == now
      ensures this.start == start && this.before == before && posted == []
    {
      this.jobId := jobId;
      this.playlist := playlist;
      this.dir := dir;
      this.search := search;
      this.attempts := attempts;
      this.now := now;
      this.start := start;
      this.before := before;
      ghost var found := seq(|playlist.tracks|, i requires 0 <= i < |playlist.tracks| => TrackFound(playlist.tracks[i], search));
      this.found := found;
      rs := Results(playlist, dir, found, attempts);
      queue := seq(|playlist.tracks|, k => k);
      active := [];
      completedTracks, failedTracks, inProgress := 0, 0, 0;
      failedTrackNames := [];
      trackResults := new Option<string>[|playlist.tracks|](_ => None);
      order := [];
      posted := [];
      level := 0;
      new;
      assert before + [] == before;
    }

    /** Posts `updateProgress()` as the counters now stand, with `inFlight`
        downloads in progress and the titles of the `shown` positions as the
        current tracks. */
    method PostProgress(store: Store, inFlight: nat, shown: seq<nat>)
      requires Reported(store) && completedTracks + failedTracks <= |playlist.tracks| && |playlist.tracks| > 0
      requires inFlight <= Concurrency && forall k :: 0 <= k < |shown| ==> shown[k] < |playlist.tracks|
      requires |posted| + 1 == 2 * |order| + |active| && completedTracks + failedTracks == |order|
      modifies store, this`posted, this`level
      ensures posted == old(posted) + [ProgressUpdate(playlist, completedTracks, failedTracks, inFlight, shown)]
      ensures level == completedTracks + failedTracks && Reported(store) && Tally()
    {
      var u := ProgressUpdate(playlist, completedTracks, failedTracks, inFlight, shown);
      ProgressingStep(posted, level, playlist, completedTracks, failedTracks, inFlight, shown);
      Pipelines.Post(store, jobId, u, now, start, before + posted);
      assert (before + posted) + [u] == before + (posted + [u]);
      posted := posted + [u];
      level := completedTracks + failedTracks;
    }

    /** Takes the next queued track, counts it in progress, records it as
        active, and reports as `updateProgress()` did in between: the track
        is counted but not yet among the current tracks. */
    method Admit(store: Store)
      requires Valid(store) && |queue| > 0 && |active| < Concurrency
      modifies this`queue, this`active, this`inProgress, this`posted, this`level, store
      ensures Valid(store)
      ensures queue == old(queue)[1..] && active == old(active) + [old(queue)[0]]
      ensures order == old(order)
      ensures posted == old(posted) + [ProgressUpdate(playlist, completedTracks, failedTracks, inProgress,
                                                      old(active))]
    {
      // `updateProgress()` runs after `inProgress++` and before the track
      // joins the active map: it counts the track but does not list it.
      var shown := active;
      Start();
      PostProgress(store, inProgress, shown);
    }

    /** The bookkeeping of admitting the next queued track: it leaves the
        queue and joins the active map. */
    method Start()
      requires Consistent() && |queue| > 0 && |active| < Concurrency
      modifies this`queue, this`active, this`inProgress
      ensures Consistent()
      ensures queue == old(queue)[1..] && active == old(active) + [old(queue)[0]]
      ensures inProgress == old(inProgress) + 1
    {
      AdmitKeeps(|playlist.tracks|, rs, queue, active, order, completedTracks, failedTracks,
                 failedTrackNames, trackResults[..]);
      var index := queue[0];
      queue := queue[1..];
      inProgress := inProgress + 1;
      active := active + [index];
    }

    /** `downloadTrack(track, index)` for the track at `index`. */
    method Download(index: nat) returns (result: TrackResult)
      requires Resolved() && index < |playlist.tracks|
      ensures result == rs[index] && result.index == index
    {
      result := DownloadTrackRun(dir, index, playlist.tracks[index], search, attempts(index));
    }

    /** The bookkeeping of the `.then` of the download at position `pos`
        of the active map: removes it and counts its result. */
    method Record(pos: nat, result: TrackResult)
      requires Consistent() && pos < |active| && result == rs[active[pos]] && result.index == active[pos]
      modifies this`active, this`inProgress, this`completedTracks, this`failedTracks
      modifies this`failedTrackNames, this`order, trackResults
      ensures Consistent()
      ensures active == RemoveAt(old(active), pos) && order == old(order) + [old(active)[pos]]
      ensures completedTracks + failedTracks == old(completedTracks + failedTracks) + 1
      ensures completedTracks + failedTracks <= |playlist.tracks| && inProgress <= Concurrency
      ensures forall k :: 0 <= k < |active| ==> active[k] < |playlist.tracks|
      ensures |active| + 1 == old(|active|) && completedTracks + failedTracks == |order|
    {
      var index := active[pos];
      ghost var active0, order0, slots0 := active, order, trackResults[..];
      ghost var completed0, failed0, names0 := completedTracks, failedTracks, failedTrackNames;
      RemoveAtSpec(active, pos);
      active := RemoveAt(active, pos);
      inProgress := inProgress - 1;
      if result.Saved? {
        completedTracks := completedTracks + 1;
        trackResults[result.index] := Some(result.path);
        assert trackResults[..] == slots0[index := Some(result.path)];
      } else {
        failedTracks := failedTracks + 1;
        failedTrackNames := failedTrackNames + [result.trackName];
      }
      order := order + [index];
      SettleKeeps(|playlist.tracks|, rs, queue, active0, order0, completed0, failed0, names0, slots0, pos,
                  active, order, completedTracks, failedTracks, failedTrackNames, trackResults[..]);
    }

    /** The `.then` of the download at position `pos` of the active map:
        removes it, updates the counters and the slot, and reports. */
    method Settle(store: Store, pos: nat)
      requires Valid(store) && Resolved() && pos < |active|
      modifies this`active, this`inProgress, this`completedTracks, this`failedTracks
      modifies this`failedTrackNames, this`order, this`posted, this`level, trackResults, store
      ensures Valid(store)
      ensures queue == old(queue) && active == RemoveAt(old(active), pos)
      ensures order == old(order) + [old(active)[pos]]
      ensures posted == old(posted) + [ProgressUpdate(playlist, completedTracks, failedTracks, inProgress, active)]
    {
      var result := Download(active[pos]);
      Record(pos, result);
      PostProgress(store, inProgress, active);
    }

    /** `processInBatches()`: start downloads while fewer than four are
        active, then wait until at least one settles; more may settle before
        the loop resumes. */
    method Run(store: Store)
      requires Valid(store) && Resolved()
      modifies this, trackResults, store
      ensures Valid(store) && queue == [] && active == []
    {
      while |queue| > 0 || |active| > 0
        invariant Valid(store)
        decreases 2 * |queue| + |active|
      {
        ghost var measure := 2 * |queue| + |active|;
        while |queue| > 0 && |active| < Concurrency
          invariant Valid(store)
          invariant 2 * |queue| + |active| <= measure
          invariant |queue| > 0 || |active| > 0
          decreases |queue|
        {
          Admit(store);
        }
        if |active| > 0 {
          var pos :| 0 <= pos < |active|;
          Settle(store, pos);
          var more: bool :| true;
          while more && |active| > 0
            invariant Valid(store)
            invariant 2 * |queue| + |active| < measure
            decreases |active|
          {
            pos :| 0 <= pos < |active|;
            Settle(store, pos);
            more :| true;
          }
        }
      }
    }
  }

  /** Every update lies within the download phase, none falls below an
      earlier one, and none exceeds `bound`. Stated from the last update
      back, so that appending an update only looks at the one before. */
  ghost predicate Ascending(us: seq<Update>, bound: int)
    decreases |us|
  {
    us == [] ||
    (&& WithinBatch(Pipelines.Last(us)) && Pipelines.Last(us).progress.value <= bound
     && Ascending(us[..|us| - 1], Pipelines.Last(us).progress.value))
  }

  /** What the posted progress updates satisfy while `settled` tracks have
      settled: they ascend within the download phase up to the progress
      `settled` gives; nothing is posted for an empty playlist. */
  ghost predicate Progressing(posted: seq<Update>, settled: nat, n: nat) {
    && settled <= n
    && (n == 0 ==> posted == [])
    && (n > 0 ==> Ascending(posted, BatchProgress(settled, n)))
  }

  lemma {:induction false} AscendingWeaken(us: seq<Update>, b: int, c: int)
    requires Ascending(us, b) && b <= c
    ensures Ascending(us, c)
  {
  }

  /** Posting `updateProgress()` after the settled count rose (or stayed)
      keeps the posted updates ascending within the download phase. */
  lemma {:induction false} ProgressingStep(posted: seq<Update>, settled: nat, p: SpotifyService.Playlist,
                                           completed: nat, failed: nat, inProgress: nat, active: seq<nat>)
    requires Progressing(posted, settled, |p.tracks|)
    requires settled <= completed + failed <= |p.tracks| && |p.tracks| > 0 && inProgress <= Concurrency
    requires forall k :: 0 <= k < |active| ==> active[k] < |p.tracks|
    ensures Progressing(posted + [ProgressUpdate(p, completed, failed, inProgress, active)],
                        completed + failed, |p.tracks|)
  {
    var n := |p.tracks|;
    var u := ProgressUpdate(p, completed, failed, inProgress, active);
    var v := BatchProgress(completed + failed, n);
    BatchProgressMonotone(settled, completed + failed, n);
    assert u.progress == Some(v);
    AscendingWeaken(posted, BatchProgress(settled, n), v);
    var vs := posted + [u];
    assert Pipelines.Last(vs) == u && vs[..|vs| - 1] == posted;
  }

  /** Ascending updates are each within the download phase and rising. */
  lemma {:induction false} AscendingRising(us: seq<Update>, b: int)
    requires Ascending(us, b)
    ensures forall k :: 0 <= k < |us| ==> WithinBatch(us[k]) && us[k].progress.value <= b
    ensures Rising(us)
    decreases |us|
  {
    if us != [] {
      var front := us[..|us| - 1];
      var last := Pipelines.Last(us);
      AscendingRising(front, last.progress.value);
      assert forall k :: 0 <= k < |front| ==> us[k] == front[k];
    }
  }

  // ---------------------------------------------------------------- the archive

  /** The paths of the saved tracks, in playlist order. */
  function SavedPaths(rs: seq<TrackResult>): seq<string> {
    if rs == [] then []
    else SavedPaths(rs[..|rs| - 1]) + (if Pipelines.Last(rs).Saved? then [Pipelines.Last(rs).path] else [])
  }

  /** The truthy slots, in order: `for (const filePath of trackResults) if (filePath) ...`. */
  function Present(slots: seq<Option<string>>): seq<string> {
    if slots == [] then []
    else
      var last := Pipelines.Last(slots);
      Present(slots[..|slots| - 1]) + (if last.Some? && last.value != "" then [last.value] else [])
  }

  /** Collects the downloaded files in playlist order. */
  method CollectDownloaded(trackResults: array<Option<string>>) returns (files: seq<string>)
    ensures files == Present(trackResults[..])
  {
    files := [];
    for i := 0 to trackResults.Length
      invariant files == Present(trackResults[..i])
    {
      assert trackResults[..i + 1][..i] == trackResults[..i];
      if trackResults[i].Some? && trackResults[i].value != "" {
        files := files + [trackResults[i].value];
      }
    }
    assert trackResults[..trackResults.Length] == trackResults[..];
  }

  /** Each saved result's path is a path inside `dir` under that track's
      entry name. */
  ghost predicate Located(rs: seq<TrackResult>, dir: string, tracks: seq<SpotifyService.PlaylistTrack>) {
    && |rs| == |tracks|
    && forall i :: 0 <= i < |rs| && rs[i].Saved? ==>
         rs[i].path == EntryPath(dir, Filenames.PlaylistEntryName(i, tracks[i].artist, tracks[i].title))
  }

  lemma {:induction false} ResultsLocated(p: SpotifyService.Playlist, dir: string,
                                          found: seq<Option<YouTubeService.Match>>, attempts: nat -> Attempt)
    requires |found| == |p.tracks|
    ensures Located(Results(p, dir, found, attempts), dir, p.tracks)
  {
    var rs := Results(p, dir, found, attempts);
    forall i | 0 <= i < |rs| && rs[i].Saved?
      ensures rs[i].path == EntryPath(dir, Filenames.PlaylistEntryName(i, p.tracks[i].artist, p.tracks[i].title))
    {
      assert rs[i] == DownloadTrack(dir, i, p.tracks[i], found[i], attempts(i));
    }
  }

  /** The files the archive is built from are the saved tracks' paths in
      playlist order, and their entry names are pairwise distinct. */
  lemma {:induction false} ArchiveFiles(slots: seq<Option<string>>, p: SpotifyService.Playlist, dir: string,
                                        found: seq<Option<YouTubeService.Match>>, attempts: nat -> Attempt)
    requires |slots| == |p.tracks| == |found|
    requires forall i :: 0 <= i < |p.tracks| ==> slots[i] == SlotOf(Results(p, dir, found, attempts)[i])
    ensures Present(slots) == SavedPaths(Results(p, dir, found, attempts))
    ensures DistinctNames(Basenames(Present(slots)))
  {
    var rs := Results(p, dir, found, attempts);
    ResultsLocated(p, dir, found, attempts);
    LocatedNonEmpty(rs, dir, p.tracks);
    PresentSlots(slots, rs);
    ArchiveEntriesDistinct(rs, dir, p.tracks);
  }

  /** A prefix of located results is located in the same directory. */
  lemma {:induction false} LocatedPrefix(rs: seq<TrackResult>, dir: string,
                                         tracks: seq<SpotifyService.PlaylistTrack>, m: nat)
    requires Located(rs, dir, tracks) && m <= |rs|
    ensures Located(rs[..m], dir, tracks[..m])
  {
    forall i | 0 <= i < m && rs[..m][i].Saved?
      ensures rs[..m][i].path
           == EntryPath(dir, Filenames.PlaylistEntryName(i, tracks[..m][i].artist, tracks[..m][i].title))
    {
      assert rs[..m][i] == rs[i] && tracks[..m][i] == tracks[i];
    }
  }

  /** Every saved result has a non-empty path. */
  ghost predicate NonEmptyPaths(rs: seq<TrackResult>) {
    forall i :: 0 <= i < |rs| && rs[i].Saved? ==> rs[i].path != ""
  }

  lemma {:induction false} LocatedNonEmpty(rs: seq<TrackResult>, dir: string,
                                           tracks: seq<SpotifyService.PlaylistTrack>)
    requires Located(rs, dir, tracks)
    ensures NonEmptyPaths(rs)
  {
    forall i | 0 <= i < |rs| && rs[i].Saved? ensures rs[i].path != "" {
      assert rs[i].path == EntryPath(dir, Filenames.PlaylistEntryName(i, tracks[i].artist, tracks[i].title));
    }
  }

  /** Once every track has settled, the files collected from the slots are
      the saved tracks' paths in playlist order, whatever order the
      downloads settled in. */
  lemma {:induction false} PresentSlots(slots: seq<Option<string>>, rs: seq<TrackResult>)
    requires NonEmptyPaths(rs) && |slots| == |rs|
    requires forall i :: 0 <= i < |rs| ==> slots[i] == SlotOf(rs[i])
    ensures Present(slots) == SavedPaths(rs)
    decreases |rs|
  {
    if rs != [] {
      var m := |rs| - 1;
      assert forall i :: 0 <= i < m ==> rs[..m][i] == rs[i] && slots[..m][i] == slots[i];
      PresentSlots(slots[..m], rs[..m]);
    }
  }

  function Basenames(paths: seq<string>): seq<string> {
    seq(|paths|, k requires 0 <= k < |paths| => Basename(paths[k]))
  }

  predicate DistinctNames(s: seq<string>) {
    forall i, j :: 0 <= i < j < |s| ==> s[i] != s[j]
  }

  /** A saved path among the first results is the path of one of them. */
  lemma {:induction false} SavedPathsFrom(rs: seq<TrackResult>, x: string)
    requires x in SavedPaths(rs)
    ensures exists i :: 0 <= i < |rs| && rs[i].Saved? && rs[i].path == x
    decreases |rs|
  {
    var m := |rs| - 1;
    if x in SavedPaths(rs[..m]) {
      SavedPathsFrom(rs[..m], x);
      var i :| 0 <= i < m && rs[..m][i].Saved? && rs[..m][i].path == x;
      assert rs[i] == rs[..m][i];
    } else {
      assert rs[m].Saved? && rs[m].path == x;
    }
  }

  /** A file saved before the last settled track has a different entry
      name from the last one's. */
  lemma {:induction false} EarlierNameDiffers(rs: seq<TrackResult>, dir: string,
                                              tracks: seq<SpotifyService.PlaylistTrack>, m: nat, x: string)
    requires Located(rs, dir, tracks) && m < |rs| && rs[m].Saved?
    requires x in SavedPaths(rs[..m])
    ensures Basename(x) != Basename(rs[m].path)
  {
    SavedPathsFrom(rs[..m], x);
    var i :| 0 <= i < m && rs[..m][i].Saved? && rs[..m][i].path == x;
    assert rs[i] == rs[..m][i];
    ArchiveEntryName(dir, i, tracks[i].artist, tracks[i].title);
    ArchiveEntryName(dir, m, tracks[m].artist, tracks[m].title);
    Filenames.PlaylistEntryNamesDistinct(i, tracks[i].artist, tracks[i].title, m, tracks[m].artist, tracks[m].title);
  }

  lemma {:induction false} DistinctSnoc(names: seq<string>, y: string)
    requires DistinctNames(names)
    requires forall k :: 0 <= k < |names| ==> names[k] != y
    ensures DistinctNames(names + [y])
  {
    var all := names + [y];
    forall i, j | 0 <= i < j < |all| ensures all[i] != all[j] {
      assert all[i] == names[i];
    }
  }

  /** The archive's entry names are pairwise distinct: no track's file
      replaces another's in the ZIP. */
  lemma {:induction false} ArchiveEntriesDistinct(rs: seq<TrackResult>, dir: string,
                                                  tracks: seq<SpotifyService.PlaylistTrack>)
    requires Located(rs, dir, tracks)
    ensures DistinctNames(Basenames(SavedPaths(rs)))
    decreases |rs|
  {
    if rs != [] {
      var m := |rs| - 1;
      var front := SavedPaths(rs[..m]);
      LocatedPrefix(rs, dir, tracks, m);
      ArchiveEntriesDistinct(rs[..m], dir, tracks[..m]);
      if rs[m].Saved? {
        SavedEntryDistinct(rs, dir, tracks);
      } else {
        assert SavedPaths(rs) == front;
      }
    }
  }

  /** A saved last result keeps the entry names of the saved results
      before it pairwise distinct. */
  lemma {:induction false} SavedEntryDistinct(rs: seq<TrackResult>, dir: string,
                                              tracks: seq<SpotifyService.PlaylistTrack>)
    requires Located(rs, dir, tracks) && rs != [] && Pipelines.Last(rs).Saved?
    requires DistinctNames(Basenames(SavedPaths(rs[..|rs| - 1])))
    ensures DistinctNames(Basenames(SavedPaths(rs)))
  {
    var m := |rs| - 1;
    var front := SavedPaths(rs[..m]);
    var y := Basename(rs[m].path);
    FrontNamesDiffer(rs, dir, tracks, m, front);
    DistinctSnoc(Basenames(front), y);
    assert SavedPaths(rs) == front + [rs[m].path];
    BasenamesSnoc(front, rs[m].path);
  }

  /** The entry name of a saved last result differs from every earlier one. */
  lemma {:induction false} FrontNamesDiffer(rs: seq<TrackResult>, dir: string,
                                            tracks: seq<SpotifyService.PlaylistTrack>, m: nat, front: seq<string>)
    requires Located(rs, dir, tracks) && m < |rs| && rs[m].Saved? && front == SavedPaths(rs[..m])
    ensures forall k :: 0 <= k < |front| ==> Basenames(front)[k] != Basename(rs[m].path)
  {
    forall k | 0 <= k < |front| ensures Basenames(front)[k] != Basename(rs[m].path) {
      assert front[k] in front;
      EarlierNameDiffers(rs, dir, tracks, m, front[k]);
    }
  }

  lemma {:induction false} BasenamesSnoc(front: seq<string>, x: string)
    ensures Basenames(front + [x]) == Basenames(front) + [Basename(x)]
  {
  }

  /** What the archiver and `fs.statSync` answer: whether the archive was
      written (or the error it failed with), and the archive's size unless
      reading it failed. */
  datatype Archive = Archive(ok: bool, message: string, size: Option<nat>, statMessage: string)

  // ---------------------------------------------------------------- the pipeline

  /** The update after the playlist was fetched. */
  function FoundUpdate(p: SpotifyService.Playlist): Update {
    Pipelines.StepUpdate("Found " + NatToString(p.totalTracks) + " tracks", 10).(
      metadata := Some(JobMetadata(p.name, p.owner, Some(NatToString(p.totalTracks) + " tracks"), p.coverUrl,
                                   None, Some(p.totalTracks))),
      playlistInfo := Some(PlaylistInfo(p.name, p.totalTracks, 0, 0, Some(0), None, None)))
  }

  /** `failedTrackNames.slice(0, 5)`. */
  function FirstFive(names: seq<string>): (r: seq<string>)
    ensures |r| <= 5 && r <= names
    ensures |names| <= 5 ==> r == names
  {
    if |names| <= 5 then names else names[..5]
  }

  /** The success update of a playlist. */
  function PlaylistCompleted(p: SpotifyService.Playlist, downloadUrl: string, size: nat,
                             completed: nat, failed: nat, names: seq<string>, now: int): Update
  {
    Pipelines.CompletedUpdate(downloadUrl, Filenames.ArchiveName(p.name), size, now).(
      playlistInfo := Some(PlaylistInfo(p.name, p.totalTracks, completed, failed, None, None,
                                        Some(FirstFive(names)))))
  }

  /** The update the archive step ends with. */
  function ArchiveOutcome(p: SpotifyService.Playlist, archive: Archive, downloadUrl: string,
                          completed: nat, failed: nat, names: seq<string>, now: int): Update
  {
    if !archive.ok then Pipelines.ErrorUpdate(archive.message, PlaylistFailed)
    else if archive.size.None? then Pipelines.ErrorUpdate(archive.statMessage, PlaylistFailed)
    else PlaylistCompleted(p, downloadUrl, archive.size.value, completed, failed, names, now)
  }

  /** A playlist job ends completed whenever its archive is written and
      measured, even when every track failed; the counters then cover every
      track and at most five failed titles are kept, the first to fail.
      Otherwise it ends in error with a non-empty message. */
  lemma {:induction false} ArchiveOutcomeSpec(p: SpotifyService.Playlist, archive: Archive, downloadUrl: string,
                                              completed: nat, failed: nat, names: seq<string>, now: int)
    requires completed + failed == |p.tracks| && failed == |names|
    ensures var u := ArchiveOutcome(p, archive, downloadUrl, completed, failed, names, now);
      && (u.status == Some("completed") <==> archive.ok && archive.size.Some?)
      && (u.status == Some("completed") ==>
            && u.progress == Some(100) && u.downloadUrl == Some(downloadUrl)
            && u.filename == Some(Filenames.ArchiveName(p.name)) && u.fileSize == Some(archive.size.value)
            && u.playlistInfo.Some?
            && u.playlistInfo.value.completedTracks + u.playlistInfo.value.failedTracks == |p.tracks|
            && u.playlistInfo.value.failedTrackNames.Some?
            && |u.playlistInfo.value.failedTrackNames.value| == (if failed <= 5 then failed else 5)
            && u.playlistInfo.value.failedTrackNames.value <= names)
      && (u.status != Some("completed") ==>
            u.status == Some("error") && u.progress == Some(0) && u.error.Some? && u.error.value != "")
  {
  }

  /** `processInBatches()` over the playlist's tracks, from a fresh
      scheduler state: every track settles exactly once, in some order;
      the counters and the failed titles are those of that order; the slots
      hold exactly the saved tracks' paths; and the progress updates rise
      within the download phase. */
  method DownloadTracks(store: Store, jobId: string, p: SpotifyService.Playlist, dir: string,
                        search: YouTubeService.Search, attempts: nat -> Attempt, now: int,
                        ghost start: map<string, Job>, ghost done: seq<Update>)
    returns (trackResults: array<Option<string>>, completed: nat, failed: nat, failedNames: seq<string>,
             ghost batch: seq<Update>, ghost order: seq<nat>, ghost found: seq<Option<YouTubeService.Match>>)
    requires store.Valid() && store.jobs == Pipelines.Replay(start, jobId, done, now)
    modifies store
    ensures store.Valid() && store.jobs == Pipelines.Replay(start, jobId, done + batch, now)
    ensures |order| == |p.tracks| && Distinct(order) && (forall i :: 0 <= i < |p.tracks| ==> i in order)
    ensures forall k :: 0 <= k < |order| ==> order[k] < |p.tracks|
    ensures FoundBy(found, p.tracks, search)
    ensures var rs := Results(p, dir, found, attempts);
      && completed == CountSaved(rs, order) && failedNames == MissedNames(rs, order)
      && failed == |failedNames| && completed + failed == |p.tracks|
      && trackResults.Length == |p.tracks|
      && (forall i :: 0 <= i < |p.tracks| ==> trackResults[i] == SlotOf(rs[i]))
    ensures Rising(batch) && forall k :: 0 <= k < |batch| ==> WithinBatch(batch[k])
    ensures |batch| == 2 * |p.tracks|
    ensures |p.tracks| > 0 ==> Pipelines.Last(batch).progress == Some(90)
  {
    var b := new Batch(store, jobId, p, dir, search, attempts, now, start, done);
    b.Run(store);
    trackResults, completed, failed, failedNames := b.trackResults, b.completedTracks, b.failedTracks, b.failedTrackNames;
    batch, order, found := b.posted, b.order, b.found;
    SchedulerDone(|p.tracks|, b.rs, order, completed, failed, failedNames, trackResults[..]);
    assert b.rs == Results(p, dir, found, attempts);
    if p.tracks != [] {
      AscendingRising(batch, BatchProgress(b.level, |p.tracks|));
      BatchProgressMonotone(|p.tracks|, |p.tracks|, |p.tracks|);
    }
  }

  /** Packs the downloaded files and posts the outcome. */
  method FinishArchive(store: Store, jobId: string, p: SpotifyService.Playlist, files: seq<string>,
                       archive: Archive, env: Pipelines.Env, completed: nat, failed: nat,
                       failedNames: seq<string>, now: int, ghost start: map<string, Job>, ghost done: seq<Update>)
    returns (ghost entries: seq<string>)
    requires store.Valid() && store.jobs == Pipelines.Replay(start, jobId, done, now)
    modifies store
    ensures entries == Basenames(files)
    ensures store.Valid() && store.jobs == Pipelines.Replay(start, jobId, done + [
      Pipelines.StepUpdate(CreatingZip, 92),
      ArchiveOutcome(p, archive, FileManager.GetDownloadUrl(env.backendUrl, env.port, jobId + ".zip"),
                     completed, failed, failedNames, now)], now)
  {
    var u := Pipelines.StepUpdate(CreatingZip, 92);
    Pipelines.Post(store, jobId, u, now, start, done);
    // archive.file(filePath, { name: path.basename(filePath) }) for each file
    entries := Basenames(files);
    var url := FileManager.GetDownloadUrl(env.backendUrl, env.port, jobId + ".zip");
    var v := ArchiveOutcome(p, archive, url, completed, failed, failedNames, now);
    Pipelines.Post(store, jobId, v, now, start, done + [u]);
    assert done + [u] + [v] == done + [u, v];
  }

  /** `processPlaylistConversion(jobId, playlistId, spotifyUrl)`, with the
      playlist service's answer, the search results, each track's
      download, the archiver and the clock given. */
  method ProcessPlaylistConversion(store: Store, jobId: string, fetched: Result<SpotifyService.Playlist>,
                                   tempDir: string, search: YouTubeService.Search,
                                   attempts: nat -> Attempt, archive: Archive, env: Pipelines.Env, now: int)
    returns (ghost trace: seq<Update>, ghost batch: seq<Update>, ghost order: seq<nat>,
             ghost found: seq<Option<YouTubeService.Match>>, ghost entries: seq<string>)
    requires store.Valid()
    modifies store
    ensures store.Valid() && store.jobs == Pipelines.Replay(old(store.jobs), jobId, trace, now)
    ensures fetched.Failure? ==>
      trace == [Pipelines.StepUpdate(FetchingPlaylist, 5), Pipelines.ErrorUpdate(fetched.message, PlaylistFailed)]
    ensures fetched.Success? ==>
      var p := fetched.value;
      && FoundBy(found, p.tracks, search)
      && var rs := Results(p, PlaylistDir(tempDir, jobId), found, attempts);
      && |order| == |p.tracks| && Distinct(order) && (forall i :: 0 <= i < |p.tracks| ==> i in order)
      && (forall k :: 0 <= k < |order| ==> order[k] < |p.tracks|)
      && trace == [Pipelines.StepUpdate(FetchingPlaylist, 5), FoundUpdate(p)] + batch
                  + [Pipelines.StepUpdate(CreatingZip, 92),
                     ArchiveOutcome(p, archive, FileManager.GetDownloadUrl(env.backendUrl, env.port, jobId + ".zip"),
                                    CountSaved(rs, order), |MissedNames(rs, order)|, MissedNames(rs, order), now)]
      && CountSaved(rs, order) + |MissedNames(rs, order)| == |p.tracks|
      && Rising(batch) && (forall k :: 0 <= k < |batch| ==> WithinBatch(batch[k]))
      && |batch| == 2 * |p.tracks| && (|p.tracks| > 0 ==> Pipelines.Last(batch).progress == Some(90))
      && entries == Basenames(SavedPaths(rs)) && DistinctNames(entries)
  {
    ghost var start := store.jobs;
    var u := Pipelines.StepUpdate(FetchingPlaylist, 5);
    Pipelines.Post(store, jobId, u, now, start, []);
    trace := [u];
    if fetched.Failure? {
      u := Pipelines.ErrorUpdate(fetched.message, PlaylistFailed);
      Pipelines.Post(store, jobId, u, now, start, trace);
      trace := trace + [u];
      batch, order, found, entries := [], [], [], [];
      return;
    }
    var p := fetched.value;
    var dir := PlaylistDir(tempDir, jobId);
    var v := FoundUpdate(p);
    Pipelines.Post(store, jobId, v, now, start, trace);
    ghost var opening := [u, v];
    assert trace + [v] == opening;
    var trackResults, completed, failed, failedNames;
    trackResults, completed, failed, failedNames, batch, order, found :=
      DownloadTracks(store, jobId, p, dir, search, attempts, now, start, opening);
    var downloaded := CollectDownloaded(trackResults);
    ArchiveFiles(trackResults[..], p, dir, found, attempts);
    entries := FinishArchive(store, jobId, p, downloaded, archive, env, completed, failed, failedNames, now,
                             start, opening + batch);
    trace := opening + batch + [Pipelines.StepUpdate(CreatingZip, 92),
      ArchiveOutcome(p, archive, FileManager.GetDownloadUrl(env.backendUrl, env.port, jobId + ".zip"),
                     completed, failed, failedNames, now)];
  }
}
