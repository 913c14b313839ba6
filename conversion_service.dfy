/** Acquisition of one audio file: the video is downloaded as MP3 into the
    temporary directory under the job's id, the temporary audio file is
    removed, and the MP3 is tagged from the track's metadata; on failure
    both files the job may have left are removed and the error is passed
    on. The temporary directory is a set of file names; the downloader
    process, the cover-art request and the sizes the file system reports
    are parameters. */
module ConversionService {
  import opened Wrappers
  import opened Text
  import SpotifyService

  // ---------------------------------------------------------------- tagMP3File

  /** The metadata fields the tagger reads; `album` is absent for sources
      that have none. */
  datatype TagSource = TagSource(
    title: string,
    artist: string,
    album: Option<string>,
    coverUrl: Option<string>,
    releaseDate: Option<string>,
    trackNumber: Option<int>)

  /** The embedded front-cover picture. */
  datatype CoverImage = CoverImage(
    mime: string, pictureType: int, pictureTypeName: string, description: string, data: seq<bv8>)

  /** The ID3 frames written; `None` is a frame left undefined. */
  datatype Tags = Tags(
    title: string,
    artist: string,
    album: string,
    year: Option<string>,
    trackNumber: Option<string>,
    image: Option<CoverImage>)

  const UnknownAlbum := "Unknown Album"

  /** `s.split("-")[0]`: the longest prefix without a dash. */
  function BeforeDash(s: string): (r: string)
    ensures r <= s
    ensures forall i :: 0 <= i < |r| ==> r[i] != '-'
    ensures |r| < |s| ==> s[|r|] == '-'
  {
    if s == [] || s[0] == '-' then [] else [s[0]] + BeforeDash(s[1..])
  }

  /** The year frame: the release date up to its first dash, when there is a date. */
  function Year(releaseDate: Option<string>): Option<string> {
    if SpotifyService.Truthy(releaseDate) then Some(BeforeDash(releaseDate.value)) else None
  }

  /** `n?.toString()`. */
  function TrackNumberText(n: Option<int>): Option<string> {
    if n.Some? then Some(IntToString(n.value)) else None
  }

  /** The picture attached when the cover is fetched. */
  function FrontCover(data: seq<bv8>): CoverImage {
    CoverImage("image/jpeg", 3, "front cover", "Cover", data)
  }

  /** The tag record `tagMP3File` writes. `cover` is what requesting the
      cover URL returns (`None` when the request fails); it is only asked
      for when the metadata has a cover URL. */
  function TagRecord(meta: TagSource, cover: Option<seq<bv8>>): Tags {
    var image := if SpotifyService.Truthy(meta.coverUrl) && cover.Some? then Some(FrontCover(cover.value)) else None;
    Tags(meta.title, meta.artist, SpotifyService.OrDefault(meta.album, UnknownAlbum),
      Year(meta.releaseDate), TrackNumberText(meta.trackNumber), image)
  }

  /** Title and artist are copied; the album falls back to "Unknown Album";
      the year is present exactly for a non-empty release date and is the
      part before its first dash; the track number is present exactly when
      the metadata has one and reads back as that number; a cover is
      embedded exactly when there is a cover URL and fetching it succeeded,
      so a failed fetch only leaves the picture out. */
  lemma {:induction false} TagRecordFields(meta: TagSource, cover: Option<seq<bv8>>)
    ensures var t := TagRecord(meta, cover);
      && t.title == meta.title && t.artist == meta.artist
      && (SpotifyService.Truthy(meta.album) ==> t.album == meta.album.value)
      && (!SpotifyService.Truthy(meta.album) ==> t.album == UnknownAlbum)
      && (t.year.Some? <==> SpotifyService.Truthy(meta.releaseDate))
      && (t.year.Some? ==> YearOf(meta.releaseDate.value, t.year.value))
      && (t.trackNumber.Some? <==> meta.trackNumber.Some?)
      && (t.trackNumber.Some? && meta.trackNumber.value >= 0 ==> ParseNat(t.trackNumber.value) == meta.trackNumber.value)
      && (t.image.Some? <==> SpotifyService.Truthy(meta.coverUrl) && cover.Some?)
      && (t.image.Some? ==> t.image.value.data == cover.value && t.image.value.mime == "image/jpeg")
  {
    var t := TagRecord(meta, cover);
    if meta.trackNumber.Some? && meta.trackNumber.value >= 0 {
      ParseNatToString(meta.trackNumber.value);
    }
  }

  /** `y` is the year part of `date`: a dash-free prefix ending where the
      date ends or at a dash. */
  predicate YearOf(date: string, y: string) {
    && y <= date
    && (forall i :: 0 <= i < |y| ==> y[i] != '-')
    && (|y| == |date| || date[|y|] == '-')
  }

  /** An ISO date gives its four-digit year. */
  lemma {:induction false} YearOfIsoDate(y: string, rest: string)
    requires forall i :: 0 <= i < |y| ==> IsDigit(y[i])
    ensures Year(Some(y + "-" + rest)) == Some(y)
  {
    var s := y + "-" + rest;
    var r := BeforeDash(s);
    assert s[|y|] == '-';
    assert forall i :: 0 <= i < |y| ==> s[i] == y[i] && s[i] != '-';
    assert r == y;
  }

  // ---------------------------------------------------------------- downloadAndConvert

  /** The two names a job's download can leave in the temporary directory. */
  function TempAudioName(jobId: string): string { jobId + "_temp.webm" }
  function OutputName(jobId: string): string { jobId + ".mp3" }

  /** What running the downloader does: whether it exits successfully, the
      message of the error it raises otherwise, and the files it leaves in
      the temporary directory either way. */
  datatype DownloadRun = DownloadRun(ok: bool, message: string, written: set<string>)

  /** What the outside world answers during one acquisition: the downloader
      run; the cover-art bytes (`None` when that request fails); the size
      the file system reports for the MP3, or `statMessage` as the error
      when the MP3 is missing; the files whose removal fails, and the error
      `unlinkMessage` that removing one of them raises. */
  datatype Downloader = Downloader(
    run: DownloadRun, cover: Option<seq<bv8>>, size: nat, statMessage: string, stuck: set<string>,
    unlinkMessage: string)

  /** The result of a successful acquisition. */
  datatype ConvertedFile = ConvertedFile(filename: string, fileSize: nat)

  /** The catch block's cleanup: each of the job's two files is unlinked
      unless unlinking it fails (`stuck`), which is ignored. */
  function Cleanup(files: set<string>, jobId: string, stuck: set<string>): set<string> {
    files - ({TempAudioName(jobId), OutputName(jobId)} - stuck)
  }

  /** One run of `downloadAndConvert`: its outcome, the progress values it
      reports, the tags it writes (once it gets that far) and the directory
      afterwards. */
  datatype Acquisition = Acquisition(
    outcome: Result<ConvertedFile>, progress: seq<int>, tags: Option<Tags>, files: set<string>)

  /** After a successful download the temporary audio file is there and
      removing it fails: the error goes to the catch block. */
  predicate TempUnlinkFails(files: set<string>, jobId: string, dl: Downloader) {
    TempAudioName(jobId) in files + dl.run.written && TempAudioName(jobId) in dl.stuck
  }

  /** `downloadAndConvert` on values. */
  function Acquire(files: set<string>, jobId: string, meta: TagSource, dl: Downloader): Acquisition {
    var after := files + dl.run.written;
    if !dl.run.ok then
      Acquisition(Failure(dl.run.message), [10], None, Cleanup(after, jobId, dl.stuck))
    else if TempUnlinkFails(files, jobId, dl) then
      Acquisition(Failure(dl.unlinkMessage), [10, 90], None, Cleanup(after, jobId, dl.stuck))
    else
      var tidy := after - {TempAudioName(jobId)};
      var tags := Some(TagRecord(meta, dl.cover));
      if OutputName(jobId) !in tidy then
        Acquisition(Failure(dl.statMessage), [10, 90, 100], tags, Cleanup(tidy, jobId, dl.stuck))
      else
        Acquisition(Success(ConvertedFile(OutputName(jobId), dl.size)), [10, 90, 100], tags, tidy)
  }

  /** A job's two names never coincide, and different jobs never share a name. */
  lemma {:induction false} JobNamesDistinct(j: string, k: string)
    ensures TempAudioName(j) != OutputName(k)
    ensures OutputName(j) == OutputName(k) ==> j == k
    ensures TempAudioName(j) == TempAudioName(k) ==> j == k
  {
    var t, o := TempAudioName(j), OutputName(k);
    assert t[|t| - 1] == 'm' && o[|o| - 1] == '3';
    if OutputName(j) == OutputName(k) {
      assert j == OutputName(j)[..|j|] && k == OutputName(k)[..|k|];
    }
    if TempAudioName(j) == TempAudioName(k) {
      assert j == TempAudioName(j)[..|j|] && k == TempAudioName(k)[..|k|];
    }
  }

  /** The progress reported is a prefix of 10, 90, 100: only 10 when the
      downloader fails, 10 and 90 when removing the temporary audio file
      fails, and all three, in that order, otherwise and on success. */
  lemma {:induction false} AcquireProgress(
    files: set<string>, jobId: string, meta: TagSource, dl: Downloader)
    ensures var a := Acquire(files, jobId, meta, dl);
      && 1 <= |a.progress| && a.progress <= [10, 90, 100]
      && (a.progress == [10] <==> !dl.run.ok)
      && (a.progress == [10, 90] <==> dl.run.ok && TempUnlinkFails(files, jobId, dl))
      && (a.outcome.Success? ==> a.progress == [10, 90, 100])
      && (forall i, j :: 0 <= i < j < |a.progress| ==> a.progress[i] < a.progress[j])
  {
  }

  /** It succeeds exactly when the downloader succeeded, the temporary
      audio file is not stuck and the MP3 is there; it then names the job's
      MP3, which stays, while the temporary audio file is gone. */
  lemma {:induction false} AcquireSuccess(
    files: set<string>, jobId: string, meta: TagSource, dl: Downloader)
    ensures var a := Acquire(files, jobId, meta, dl);
      && (a.outcome.Success? <==>
            dl.run.ok && !TempUnlinkFails(files, jobId, dl) && OutputName(jobId) in files + dl.run.written)
      && (a.outcome.Success? ==>
            && a.outcome.value.filename == jobId + ".mp3"
            && a.outcome.value.fileSize == dl.size
            && OutputName(jobId) in a.files
            && TempAudioName(jobId) !in a.files
            && a.tags == Some(TagRecord(meta, dl.cover)))
  {
    JobNamesDistinct(jobId, jobId);
  }

  /** On failure the error of the first failing step is passed on
      unchanged (the downloader's, the temporary file's removal, or the
      missing MP3's), both of the job's files are gone unless unlinking one
      failed, and no other file is touched. */
  lemma {:induction false} AcquireFailure(
    files: set<string>, jobId: string, meta: TagSource, dl: Downloader)
    ensures var a := Acquire(files, jobId, meta, dl);
      && (!dl.run.ok ==> a.outcome == Failure(dl.run.message))
      && (dl.run.ok && TempUnlinkFails(files, jobId, dl) ==>
            a.outcome == Failure(dl.unlinkMessage) && a.tags == None)
      && (dl.run.ok && !TempUnlinkFails(files, jobId, dl) && OutputName(jobId) !in files + dl.run.written ==>
            a.outcome == Failure(dl.statMessage) && a.tags == Some(TagRecord(meta, dl.cover)))
      && (a.outcome.Failure? ==>
            && (TempAudioName(jobId) !in dl.stuck ==> TempAudioName(jobId) !in a.files)
            && (OutputName(jobId) !in dl.stuck ==> OutputName(jobId) !in a.files))
      && (forall f :: f != TempAudioName(jobId) && f != OutputName(jobId) ==>
            (f in a.files <==> f in files + dl.run.written))
  {
  }

  /** The temporary directory, as the set of names in it. */
  class TempFolder {
    var files: set<string>

    constructor (files: set<string>)
      ensures this.files == files
    {
      this.files := files;
    }

    /** `[tempAudioPath, outputPath].forEach(...)` in the catch block. */
    method RemoveJobFiles(jobId: string, stuck: set<string>)
      modifies this
      ensures files == Cleanup(old(files), jobId, stuck)
    {
      var paths := [TempAudioName(jobId), OutputName(jobId)];
      for i := 0 to 2
        invariant files == old(files) - (set p | p in paths[..i] && p !in stuck)
      {
        var file := paths[i];
        if file in files && file !in stuck {
          files := files - {file};
        }
        assert paths[..i + 1] == paths[..i] + [file];
      }
      assert paths[..2] == paths;
    }

    /** `downloadAndConvert(youtubeMatch, metadata, jobId, onProgress)`:
        returns the outcome, the values passed to `onProgress` in order,
        and the tags written. */
    method DownloadAndConvert(jobId: string, meta: TagSource, dl: Downloader)
      returns (outcome: Result<ConvertedFile>, progress: seq<int>, tags: Option<Tags>)
      modifies this
      ensures Acquisition(outcome, progress, tags, files) == Acquire(old(files), jobId, meta, dl)
    {
      var tempAudio, output := TempAudioName(jobId), OutputName(jobId);
      progress := [10];
      tags := None;
      files := files + dl.run.written;
      if !dl.run.ok {
        RemoveJobFiles(jobId, dl.stuck);
        return Failure(dl.run.message), progress, tags;
      }
      progress := progress + [90];
      // The check and unlink are written twice; once the first unlink has
      // succeeded the second check never finds the file.
      if tempAudio in files {
        if tempAudio in dl.stuck {
          RemoveJobFiles(jobId, dl.stuck);
          return Failure(dl.unlinkMessage), progress, tags;
        }
        files := files - {tempAudio};
      }
      tags := Some(TagRecord(meta, dl.cover));
      progress := progress + [100];
      if output !in files {
        RemoveJobFiles(jobId, dl.stuck);
        return Failure(dl.statMessage), progress, tags;
      }
      outcome := Success(ConvertedFile(output, dl.size));
    }
  }
}
