// The `POST /convert` rule: validate the submitted link, classify it,
// create exactly one pending job for it and hand it to the pipeline for its
// kind. The uuid generator and the clock are parameters.

module ConvertRoute {
  import opened Wrappers
  import opened UrlClassifier
  import opened JobStore

  /** The JSON answer of the handler: a 400 with an error and an explanation,
      or the acceptance carrying the new job's id. */
  datatype Response =
    | BadRequest(error: string, message: string)
    | Accepted(jobId: string, message: string, status: string)

  /** The background function the handler starts for an accepted link. */
  datatype Pipeline = TrackConversion | PlaylistConversion | VideoConversion

  /** A started pipeline and its three arguments: the job, the classifier's
      id and the submitted link. */
  datatype Dispatch = Dispatch(pipeline: Pipeline, jobId: string, sourceId: string, url: string)

  /** What the handler decides before touching the store. */
  datatype Verdict =
    | Refused(error: string, message: string)
    | Classified(info: UrlInfo, url: string)

  datatype Outcome = Outcome(jobs: map<string, Job>, response: Response, dispatch: Option<Dispatch>)

  const MissingError := "URL is required"
  const MissingMessage := "Please provide a valid Spotify or YouTube URL"
  const InvalidError := "Invalid URL"
  const InvalidMessage := "Please provide a valid Spotify track/playlist or YouTube video URL"
  const StartedMessage := "Conversion started"

  /** The `type` string the classifier reports for each kind of link. */
  function TypeName(t: UrlType): string {
    match t
    case SpotifyTrack => "spotify"
    case SpotifyPlaylist => "spotify-playlist"
    case YouTube => "youtube"
  }

  /** The dispatch on the type string: "spotify", then "spotify-playlist",
      and the video pipeline for anything else. */
  function PipelineFor(typeName: string): Pipeline {
    if typeName == "spotify" then TrackConversion
    else if typeName == "spotify-playlist" then PlaylistConversion
    else VideoConversion
  }

  /** `!spotifyUrl`: an absent field or the empty string. */
  predicate Missing(spotifyUrl: Option<string>) {
    spotifyUrl.None? || spotifyUrl.value == ""
  }

  /** The two guards of the handler, in order. */
  function Check(spotifyUrl: Option<string>): Verdict {
    if Missing(spotifyUrl) then Refused(MissingError, MissingMessage)
    else match DetectUrlType(spotifyUrl.value)
      case None => Refused(InvalidError, InvalidMessage)
      case Some(info) => Classified(info, spotifyUrl.value)
  }

  /** The record handed to `create` for a classified link. */
  function JobFor(jobId: string, info: UrlInfo): NewJob {
    NewJob(jobId, Some("pending"), Some("Initializing..."), Some(0), Some(TypeName(info.urlType)), Some(info.id))
  }

  /** The whole effect of one request on the job table, the answer and the
      background work. */
  function Handle(jobs: map<string, Job>, spotifyUrl: Option<string>, jobId: string, now: int): Outcome {
    match Check(spotifyUrl)
    case Refused(error, message) => Outcome(jobs, BadRequest(error, message), None)
    case Classified(info, url) =>
      Outcome(jobs[jobId := NewRecord(JobFor(jobId, info), now)],
              Accepted(jobId, StartedMessage, "pending"),
              Some(Dispatch(PipelineFor(TypeName(info.urlType)), jobId, info.id, url)))
  }

  /** The handler itself, on the shared store; `jobId` is the fresh uuid. */
  method Convert(store: Store, spotifyUrl: Option<string>, jobId: string, now: int)
    returns (response: Response, dispatch: Option<Dispatch>)
    requires store.Valid() && jobId !in store.jobs
    modifies store
    ensures store.Valid()
    ensures Outcome(store.jobs, response, dispatch) == Handle(old(store.jobs), spotifyUrl, jobId, now)
  {
    var verdict := Check(spotifyUrl);
    if verdict.Refused? {
      return BadRequest(verdict.error, verdict.message), None;
    }
    var info := verdict.info;
    var created := store.Create(JobFor(jobId, info), now);
    response := Accepted(jobId, StartedMessage, "pending");
    var typeName := TypeName(info.urlType);
    dispatch := Some(Dispatch(PipelineFor(typeName), jobId, info.id, verdict.url));
  }

  // ------------------------------------------------------------------
  // Properties.

  /** Every kind has its own type string, and the dispatch on that string
      starts the pipeline for that kind. */
  lemma {:induction false} DispatchMatchesKind(t: UrlType, u: UrlType)
    ensures TypeName(t) == TypeName(u) <==> t == u
    ensures PipelineFor(TypeName(t)) ==
      match t
      case SpotifyTrack => TrackConversion
      case SpotifyPlaylist => PlaylistConversion
      case YouTube => VideoConversion
  {
  }

  /** The classifier never reports an empty id: each shape requires at least
      one id character. */
  lemma {:induction false} ClassifiedIdNonEmpty(url: string)
    requires DetectUrlType(url).Some?
    ensures DetectUrlType(url).value.id != ""
  {
    var info := DetectUrlType(url).value;
    match info.urlType
    case SpotifyTrack => TrackExact(url, info.id);
    case SpotifyPlaylist => PlaylistExact(url, info.id);
    case YouTube => VideoExact(url, info.id);
  }

  /** A request is accepted exactly when the link is present and has one of
      the three shapes; what is accepted is the kind and the id of that shape. */
  lemma {:induction false} CheckExact(spotifyUrl: Option<string>, id: string)
    ensures Check(spotifyUrl).Classified? ==> spotifyUrl.Some? && Check(spotifyUrl).url == spotifyUrl.value
    ensures Check(spotifyUrl) == Refused(MissingError, MissingMessage) <==> Missing(spotifyUrl)
    ensures !Missing(spotifyUrl) ==>
      var url, v := spotifyUrl.value, Check(spotifyUrl);
      && (v == Classified(UrlInfo(SpotifyTrack, id), url) <==> SpotifyShape(url, "track/", id))
      && (v == Classified(UrlInfo(SpotifyPlaylist, id), url) <==> SpotifyShape(url, "playlist/", id))
      && (v == Classified(UrlInfo(YouTube, id), url) <==> VideoShape(url, id))
      && (v == Refused(InvalidError, InvalidMessage) <==>
            forall i :: !SpotifyShape(url, "track/", i) && !SpotifyShape(url, "playlist/", i) && !VideoShape(url, i))
  {
    if !Missing(spotifyUrl) {
      var url := spotifyUrl.value;
      TrackExact(url, id);
      PlaylistExact(url, id);
      VideoExact(url, id);
      RejectExact(url);
    }
  }

  /** A refused request answers 400 with the guard's texts, starts nothing and
      leaves the job table as it was. */
  lemma {:induction false} RefusedCreatesNothing(jobs: map<string, Job>, spotifyUrl: Option<string>, jobId: string, now: int)
    ensures var o := Handle(jobs, spotifyUrl, jobId, now);
      && (o.response.BadRequest? <==> Check(spotifyUrl).Refused?)
      && (Missing(spotifyUrl) ==> o.response == BadRequest("URL is required", "Please provide a valid Spotify or YouTube URL"))
      && (!Missing(spotifyUrl) && DetectUrlType(spotifyUrl.value).None? ==>
            o.response == BadRequest("Invalid URL", "Please provide a valid Spotify track/playlist or YouTube video URL"))
      && (o.response.BadRequest? ==> o.jobs == jobs && o.dispatch.None?)
  {
  }

  /** An accepted request adds exactly one job, under the fresh id, and
      changes no other: it is pending at "Initializing..." with progress 0,
      records the classifier's type and id, carries no results yet, and the
      pipeline started is the one for that kind, on that job, id and link. */
  lemma {:induction false} AcceptedCreatesOneJob(jobs: map<string, Job>, spotifyUrl: Option<string>, jobId: string, now: int)
    requires jobId !in jobs
    requires Check(spotifyUrl).Classified?
    ensures var o := Handle(jobs, spotifyUrl, jobId, now);
      var info := DetectUrlType(spotifyUrl.value).value;
      && o.response == Accepted(jobId, "Conversion started", "pending")
      && o.jobs.Keys == jobs.Keys + {jobId}
      && |o.jobs| == |jobs| + 1
      && (forall id :: id in jobs ==> o.jobs[id] == jobs[id])
      && o.jobs[jobId].id == jobId
      && o.jobs[jobId].status == "pending"
      && o.jobs[jobId].step == "Initializing..."
      && o.jobs[jobId].progress == 0
      && o.jobs[jobId].urlType == Some(TypeName(info.urlType))
      && o.jobs[jobId].sourceId == Some(info.id)
      && o.jobs[jobId].metadata.None? && o.jobs[jobId].playlistInfo.None?
      && o.jobs[jobId].createdAt == now && o.jobs[jobId].updatedAt == now
      && o.dispatch == Some(Dispatch(PipelineFor(TypeName(info.urlType)), jobId, info.id, spotifyUrl.value))
  {
    var info := DetectUrlType(spotifyUrl.value).value;
    ClassifiedIdNonEmpty(spotifyUrl.value);
    var o := Handle(jobs, spotifyUrl, jobId, now);
    assert o.jobs.Keys == jobs.Keys + {jobId};
  }
}
