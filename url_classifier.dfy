/** `detectUrlType` of backend/src/routes/conversion.js: three anchored,
    case-insensitive patterns, tried in the order track, playlist, video.
    Each pattern is written out by hand; the regular expressions are
    deterministic (no alternative is a prefix of another), so following the
    pattern left to right decides the match. */
module UrlClassifier {
  import opened Wrappers
  import opened Text

  datatype UrlType = SpotifyTrack | SpotifyPlaylist | YouTube

  /** The `{ type, id }` record `detectUrlType` returns. */
  datatype UrlInfo = UrlInfo(urlType: UrlType, id: string)

  /** The class `[a-zA-Z0-9_-]` of a video id. */
  predicate IsVideoIdChar(c: char) { IsAlnum(c) || c == '_' || c == '-' }

  /** The longest prefix of `s` drawn from `cls`: a greedy `[...]+` without anything after it. */
  function Run(s: string, cls: char -> bool): (r: string)
    ensures r <= s
    ensures forall i :: 0 <= i < |r| ==> cls(r[i])
    ensures |r| == |s| || !cls(s[|r|])
  {
    if |s| > 0 && cls(s[0]) then [s[0]] + Run(s[1..], cls) else []
  }

  /** The group `([cls]+)` captured at index `k` of `url`. */
  function IdAt(url: string, k: nat, cls: char -> bool): Option<string>
    requires k <= |url|
  {
    var id := Run(url[k..], cls);
    if id == [] then None else Some(id)
  }

  /** Where `https?:\/\/` ends in the lower-cased url, if it is there. */
  function SchemeEnd(l: string): (e: Option<nat>)
    ensures e.Some? ==> e.value <= |l|
  {
    if StartsWith(l, "https://") then Some(8)
    else if StartsWith(l, "http://") then Some(7)
    else None
  }

  /** An optional group `(lit)?` at index `i`. */
  function SkipOptional(l: string, i: nat, lit: string): (j: nat)
    requires i <= |l|
    ensures i <= j <= |l|
  {
    if StartsWith(l[i..], lit) then i + |lit| else i
  }

  /** `^https?:\/\/(open\.)?spotify\.com\/<kind>([a-zA-Z0-9]+)` with flag `i`. */
  function SpotifyRule(url: string, kind: string): Option<string> {
    SpotifyMatch(Lower(url), url, kind)
  }

  /** The same pattern, with the literal parts compared against `l`, the
      lower-cased `url`, and the id read from `url` itself. */
  function SpotifyMatch(l: string, url: string, kind: string): Option<string>
    requires |l| == |url|
  {
    match SchemeEnd(l)
    case None => None
    case Some(i) =>
      var j := SkipOptional(l, i, "open.");
      var path := "spotify.com/" + kind;
      if StartsWith(l[j..], path) then IdAt(url, j + |path|, IsAlnum) else None
  }

  /** `^https?:\/\/(www\.)?(youtube\.com\/(watch\?v=|shorts\/)|youtu\.be\/)([a-zA-Z0-9_-]+)` with flag `i`. */
  function YouTubeRule(url: string): Option<string> {
    YouTubeMatch(Lower(url), url)
  }

  function YouTubeMatch(l: string, url: string): Option<string>
    requires |l| == |url|
  {
    match SchemeEnd(l)
    case None => None
    case Some(i) =>
      var j := SkipOptional(l, i, "www.");
      match VideoPathLen(l[j..])
      case None => None
      case Some(n) => IdAt(url, j + n, IsVideoIdChar)
  }

  /** The alternation `youtube\.com\/(watch\?v=|shorts\/)|youtu\.be\/`: the length
      of the alternative the lower-cased text starts with. */
  function VideoPathLen(r: string): (n: Option<nat>)
    ensures n.Some? ==> n.value <= |r|
  {
    if StartsWith(r, "youtube.com/watch?v=") then Some(20)
    else if StartsWith(r, "youtube.com/shorts/") then Some(19)
    else if StartsWith(r, "youtu.be/") then Some(9)
    else None
  }

  /** `detectUrlType(url)`; `None` is the `null` the route rejects. */
  function DetectUrlType(url: string): Option<UrlInfo> {
    match SpotifyRule(url, "track/")
    case Some(id) => Some(UrlInfo(SpotifyTrack, id))
    case None =>
      match SpotifyRule(url, "playlist/")
      case Some(id) => Some(UrlInfo(SpotifyPlaylist, id))
      case None =>
        match YouTubeRule(url)
        case Some(id) => Some(UrlInfo(YouTube, id))
        case None => None
  }

  // ------------------------------------------------------------------
  // Reference description of the accepted shapes.

  function SchemeLit(secure: bool): string { if secure then "https://" else "http://" }

  /** The optional literal `opt`, present or not. */
  function OptLit(opt: string, present: bool): string { if present then opt else "" }

  datatype VideoForm = Watch | Shorts | ShortLink

  function VideoPathLit(form: VideoForm): string {
    match form
    case Watch => "youtube.com/watch?v="
    case Shorts => "youtube.com/shorts/"
    case ShortLink => "youtu.be/"
  }

  /** The lower-case text a Spotify link of kind `kind` begins with. */
  function SpotifyPrefix(secure: bool, open: bool, kind: string): string {
    SchemeLit(secure) + OptLit("open.", open) + ("spotify.com/" + kind)
  }

  /** The lower-case text a video link of form `form` begins with. */
  function VideoPrefix(secure: bool, www: bool, form: VideoForm): string {
    SchemeLit(secure) + OptLit("www.", www) + VideoPathLit(form)
  }

  /** `id` is a maximal non-empty run of `cls` characters starting at index `k` of `url`. */
  ghost predicate IdIsRunAt(url: string, k: nat, id: string, cls: char -> bool) {
    && k <= |url|
    && id != []
    && id <= url[k..]
    && (forall i :: 0 <= i < |id| ==> cls(id[i]))
    && (k + |id| == |url| || !cls(url[k + |id|]))
  }

  /** `l` (the lower-cased `url`) begins with the Spotify prefix chosen by
      `secure` and `open`, and `url` continues with the maximal alphanumeric id `id`. */
  ghost predicate SpotifyShapeWith(l: string, url: string, kind: string, id: string, secure: bool, open: bool) {
    && StartsWith(l, SpotifyPrefix(secure, open, kind))
    && IdIsRunAt(url, |SpotifyPrefix(secure, open, kind)|, id, IsAlnum)
  }

  ghost predicate SpotifyShapeOn(l: string, url: string, kind: string, id: string) {
    exists secure: bool, open: bool :: SpotifyShapeWith(l, url, kind, id, secure, open)
  }

  /** `l` begins with the video prefix chosen by `secure`, `www` and `form`,
      and `url` continues with the maximal id `id`. */
  ghost predicate VideoShapeWith(l: string, url: string, id: string, secure: bool, www: bool, form: VideoForm) {
    && StartsWith(l, VideoPrefix(secure, www, form))
    && IdIsRunAt(url, |VideoPrefix(secure, www, form)|, id, IsVideoIdChar)
  }

  ghost predicate VideoShapeOn(l: string, url: string, id: string) {
    exists secure: bool, www: bool, form: VideoForm :: VideoShapeWith(l, url, id, secure, www, form)
  }

  /** `url` is, ignoring ASCII case, a Spotify link of kind `kind` with id `id`. */
  ghost predicate SpotifyShape(url: string, kind: string, id: string) {
    SpotifyShapeOn(Lower(url), url, kind, id)
  }

  /** `url` is, ignoring ASCII case, a video link with id `id`. */
  ghost predicate VideoShape(url: string, id: string) {
    VideoShapeOn(Lower(url), url, id)
  }

  // ------------------------------------------------------------------
  // Proofs. The lemmas below work on an arbitrary `l` of the same length
  // as `url`; only the final characterisations take `l := Lower(url)`.

  lemma {:induction false} StartsWithConcat(a: string, b: string, l: string)
    ensures StartsWith(l, a + b) <==> |a| <= |l| && StartsWith(l, a) && StartsWith(l[|a|..], b)
  {
    StartsWithIsPrefix(l, a + b);
    StartsWithIsPrefix(l, a);
    if |a| <= |l| {
      StartsWithIsPrefix(l[|a|..], b);
      if a + b <= l {
        assert forall i :: 0 <= i < |a| ==> (a + b)[i] == a[i];
        assert forall i :: 0 <= i < |b| ==> (a + b)[|a| + i] == b[i];
      }
    }
  }

  /** Two literals that differ at index `k` cannot both start the same text. */
  lemma {:induction false} StartsWithDiffer(r: string, a: string, b: string, k: nat)
    requires k < |a| && k < |b| && a[k] != b[k]
    requires StartsWith(r, a)
    ensures !StartsWith(r, b)
  {
    StartsWithIsPrefix(r, a);
    StartsWithIsPrefix(r, b);
  }

  /** A three-piece prefix, read piece by piece. */
  lemma {:induction false} StartsWith3(a: string, b: string, c: string, l: string)
    ensures StartsWith(l, a + b + c) <==>
      && |a| + |b| <= |l| && StartsWith(l, a) && StartsWith(l[|a|..], b)
      && StartsWith(l[|a| + |b|..], c)
  {
    StartsWithConcat(a + b, c, l);
    StartsWithConcat(a, b, l);
  }

  lemma {:induction false} RunUnique(s: string, cls: char -> bool, r: string)
    requires r <= s
    requires forall i :: 0 <= i < |r| ==> cls(r[i])
    requires |r| == |s| || !cls(s[|r|])
    ensures Run(s, cls) == r
  {
    if |r| > 0 {
      RunUnique(s[1..], cls, r[1..]);
    }
  }

  lemma {:induction false} IdAtExact(url: string, k: nat, cls: char -> bool, id: string)
    requires k <= |url|
    ensures IdAt(url, k, cls) == Some(id) <==> IdIsRunAt(url, k, id, cls)
  {
    if IdIsRunAt(url, k, id, cls) {
      RunUnique(url[k..], cls, id);
    }
  }

  /** Three pieces found one after the other, followed by an id, make up a
      prefix followed by that id. */
  lemma {:induction false} PiecesThenId(l: string, url: string, a: string, b: string, c: string, id: string, cls: char -> bool)
    requires |l| == |url|
    requires |a| + |b| <= |l| && StartsWith(l, a) && StartsWith(l[|a|..], b) && StartsWith(l[|a| + |b|..], c)
    requires |a| + |b| + |c| <= |url| && IdAt(url, |a| + |b| + |c|, cls) == Some(id)
    ensures StartsWith(l, a + b + c) && IdIsRunAt(url, |a + b + c|, id, cls)
  {
    StartsWith3(a, b, c, l);
    IdAtExact(url, |a + b + c|, cls, id);
  }

  /** A scheme literal at the head of `l` is what `SchemeEnd` finds. */
  lemma {:induction false} SchemeComplete(l: string, secure: bool)
    requires StartsWith(l, SchemeLit(secure))
    ensures SchemeEnd(l) == Some(|SchemeLit(secure)|)
  {
    if !secure {
      StartsWithIsPrefix(l, "http://");
      StartsWithIsPrefix(l, "https://");
      assert l[4] == ':';
    }
  }

  /** Reading `scheme (opt)? path`, for an optional literal `opt` that does
      not start like `path`: the scheme, the option and the path are found
      where the prefix puts them. */
  lemma {:induction false} HeadComplete(l: string, secure: bool, opt: string, present: bool, path: string)
    requires opt != [] && path != [] && opt[0] != path[0]
    requires StartsWith(l, SchemeLit(secure) + OptLit(opt, present) + path)
    ensures SchemeEnd(l) == Some(|SchemeLit(secure)|)
    ensures SkipOptional(l, |SchemeLit(secure)|, opt) == |SchemeLit(secure)| + |OptLit(opt, present)|
    ensures StartsWith(l[|SchemeLit(secure)| + |OptLit(opt, present)|..], path)
  {
    var sc, o := SchemeLit(secure), OptLit(opt, present);
    StartsWith3(sc, o, path, l);
    SchemeComplete(l, secure);
    if !present {
      assert l[|sc|..] == l[|sc| + |o|..];
    }
  }

  /** What a successful read of `scheme (opt)?` leaves behind. */
  lemma {:induction false} HeadSound(l: string, opt: string, i: nat, j: nat) returns (secure: bool, present: bool)
    requires SchemeEnd(l) == Some(i) && i <= |l| && SkipOptional(l, i, opt) == j
    ensures i == |SchemeLit(secure)| && j == i + |OptLit(opt, present)|
    ensures StartsWith(l, SchemeLit(secure)) && StartsWith(l[i..], OptLit(opt, present))
  {
    secure := StartsWith(l, "https://");
    present := StartsWith(l[i..], opt);
  }

  /** `SpotifyMatch` taken apart: where the scheme ends, where the path
      starts, and the id after it. */
  lemma {:induction false} SpotifyMatchParts(l: string, url: string, kind: string, id: string) returns (i: nat, j: nat)
    requires |l| == |url|
    requires SpotifyMatch(l, url, kind) == Some(id)
    ensures SchemeEnd(l) == Some(i) && i <= |l| && SkipOptional(l, i, "open.") == j && j <= |l|
    ensures StartsWith(l[j..], "spotify.com/" + kind)
    ensures j + |"spotify.com/" + kind| <= |url| && IdAt(url, j + |"spotify.com/" + kind|, IsAlnum) == Some(id)
  {
    i := SchemeEnd(l).value;
    j := SkipOptional(l, i, "open.");
  }

  lemma {:induction false} SpotifyPartsSound(l: string, url: string, kind: string, id: string, i: nat, j: nat)
    requires |l| == |url|
    requires SchemeEnd(l) == Some(i) && i <= |l| && SkipOptional(l, i, "open.") == j && j <= |l|
    requires StartsWith(l[j..], "spotify.com/" + kind)
    requires j + |"spotify.com/" + kind| <= |url| && IdAt(url, j + |"spotify.com/" + kind|, IsAlnum) == Some(id)
    ensures SpotifyShapeOn(l, url, kind, id)
  {
    var secure, open := HeadSound(l, "open.", i, j);
    PiecesThenId(l, url, SchemeLit(secure), OptLit("open.", open), "spotify.com/" + kind, id, IsAlnum);
    assert SpotifyShapeWith(l, url, kind, id, secure, open);
  }

  lemma {:induction false} SpotifyMatchSound(l: string, url: string, kind: string, id: string)
    requires |l| == |url|
    requires SpotifyMatch(l, url, kind) == Some(id)
    ensures SpotifyShapeOn(l, url, kind, id)
  {
    var i, j := SpotifyMatchParts(l, url, kind, id);
    SpotifyPartsSound(l, url, kind, id, i, j);
  }

  /** The head of a Spotify link: scheme, optional `open.`, then `spotify.com/`. */
  lemma {:induction false} SpotifyHead(l: string, secure: bool, open: bool, kind: string)
    requires StartsWith(l, SpotifyPrefix(secure, open, kind))
    ensures SchemeEnd(l) == Some(|SchemeLit(secure)|)
    ensures SkipOptional(l, |SchemeLit(secure)|, "open.") == |SchemeLit(secure)| + |OptLit("open.", open)|
    ensures StartsWith(l[|SchemeLit(secure)| + |OptLit("open.", open)|..], "spotify.com/" + kind)
  {
    HeadComplete(l, secure, "open.", open, "spotify.com/" + kind);
  }

  /** `SpotifyMatch` read off its parts. */
  lemma {:induction false} SpotifyMatchFrom(l: string, url: string, kind: string, id: string, i: nat, j: nat)
    requires |l| == |url|
    requires SchemeEnd(l) == Some(i) && i <= |l| && SkipOptional(l, i, "open.") == j && j <= |l|
    requires StartsWith(l[j..], "spotify.com/" + kind)
    requires j + |"spotify.com/" + kind| <= |url| && IdAt(url, j + |"spotify.com/" + kind|, IsAlnum) == Some(id)
    ensures SpotifyMatch(l, url, kind) == Some(id)
  {
  }

  lemma {:induction false} SpotifyPrefixLength(secure: bool, open: bool, kind: string)
    ensures |SpotifyPrefix(secure, open, kind)| == |SchemeLit(secure)| + |OptLit("open.", open)| + |"spotify.com/" + kind|
  {
  }

  lemma {:induction false} SpotifyMatchComplete(l: string, url: string, kind: string, id: string, secure: bool, open: bool)
    requires |l| == |url|
    requires SpotifyShapeWith(l, url, kind, id, secure, open)
    ensures SpotifyMatch(l, url, kind) == Some(id)
  {
    var i := |SchemeLit(secure)|;
    var j := i + |OptLit("open.", open)|;
    SpotifyPrefixLength(secure, open, kind);
    SpotifyHead(l, secure, open, kind);
    IdAtExact(url, j + |"spotify.com/" + kind|, IsAlnum, id);
    SpotifyMatchFrom(l, url, kind, id, i, j);
  }

  /** A Spotify prefix of one kind rules out the rule of a kind whose path
      differs from it at its first character. */
  lemma {:induction false} SpotifyKindsExclusive(l: string, url: string, secure: bool, open: bool, kind: string, other: string)
    requires |l| == |url|
    requires StartsWith(l, SpotifyPrefix(secure, open, kind))
    requires kind != [] && other != [] && kind[0] != other[0]
    ensures SpotifyMatch(l, url, other) == None
  {
    SpotifyHead(l, secure, open, kind);
    var r := l[|SchemeLit(secure)| + |OptLit("open.", open)|..];
    StartsWithIsPrefix(r, "spotify.com/" + kind);
    StartsWithIsPrefix(r, "spotify.com/" + other);
    assert r[12] == ("spotify.com/" + kind)[12] == kind[0];
  }

  /** The alternative `VideoPathLen` recognises is the form the text starts with. */
  lemma {:induction false} VideoPathSound(r: string, n: nat) returns (form: VideoForm)
    requires VideoPathLen(r) == Some(n)
    ensures n == |VideoPathLit(form)| && StartsWith(r, VideoPathLit(form))
  {
    form :=
      if StartsWith(r, "youtube.com/watch?v=") then Watch
      else if StartsWith(r, "youtube.com/shorts/") then Shorts
      else ShortLink;
  }

  lemma {:induction false} VideoPathComplete(r: string, form: VideoForm)
    requires StartsWith(r, VideoPathLit(form))
    ensures VideoPathLen(r) == Some(|VideoPathLit(form)|)
  {
    // the three paths part ways at index 12 ('w' or 's') and index 5 ('b' or '.')
    match form
    case Watch =>
    case Shorts =>
      StartsWithDiffer(r, "youtube.com/shorts/", "youtube.com/watch?v=", 12);
    case ShortLink =>
      StartsWithDiffer(r, "youtu.be/", "youtube.com/watch?v=", 5);
      StartsWithDiffer(r, "youtu.be/", "youtube.com/shorts/", 5);
  }

  /** `YouTubeMatch` taken apart: where the scheme ends, where the path
      starts, how long the path is, and the id after it. */
  lemma {:induction false} YouTubeMatchParts(l: string, url: string, id: string) returns (i: nat, j: nat, n: nat)
    requires |l| == |url|
    requires YouTubeMatch(l, url) == Some(id)
    ensures SchemeEnd(l) == Some(i) && i <= |l| && SkipOptional(l, i, "www.") == j
    ensures j + n <= |l| && VideoPathLen(l[j..]) == Some(n) && IdAt(url, j + n, IsVideoIdChar) == Some(id)
  {
    i := SchemeEnd(l).value;
    j := SkipOptional(l, i, "www.");
    n := VideoPathLen(l[j..]).value;
  }

  lemma {:induction false} VideoPartsSound(l: string, url: string, id: string, i: nat, j: nat, n: nat)
    requires |l| == |url|
    requires SchemeEnd(l) == Some(i) && i <= |l| && SkipOptional(l, i, "www.") == j
    requires j + n <= |l| && VideoPathLen(l[j..]) == Some(n) && IdAt(url, j + n, IsVideoIdChar) == Some(id)
    ensures VideoShapeOn(l, url, id)
  {
    var secure, www := HeadSound(l, "www.", i, j);
    var form := VideoPathSound(l[j..], n);
    assert j == |SchemeLit(secure)| + |OptLit("www.", www)|;
    assert j + |VideoPathLit(form)| == j + n;
    VideoPiecesSound(l, url, id, secure, www, form);
  }

  lemma {:induction false} VideoPiecesSound(l: string, url: string, id: string, secure: bool, www: bool, form: VideoForm)
    requires |l| == |url|
    requires var i, j := |SchemeLit(secure)|, |SchemeLit(secure)| + |OptLit("www.", www)|;
      && j <= |l| && StartsWith(l, SchemeLit(secure)) && StartsWith(l[i..], OptLit("www.", www))
      && StartsWith(l[j..], VideoPathLit(form))
      && j + |VideoPathLit(form)| <= |url| && IdAt(url, j + |VideoPathLit(form)|, IsVideoIdChar) == Some(id)
    ensures VideoShapeOn(l, url, id)
  {
    PiecesThenId(l, url, SchemeLit(secure), OptLit("www.", www), VideoPathLit(form), id, IsVideoIdChar);
    assert VideoShapeWith(l, url, id, secure, www, form);
  }

  lemma {:induction false} VideoMatchSound(l: string, url: string, id: string)
    requires |l| == |url|
    requires YouTubeMatch(l, url) == Some(id)
    ensures VideoShapeOn(l, url, id)
  {
    var i, j, n := YouTubeMatchParts(l, url, id);
    VideoPartsSound(l, url, id, i, j, n);
  }

  /** The head of a video link: scheme, optional `www.`, then one of the three paths. */
  lemma {:induction false} VideoHead(l: string, secure: bool, www: bool, form: VideoForm)
    requires StartsWith(l, VideoPrefix(secure, www, form))
    ensures SchemeEnd(l) == Some(|SchemeLit(secure)|)
    ensures SkipOptional(l, |SchemeLit(secure)|, "www.") == |SchemeLit(secure)| + |OptLit("www.", www)|
    ensures StartsWith(l[|SchemeLit(secure)| + |OptLit("www.", www)|..], VideoPathLit(form))
  {
    HeadComplete(l, secure, "www.", www, VideoPathLit(form));
  }

  /** `YouTubeMatch` read off its parts. */
  lemma {:induction false} YouTubeMatchFrom(l: string, url: string, id: string, i: nat, j: nat, n: nat)
    requires |l| == |url|
    requires SchemeEnd(l) == Some(i) && i <= |l| && SkipOptional(l, i, "www.") == j
    requires j <= |l| && VideoPathLen(l[j..]) == Some(n)
    requires j + n <= |url| && IdAt(url, j + n, IsVideoIdChar) == Some(id)
    ensures YouTubeMatch(l, url) == Some(id)
  {
  }

  lemma {:induction false} VideoPrefixLength(secure: bool, www: bool, form: VideoForm)
    ensures |VideoPrefix(secure, www, form)| == |SchemeLit(secure)| + |OptLit("www.", www)| + |VideoPathLit(form)|
  {
  }

  lemma {:induction false} VideoMatchComplete(l: string, url: string, id: string, secure: bool, www: bool, form: VideoForm)
    requires |l| == |url|
    requires VideoShapeWith(l, url, id, secure, www, form)
    ensures YouTubeMatch(l, url) == Some(id)
  {
    var i := |SchemeLit(secure)|;
    var j := i + |OptLit("www.", www)|;
    var n := |VideoPathLit(form)|;
    VideoPrefixLength(secure, www, form);
    VideoHead(l, secure, www, form);
    VideoPathComplete(l[j..], form);
    IdAtExact(url, j + n, IsVideoIdChar, id);
    YouTubeMatchFrom(l, url, id, i, j, n);
  }

  /** A video link is not a Spotify link of any kind. */
  lemma {:induction false} VideoNotSpotify(l: string, url: string, secure: bool, www: bool, form: VideoForm, kind: string)
    requires |l| == |url|
    requires StartsWith(l, VideoPrefix(secure, www, form))
    ensures SpotifyMatch(l, url, kind) == None
  {
    var sc, w, path := SchemeLit(secure), OptLit("www.", www), VideoPathLit(form);
    StartsWith3(sc, w, path, l);
    SchemeComplete(l, secure);
    var r := l[|sc|..];
    // after the scheme comes `w` of `www.` or `y` of the path, never `o` or `s`
    var first: string := if www then "www." else path;
    if !www {
      assert r == l[|sc| + |w|..];
    }
    StartsWithDiffer(r, first, "open.", 0);
    StartsWithDiffer(r, first, "spotify.com/" + kind, 0);
  }

  /** A link head with a capital in its host: it folds to the track prefix
      and has no lower-case `s`. */
  const CapitalHost := "http://open.Spotify.com/track/"

  lemma {:induction false} CapitalHostLower(h: string)
    requires h == CapitalHost
    ensures Lower(h) == SpotifyPrefix(false, true, "track/")
  {
  }

  lemma {:induction false} CapitalHostNoS(h: string)
    requires h == CapitalHost
    ensures forall k :: 0 <= k < |h| ==> h[k] != 's'
  {
  }

  // ------------------------------------------------------------------
  // The classifier, characterised exactly.

  /** A Spotify track link is classified as a track with its id, and only such links are. */
  lemma {:induction false} TrackExact(url: string, id: string)
    ensures DetectUrlType(url) == Some(UrlInfo(SpotifyTrack, id)) <==> SpotifyShape(url, "track/", id)
  {
    var l := Lower(url);
    if DetectUrlType(url) == Some(UrlInfo(SpotifyTrack, id)) {
      SpotifyMatchSound(l, url, "track/", id);
    }
    if SpotifyShape(url, "track/", id) {
      var secure: bool, open: bool :| SpotifyShapeWith(l, url, "track/", id, secure, open);
      SpotifyMatchComplete(l, url, "track/", id, secure, open);
    }
  }

  /** A playlist link is classified as a playlist (the track rule, tried first,
      cannot match it), and only such links are. */
  lemma {:induction false} PlaylistExact(url: string, id: string)
    ensures DetectUrlType(url) == Some(UrlInfo(SpotifyPlaylist, id)) <==> SpotifyShape(url, "playlist/", id)
  {
    var l := Lower(url);
    if DetectUrlType(url) == Some(UrlInfo(SpotifyPlaylist, id)) {
      SpotifyMatchSound(l, url, "playlist/", id);
    }
    if SpotifyShape(url, "playlist/", id) {
      var secure: bool, open: bool :| SpotifyShapeWith(l, url, "playlist/", id, secure, open);
      SpotifyKindsExclusive(l, url, secure, open, "playlist/", "track/");
      SpotifyMatchComplete(l, url, "playlist/", id, secure, open);
    }
  }

  /** A video link (`watch?v=`, `shorts/` or `youtu.be/`) is classified as a
      video with the id that follows, and only such links are. */
  lemma {:induction false} VideoExact(url: string, id: string)
    ensures DetectUrlType(url) == Some(UrlInfo(YouTube, id)) <==> VideoShape(url, id)
  {
    var l := Lower(url);
    if DetectUrlType(url) == Some(UrlInfo(YouTube, id)) {
      VideoMatchSound(l, url, id);
    }
    if VideoShape(url, id) {
      var secure: bool, www: bool, form: VideoForm :| VideoShapeWith(l, url, id, secure, www, form);
      VideoNotSpotify(l, url, secure, www, form, "track/");
      VideoNotSpotify(l, url, secure, www, form, "playlist/");
      VideoMatchComplete(l, url, id, secure, www, form);
    }
  }

  /** Anything that has none of the three shapes is rejected, and nothing else is. */
  lemma {:induction false} RejectExact(url: string)
    ensures DetectUrlType(url) == None <==>
      forall id :: !SpotifyShape(url, "track/", id) && !SpotifyShape(url, "playlist/", id) && !VideoShape(url, id)
  {
    if DetectUrlType(url) == None {
      forall id
        ensures !SpotifyShape(url, "track/", id) && !SpotifyShape(url, "playlist/", id) && !VideoShape(url, id)
      {
        TrackExact(url, id);
        PlaylistExact(url, id);
        VideoExact(url, id);
      }
    } else {
      var info := DetectUrlType(url).value;
      TrackExact(url, info.id);
      PlaylistExact(url, info.id);
      VideoExact(url, info.id);
    }
  }
}
