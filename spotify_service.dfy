/** backend/src/services/spotifyService.js: the access-token cache, the id
    extractors, the embed-page description splitter and the shaping of the
    track and playlist records. Every request to Spotify is an oracle: its
    outcome is a parameter (`None` for a request that throws). */
module SpotifyService {
  import opened Wrappers
  import opened Text
  import opened UrlClassifier
  import YouTubeService

  /** A JavaScript string is truthy when it is present and not empty. */
  predicate Truthy(v: Option<string>) { v.Some? && v.value != "" }

  /** `x || null` on a string. */
  function OrNull(v: Option<string>): (r: Option<string>)
    ensures r.Some? <==> Truthy(v)
    ensures r.Some? ==> r == v
  {
    if Truthy(v) then v else None
  }

  /** `x || fallback` on a string. */
  function OrDefault(v: Option<string>, fallback: string): (r: string)
    ensures Truthy(v) ==> r == v.value
    ensures !Truthy(v) ==> r == fallback
  {
    if Truthy(v) then v.value else fallback
  }

  /** `x || y` on strings: the first when it is truthy, else the second. */
  function OrElse(v: Option<string>, w: Option<string>): (r: Option<string>)
    ensures Truthy(v) ==> r == v
    ensures !Truthy(v) ==> r == w
  {
    if Truthy(v) then v else w
  }

  // ---------------------------------------------------------------- the token cache

  /** The body of a successful client-credentials token request. */
  datatype TokenResponse = TokenResponse(accessToken: string, expiresIn: int)

  /** The client id the sample configuration ships with. */
  const PlaceholderClientId := "your_spotify_client_id"

  /** Credentials `getSpotifyToken` is willing to use. */
  predicate CredentialsUsable(clientId: Option<string>, clientSecret: Option<string>) {
    Truthy(clientId) && Truthy(clientSecret) && clientId.value != PlaceholderClientId
  }

  /** The two module variables: the token and when it stops being used. */
  datatype Cache = Cache(token: Option<string>, expiresAt: int)

  /** The cached token is served without a request. */
  predicate Fresh(c: Cache, now: int) {
    Truthy(c.token) && now < c.expiresAt
  }

  /** One call of `getSpotifyToken` at time `now`: the new cache and the
      result. `response` is the token request's outcome, `later` the clock
      when it returns. */
  function TokenStep(c: Cache, now: int, clientId: Option<string>, clientSecret: Option<string>,
                     response: Option<TokenResponse>, later: int): (Cache, Option<string>)
  {
    if Fresh(c, now) then (c, c.token)
    else if !CredentialsUsable(clientId, clientSecret) || response.None? then (c, None)
    else
      var t := response.value;
      (Cache(Some(t.accessToken), later + (t.expiresIn - 60) * 1000), Some(t.accessToken))
  }

  /** The cache changes exactly when the cached token is not fresh and a
      request with usable credentials succeeds, and the call yields nothing
      exactly when no token is fresh and no refresh happened. */
  lemma {:induction false} TokenStepCases(c: Cache, now: int, clientId: Option<string>, clientSecret: Option<string>,
                                          response: Option<TokenResponse>, later: int)
    ensures var (c', r) := TokenStep(c, now, clientId, clientSecret, response, later);
      var refreshed := !Fresh(c, now) && CredentialsUsable(clientId, clientSecret) && response.Some?;
      && (Fresh(c, now) ==> c' == c && r == c.token)
      && (refreshed ==> c' == Cache(Some(response.value.accessToken),
                                    later + (response.value.expiresIn - 60) * 1000)
                        && r == Some(response.value.accessToken))
      && (!refreshed ==> c' == c)
      && (r.None? <==> !Fresh(c, now) && !refreshed)
  {
  }

  /** A refreshed token is served from the cache, without any request,
      until 60 seconds before the lifetime the server gave it ends. */
  lemma {:induction false} RefreshServesUntilExpiry(c: Cache, now: int, clientId: Option<string>, clientSecret: Option<string>,
                                                    t: TokenResponse, later: int,
                                                    now2: int, id2: Option<string>, secret2: Option<string>,
                                                    response2: Option<TokenResponse>, later2: int)
    requires !Fresh(c, now) && CredentialsUsable(clientId, clientSecret) && t.accessToken != ""
    requires later <= now2 < later + (t.expiresIn - 60) * 1000
    ensures var (c1, r1) := TokenStep(c, now, clientId, clientSecret, Some(t), later);
      TokenStep(c1, now2, id2, secret2, response2, later2) == (c1, r1)
  {
  }

  /** Once the expiry time is reached the cached token is never served: a
      call that cannot refresh yields nothing. */
  lemma {:induction false} ExpiredNotServed(c: Cache, now: int, clientId: Option<string>, clientSecret: Option<string>,
                                            response: Option<TokenResponse>, later: int)
    requires now >= c.expiresAt
    requires !CredentialsUsable(clientId, clientSecret) || response.None?
    ensures TokenStep(c, now, clientId, clientSecret, response, later) == (c, None)
  {
  }

  /** The module-level variables `spotifyAccessToken` and `tokenExpiresAt`. */
  class TokenCache {
    var token: Option<string>
    var expiresAt: int

    constructor ()
      ensures token == None && expiresAt == 0
    {
      token := None;
      expiresAt := 0;
    }

    /** `getSpotifyToken()`. It never throws: missing or placeholder
        credentials and a failed request yield `None`. */
    method GetToken(now: int, clientId: Option<string>, clientSecret: Option<string>,
                    response: Option<TokenResponse>, later: int) returns (r: Option<string>)
      modifies this
      ensures (Cache(token, expiresAt), r)
           == TokenStep(Cache(old(token), old(expiresAt)), now, clientId, clientSecret, response, later)
    {
      if Truthy(token) && now < expiresAt {
        return token;
      }
      if !Truthy(clientId) || !Truthy(clientSecret) || clientId.value == PlaceholderClientId {
        return None;
      }
      if response.None? {
        return None;
      }
      token := Some(response.value.accessToken);
      expiresAt := later + (response.value.expiresIn - 60) * 1000;
      r := token;
    }
  }

  // ---------------------------------------------------------------- id extractors

  /** The pattern `lit([a-zA-Z0-9]+)` matches at index `q` of `url`. */
  predicate Hit(url: string, lit: string, q: nat) {
    q + |lit| < |url| && StartsWith(url[q..], lit) && IsAlnum(url[q + |lit|])
  }

  /** `url.match(/lit([a-zA-Z0-9]+)/)[1]`: the group at the leftmost index
      from `p` on where the pattern matches; the greedy group is the whole
      alphanumeric run. */
  function SearchFrom(url: string, lit: string, p: nat): Option<string>
    requires p <= |url|
    decreases |url| - p
  {
    if Hit(url, lit, p) then IdAt(url, p + |lit|, IsAlnum)
    else if p == |url| then None
    else SearchFrom(url, lit, p + 1)
  }

  /** The URL form, then the `spotify:` URI form. */
  function ExtractId(url: string, kind: string): Option<string> {
    var web := SearchFrom(url, "spotify.com/" + kind + "/", 0);
    if web.Some? then web else SearchFrom(url, "spotify:" + kind + ":", 0)
  }

  /** `extractTrackId(url)`. */
  function ExtractTrackId(url: string): Option<string> { ExtractId(url, "track") }

  /** `extractPlaylistId(url)`. */
  function ExtractPlaylistId(url: string): Option<string> { ExtractId(url, "playlist") }

  /** A search finds the pattern at its leftmost match and yields the whole
      alphanumeric run after it. */
  lemma {:induction false} SearchFound(url: string, lit: string, p: nat) returns (q: nat)
    requires p <= |url| && SearchFrom(url, lit, p).Some?
    ensures p <= q && Hit(url, lit, q)
    ensures IdIsRunAt(url, q + |lit|, SearchFrom(url, lit, p).value, IsAlnum)
    ensures forall k :: p <= k < q ==> !Hit(url, lit, k)
    decreases |url| - p
  {
    if Hit(url, lit, p) {
      q := p;
      IdAtExact(url, p + |lit|, IsAlnum, SearchFrom(url, lit, p).value);
    } else {
      q := SearchFound(url, lit, p + 1);
    }
  }

  /** A search yields nothing exactly when the pattern matches nowhere. */
  lemma {:induction false} SearchMissed(url: string, lit: string, p: nat)
    requires p <= |url|
    ensures SearchFrom(url, lit, p).None? <==> forall k :: p <= k <= |url| ==> !Hit(url, lit, k)
    decreases |url| - p
  {
    if Hit(url, lit, p) {
      assert IsAlnum(url[p + |lit|..][0]);
    } else if p < |url| {
      SearchMissed(url, lit, p + 1);
    }
  }

  /** Indices where the pattern cannot match are skipped. */
  lemma {:induction false} SearchSkip(url: string, lit: string, p: nat, q: nat)
    requires p <= q <= |url|
    requires forall k :: p <= k < q ==> !Hit(url, lit, k)
    ensures SearchFrom(url, lit, p) == SearchFrom(url, lit, q)
    decreases q - p
  {
    if p < q {
      SearchSkip(url, lit, p + 1, q);
    }
  }

  /** A string of id characters followed by nothing or by a character that
      ends the id. */
  predicate IdThenEnd(id: string, rest: string) {
    && id != []
    && (forall i :: 0 <= i < |id| ==> IsAlnum(id[i]))
    && (rest == [] || !IsAlnum(rest[0]))
  }

  lemma {:induction false} IdAtOf(pre: string, id: string, rest: string)
    requires IdThenEnd(id, rest)
    ensures IdAt(pre + id + rest, |pre|, IsAlnum) == Some(id)
  {
    var url := pre + id + rest;
    var after := url[|pre|..];
    assert after == id + rest;
    assert id <= after;
    if rest != [] {
      assert after[|id|] == rest[0];
    }
    RunUnique(after, IsAlnum, id);
  }

  /** The pattern matches where its literal is followed by an id. */
  lemma {:induction false} HitAtOf(pre: string, lit: string, id: string, rest: string)
    requires IdThenEnd(id, rest)
    ensures var url := pre + lit + id + rest;
      Hit(url, lit, |pre|) && IdAt(url, |pre| + |lit|, IsAlnum) == Some(id)
  {
    var url := pre + lit + id + rest;
    assert url[|pre|..] == lit + (id + rest);
    StartsWithIsPrefix(url[|pre|..], lit);
    assert url[|pre| + |lit|] == id[0];
    assert url == (pre + lit) + id + rest;
    IdAtOf(pre + lit, id, rest);
  }

  /** Where the pattern matches, the url spells out its literal. */
  lemma {:induction false} HitChar(url: string, lit: string, q: nat, i: nat)
    requires i < |lit|
    ensures Hit(url, lit, q) ==> url[q + i] == lit[i]
  {
    if Hit(url, lit, q) {
      StartsWithIsPrefix(url[q..], lit);
      assert url[q..][i] == url[q + i];
    }
  }

  /** Where the url differs from the literal, the pattern does not match. */
  lemma {:induction false} MissByChar(url: string, lit: string, q: nat, i: nat)
    requires i < |lit|
    requires q + i >= |url| || url[q + i] != lit[i]
    ensures !Hit(url, lit, q)
  {
    HitChar(url, lit, q, i);
  }

  /** A link in the lower-case form the classifier accepts gives the
      extractor the same id. */
  lemma {:induction false} ExtractFromLink(secure: bool, open: bool, kind: string, id: string, rest: string)
    requires kind == "track" || kind == "playlist"
    requires IdThenEnd(id, rest)
    ensures ExtractId(SpotifyPrefix(secure, open, kind + "/") + id + rest, kind) == Some(id)
  {
    var head := SchemeLit(secure) + OptLit("open.", open);
    var lit := "spotify.com/" + kind + "/";
    assert SpotifyPrefix(secure, open, kind + "/") + id + rest == head + lit + id + rest;
    HeadHasNoSp(secure, open);
    SearchAfterHead(head, lit, id, rest);
  }

  /** The extractors compare case-sensitively where the classifier folds
      case: after a head with a capital in its host, any id without an `s`
      is classified as a track with that id, yet the extractor finds no id. */
  lemma {:induction false} CapitalHostRefused(id: string)
    requires id != [] && forall i :: 0 <= i < |id| ==> IsAlnum(id[i]) && id[i] != 's'
    ensures DetectUrlType(CapitalHost + id) == Some(UrlInfo(SpotifyTrack, id))
    ensures ExtractTrackId(CapitalHost + id) == None
  {
    CapitalHostClassified(CapitalHost + id, id);
    CapitalHostMissed(CapitalHost + id, id);
  }

  lemma {:induction false} CapitalHostClassified(url: string, id: string)
    requires url == CapitalHost + id
    requires id != [] && forall i :: 0 <= i < |id| ==> IsAlnum(id[i])
    ensures DetectUrlType(url) == Some(UrlInfo(SpotifyTrack, id))
  {
    var l := Lower(url);
    var prefix := SpotifyPrefix(false, true, "track/");
    CapitalHostLower(CapitalHost);
    LowerSlice(url, 0, |prefix|);
    assert url[..|prefix|] == CapitalHost;
    StartsWithIsPrefix(l, prefix);
    assert url[|prefix|..] == id;
    assert SpotifyShapeWith(l, url, "track/", id, false, true);
    TrackExact(url, id);
  }

  lemma {:induction false} CapitalHostMissed(url: string, id: string)
    requires url == CapitalHost + id
    requires forall i :: 0 <= i < |id| ==> id[i] != 's'
    ensures ExtractTrackId(url) == None
  {
    CapitalHostNoS(CapitalHost);
    assert forall k :: 0 <= k < |url| ==> url[k] != 's' by {
      forall k | 0 <= k < |url| ensures url[k] != 's' {
        if k >= |CapitalHost| {
          assert url[k] == id[k - |CapitalHost|];
        } else {
          assert url[k] == CapitalHost[k];
        }
      }
    }
    NoLowerS(url, "spotify.com/" + "track" + "/");
    NoLowerS(url, "spotify:" + "track" + ":");
  }

  /** In a url without a lower-case `s`, a literal starting with `s` never matches. */
  lemma {:induction false} NoLowerS(url: string, lit: string)
    requires forall k :: 0 <= k < |url| ==> url[k] != 's'
    requires |lit| >= 1 && lit[0] == 's'
    ensures SearchFrom(url, lit, 0) == None
  {
    forall k | 0 <= k <= |url|
      ensures !Hit(url, lit, k)
    {
      MissByChar(url, lit, k, 0);
    }
    SearchMissed(url, lit, 0);
  }

  /** No `s` in `head` is followed by `p`, and `head` does not end in `s`. */
  predicate NoSp(head: string) {
    forall q :: 0 <= q < |head| && head[q] == 's' ==> q + 1 < |head| && head[q + 1] != 'p'
  }

  lemma {:induction false} HeadHasNoSp(secure: bool, open: bool)
    ensures NoSp(SchemeLit(secure) + OptLit("open.", open))
  {
    var head := SchemeLit(secure) + OptLit("open.", open);
    assert head == "https://open." || head == "https://" || head == "http://open." || head == "http://";
  }

  /** After a head without `sp`, the first match is the literal that follows. */
  lemma {:induction false} SearchAfterHead(head: string, lit: string, id: string, rest: string)
    requires NoSp(head)
    requires |lit| >= 2 && lit[0] == 's' && lit[1] == 'p'
    requires IdThenEnd(id, rest)
    ensures SearchFrom(head + lit + id + rest, lit, 0) == Some(id)
  {
    var url := head + lit + id + rest;
    HitAtOf(head, lit, id, rest);
    assert head <= url;
    HeadMisses(url, head, lit);
    SearchSkip(url, lit, 0, |head|);
  }

  /** The pattern cannot match inside a head without `sp`. */
  lemma {:induction false} HeadMisses(url: string, head: string, lit: string)
    requires NoSp(head)
    requires head <= url && |lit| >= 2 && lit[0] == 's' && lit[1] == 'p'
    ensures forall q :: 0 <= q < |head| ==> !Hit(url, lit, q)
  {
    forall q | 0 <= q < |head|
      ensures !Hit(url, lit, q)
    {
      assert url[q] == head[q];
      if head[q] == 's' {
        assert url[q + 1] == head[q + 1];
        MissByChar(url, lit, q, 1);
      } else {
        MissByChar(url, lit, q, 0);
      }
    }
  }

  /** The `spotify:` URI form is read when the URL form is absent. */
  lemma {:induction false} ExtractFromUri(kind: string, id: string, rest: string)
    requires kind == "track" || kind == "playlist"
    requires IdThenEnd(id, rest) && forall i :: 0 <= i < |rest| ==> rest[i] != '.'
    ensures ExtractId("spotify:" + kind + ":" + id + rest, kind) == Some(id)
  {
    var lit := "spotify:" + kind + ":";
    var url := lit + id + rest;
    assert url == "" + lit + id + rest;
    HitAtOf("", lit, id, rest);
    var web := "spotify.com/" + kind + "/";
    forall q | 0 <= q <= |url|
      ensures !Hit(url, web, q)
    {
      if q + 7 < |url| {
        NoDot(url, lit, id, rest, q + 7);
      }
      MissByChar(url, web, q, 7);
    }
    SearchMissed(url, web, 0);
  }

  lemma {:induction false} NoDot(url: string, lit: string, id: string, rest: string, i: nat)
    requires url == lit + id + rest && i < |url|
    requires forall j :: 0 <= j < |lit| ==> lit[j] != '.'
    requires forall j :: 0 <= j < |id| ==> IsAlnum(id[j])
    requires forall j :: 0 <= j < |rest| ==> rest[j] != '.'
    ensures url[i] != '.'
  {
    if i < |lit| {
      assert url[i] == lit[i];
    } else if i < |lit| + |id| {
      assert url[i] == id[i - |lit|];
    } else {
      assert url[i] == rest[i - |lit| - |id|];
    }
  }

  // ---------------------------------------------------------------- the description split

  /** The class `[·•]`. */
  predicate IsBullet(c: char) { c == '\U{00B7}' || c == '\U{2022}' }

  /** Where the pattern `\s*[·•]\s*` matches when tried at index `q` of `s`: the
      index just past the match. The leading `\s*` can only give back
      whitespace, which is not a bullet, so taking the longest run decides. */
  function MatchAt(s: string, q: nat): (e: Option<nat>)
    requires q <= |s|
    ensures e.Some? ==> q < e.value <= |s|
  {
    var w := WsEnd(s, q);
    if w < |s| && IsBullet(s[w]) then Some(WsEnd(s, w + 1)) else None
  }

  /** The loop of `String.prototype.split` with a regular expression: `p`
      is where the current piece starts and `q` where the next match is
      tried; a match ends the piece and the next one starts after it. */
  function SplitLoop(s: string, p: nat, q: nat): seq<string>
    requires p <= q <= |s|
    decreases |s| - q
  {
    if q >= |s| then [s[p..]]
    else match MatchAt(s, q)
      case None => SplitLoop(s, p, q + 1)
      case Some(e) => [s[p..q]] + SplitLoop(s, e, e)
  }

  /** `desc.split` on the pattern `\s*[·•]\s*`. */
  function SplitDescription(desc: string): seq<string> {
    SplitLoop(desc, 0, 0)
  }

  /** The index of the first bullet of `t`. */
  function FirstBullet(t: string): (b: Option<nat>)
    ensures b.Some? ==> b.value < |t|
  {
    if t == [] then None
    else if IsBullet(t[0]) then Some(0)
    else match FirstBullet(t[1..])
      case None => None
      case Some(b) => Some(b + 1)
  }

  /** `FirstBullet` finds the leftmost bullet, and none when there is none. */
  lemma {:induction false} FirstBulletSpec(t: string)
    ensures var b := FirstBullet(t);
      && (b.Some? ==> IsBullet(t[b.value]) && forall i :: 0 <= i < b.value ==> !IsBullet(t[i]))
      && (b.None? ==> forall i :: 0 <= i < |t| ==> !IsBullet(t[i]))
    decreases |t|
  {
    if t != [] && !IsBullet(t[0]) {
      FirstBulletSpec(t[1..]);
      assert forall i :: 1 <= i < |t| ==> t[i] == t[1..][i - 1];
    }
  }

  /** The pieces of the split, described directly: up to the first bullet
      with the whitespace before it removed, then the pieces of what follows
      with the whitespace after it removed. */
  function Pieces(t: string): seq<string>
    decreases |t|
  {
    match FirstBullet(t)
    case None => [t]
    case Some(b) => [TrimEnd(t[..b])] + Pieces(TrimStart(t[b + 1..]))
  }

  /** The index of the first bullet at or after `i`, or `|s|`. */
  function BulletFrom(s: string, i: nat): (c: nat)
    requires i <= |s|
    ensures i <= c <= |s|
    ensures forall j :: i <= j < c ==> !IsBullet(s[j])
    ensures c < |s| ==> IsBullet(s[c])
    decreases |s| - i
  {
    if i == |s| || IsBullet(s[i]) then i else BulletFrom(s, i + 1)
  }

  /** Where `s[p..k]` ends once its trailing whitespace is removed. */
  function TrimBack(s: string, p: nat, k: nat): (m: nat)
    requires p <= k <= |s|
    ensures p <= m <= k
    ensures forall j :: m <= j < k ==> IsWhitespace(s[j])
    ensures p < m ==> !IsWhitespace(s[m - 1])
    decreases k
  {
    if p < k && IsWhitespace(s[k - 1]) then TrimBack(s, p, k - 1) else k
  }

  /** Where the piece starting at `p` ends: before the whitespace in front of
      the next bullet, or at the end of `s`. */
  function PieceEnd(s: string, p: nat): (m: nat)
    requires p <= |s|
    ensures p <= m <= |s|
  {
    var c := BulletFrom(s, p);
    if c == |s| then |s| else TrimBack(s, p, c)
  }

  /** `FirstBullet` on the text from `p` on is `BulletFrom` on `s`. */
  lemma {:induction false} FirstBulletFrom(s: string, p: nat)
    requires p <= |s|
    ensures var c := BulletFrom(s, p);
      FirstBullet(s[p..]) == if c < |s| then Some(c - p) else None
  {
    var t := s[p..];
    FirstBulletSpec(t);
    assert forall j :: p <= j < |s| ==> s[j] == t[j - p];
    match FirstBullet(t)
    case None =>
      assert forall j :: p <= j < |s| ==> !IsBullet(s[j]);
    case Some(b) =>
      assert IsBullet(s[p + b]);
      assert forall j :: p <= j < p + b ==> !IsBullet(s[j]);
  }

  /** `TrimEnd` on `s[p..k]` is the slice up to `TrimBack`. */
  lemma {:induction false} TrimEndBack(s: string, p: nat, k: nat, u: string)
    requires p <= k <= |s| && u == s[p..k]
    ensures TrimEnd(u) == s[p..TrimBack(s, p, k)]
    decreases k
  {
    if p < k && IsWhitespace(s[k - 1]) {
      var v := s[p..k - 1];
      assert u[..|u| - 1] == v;
      TrimEndBack(s, p, k - 1, v);
    }
  }

  /** No match can start before the end of the current piece. */
  lemma {:induction false} NoMatchBefore(s: string, p: nat, q: nat)
    requires p <= |s| && p <= q < PieceEnd(s, p)
    ensures MatchAt(s, q).None?
  {
    var c := BulletFrom(s, p);
    var w := WsEnd(s, q);
    if c < |s| {
      assert w < PieceEnd(s, p);
    }
  }

  /** At the end of a piece followed by a bullet, the match spans the
      whitespace around the bullet. */
  lemma {:induction false} MatchAtPieceEnd(s: string, p: nat, c: nat, m: nat)
    requires p <= |s| && c == BulletFrom(s, p) < |s| && m == PieceEnd(s, p)
    ensures m < |s| && MatchAt(s, m) == Some(WsEnd(s, c + 1))
  {
    BulletNotWhitespace(s[c]);
    WsEndExact(s, m, c);
  }

  lemma {:induction false} BulletNotWhitespace(c: char)
    requires IsBullet(c)
    ensures !IsWhitespace(c)
  {
  }

  /** The split loop computes the pieces. */
  lemma {:induction false} SplitLoopPieces(s: string, p: nat)
    requires p <= |s|
    ensures SplitLoop(s, p, p) == Pieces(s[p..])
    decreases |s| - p, 1
  {
    SkipToPieceEnd(s, p, p);
    SplitLoopAtPieceEnd(s, p);
  }

  /** Inside a piece the split loop only moves on to the piece's end. */
  lemma {:induction false} SkipToPieceEnd(s: string, p: nat, q: nat)
    requires p <= |s| && p <= q <= PieceEnd(s, p)
    ensures SplitLoop(s, p, q) == SplitLoop(s, p, PieceEnd(s, p))
    decreases PieceEnd(s, p) - q
  {
    if q < PieceEnd(s, p) {
      NoMatchBefore(s, p, q);
      LoopSkip(s, p, q);
      SkipToPieceEnd(s, p, q + 1);
    }
  }

  /** The split loop at the end of a piece: the piece, then the rest. */
  lemma {:induction false} SplitLoopAtPieceEnd(s: string, p: nat)
    requires p <= |s|
    ensures SplitLoop(s, p, PieceEnd(s, p)) == Pieces(s[p..])
    decreases |s| - p, 0
  {
    var c := BulletFrom(s, p);
    FirstBulletFrom(s, p);
    if c == |s| {
      PiecesNoBullet(s[p..]);
    } else {
      var m := PieceEnd(s, p);
      MatchAtPieceEnd(s, p, c, m);
      var e := WsEnd(s, c + 1);
      LoopMatch(s, p, m, e);
      SplitLoopPieces(s, e);
      PiecesAt(s, p, c, s[p..]);
    }
  }

  lemma {:induction false} LoopSkip(s: string, p: nat, q: nat)
    requires p <= q < |s| && MatchAt(s, q).None?
    ensures SplitLoop(s, p, q) == SplitLoop(s, p, q + 1)
  {
  }

  lemma {:induction false} LoopMatch(s: string, p: nat, q: nat, e: nat)
    requires p <= q < |s| && MatchAt(s, q) == Some(e)
    ensures SplitLoop(s, p, q) == [s[p..q]] + SplitLoop(s, e, e)
  {
  }

  lemma {:induction false} PiecesNoBullet(t: string)
    requires FirstBullet(t).None?
    ensures Pieces(t) == [t]
  {
  }

  lemma {:induction false} PiecesBullet(t: string, b: nat)
    requires FirstBullet(t) == Some(b)
    ensures Pieces(t) == [TrimEnd(t[..b])] + Pieces(TrimStart(t[b + 1..]))
  {
  }

  /** The pieces of `t`, the text from `p` on, when its first bullet is at
      index `c` of `s`: the piece up to `c` without its trailing whitespace,
      then the pieces after the whitespace that follows the bullet. */
  lemma {:induction false} PiecesAt(s: string, p: nat, c: nat, t: string)
    requires p <= c < |s| && t == s[p..] && FirstBullet(t) == Some(c - p)
    ensures Pieces(t) == [s[p..TrimBack(s, p, c)]] + Pieces(s[WsEnd(s, c + 1)..])
  {
    PiecesBullet(t, c - p);
    SameHead(s, p, c, t);
    SameRest(s, p, c, t);
  }

  lemma {:induction false} SameHead(s: string, p: nat, c: nat, t: string)
    requires p <= c < |s| && t == s[p..]
    ensures [TrimEnd(t[..c - p])] == [s[p..TrimBack(s, p, c)]]
  {
    HeadBefore(s, p, c, t);
  }

  lemma {:induction false} SameRest(s: string, p: nat, c: nat, t: string)
    requires p <= c < |s| && t == s[p..]
    ensures Pieces(TrimStart(t[c - p + 1..])) == Pieces(s[WsEnd(s, c + 1)..])
  {
    SuffixAfter(s, p, c, t);
  }

  /** What follows index `c` of `s` without its leading whitespace, where
      `t` is the text from `p` on. */
  lemma {:induction false} SuffixAfter(s: string, p: nat, c: nat, t: string)
    requires p <= c < |s| && t == s[p..]
    ensures TrimStart(t[c - p + 1..]) == s[WsEnd(s, c + 1)..]
  {
    var u := t[c - p + 1..];
    assert u == s[c + 1..];
    TrimStartAt(s, c + 1, u);
  }

  /** What precedes index `c` of `s` from `p` on, without its trailing
      whitespace, where `t` is the text from `p` on. */
  lemma {:induction false} HeadBefore(s: string, p: nat, c: nat, t: string)
    requires p <= c <= |s| && t == s[p..]
    ensures TrimEnd(t[..c - p]) == s[p..TrimBack(s, p, c)]
  {
    var u := t[..c - p];
    assert u == s[p..c];
    TrimEndBack(s, p, c, u);
  }

  /** `split` on the description is the piecewise description. */
  lemma {:induction false} SplitDescriptionPieces(desc: string)
    ensures SplitDescription(desc) == Pieces(desc)
  {
    SplitLoopPieces(desc, 0);
    assert desc[0..] == desc;
  }

  // ---------------------------------------------------------------- pieces: properties

  /** The number of bullets in `t`. */
  function BulletCount(t: string): nat {
    if t == [] then 0 else (if IsBullet(t[0]) then 1 else 0) + BulletCount(t[1..])
  }

  predicate NoBullet(x: string) {
    forall i :: 0 <= i < |x| ==> !IsBullet(x[i])
  }

  lemma {:induction false} BulletCountAppend(a: string, b: string)
    ensures BulletCount(a + b) == BulletCount(a) + BulletCount(b)
    decreases |a|
  {
    if a != [] {
      assert (a + b)[1..] == a[1..] + b;
      BulletCountAppend(a[1..], b);
    } else {
      assert a + b == b;
    }
  }

  lemma {:induction false} BulletCountNone(x: string)
    requires NoBullet(x)
    ensures BulletCount(x) == 0
    decreases |x|
  {
    if x != [] {
      assert forall i :: 0 <= i < |x| - 1 ==> x[1..][i] == x[i + 1];
      BulletCountNone(x[1..]);
    }
  }

  lemma {:induction false} FirstBulletNone(x: string)
    requires NoBullet(x)
    ensures FirstBullet(x).None?
  {
    FirstBulletSpec(x);
  }

  /** Whitespace is never a bullet, so trimming keeps the bullet count. */
  lemma {:induction false} TrimStartBullets(u: string)
    ensures BulletCount(TrimStart(u)) == BulletCount(u)
  {
    var r := TrimStart(u);
    var w := u[..|u| - |r|];
    assert u == w + r;
    BulletCountAppend(w, r);
    forall i | 0 <= i < |w| ensures !IsBullet(w[i]) {
      BulletNotWhitespace2(w[i]);
    }
    BulletCountNone(w);
  }

  lemma {:induction false} BulletNotWhitespace2(c: char)
    requires IsWhitespace(c)
    ensures !IsBullet(c)
  {
  }

  /** The bullets of `t` are its first one and those after it. */
  lemma {:induction false} BulletsAfterFirst(t: string, b: nat)
    requires FirstBullet(t) == Some(b)
    ensures BulletCount(t) == 1 + BulletCount(TrimStart(t[b + 1..]))
  {
    FirstBulletSpec(t);
    assert t == t[..b] + ([t[b]] + t[b + 1..]);
    BulletCountAppend(t[..b], [t[b]] + t[b + 1..]);
    BulletCountAppend([t[b]], t[b + 1..]);
    BulletCountNone(t[..b]);
    TrimStartBullets(t[b + 1..]);
  }

  /** Past its first bullet, `t` splits into a piece without bullets and
      a shorter rest holding the remaining bullets. */
  lemma {:induction false} PiecesFirst(t: string, b: nat) returns (head: string, rest: string)
    requires FirstBullet(t) == Some(b)
    ensures Pieces(t) == [head] + Pieces(rest)
    ensures |rest| < |t| && NoBullet(head)
    ensures BulletCount(t) == 1 + BulletCount(rest)
  {
    head, rest := TrimEnd(t[..b]), TrimStart(t[b + 1..]);
    PiecesBullet(t, b);
    BulletsAfterFirst(t, b);
    HeadNoBullet(t, b);
  }

  /** There is one more piece than there are bullets. */
  lemma {:induction false} PiecesCount(t: string)
    ensures |Pieces(t)| == BulletCount(t) + 1
    decreases |t|
  {
    match FirstBullet(t)
    case None =>
      FirstBulletSpec(t);
      BulletCountNone(t);
      PiecesNoBullet(t);
    case Some(b) =>
      var head, rest := PiecesFirst(t, b);
      PiecesCount(rest);
  }

  /** The piece before the first bullet has no bullet. */
  lemma {:induction false} HeadNoBullet(t: string, b: nat)
    requires FirstBullet(t) == Some(b)
    ensures NoBullet(TrimEnd(t[..b]))
  {
    FirstBulletSpec(t);
    var u := t[..b];
    var r := TrimEnd(u);
    assert forall i :: 0 <= i < |r| ==> r[i] == u[i] == t[i];
  }

  /** No piece contains a bullet. */
  lemma {:induction false} PiecesNoBullets(t: string)
    ensures forall k :: 0 <= k < |Pieces(t)| ==> NoBullet(Pieces(t)[k])
    decreases |t|
  {
    match FirstBullet(t)
    case None =>
      FirstBulletSpec(t);
      PiecesNoBullet(t);
    case Some(b) =>
      var head, rest := PiecesFirst(t, b);
      PiecesNoBullets(rest);
      ConsNoBullet(head, Pieces(rest), Pieces(t));
  }

  lemma {:induction false} ConsNoBullet(head: string, rest: seq<string>, all: seq<string>)
    requires all == [head] + rest && NoBullet(head)
    requires forall k :: 0 <= k < |rest| ==> NoBullet(rest[k])
    ensures forall k :: 0 <= k < |all| ==> NoBullet(all[k])
  {
    assert forall k :: 1 <= k < |all| ==> all[k] == rest[k - 1];
  }

  // ---------------------------------------------------------------- pieces: joining

  /** The separator Spotify writes between the fields of a description. */
  const BulletSep := " \U{00B7} "

  /** A field that can be written into a description and read back: no
      bullet, and no whitespace at either end. */
  predicate CleanField(x: string) {
    NoBullet(x) && IsTrimmed(x)
  }

  /** Characters before the first bullet move it right. */
  lemma {:induction false} FirstBulletShift(a: string, u: string)
    requires NoBullet(a)
    ensures FirstBullet(a + u) == match FirstBullet(u)
      case None => None
      case Some(b) => Some(|a| + b)
    decreases |a|
  {
    if a != [] {
      assert (a + u)[1..] == a[1..] + u;
      assert forall i :: 0 <= i < |a| - 1 ==> a[1..][i] == a[i + 1];
      FirstBulletShift(a[1..], u);
    } else {
      assert a + u == u;
    }
  }

  /** A clean field, whitespace and a bullet: the field is the first piece. */
  lemma {:induction false} JoinStep(x: string, w: string, j: string)
    requires CleanField(x) && AllWhitespace(w)
    ensures Pieces(x + w + "\U{00B7} " + j) == [x] + Pieces(TrimStart(" " + j))
  {
    var t := x + w + "\U{00B7} " + j;
    var a := x + w;
    assert NoBullet(a) by {
      forall i | 0 <= i < |a| ensures !IsBullet(a[i]) {
        if i >= |x| {
          BulletNotWhitespace2(w[i - |x|]);
        }
      }
    }
    assert t == a + ("\U{00B7} " + j);
    FirstBulletShift(a, "\U{00B7} " + j);
    PiecesBullet(t, |a|);
    JoinHead(x, w, t);
    JoinTail(a, j, t);
  }

  lemma {:induction false} JoinHead(x: string, w: string, t: string)
    requires CleanField(x) && AllWhitespace(w) && |x + w| < |t| && t[..|x + w|] == x + w
    ensures [TrimEnd(t[..|x + w|])] == [x]
  {
    TrimEndSkip(x, w);
  }

  lemma {:induction false} JoinTail(a: string, j: string, t: string)
    requires t == a + ("\U{00B7} " + j)
    ensures Pieces(TrimStart(t[|a| + 1..])) == Pieces(TrimStart(" " + j))
  {
    assert t[|a| + 1..] == " " + j;
  }

  /** The joined string starts with the first field. */
  lemma {:induction false} JoinStart(parts: seq<string>, sep: string)
    requires |parts| >= 1 && parts[0] != []
    ensures |Join(parts, sep)| > 0 && Join(parts, sep)[0] == parts[0][0]
  {
  }

  /** Joining clean fields with the separator and splitting the result
      gives the fields back. */
  lemma {:induction false} PiecesOfJoin(parts: seq<string>)
    requires |parts| >= 1 && forall k :: 0 <= k < |parts| ==> CleanField(parts[k])
    ensures Pieces(Join(parts, BulletSep)) == parts
    decreases |parts|, 1
  {
    var x := parts[0];
    if |parts| == 1 {
      FirstBulletNone(x);
      PiecesNoBullet(x);
    } else {
      var rest := parts[1..];
      PiecesAfterSep(rest, " ");
      JoinFirst(parts);
      JoinStep(x, " ", Join(rest, BulletSep));
      assert parts == [x] + rest;
    }
  }

  lemma {:induction false} JoinFirst(parts: seq<string>)
    requires |parts| >= 2
    ensures Join(parts, BulletSep) == parts[0] + " " + "\U{00B7} " + Join(parts[1..], BulletSep)
  {
    JoinCons(parts[0], parts[1..], BulletSep);
    assert parts == [parts[0]] + parts[1..];
  }

  /** The same, after whitespace that the split removes. */
  lemma {:induction false} PiecesAfterSep(parts: seq<string>, w: string)
    requires |parts| >= 1 && forall k :: 0 <= k < |parts| ==> CleanField(parts[k])
    requires AllWhitespace(w)
    ensures Pieces(TrimStart(w + Join(parts, BulletSep))) == parts
    decreases |parts|, 2
  {
    var x := parts[0];
    var j := Join(parts, BulletSep);
    if x != [] {
      JoinStart(parts, BulletSep);
      TrimStartSkip(w, j);
      PiecesOfJoin(parts);
    } else if |parts| == 1 {
      LoneEmptyField(parts, w);
    } else {
      EmptyFieldAfterSep(parts, w);
    }
  }

  /** `PiecesAfterSep` when the first field is empty and more follow. */
  lemma {:induction false} EmptyFieldAfterSep(parts: seq<string>, w: string)
    requires |parts| >= 2 && parts[0] == [] && forall k :: 0 <= k < |parts| ==> CleanField(parts[k])
    requires AllWhitespace(w)
    ensures Pieces(TrimStart(w + Join(parts, BulletSep))) == parts
    decreases |parts|, 1
  {
    var rest := parts[1..];
    assert forall k :: 0 <= k < |rest| ==> CleanField(rest[k]) by {
      forall k | 0 <= k < |rest| ensures CleanField(rest[k]) {
        assert rest[k] == parts[k + 1];
      }
    }
    PiecesAfterSep(rest, " ");
    EmptyFieldPieces(parts, w);
    EmptyFieldCons(parts);
  }

  /** An empty first field contributes an empty piece before the rest. */
  lemma {:induction false} EmptyFieldPieces(parts: seq<string>, w: string)
    requires |parts| >= 2 && parts[0] == [] && AllWhitespace(w)
    ensures Pieces(TrimStart(w + Join(parts, BulletSep))) == [""] + Pieces(TrimStart(" " + Join(parts[1..], BulletSep)))
  {
    EmptyFieldFirst(parts, w);
    JoinStep("", "", Join(parts[1..], BulletSep));
  }

  lemma {:induction false} EmptyFieldCons(parts: seq<string>)
    requires |parts| >= 1 && parts[0] == []
    ensures parts == [""] + parts[1..]
  {
    assert parts == [parts[0]] + parts[1..];
  }

  lemma {:induction false} LoneEmptyField(parts: seq<string>, w: string)
    requires parts == [""] && AllWhitespace(w)
    ensures Pieces(TrimStart(w + Join(parts, BulletSep))) == parts
  {
    assert w + Join(parts, BulletSep) == w + "";
    TrimStartSkip(w, "");
    FirstBulletNone("");
    PiecesNoBullet("");
  }

  /** An empty first field: the split starts at the bullet. */
  lemma {:induction false} EmptyFieldFirst(parts: seq<string>, w: string)
    requires |parts| >= 2 && parts[0] == [] && AllWhitespace(w)
    ensures TrimStart(w + Join(parts, BulletSep)) == "" + "" + "\U{00B7} " + Join(parts[1..], BulletSep)
  {
    var j' := Join(parts[1..], BulletSep);
    JoinCons(parts[0], parts[1..], BulletSep);
    assert parts == [parts[0]] + parts[1..];
    assert w + Join(parts, BulletSep) == (w + " ") + ("\U{00B7} " + j');
    TrimStartSkip(w + " ", "\U{00B7} " + j');
  }

  // ---------------------------------------------------------------- reading a description

  /** The fields `getEmbedMetadata` takes from a description: the second
      piece as the artist and the third as the album, each trimmed. */
  datatype DescriptionFields = DescriptionFields(artist: Option<string>, album: Option<string>)

  function ReadDescription(desc: string): DescriptionFields {
    FieldsOf(SplitDescription(desc))
  }

  function FieldsOf(parts: seq<string>): DescriptionFields {
    DescriptionFields(
      if |parts| >= 2 then Some(Trim(parts[1])) else None,
      if |parts| >= 3 then Some(Trim(parts[2])) else None)
  }

  /** An artist is read exactly when the description has a bullet, and an
      album exactly when it has two. */
  lemma {:induction false} ReadDescriptionPresent(desc: string)
    ensures ReadDescription(desc).artist.Some? <==> BulletCount(desc) >= 1
    ensures ReadDescription(desc).album.Some? <==> BulletCount(desc) >= 2
  {
    SplitDescriptionPieces(desc);
    PiecesCount(desc);
  }

  /** A description written as clean fields joined by " · " reads back its
      second and third fields. */
  lemma {:induction false} ReadDescriptionOfJoin(fields: seq<string>)
    requires |fields| >= 1 && forall k :: 0 <= k < |fields| ==> CleanField(fields[k])
    ensures var r := ReadDescription(Join(fields, BulletSep));
      && r.artist == (if |fields| >= 2 then Some(fields[1]) else None)
      && r.album == (if |fields| >= 3 then Some(fields[2]) else None)
  {
    var desc := Join(fields, BulletSep);
    SplitDescriptionPieces(desc);
    PiecesOfJoin(fields);
    FieldsOfClean(fields);
  }

  lemma {:induction false} FieldsOfClean(fields: seq<string>)
    requires forall k :: 0 <= k < |fields| ==> CleanField(fields[k])
    ensures var r := FieldsOf(fields);
      && r.artist == (if |fields| >= 2 then Some(fields[1]) else None)
      && r.album == (if |fields| >= 3 then Some(fields[2]) else None)
  {
    if |fields| >= 2 {
      TrimOfTrimmed(fields[1]);
    }
    if |fields| >= 3 {
      TrimOfTrimmed(fields[2]);
    }
  }

  // ---------------------------------------------------------------- the embed page

  /** The JSON-LD block of the embed page, when present and parseable. */
  datatype JsonLd = JsonLd(name: Option<string>, byArtistName: Option<string>, inAlbumName: Option<string>)

  /** What the embed page's markup yields: the contents of the `og:title`,
      `og:description` and `og:image` meta tags when present, and the
      JSON-LD block. */
  datatype EmbedPage = EmbedPage(
    ogTitle: Option<string>, ogDescription: Option<string>, ogImage: Option<string>, jsonLd: Option<JsonLd>)

  datatype EmbedData = EmbedData(
    title: Option<string>, artist: Option<string>, album: Option<string>, coverUrl: Option<string>)

  /** The fields read from the description, none when there is none. */
  function PageFields(pg: EmbedPage): DescriptionFields {
    if pg.ogDescription.Some? then ReadDescription(pg.ogDescription.value) else DescriptionFields(None, None)
  }

  /** `getEmbedMetadata(trackId)`: `None` when fetching the page fails;
      otherwise the meta tags, overridden by the JSON-LD names that are
      truthy. */
  function GetEmbedMetadata(page: Option<EmbedPage>): Option<EmbedData> {
    match page
    case None => None
    case Some(pg) =>
      var fields := PageFields(pg);
      match pg.jsonLd
      case None => Some(EmbedData(pg.ogTitle, fields.artist, fields.album, pg.ogImage))
      case Some(j) =>
        Some(EmbedData(
          if Truthy(j.name) then j.name else pg.ogTitle,
          if Truthy(j.byArtistName) then j.byArtistName else fields.artist,
          if Truthy(j.inAlbumName) then j.inAlbumName else fields.album,
          pg.ogImage))
  }

  /** Where each embed field comes from: a truthy JSON-LD name wins over the
      meta tags, and the cover is always the `og:image`. */
  lemma {:induction false} EmbedSources(pg: EmbedPage)
    ensures GetEmbedMetadata(Some(pg)).Some?
    ensures var d := GetEmbedMetadata(Some(pg)).value;
      var j := pg.jsonLd;
      && d.coverUrl == pg.ogImage
      && (j.Some? && Truthy(j.value.name) ==> d.title == j.value.name)
      && (!(j.Some? && Truthy(j.value.name)) ==> d.title == pg.ogTitle)
      && (j.Some? && Truthy(j.value.byArtistName) ==> d.artist == j.value.byArtistName)
      && (!(j.Some? && Truthy(j.value.byArtistName)) ==> d.artist == PageFields(pg).artist)
      && (j.Some? && Truthy(j.value.inAlbumName) ==> d.album == j.value.inAlbumName)
      && (!(j.Some? && Truthy(j.value.inAlbumName)) ==> d.album == PageFields(pg).album)
  {
  }

  // ---------------------------------------------------------------- track metadata

  /** The track record every caller of the service receives. */
  datatype TrackMetadata = TrackMetadata(
    title: string, artist: string, album: string, coverUrl: Option<string>,
    duration: Option<int>, releaseDate: Option<string>, trackNumber: Option<int>, isrc: Option<string>)

  /** The fields of a Web API track object the service reads; each image is
      given by its URL. */
  datatype ApiTrack = ApiTrack(
    name: string, artistNames: seq<string>, albumName: string, albumImages: seq<string>,
    durationMs: int, releaseDate: string, trackNumber: int, isrc: Option<string>)

  /** The oEmbed response: its title and thumbnail URL. */
  datatype OEmbed = OEmbed(title: string, thumbnailUrl: Option<string>)

  const ApiFailureMessage := "Failed to fetch track metadata from Spotify"
  const OEmbedFailureMessage := "Failed to fetch track information. Please check the URL and try again."
  const UnknownArtist := "Unknown Artist"
  const UnknownAlbum := "Unknown Album"

  /** `images[0]?.url || null`. */
  function FirstImage(images: seq<string>): (r: Option<string>)
    ensures r.Some? <==> |images| > 0 && images[0] != ""
    ensures r.Some? ==> r.value == images[0]
  {
    if |images| > 0 then OrNull(Some(images[0])) else None
  }

  /** The record built from a Web API track. */
  function ApiMetadata(t: ApiTrack): TrackMetadata {
    TrackMetadata(
      t.name, Join(t.artistNames, ", "), t.albumName, FirstImage(t.albumImages),
      Some(t.durationMs), Some(t.releaseDate), Some(t.trackNumber), OrNull(t.isrc))
  }

  /** The record built without credentials, from the embed data (absent when
      the embed page failed) and the oEmbed response (absent when that
      request failed). */
  function FallbackMetadata(embed: Option<EmbedData>, oembed: Option<OEmbed>): Result<TrackMetadata> {
    match oembed
    case None => Failure(OEmbedFailureMessage)
    case Some(o) =>
      var e := if embed.Some? then embed.value else EmbedData(None, None, None, None);
      Success(TrackMetadata(
        OrDefault(e.title, o.title),
        OrDefault(e.artist, UnknownArtist),
        OrDefault(e.album, UnknownAlbum),
        OrElse(e.coverUrl, OrNull(o.thumbnailUrl)),
        None, None, None, None))
  }

  /** `getSpotifyMetadata(trackId)`: the Web API when a token is available,
      otherwise the embed page and oEmbed. `api`, `page` and `oembed` are the
      outcomes of those requests. */
  function GetSpotifyMetadata(token: Option<string>, api: Option<ApiTrack>, page: Option<EmbedPage>, oembed: Option<OEmbed>)
    : Result<TrackMetadata>
  {
    if Truthy(token) then
      match api
      case None => Failure(ApiFailureMessage)
      case Some(t) => Success(ApiMetadata(t))
    else
      FallbackMetadata(GetEmbedMetadata(page), oembed)
  }

  /** The two ways the lookup fails, and nothing else fails. */
  lemma {:induction false} MetadataFailures(token: Option<string>, api: Option<ApiTrack>, page: Option<EmbedPage>, oembed: Option<OEmbed>)
    ensures var r := GetSpotifyMetadata(token, api, page, oembed);
      && (r == Failure(ApiFailureMessage) <==> Truthy(token) && api.None?)
      && (r == Failure(OEmbedFailureMessage) <==> !Truthy(token) && oembed.None?)
      && (r.Success? <==> if Truthy(token) then api.Some? else oembed.Some?)
  {
  }

  /** Without credentials the record never has an empty artist or album, and
      carries no duration, release date, track number or ISRC. */
  lemma {:induction false} FallbackShape(page: Option<EmbedPage>, oembed: Option<OEmbed>)
    requires oembed.Some?
    ensures var r := GetSpotifyMetadata(None, None, page, oembed);
      && r.Success?
      && r.value.artist != "" && r.value.album != ""
      && r.value.duration.None? && r.value.releaseDate.None?
      && r.value.trackNumber.None? && r.value.isrc.None?
      && (page.None? ==>
            && r.value.artist == UnknownArtist && r.value.album == UnknownAlbum
            && r.value.title == oembed.value.title && r.value.coverUrl == OrNull(oembed.value.thumbnailUrl))
  {
  }

  /** The fallback reads artist and album off a description Spotify writes as
      "Song · Artist · Album" when the page has no JSON-LD block. */
  lemma {:induction false} FallbackFromDescription(
    ogTitle: Option<string>, fields: seq<string>, ogImage: Option<string>, oembed: OEmbed)
    requires |fields| >= 3 && forall k :: 0 <= k < |fields| ==> CleanField(fields[k])
    requires fields[1] != "" && fields[2] != ""
    ensures var page := EmbedPage(ogTitle, Some(Join(fields, BulletSep)), ogImage, None);
      var r := GetSpotifyMetadata(None, None, Some(page), Some(oembed));
      r.Success? && r.value.artist == fields[1] && r.value.album == fields[2]
  {
    ReadDescriptionOfJoin(fields);
  }

  // ---------------------------------------------------------------- artists, joined and split again

  /** The artist names joined on ", " are the names, the first as is and the
      others behind a space, joined on ",". */
  function SpaceAfterFirst(names: seq<string>): (r: seq<string>)
    requires |names| >= 1
    ensures |r| == |names| && r[0] == names[0]
    ensures forall k :: 1 <= k < |names| ==> r[k] == " " + names[k]
  {
    [names[0]] + seq(|names| - 1, k requires 0 <= k < |names| - 1 => " " + names[k + 1])
  }

  lemma {:induction false} JoinCommaSpace(names: seq<string>)
    requires |names| >= 1
    ensures Join(names, ", ") == Join(SpaceAfterFirst(names), ",")
    decreases |names|
  {
    if |names| > 1 {
      var rest := names[1..];
      var shifted := SpaceAfterFirst(names);
      var shiftedRest := SpaceAfterFirst(rest);
      JoinCommaSpace(rest);
      JoinCons(names[0], rest, ", ");
      assert names == [names[0]] + rest;
      assert shifted == [names[0]] + ([" " + rest[0]] + shiftedRest[1..]);
      JoinCons(names[0], [" " + rest[0]] + shiftedRest[1..], ",");
      JoinExtendFirst(" ", shiftedRest, ",");
      assert [" " + shiftedRest[0]] + shiftedRest[1..] == [" " + rest[0]] + shiftedRest[1..];
    }
  }

  /** An artist name the match scorer can read back: no separator, no
      whitespace at either end. */
  predicate PlainArtist(n: string) {
    IsTrimmed(n) && forall i :: 0 <= i < |n| ==> !YouTubeService.IsArtistSeparator(n[i])
  }

  lemma {:induction false} TrimSpaced(n: string)
    requires IsTrimmed(n)
    ensures Trim(" " + n) == n
  {
    if n == [] {
      assert " " + n == " ";
    } else {
      TrimEndSkip(" " + n, "");
      assert " " + n + "" == " " + n;
      TrimStartSkip(" ", n);
    }
  }

  /** The artist string built from the Web API is split back into the same
      names by the YouTube match scorer. */
  lemma {:induction false} ApiArtistsReadBack(t: ApiTrack)
    requires |t.artistNames| >= 1
    requires forall k :: 0 <= k < |t.artistNames| ==> PlainArtist(t.artistNames[k])
    ensures YouTubeService.ArtistParts(ApiMetadata(t).artist) == t.artistNames
  {
    var names := t.artistNames;
    var shifted := SpaceAfterFirst(names);
    JoinCommaSpace(names);
    ShiftedPlain(names);
    SplitJoin(shifted, YouTubeService.IsArtistSeparator, ',');
    ShiftedTrims(names);
    var parts := YouTubeService.ArtistParts(ApiMetadata(t).artist);
    assert forall k :: 0 <= k < |names| ==> parts[k] == Trim(shifted[k]);
  }

  lemma {:induction false} ShiftedPlain(names: seq<string>)
    requires |names| >= 1
    requires forall k :: 0 <= k < |names| ==> PlainArtist(names[k])
    ensures var shifted := SpaceAfterFirst(names);
      forall k, i :: 0 <= k < |shifted| && 0 <= i < |shifted[k]| ==> !YouTubeService.IsArtistSeparator(shifted[k][i])
  {
    var shifted := SpaceAfterFirst(names);
    forall k, i | 0 <= k < |shifted| && 0 <= i < |shifted[k]|
      ensures !YouTubeService.IsArtistSeparator(shifted[k][i])
    {
      if k > 0 && i > 0 {
        assert shifted[k][i] == names[k][i - 1];
      }
    }
  }

  lemma {:induction false} ShiftedTrims(names: seq<string>)
    requires |names| >= 1
    requires forall k :: 0 <= k < |names| ==> PlainArtist(names[k])
    ensures forall k :: 0 <= k < |names| ==> Trim(SpaceAfterFirst(names)[k]) == names[k]
  {
    forall k | 0 <= k < |names| ensures Trim(SpaceAfterFirst(names)[k]) == names[k] {
      if k == 0 {
        TrimOfTrimmed(names[0]);
      } else {
        TrimSpaced(names[k]);
      }
    }
  }

  // ---------------------------------------------------------------- playlists

  /** A track object inside a playlist page; `id` is absent for local files
      and unavailable tracks. */
  datatype PlaylistTrackObject = PlaylistTrackObject(
    id: Option<string>, name: string, artistNames: seq<string>, albumName: string,
    albumImages: seq<string>, durationMs: int, trackNumber: int)

  /** An item of a playlist page; `track` is null for removed tracks. */
  datatype PlaylistItem = PlaylistItem(track: Option<PlaylistTrackObject>)

  /** One page of a playlist's tracks, with the URL of the next page. */
  datatype TracksPage = TracksPage(items: seq<PlaylistItem>, next: Option<string>)

  /** The fields of the playlist object the service reads. */
  datatype PlaylistInfo = PlaylistInfo(
    id: string, name: string, description: Option<string>, ownerName: string, images: seq<string>)

  datatype PlaylistTrack = PlaylistTrack(
    id: string, title: string, artist: string, album: string, coverUrl: Option<string>,
    duration: int, trackNumber: int)

  datatype Playlist = Playlist(
    id: string, name: string, description: Option<string>, owner: string, coverUrl: Option<string>,
    totalTracks: nat, tracks: seq<PlaylistTrack>)

  const CredentialsRequiredMessage :=
    "Spotify API credentials required for playlist downloads. Please configure SPOTIFY_CLIENT_ID and SPOTIFY_CLIENT_SECRET."
  const PlaylistFailureMessage := "Failed to fetch playlist. Make sure it's a public playlist."

  /** The items the filter keeps: a track with a truthy id. */
  predicate Playable(item: PlaylistItem) {
    item.track.Some? && Truthy(item.track.value.id)
  }

  function ToTrack(item: PlaylistItem): (t: PlaylistTrack)
    requires Playable(item)
  {
    var o := item.track.value;
    PlaylistTrack(o.id.value, o.name, Join(o.artistNames, ", "), o.albumName, FirstImage(o.albumImages),
      o.durationMs, o.trackNumber)
  }

  /** `items.filter(...).map(...)`: the playable items, as tracks, in order. */
  function ValidTracks(items: seq<PlaylistItem>): seq<PlaylistTrack> {
    if items == [] then []
    else
      var last := items[|items| - 1];
      ValidTracks(items[..|items| - 1]) + if Playable(last) then [ToTrack(last)] else []
  }

  /** Filtering a concatenation filters each part. */
  lemma {:induction false} ValidTracksAppend(a: seq<PlaylistItem>, b: seq<PlaylistItem>)
    ensures ValidTracks(a + b) == ValidTracks(a) + ValidTracks(b)
    decreases |b|
  {
    if b == [] {
      assert a + b == a;
    } else {
      var init := b[..|b| - 1];
      ValidTracksAppend(a, init);
      assert (a + b)[..|a + b| - 1] == a + init;
    }
  }

  /** Every kept track comes from a playable item, every playable item is
      kept, and every kept id is non-empty. */
  lemma {:induction false} ValidTracksSpec(items: seq<PlaylistItem>)
    ensures |ValidTracks(items)| <= |items|
    ensures forall t :: t in ValidTracks(items) ==> t.id != "" && exists k :: 0 <= k < |items| && Playable(items[k]) && ToTrack(items[k]) == t
    ensures forall k :: 0 <= k < |items| && Playable(items[k]) ==> ToTrack(items[k]) in ValidTracks(items)
    decreases |items|
  {
    if items != [] {
      var init := items[..|items| - 1];
      ValidTracksSpec(init);
      assert forall k :: 0 <= k < |init| ==> init[k] == items[k];
    }
  }

  /** The responses to the successive page requests: each one that is
      followed by another succeeded and named a next page; the last one
      failed or named none. */
  predicate PagesEnd(pages: seq<Option<TracksPage>>) {
    && |pages| >= 1
    && (forall i :: 0 <= i < |pages| - 1 ==> pages[i].Some? && Truthy(pages[i].value.next))
    && (pages[|pages| - 1].None? || !Truthy(pages[|pages| - 1].value.next))
  }

  /** The items of the pages fetched, in order. */
  function PageItems(pages: seq<Option<TracksPage>>): seq<PlaylistItem> {
    if pages == [] then []
    else
      var last := pages[|pages| - 1];
      PageItems(pages[..|pages| - 1]) + if last.Some? then last.value.items else []
  }

  /** What `getPlaylistMetadata(playlistId)` returns, given the token, the
      playlist request's outcome and the page responses. */
  function PlaylistResult(token: Option<string>, info: Option<PlaylistInfo>, pages: seq<Option<TracksPage>>)
    : Result<Playlist>
    requires PagesEnd(pages)
  {
    if !Truthy(token) then Failure(CredentialsRequiredMessage)
    else if info.None? || pages[|pages| - 1].None? then Failure(PlaylistFailureMessage)
    else
      var p := info.value;
      var tracks := ValidTracks(PageItems(pages));
      Success(Playlist(p.id, p.name, p.description, p.ownerName, FirstImage(p.images), |tracks|, tracks))
  }

  /** `getPlaylistMetadata(playlistId)`: follows the `next` links and
      gathers the playable tracks of every page. */
  method GetPlaylistMetadata(token: Option<string>, info: Option<PlaylistInfo>, pages: seq<Option<TracksPage>>)
    returns (r: Result<Playlist>)
    requires PagesEnd(pages)
    ensures r == PlaylistResult(token, info, pages)
  {
    if !Truthy(token) {
      return Failure(CredentialsRequiredMessage);
    }
    if info.None? {
      return Failure(PlaylistFailureMessage);
    }
    var tracks: seq<PlaylistTrack> := [];
    var i := 0;
    var more := true;
    while more
      invariant 0 <= i <= |pages|
      invariant more <==> i < |pages|
      invariant forall k :: 0 <= k < i ==> pages[k].Some?
      invariant tracks == ValidTracks(PageItems(pages[..i]))
      decreases |pages| - i
    {
      var page := pages[i];
      if page.None? {
        return Failure(PlaylistFailureMessage);
      }
      PageItemsStep(pages, i);
      ValidTracksAppend(PageItems(pages[..i]), page.value.items);
      tracks := tracks + ValidTracks(page.value.items);
      more := Truthy(page.value.next);
      i := i + 1;
    }
    assert pages[..i] == pages;
    var p := info.value;
    r := Success(Playlist(p.id, p.name, p.description, p.ownerName, FirstImage(p.images), |tracks|, tracks));
  }

  lemma {:induction false} PageItemsStep(pages: seq<Option<TracksPage>>, i: nat)
    requires i < |pages| && pages[i].Some?
    ensures PageItems(pages[..i + 1]) == PageItems(pages[..i]) + pages[i].value.items
  {
    assert pages[..i + 1][..i] == pages[..i];
  }

  /** The playlist lookup fails exactly without a token (asking for
      credentials) or when a request fails; on success the count is the
      number of tracks, and the tracks are the playable items of all pages
      in order, however they were split into pages. */
  lemma {:induction false} PlaylistFacts(token: Option<string>, info: Option<PlaylistInfo>, pages: seq<Option<TracksPage>>)
    requires PagesEnd(pages)
    ensures var r := PlaylistResult(token, info, pages);
      && (r == Failure(CredentialsRequiredMessage) <==> !Truthy(token))
      && (r == Failure(PlaylistFailureMessage) <==> Truthy(token) && (info.None? || pages[|pages| - 1].None?))
      && (r.Success? ==>
            && r.value.totalTracks == |r.value.tracks|
            && r.value.id == info.value.id
            && |r.value.tracks| <= |PageItems(pages)|
            && (forall t :: t in r.value.tracks ==> t.id != ""))
  {
    ValidTracksSpec(PageItems(pages));
  }
}
