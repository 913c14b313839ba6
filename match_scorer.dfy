/** Choosing the YouTube video for a track: an additive score per candidate
    and a search over four queries that returns from the first query with a
    positively scored candidate. The video search itself is a parameter. */
module YouTubeService {
  import opened Wrappers
  import opened Text

  /** One search hit as the video search reports it. */
  datatype Video = Video(videoId: string, title: string, url: string, seconds: int, thumbnail: string)

  /** What the scorer is told about the wanted track; `durationMs` is absent
      when the metadata carries no duration. */
  datatype TrackInfo = TrackInfo(title: string, artist: string, durationMs: Option<int>)

  /** What a successful search returns. */
  datatype Match = Match(videoId: string, title: string, url: string, duration: int, thumbnail: string)

  /** A JavaScript number as the scorer can produce it: a finite value, or the
      NaN that `0 / 0` gives. */
  datatype Score = NaN | Finite(value: real)

  /** `s + d` for a finite `d`. */
  function Plus(s: Score, d: real): Score {
    if s.NaN? then NaN else Finite(s.value + d)
  }

  /** `s + d` for any two numbers. */
  function Add(s: Score, d: Score): Score {
    if d.NaN? then NaN else Plus(s, d.value)
  }

  /** `Math.max(0, s)`, which is NaN when `s` is. */
  function Max0(s: Score): Score {
    if s.NaN? then NaN else if s.value < 0.0 then Finite(0.0) else s
  }

  function Abs(x: int): nat { if x < 0 then -x else x }

  // ---------------------------------------------------------------- the terms

  predicate IsSpace(c: char) { c == ' ' }

  /** `trackTitle.split(" ").filter((w) => w.length > 2)` */
  function LongWords(words: seq<string>): (r: seq<string>)
    ensures |r| <= |words|
  {
    if words == [] then []
    else (if JsLength(words[0]) > 2 then [words[0]] else []) + LongWords(words[1..])
  }

  function TitleWords(trackTitle: string): seq<string> {
    LongWords(SplitWhere(trackTitle, IsSpace))
  }

  /** How many of `words` occur in `hay`. */
  function CountContained(words: seq<string>, hay: string): (n: nat)
    ensures n <= |words|
  {
    if words == [] then 0
    else (if Contains(hay, words[0]) then 1 else 0) + CountContained(words[1..], hay)
  }

  /** The title term: 40 when the whole title occurs, otherwise the share of
      long title words that occur, times 25 (NaN when there is no long word). */
  function TitleTerm(videoTitle: string, trackTitle: string): Score {
    if Contains(videoTitle, trackTitle) then Finite(40.0)
    else
      var words := TitleWords(trackTitle);
      if |words| == 0 then NaN
      else Finite(CountContained(words, videoTitle) as real / |words| as real * 25.0)
  }

  predicate IsArtistSeparator(c: char) { c == ',' || c == '&' }

  /** `artistName.split(/[,&]/).map((a) => a.trim())` */
  function ArtistParts(artistName: string): seq<string> {
    var pieces := SplitWhere(artistName, IsArtistSeparator);
    seq(|pieces|, k requires 0 <= k < |pieces| => Trim(pieces[k]))
  }

  predicate SomePartContained(parts: seq<string>, hay: string) {
    exists k :: 0 <= k < |parts| && Contains(hay, parts[k])
  }

  function ArtistTerm(videoTitle: string, artistName: string): real {
    if SomePartContained(ArtistParts(artistName), videoTitle) then 30.0 else 0.0
  }

  /** The duration term; it applies only when both durations are known and
      non-zero, and compares in milliseconds. */
  function DurationTerm(durationMs: Option<int>, seconds: int): real {
    if durationMs.None? || durationMs.value == 0 || seconds == 0 then 0.0
    else
      var diff := Abs(1000 * seconds - durationMs.value);
      if diff < 5000 then 20.0
      else if diff < 15000 then 10.0
      else if diff < 30000 then 5.0
      else if diff > 120000 then -20.0
      else 0.0
  }

  function OfficialTerm(videoTitle: string): real {
    if Contains(videoTitle, "official") || Contains(videoTitle, "audio") then 10.0 else 0.0
  }

  const UnwantedTerms: seq<string> := ["live", "cover", "remix", "karaoke", "instrumental", "acoustic"]

  predicate Unwanted(videoTitle: string, trackTitle: string, term: string) {
    Contains(videoTitle, term) && !Contains(trackTitle, term)
  }

  /** How many of `terms` the video title has and the track title lacks. */
  function UnwantedCount(videoTitle: string, trackTitle: string, terms: seq<string>): (n: nat)
    ensures n <= |terms|
  {
    if terms == [] then 0
    else
      UnwantedCount(videoTitle, trackTitle, terms[..|terms| - 1])
      + (if Unwanted(videoTitle, trackTitle, terms[|terms| - 1]) then 1 else 0)
  }

  /** 15 off for each of the fixed unwanted terms. */
  function UnwantedPenalty(videoTitle: string, trackTitle: string): real {
    -15.0 * UnwantedCount(videoTitle, trackTitle, UnwantedTerms) as real
  }

  function LengthPenalty(seconds: int): real {
    if seconds < 60 || seconds > 600 then 10.0 else 0.0
  }

  /** The four bonus terms on already lower-cased titles, added in turn to 0
      (NaN stays NaN). */
  function Bonus(v: string, t: string, a: string, durationMs: Option<int>, seconds: int): Score {
    var afterTitle := Add(Finite(0.0), TitleTerm(v, t));
    var afterArtist := Plus(afterTitle, ArtistTerm(v, a));
    var afterDuration := Plus(afterArtist, DurationTerm(durationMs, seconds));
    Plus(afterDuration, OfficialTerm(v))
  }

  /** The score on already lower-cased titles: the bonus, less 15 per
      unwanted term and the length penalty, floored at zero. */
  function ScoreOf(v: string, t: string, a: string, durationMs: Option<int>, seconds: int): Score {
    Max0(Plus(Plus(Bonus(v, t, a, durationMs, seconds), UnwantedPenalty(v, Lower(t))), -LengthPenalty(seconds)))
  }

  /** The score of a candidate, on the lower-cased titles and artist. */
  function MatchScore(video: Video, track: TrackInfo): Score {
    ScoreOf(Lower(video.title), Lower(track.title), Lower(track.artist), track.durationMs, video.seconds)
  }

  // ---------------------------------------------------------------- the scorer

  /** The title block of `calculateMatchScore`. */
  method AddTitleTerm(score0: Score, videoTitle: string, trackTitle: string) returns (score: Score)
    ensures score == Add(score0, TitleTerm(videoTitle, trackTitle))
  {
    if Contains(videoTitle, trackTitle) {
      score := Plus(score0, 40.0);
    } else {
      var titleWords := TitleWords(trackTitle);
      var matched := CountContained(titleWords, videoTitle);
      if |titleWords| == 0 {
        score := NaN;
      } else {
        score := Plus(score0, matched as real / |titleWords| as real * 25.0);
      }
    }
  }

  /** The artist loop of `calculateMatchScore`: adds 30 for the first part
      that occurs in the video title and stops there. */
  method AddArtistTerm(score0: Score, videoTitle: string, artistParts: seq<string>) returns (score: Score)
    ensures score == Plus(score0, if SomePartContained(artistParts, videoTitle) then 30.0 else 0.0)
  {
    score := score0;
    var i := 0;
    while i < |artistParts|
      invariant 0 <= i <= |artistParts|
      invariant forall k :: 0 <= k < i ==> !Contains(videoTitle, artistParts[k])
      invariant score == score0
    {
      if Contains(videoTitle, artistParts[i]) {
        score := Plus(score, 30.0);
        break;
      }
      i := i + 1;
    }
  }

  /** The duration block of `calculateMatchScore`. */
  method AddDurationTerm(score0: Score, durationMs: Option<int>, seconds: int) returns (score: Score)
    ensures score == Plus(score0, DurationTerm(durationMs, seconds))
  {
    score := score0;
    if durationMs.Some? && durationMs.value != 0 && seconds != 0 {
      var durationDiff := Abs(1000 * seconds - durationMs.value);
      if durationDiff < 5000 {
        score := Plus(score, 20.0);
      } else if durationDiff < 15000 {
        score := Plus(score, 10.0);
      } else if durationDiff < 30000 {
        score := Plus(score, 5.0);
      } else if durationDiff > 120000 {
        score := Plus(score, -20.0);
      }
    }
  }

  /** The official-content block of `calculateMatchScore`. */
  method AddOfficialTerm(score0: Score, videoTitle: string) returns (score: Score)
    ensures score == Plus(score0, OfficialTerm(videoTitle))
  {
    score := score0;
    if Contains(videoTitle, "official") || Contains(videoTitle, "audio") {
      score := Plus(score, 10.0);
    }
  }

  /** The unwanted-term loop of `calculateMatchScore`: takes 15 off for each
      term the video title has and the track title lacks. */
  method SubtractUnwanted(score0: Score, videoTitle: string, trackTitle: string, terms: seq<string>)
    returns (score: Score)
    ensures score == Plus(score0, -15.0 * UnwantedCount(videoTitle, trackTitle, terms) as real)
  {
    score := score0;
    var j := 0;
    while j < |terms|
      invariant 0 <= j <= |terms|
      invariant score == Plus(score0, -15.0 * UnwantedCount(videoTitle, trackTitle, terms[..j]) as real)
    {
      var term := terms[j];
      assert terms[..j + 1][..j] == terms[..j];
      if Contains(videoTitle, term) && !Contains(trackTitle, term) {
        score := Plus(score, -15.0);
      }
      j := j + 1;
    }
    assert terms[..j] == terms;
  }

  /** The unwanted-term loop over the fixed list of terms. */
  method SubtractUnwantedTerms(score0: Score, videoTitle: string, trackTitle: string) returns (score: Score)
    ensures score == Plus(score0, UnwantedPenalty(videoTitle, trackTitle))
  {
    score := SubtractUnwanted(score0, videoTitle, trackTitle, UnwantedTerms);
  }

  /** The video-length block of `calculateMatchScore`. */
  method SubtractLengthPenalty(score0: Score, seconds: int) returns (score: Score)
    ensures score == Plus(score0, -LengthPenalty(seconds))
  {
    score := score0;
    if seconds < 60 || seconds > 600 {
      score := Plus(score, -10.0);
    }
    assert score0.Finite? ==> score0 == Finite(score0.value + -0.0);
  }

  /** `calculateMatchScore`: lower-cases the titles and the artist, then
      runs the blocks one after the other. */
  method CalculateMatchScore(video: Video, track: TrackInfo) returns (score: Score)
    ensures score == MatchScore(video, track)
  {
    var videoTitle := Lower(video.title);
    var trackTitle := Lower(track.title);
    var artistName := Lower(track.artist);
    score := ScoreBlocks(videoTitle, trackTitle, artistName, track.durationMs, video.seconds);
  }

  /** The blocks of `calculateMatchScore` on the lower-cased strings. */
  method ScoreBlocks(v: string, t: string, a: string, durationMs: Option<int>, seconds: int)
    returns (score: Score)
    ensures score == ScoreOf(v, t, a, durationMs, seconds)
  {
    score := BonusBlocks(v, t, a, durationMs, seconds);
    var trackTitleLower := Lower(t);
    score := SubtractUnwantedTerms(score, v, trackTitleLower);
    score := SubtractLengthPenalty(score, seconds);
    score := Max0(score);
  }

  /** The four bonus blocks of `calculateMatchScore`, starting from 0. */
  method BonusBlocks(v: string, t: string, a: string, durationMs: Option<int>, seconds: int)
    returns (score: Score)
    ensures score == Bonus(v, t, a, durationMs, seconds)
  {
    score := AddTitleTerm(Finite(0.0), v, t);
    score := AddArtistTerm(score, v, ArtistParts(a));
    score := AddDurationTerm(score, durationMs, seconds);
    score := AddOfficialTerm(score, v);
  }

  // ---------------------------------------------------------------- score facts

  /** The score is never negative; it is NaN exactly when the track title does
      not occur and has no word longer than two characters. */
  lemma {:induction false} ScoreRange(video: Video, track: TrackInfo)
    ensures MatchScore(video, track).NaN? <==>
      !Contains(Lower(video.title), Lower(track.title)) && TitleWords(Lower(track.title)) == []
    ensures MatchScore(video, track).Finite? ==> 0.0 <= MatchScore(video, track).value <= 100.0
  {
    var v, t := Lower(video.title), Lower(track.title);
    TitleTermRange(v, t);
  }

  /** The title term is 40 for a contained title and at most 25 otherwise. */
  lemma {:induction false} TitleTermRange(videoTitle: string, trackTitle: string)
    ensures Contains(videoTitle, trackTitle) ==> TitleTerm(videoTitle, trackTitle) == Finite(40.0)
    ensures !Contains(videoTitle, trackTitle) && TitleWords(trackTitle) != [] ==>
      TitleTerm(videoTitle, trackTitle).Finite? && 0.0 <= TitleTerm(videoTitle, trackTitle).value <= 25.0
  {
    var words := TitleWords(trackTitle);
    if !Contains(videoTitle, trackTitle) && words != [] {
      ShareBound(CountContained(words, videoTitle) as real, |words| as real);
    }
  }

  lemma {:induction false} ShareBound(m: real, n: real)
    requires 0.0 <= m <= n && 0.0 < n
    ensures 0.0 <= m / n * 25.0 <= 25.0
  {
    assert m / n <= 1.0;
  }

  /** The artist term is 30 exactly when some trimmed part of the artist name
      occurs in the video title, and 0 otherwise: it is added at most once. */
  lemma {:induction false} ArtistTermCases(videoTitle: string, artistName: string)
    ensures ArtistTerm(videoTitle, artistName) == 30.0 <==>
      exists k :: 0 <= k < |ArtistParts(artistName)| && Contains(videoTitle, ArtistParts(artistName)[k])
    ensures ArtistTerm(videoTitle, artistName) == 0.0 || ArtistTerm(videoTitle, artistName) == 30.0
  {
  }

  /** A larger duration difference never raises the duration term. */
  lemma {:induction false} DurationTermMonotone(durationMs: int, s1: int, s2: int)
    requires durationMs != 0 && s1 != 0 && s2 != 0
    requires Abs(1000 * s1 - durationMs) <= Abs(1000 * s2 - durationMs)
    ensures DurationTerm(Some(durationMs), s2) <= DurationTerm(Some(durationMs), s1)
  {
  }

  /** Unknown durations contribute nothing; known ones fall into the bands. */
  lemma {:induction false} DurationTermBands(durationMs: Option<int>, seconds: int)
    ensures durationMs.None? || durationMs.value == 0 || seconds == 0 ==> DurationTerm(durationMs, seconds) == 0.0
    ensures durationMs.Some? && durationMs.value != 0 && seconds != 0 ==>
      var diff := Abs(1000 * seconds - durationMs.value);
      && (diff < 5000 <==> DurationTerm(durationMs, seconds) == 20.0)
      && (5000 <= diff < 15000 <==> DurationTerm(durationMs, seconds) == 10.0)
      && (15000 <= diff < 30000 <==> DurationTerm(durationMs, seconds) == 5.0)
      && (diff > 120000 <==> DurationTerm(durationMs, seconds) == -20.0)
  {
  }

  /** Each unwanted term counts once, only when the video has it and the track
      title does not. */
  lemma {:induction false} UnwantedCountSpec(videoTitle: string, trackTitle: string, terms: seq<string>)
    ensures UnwantedCount(videoTitle, trackTitle, terms) == |UnwantedIndices(videoTitle, trackTitle, terms)|
  {
    if terms != [] {
      var n := |terms| - 1;
      var init := terms[..n];
      UnwantedCountSpec(videoTitle, trackTitle, init);
      var small := UnwantedIndices(videoTitle, trackTitle, init);
      var big := UnwantedIndices(videoTitle, trackTitle, terms);
      var last := if Unwanted(videoTitle, trackTitle, terms[n]) then {n} else {};
      forall k ensures k in big <==> k in small + last {
        if 0 <= k < n {
          assert init[k] == terms[k];
        }
      }
      assert big == small + last;
      assert n !in small;
      assert UnwantedCount(videoTitle, trackTitle, terms)
        == UnwantedCount(videoTitle, trackTitle, init) + |last|;
    }
  }

  /** The positions of the terms that the video title has and the track title lacks. */
  ghost function UnwantedIndices(videoTitle: string, trackTitle: string, terms: seq<string>): set<int> {
    set k | 0 <= k < |terms| && Unwanted(videoTitle, trackTitle, terms[k])
  }

  // ---------------------------------------------------------------- ranking

  /** A candidate together with its (positive) score. */
  datatype Scored = Scored(video: Video, score: real)

  /** `.slice(0, 10)` */
  function FirstTen(videos: seq<Video>): (r: seq<Video>)
    ensures |r| <= 10 && r <= videos
    ensures |videos| >= 10 ==> |r| == 10
    ensures |videos| < 10 ==> r == videos
  {
    if |videos| <= 10 then videos else videos[..10]
  }

  /** `score > 0`: false for NaN. */
  predicate Positive(s: Score) {
    s.Finite? && s.value > 0.0
  }

  /** Some candidate scores above zero. */
  predicate AnyPositive(scores: seq<Score>) {
    exists k :: 0 <= k < |scores| && Positive(scores[k])
  }

  /** `.filter((video) => video.score > 0)` over candidates and their scores. */
  function KeepPositive(videos: seq<Video>, scores: seq<Score>): (r: seq<Scored>)
    requires |videos| == |scores|
    ensures forall x :: x in r ==> x.score > 0.0
  {
    if videos == [] then []
    else
      (if Positive(scores[0]) then [Scored(videos[0], scores[0].value)] else [])
      + KeepPositive(videos[1..], scores[1..])
  }

  /** The filter keeps exactly the positively scored candidates, in their
      original order: `idx` lists the positions it keeps, increasing, and
      every positive position is among them. */
  lemma {:induction false} KeepPositiveExact(videos: seq<Video>, scores: seq<Score>) returns (idx: seq<nat>)
    requires |videos| == |scores|
    ensures KeptAt(videos, scores, idx)
    ensures forall j, j' :: 0 <= j < j' < |idx| ==> idx[j] < idx[j']
    ensures forall k :: 0 <= k < |videos| && Positive(scores[k]) ==> k in idx
  {
    if videos == [] {
      idx := [];
    } else {
      var idx' := KeepPositiveExact(videos[1..], scores[1..]);
      var h := if Positive(scores[0]) then 1 else 0;
      idx := Reindex(h, idx');
      KeptAtCons(videos, scores, h, idx');
      ReindexOrdered(h, idx');
      ReindexComplete(scores, h, idx');
    }
  }

  lemma ReindexOrdered(h: nat, idx': seq<nat>)
    requires h <= 1
    requires forall j, j' :: 0 <= j < j' < |idx'| ==> idx'[j] < idx'[j']
    ensures forall j, j' :: 0 <= j < j' < |Reindex(h, idx')| ==> Reindex(h, idx')[j] < Reindex(h, idx')[j']
  {
    var idx := Reindex(h, idx');
    forall j, j' | 0 <= j < j' < |idx|
      ensures idx[j] < idx[j']
    {
      if j >= h {
        assert idx[j] == idx'[j - h] + 1;
      }
    }
  }

  lemma ReindexComplete(scores: seq<Score>, h: nat, idx': seq<nat>)
    requires |scores| > 0 && h == if Positive(scores[0]) then 1 else 0
    requires forall k :: 0 <= k < |scores| - 1 && Positive(scores[1..][k]) ==> k in idx'
    ensures forall k :: 0 <= k < |scores| && Positive(scores[k]) ==> k in Reindex(h, idx')
  {
    var idx := Reindex(h, idx');
    forall k | 0 <= k < |scores| && Positive(scores[k])
      ensures k in idx
    {
      if k == 0 {
        assert idx[0] == 0;
      } else {
        assert scores[1..][k - 1] == scores[k];
        var j :| 0 <= j < |idx'| && idx'[j] == k - 1;
        assert idx[j + h] == k;
      }
    }
  }

  /** `idx` lists positions with a positive score whose candidates are, in
      turn, the elements the filter keeps. */
  predicate KeptAt(videos: seq<Video>, scores: seq<Score>, idx: seq<nat>)
    requires |videos| == |scores|
  {
    && |idx| == |KeepPositive(videos, scores)|
    && forall j :: 0 <= j < |idx| ==>
      idx[j] < |videos| && Positive(scores[idx[j]])
      && KeepPositive(videos, scores)[j] == Scored(videos[idx[j]], scores[idx[j]].value)
  }

  /** The positions of the tail, moved up by one, after position 0 when
      `h == 1`. */
  function Reindex(h: nat, idx': seq<nat>): (idx: seq<nat>)
    requires h <= 1
    ensures |idx| == h + |idx'|
    ensures h == 1 ==> idx[0] == 0
    ensures forall j :: h <= j < |idx| ==> idx[j] == idx'[j - h] + 1
  {
    (if h == 1 then [0] else []) + seq(|idx'|, j requires 0 <= j < |idx'| => idx'[j] + 1)
  }

  lemma KeptAtCons(videos: seq<Video>, scores: seq<Score>, h: nat, idx': seq<nat>)
    requires |videos| == |scores| > 0
    requires h == if Positive(scores[0]) then 1 else 0
    requires KeptAt(videos[1..], scores[1..], idx')
    ensures KeptAt(videos, scores, Reindex(h, idx'))
  {
    var idx := Reindex(h, idx');
    var tail := KeepPositive(videos[1..], scores[1..]);
    var r := KeepPositive(videos, scores);
    assert r == (if h == 1 then [Scored(videos[0], scores[0].value)] else []) + tail;
    forall j | 0 <= j < |idx|
      ensures idx[j] < |videos| && Positive(scores[idx[j]])
      ensures r[j] == Scored(videos[idx[j]], scores[idx[j]].value)
    {
      if j >= h {
        var n := idx'[j - h];
        assert idx[j] == n + 1 && r[j] == tail[j - h];
        assert scores[n + 1] == scores[1..][n] && videos[n + 1] == videos[1..][n];
      }
    }
  }

  /** Places `x` before the first element that does not score higher. */
  function InsertByScore(x: Scored, s: seq<Scored>): seq<Scored> {
    if s == [] || s[0].score <= x.score then [x] + s
    else [s[0]] + InsertByScore(x, s[1..])
  }

  /** The stable sort by descending score. */
  function SortByScore(s: seq<Scored>): seq<Scored> {
    if s == [] then [] else InsertByScore(s[0], SortByScore(s[1..]))
  }

  predicate SortedDescending(s: seq<Scored>) {
    forall i, j :: 0 <= i < j < |s| ==> s[i].score >= s[j].score
  }

  /** Inserting adds exactly `x`, and the head is `x` or the old head. */
  lemma {:induction false} InsertByScorePerm(x: Scored, s: seq<Scored>)
    ensures multiset(InsertByScore(x, s)) == multiset{x} + multiset(s)
    ensures InsertByScore(x, s)[0] == x || (s != [] && InsertByScore(x, s)[0] == s[0])
  {
    if s != [] && s[0].score > x.score {
      InsertByScorePerm(x, s[1..]);
      assert s == [s[0]] + s[1..];
    }
  }

  /** A bound on every score survives the insertion of a score under it. */
  lemma {:induction false} InsertByScoreBound(x: Scored, s: seq<Scored>, b: real)
    requires x.score <= b
    requires forall j :: 0 <= j < |s| ==> s[j].score <= b
    ensures forall k :: 0 <= k < |InsertByScore(x, s)| ==> InsertByScore(x, s)[k].score <= b
  {
    if s != [] && s[0].score > x.score {
      InsertByScoreBound(x, s[1..], b);
    }
  }

  lemma {:induction false} InsertByScoreSorted(x: Scored, s: seq<Scored>)
    requires SortedDescending(s)
    ensures SortedDescending(InsertByScore(x, s))
  {
    if s != [] && s[0].score > x.score {
      InsertByScoreSorted(x, s[1..]);
      InsertByScoreBound(x, s[1..], s[0].score);
      var r := InsertByScore(x, s[1..]);
      assert InsertByScore(x, s) == [s[0]] + r;
    }
  }

  /** The sort orders by descending score and is a permutation. */
  lemma {:induction false} SortByScoreSorted(s: seq<Scored>)
    ensures SortedDescending(SortByScore(s))
    ensures multiset(SortByScore(s)) == multiset(s)
  {
    if s != [] {
      SortByScoreSorted(s[1..]);
      InsertByScoreSorted(s[0], SortByScore(s[1..]));
      InsertByScorePerm(s[0], SortByScore(s[1..]));
      assert s == [s[0]] + s[1..];
    }
  }

  /** The head of the sorted list is the earliest candidate with the highest
      score. */
  lemma {:induction false} SortByScoreHead(s: seq<Scored>) returns (i: nat)
    requires s != []
    ensures i < |s| && SortByScore(s)[0] == s[i]
    ensures forall j :: 0 <= j < |s| ==> s[j].score <= s[i].score
    ensures forall j :: 0 <= j < i ==> s[j].score < s[i].score
  {
    var rest := s[1..];
    if rest == [] {
      i := 0;
    } else {
      var i' := SortByScoreHead(rest);
      var sorted := SortByScore(rest);
      assert SortByScore(s) == InsertByScore(s[0], sorted);
      assert sorted[0] == rest[i'];
      if sorted[0].score <= s[0].score {
        i := 0;
        assert SortByScore(s)[0] == s[0];
        forall j | 0 < j < |s| ensures s[j].score <= s[0].score {
          assert s[j] == rest[j - 1];
        }
      } else {
        i := i' + 1;
        assert SortByScore(s)[0] == sorted[0];
        forall j | 0 < j < |s| ensures s[j].score <= s[i].score {
          assert s[j] == rest[j - 1];
        }
        forall j | 0 < j < i ensures s[j].score < s[i].score {
          assert s[j] == rest[j - 1];
        }
      }
    }
  }

  /** The scores of a list of candidates. */
  function ScoresOf(videos: seq<Video>, track: TrackInfo): seq<Score> {
    seq(|videos|, k requires 0 <= k < |videos| => MatchScore(videos[k], track))
  }

  /** The ranked, positively scored candidates among the first ten results. */
  function Rank(videos: seq<Video>, track: TrackInfo): seq<Scored> {
    var top := FirstTen(videos);
    SortByScore(KeepPositive(top, ScoresOf(top, track)))
  }

  /** Position `i` holds the best score: positive, no lower than any other
      positive score, and strictly higher than every positive score before
      it (the stable sort keeps the earliest of equal scores first). */
  predicate BestAt(scores: seq<Score>, i: int) {
    && 0 <= i < |scores| && Positive(scores[i])
    && (forall k :: 0 <= k < |scores| && Positive(scores[k]) ==> scores[k].value <= scores[i].value)
    && (forall k :: 0 <= k < i && Positive(scores[k]) ==> scores[k].value < scores[i].value)
  }

  /** The ranking is empty exactly when no candidate among the first ten
      scores above zero. */
  lemma {:induction false} RankEmpty(videos: seq<Video>, track: TrackInfo)
    ensures Rank(videos, track) != [] <==> AnyPositive(ScoresOf(FirstTen(videos), track))
  {
    var top := FirstTen(videos);
    var scores := ScoresOf(top, track);
    var kept := KeepPositive(top, scores);
    SortByScoreSorted(kept);
    assert |SortByScore(kept)| == |kept| by {
      assert |multiset(SortByScore(kept))| == |multiset(kept)|;
    }
    var idx := KeepPositiveExact(top, scores);
    if AnyPositive(scores) {
      var k :| 0 <= k < |scores| && Positive(scores[k]);
      assert k in idx;
    }
    if kept != [] {
      assert Positive(scores[idx[0]]);
    }
  }

  /** The head of a non-empty ranking is the candidate at the best position
      among the first ten: the highest score, the earliest on ties. */
  lemma {:induction false} RankHead(videos: seq<Video>, track: TrackInfo) returns (i: nat)
    requires Rank(videos, track) != []
    ensures i < |FirstTen(videos)| && BestAt(ScoresOf(FirstTen(videos), track), i)
    ensures Rank(videos, track)[0] ==
      Scored(FirstTen(videos)[i], MatchScore(FirstTen(videos)[i], track).value)
  {
    var top := FirstTen(videos);
    var scores := ScoresOf(top, track);
    var kept := KeepPositive(top, scores);
    var idx := KeepPositiveExact(top, scores);
    var h := SortByScoreHead(kept);
    KeptHeadBest(top, scores, idx, h);
    i := idx[h];
  }

  /** The first kept candidate of highest score, the earliest on ties, sits
      at the best position of the unfiltered list. */
  lemma KeptHeadBest(videos: seq<Video>, scores: seq<Score>, idx: seq<nat>, h: nat)
    requires |videos| == |scores| && KeptAt(videos, scores, idx)
    requires forall j, j' :: 0 <= j < j' < |idx| ==> idx[j] < idx[j']
    requires forall k :: 0 <= k < |videos| && Positive(scores[k]) ==> k in idx
    requires h < |idx|
    requires forall j :: 0 <= j < |idx| ==>
      KeepPositive(videos, scores)[j].score <= KeepPositive(videos, scores)[h].score
    requires forall j :: 0 <= j < h ==>
      KeepPositive(videos, scores)[j].score < KeepPositive(videos, scores)[h].score
    ensures BestAt(scores, idx[h])
  {
    var kept := KeepPositive(videos, scores);
    var i := idx[h];
    forall k | 0 <= k < |scores| && Positive(scores[k])
      ensures scores[k].value <= scores[i].value
      ensures k < i ==> scores[k].value < scores[i].value
    {
      var j :| 0 <= j < |idx| && idx[j] == k;
      assert kept[j].score == scores[k].value;
      if k < i {
        assert j < h;
      }
    }
  }

  function ToMatch(video: Video): Match {
    Match(video.videoId, video.title, video.url, video.seconds, video.thumbnail)
  }

  // ---------------------------------------------------------------- the search

  /** The four queries, most specific first. */
  function SearchQueries(track: TrackInfo): (qs: seq<string>)
    ensures |qs| == 4
  {
    [ track.artist + " " + track.title + " official audio",
      track.artist + " " + track.title + " audio",
      track.artist + " " + track.title,
      track.title + " " + track.artist ]
  }

  /** The video search: the candidates it returns, or None when it fails or
      returns no video list. */
  type Search = string -> Option<seq<Video>>

  /** A search result that settles the search: a non-empty video list with
      a positively scored candidate among its first ten. */
  predicate Hit(found: Option<seq<Video>>, track: TrackInfo) {
    found.Some? && |found.value| > 0 && Rank(found.value, track) != []
  }

  /** The same condition stated on the scores alone: a non-empty video list
      with some candidate among its first ten scoring above zero. */
  predicate Settles(found: Option<seq<Video>>, track: TrackInfo) {
    found.Some? && |found.value| > 0 && AnyPositive(ScoresOf(FirstTen(found.value), track))
  }

  lemma HitExact(found: Option<seq<Video>>, track: TrackInfo)
    ensures Hit(found, track) <==> Settles(found, track)
  {
    if found.Some? {
      RankEmpty(found.value, track);
    }
  }

  /** The result of trying `queries` in order. */
  function SearchFrom(queries: seq<string>, track: TrackInfo, search: Search): Option<Match> {
    if queries == [] then None
    else if Hit(search(queries[0]), track) then Some(ToMatch(Rank(search(queries[0]).value, track)[0].video))
    else SearchFrom(queries[1..], track, search)
  }

  /** The scoring loop of `findYouTubeMatch`. */
  method ScoreAll(videos: seq<Video>, track: TrackInfo) returns (scores: seq<Score>)
    ensures scores == ScoresOf(videos, track)
  {
    scores := [];
    var k := 0;
    while k < |videos|
      invariant 0 <= k <= |videos|
      invariant scores == ScoresOf(videos, track)[..k]
    {
      var s := CalculateMatchScore(videos[k], track);
      ScoresPrefix(videos, track, k);
      scores := scores + [s];
      k := k + 1;
    }
  }

  /** Scores the first ten results, keeps the positive ones and sorts them. */
  method RankResults(videos: seq<Video>, track: TrackInfo) returns (ranked: seq<Scored>)
    ensures ranked == Rank(videos, track)
    ensures ranked != [] <==> AnyPositive(ScoresOf(FirstTen(videos), track))
    ensures ranked != [] ==> exists i :: (BestAt(ScoresOf(FirstTen(videos), track), i)
      && ranked[0] == Scored(FirstTen(videos)[i], MatchScore(FirstTen(videos)[i], track).value))
  {
    var top := FirstTen(videos);
    var scores := ScoreAll(top, track);
    ranked := SortByScore(KeepPositive(top, scores));
    RankEmpty(videos, track);
    if ranked != [] {
      var i := RankHead(videos, track);
    }
  }

  lemma ScoresPrefix(videos: seq<Video>, track: TrackInfo, k: nat)
    requires k < |videos|
    ensures ScoresOf(videos, track)[..k + 1] == ScoresOf(videos, track)[..k] + [MatchScore(videos[k], track)]
  {
  }

  /** `findYouTubeMatch` */
  method FindYouTubeMatch(track: TrackInfo, search: Search) returns (m: Option<Match>)
    ensures m == SearchFrom(SearchQueries(track), track, search)
    ensures m.None? <==> forall q :: 0 <= q < 4 ==> !Settles(search(SearchQueries(track)[q]), track)
  {
    m := None;
    var queries := SearchQueries(track);
    var q := 0;
    while q < |queries|
      invariant 0 <= q <= |queries|
      invariant SearchFrom(queries, track, search) == SearchFrom(queries[q..], track, search)
    {
      assert queries[q..][1..] == queries[q + 1..];
      var found := search(queries[q]);
      if found.None? || |found.value| == 0 {
        q := q + 1;
        continue;
      }
      var ranked := RankResults(found.value, track);
      if |ranked| > 0 {
        m := Some(ToMatch(ranked[0].video));
        SearchFromNone(queries, track, search);
        return;
      }
      q := q + 1;
    }
    SearchFromNone(queries, track, search);
  }

  /** With no query that hits there is no match, and the other way round:
      there is no match exactly when no query returns a video list with a
      positively scored candidate among its first ten. */
  lemma SearchFromNone(queries: seq<string>, track: TrackInfo, search: Search)
    ensures SearchFrom(queries, track, search).None? <==>
      forall q :: 0 <= q < |queries| ==> !Hit(search(queries[q]), track)
    ensures SearchFrom(queries, track, search).None? <==>
      forall q :: 0 <= q < |queries| ==> !Settles(search(queries[q]), track)
  {
    NoHitNoMatch(queries, track, search);
    forall q | 0 <= q < |queries| {
      HitExact(search(queries[q]), track);
    }
  }

  lemma {:induction false} NoHitNoMatch(queries: seq<string>, track: TrackInfo, search: Search)
    ensures SearchFrom(queries, track, search).None? <==>
      forall q :: 0 <= q < |queries| ==> !Hit(search(queries[q]), track)
  {
    if queries != [] {
      NoHitNoMatch(queries[1..], track, search);
      assert forall q :: 0 < q < |queries| ==> queries[q] == queries[1..][q - 1];
    }
  }

  /** A match is the best candidate of the first query that settles the
      search: no earlier query returned a positively scored candidate, and
      the match is the highest scored of the first ten results of query `q`,
      the earliest of them on ties. */
  lemma SearchFromBest(queries: seq<string>, track: TrackInfo, search: Search) returns (q: nat, i: nat)
    requires SearchFrom(queries, track, search).Some?
    ensures q < |queries| && Settles(search(queries[q]), track)
    ensures forall p :: 0 <= p < q ==> !Settles(search(queries[p]), track)
    ensures i < |FirstTen(search(queries[q]).value)|
    ensures BestAt(ScoresOf(FirstTen(search(queries[q]).value), track), i)
    ensures SearchFrom(queries, track, search) == Some(ToMatch(FirstTen(search(queries[q]).value)[i]))
  {
    q := SearchFromSome(queries, track, search);
    forall p | 0 <= p <= q {
      HitExact(search(queries[p]), track);
    }
    i := RankHead(search(queries[q]).value, track);
  }

  /** A match comes from the first query that hits, and it is the head of that
      query's ranking: the earliest of its best scored candidates. */
  lemma {:induction false} SearchFromSome(queries: seq<string>, track: TrackInfo, search: Search)
    returns (q: nat)
    requires SearchFrom(queries, track, search).Some?
    ensures q < |queries| && ChosenAt(queries, track, search, q)
  {
    if Hit(search(queries[0]), track) {
      q := 0;
    } else {
      var rest := queries[1..];
      assert SearchFrom(queries, track, search) == SearchFrom(rest, track, search);
      var q' := SearchFromSome(rest, track, search);
      q := q' + 1;
      assert rest[q'] == queries[q];
      forall p | 0 <= p < q
        ensures !Hit(search(queries[p]), track)
      {
        if p == 0 {
          assert !Hit(search(queries[0]), track);
        } else {
          assert !Hit(search(rest[p - 1]), track);
          assert queries[p] == rest[p - 1];
        }
      }
    }
  }

  /** Query `q` is the one that produced the match: no earlier query hit, this
      one does, and the match is the head of its ranking. */
  predicate ChosenAt(queries: seq<string>, track: TrackInfo, search: Search, q: int)
    requires 0 <= q < |queries|
  {
    && (forall p :: 0 <= p < q ==> !Hit(search(queries[p]), track))
    && Hit(search(queries[q]), track)
    && SearchFrom(queries, track, search) == Some(ToMatch(Rank(search(queries[q]).value, track)[0].video))
  }

  /** Every ranked candidate is one of the first ten results with a positive
      score equal to its match score, and the ranking is sorted. */
  lemma {:induction false} RankSound(videos: seq<Video>, track: TrackInfo)
    ensures SortedDescending(Rank(videos, track))
    ensures forall x :: x in Rank(videos, track) ==>
      x.video in FirstTen(videos) && x.score > 0.0 && MatchScore(x.video, track) == Finite(x.score)
  {
    var top := FirstTen(videos);
    var kept := KeepPositive(top, ScoresOf(top, track));
    SortByScoreSorted(kept);
    KeepPositiveSound(top, ScoresOf(top, track), track);
    forall x | x in Rank(videos, track)
      ensures x.video in top && x.score > 0.0 && MatchScore(x.video, track) == Finite(x.score)
    {
      assert x in multiset(kept);
    }
  }

  lemma {:induction false} KeepPositiveSound(videos: seq<Video>, scores: seq<Score>, track: TrackInfo)
    requires |videos| == |scores|
    requires forall k :: 0 <= k < |videos| ==> scores[k] == MatchScore(videos[k], track)
    ensures forall x :: x in KeepPositive(videos, scores) ==>
      x.video in videos && MatchScore(x.video, track) == Finite(x.score)
  {
    if videos != [] {
      KeepPositiveSound(videos[1..], scores[1..], track);
    }
  }
}
