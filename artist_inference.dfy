/** Guessing a track's artist from the title of the video chosen for it,
    when the metadata lookup left the artist unknown. Two title patterns,
    "Artist - Song" and "Song by Artist", are tried in that order; noise
    words are stripped from the captured text, and the first candidate
    whose length in UTF-16 code units is between 2 and 49 replaces the
    artist. Each regular expression is written out as the search its
    engine performs. */
module ArtistInference {
  import opened Wrappers
  import opened Text
  import SpotifyService

  /** `.` accepts the character at `i`. */
  predicate Dot(s: string, i: nat)
    requires i < |s|
  {
    !IsLineTerminator(s[i])
  }

  /** No line terminator among the first `k` characters: what `.+?` may span. */
  predicate OneLine(s: string, k: nat)
    requires k <= |s|
  {
    forall i :: 0 <= i < k ==> Dot(s, i)
  }

  // ---------------------------------------------------------------- /^(.+?)\s*[-–—|]\s*.+/

  predicate IsDash(c: char) { c == '-' || c == '\U{2013}' || c == '\U{2014}' || c == '|' }

  /** `\s*.+` matches at `p`: after some whitespace there is a character that `.` accepts. */
  predicate RestAt(s: string, p: nat)
    decreases |s| - p
  {
    p < |s| && (!IsLineTerminator(s[p]) || RestAt(s, p + 1))
  }

  /** What may follow the lazy group of each pattern when the group ends at `k`. */
  datatype Tail =
    | DashTail  // `\s*[-–—|]\s*.+`
    | ByTail    // `(?:\s*[\(\[]|$)`

  predicate TailAt(t: Tail, s: string, k: nat)
    requires k <= |s|
  {
    var e := WsEnd(s, k);
    match t
    case DashTail => e < |s| && IsDash(s[e]) && RestAt(s, e + 1)
    case ByTail => k == |s| || (e < |s| && (s[e] == '(' || s[e] == '['))
  }

  /** A lazy group starting at `start` may end at `k`. */
  predicate GroupEnd(t: Tail, s: string, start: nat, k: nat) {
    && start < k <= |s|
    && (forall i :: start <= i < k ==> Dot(s, i))
    && TailAt(t, s, k)
  }

  /** The lazy group `(.+?)` starting at `start`: the engine tries the ends
      `k` in increasing order, searching from `k`. */
  function LazyEnd(t: Tail, s: string, start: nat, k: nat): (e: Option<nat>)
    requires start < k
    ensures e.Some? ==> k <= e.value <= |s|
    decreases |s| - k
  {
    if k > |s| || IsLineTerminator(s[k - 1]) then None
    else if TailAt(t, s, k) then Some(k)
    else LazyEnd(t, s, start, k + 1)
  }

  /** The lazy group ends at the first end that lets the rest match, and
      finds none exactly when there is none. */
  lemma {:induction false} LazyEndSpec(t: Tail, s: string, start: nat, k: nat)
    requires start < k && k - 1 <= |s|
    requires forall i :: start <= i < k - 1 ==> Dot(s, i)
    ensures var e := LazyEnd(t, s, start, k);
      && (e.Some? ==> GroupEnd(t, s, start, e.value) && forall j :: k <= j < e.value ==> !GroupEnd(t, s, start, j))
      && (e.None? ==> forall j :: k <= j ==> !GroupEnd(t, s, start, j))
    decreases |s| - k
  {
    if k > |s| {
    } else if IsLineTerminator(s[k - 1]) {
      forall j | k <= j
        ensures !GroupEnd(t, s, start, j)
      {
        if j <= |s| {
          assert start <= k - 1 < j && !Dot(s, k - 1);
        }
      }
    } else if !TailAt(t, s, k) {
      LazyEndSpec(t, s, start, k + 1);
    }
  }

  /** The text `/^(.+?)\s*[-–—|]\s*.+/` captures. */
  function DashGroup(title: string): Option<string> {
    var e := LazyEnd(DashTail, title, 0, 1);
    if e.Some? then Some(title[..e.value]) else None
  }

  /** The first pattern captures the shortest non-empty one-line prefix that
      is followed by optional whitespace, a dash or bar, and more text; it
      captures nothing exactly when no prefix qualifies. */
  lemma {:induction false} DashGroupSpec(title: string)
    ensures var g := DashGroup(title);
      && (g.Some? ==>
            && GroupEnd(DashTail, title, 0, |g.value|) && g.value == title[..|g.value|]
            && forall j :: 0 <= j < |g.value| ==> !GroupEnd(DashTail, title, 0, j))
      && (g.None? ==> forall j :: !GroupEnd(DashTail, title, 0, j))
  {
    LazyEndSpec(DashTail, title, 0, 1);
  }

  // ---------------------------------------------------------------- /^.+?\s+by\s+(.+?)(?:\s*[\(\[]|$)/i

  /** "by" in any case at `b`. */
  predicate ByAt(s: string, b: nat) {
    b + 2 <= |s| && LowerChar(s[b]) == 'b' && LowerChar(s[b + 1]) == 'y'
  }

  /** A match of the second pattern: the lazy prefix ends at `a`, the word
      "by" is surrounded by whitespace, and the group is `s[c..d]`. */
  predicate ByMatch(s: string, a: nat, c: nat, d: nat) {
    && 1 <= a <= |s| && OneLine(s, a)
    && var b := WsEnd(s, a);
    && b > a && ByAt(s, b)
    && b + 2 < c <= WsEnd(s, b + 2)
    && GroupEnd(ByTail, s, c, d)
  }

  /** The greedy `\s+` after "by": the engine tries the group starts `c`
      from the end of the whitespace run back down to one past `lo`. */
  function GroupStart(s: string, lo: nat, c: nat): (r: Option<(nat, nat)>)
    requires c <= |s|
    ensures r.Some? ==> lo < r.value.0 <= c && r.value.0 < r.value.1 <= |s|
    decreases c
  {
    if c <= lo then None
    else
      var d := LazyEnd(ByTail, s, c, c + 1);
      if d.Some? then Some((c, d.value)) else GroupStart(s, lo, c - 1)
  }

  /** The engine's first match whose lazy prefix `^.+?` ends at `a`. */
  function ByAtPrefix(s: string, a: nat): (r: Option<(nat, nat)>)
    requires a <= |s|
    ensures r.Some? ==> r.value.0 < r.value.1 <= |s|
  {
    var b := WsEnd(s, a);
    if b > a && ByAt(s, b) then GroupStart(s, b + 2, WsEnd(s, b + 2)) else None
  }

  /** The lazy prefix `^.+?` of the second pattern: the engine tries the
      ends `a` in increasing order. */
  function ByFrom(s: string, a: nat): (r: Option<(nat, nat)>)
    requires 1 <= a
    ensures r.Some? ==> r.value.0 < r.value.1 <= |s|
    decreases |s| - a
  {
    if a > |s| || IsLineTerminator(s[a - 1]) then None
    else
      var r := ByAtPrefix(s, a);
      if r.Some? then r else ByFrom(s, a + 1)
  }

  /** The text the second pattern captures. */
  function ByGroup(title: string): Option<string> {
    var r := ByFrom(title, 1);
    if r.Some? then Some(title[r.value.0..r.value.1]) else None
  }

  /** The group starts the search tries, from `c` down: it returns the
      first start (and the lazy end of its group) at which a group can end;
      no later start admits a group, and no earlier end does at that start. */
  lemma {:induction false} GroupStartSpec(s: string, lo: nat, c: nat)
    requires c <= |s|
    ensures var r := GroupStart(s, lo, c);
      && (r.Some? ==>
            && lo < r.value.0 <= c && GroupEnd(ByTail, s, r.value.0, r.value.1)
            && (forall c', d :: r.value.0 < c' <= c ==> !GroupEnd(ByTail, s, c', d))
            && (forall d: nat :: d < r.value.1 ==> !GroupEnd(ByTail, s, r.value.0, d)))
      && (r.None? ==> forall c', d :: lo < c' <= c ==> !GroupEnd(ByTail, s, c', d))
    decreases c
  {
    if c > lo {
      LazyEndSpec(ByTail, s, c, c + 1);
      GroupStartSpec(s, lo, c - 1);
    }
  }

  /** The engine's match for a prefix end `a`: a match whose group starts
      as late as any match with that prefix end can (the greedy `\s+`), and
      whose group ends as early as it can from that start (the lazy `.+?`). */
  ghost predicate FirstAtPrefix(s: string, a: nat, c: nat, d: nat) {
    && ByMatch(s, a, c, d)
    && (forall c': nat, d': nat :: c < c' ==> !ByMatch(s, a, c', d'))
    && (forall d': nat :: d' < d ==> !ByMatch(s, a, c, d'))
  }

  /** The matches with a given prefix end: the search returns the engine's
      one when there is one. */
  lemma {:induction false} ByAtPrefixSpec(s: string, a: nat)
    requires 1 <= a <= |s| && OneLine(s, a)
    ensures var r := ByAtPrefix(s, a);
      && (r.Some? ==> FirstAtPrefix(s, a, r.value.0, r.value.1))
      && (r.None? ==> forall c, d :: !ByMatch(s, a, c, d))
  {
    var b := WsEnd(s, a);
    if b > a && ByAt(s, b) {
      var lo := b + 2;
      GroupStartSpec(s, lo, WsEnd(s, lo));
      var r := GroupStart(s, lo, WsEnd(s, lo));
      assert r == ByAtPrefix(s, a);
      if r.Some? {
        assert ByMatch(s, a, r.value.0, r.value.1);
      }
    }
  }

  /** The search finds the engine's match for the least prefix end of at
      least `a` that has one, and finds none exactly when there is none. */
  lemma {:induction false} ByFromSpec(s: string, a: nat) returns (a': nat)
    requires 1 <= a && a - 1 <= |s| && OneLine(s, a - 1)
    ensures var r := ByFrom(s, a);
      && (r.Some? ==>
            && a <= a' && FirstAtPrefix(s, a', r.value.0, r.value.1)
            && forall x, c, d :: a <= x < a' ==> !ByMatch(s, x, c, d))
      && (r.None? ==> forall x, c, d :: a <= x ==> !ByMatch(s, x, c, d))
    decreases |s| - a
  {
    a' := a;
    if a > |s| {
    } else if IsLineTerminator(s[a - 1]) {
      forall x, c, d | a <= x
        ensures !ByMatch(s, x, c, d)
      {
        if x <= |s| {
          assert a - 1 < x && !Dot(s, a - 1);
        }
      }
    } else {
      assert OneLine(s, a);
      ByAtPrefixSpec(s, a);
      var here := ByAtPrefix(s, a);
      if here.None? {
        var r := ByFrom(s, a + 1);
        assert ByFrom(s, a) == r;
        a' := ByFromSpec(s, a + 1);
        forall x, c, d | a <= x && (r.Some? ==> x < a')
          ensures !ByMatch(s, x, c, d)
        {
          if x == a {
            assert here.None?;
          }
        }
      } else {
        assert ByFrom(s, a) == here;
      }
    }
  }

  /** The second pattern captures a group exactly when the title matches
      it, and what it captures is the group of the match the engine
      chooses: the least prefix end, then the latest group start, then the
      earliest group end. */
  lemma {:induction false} ByGroupSpec(title: string)
    ensures var g := ByGroup(title);
      && (g.Some? ==> exists a: nat, c: nat, d: nat ::
            && FirstAtPrefix(title, a, c, d) && g.value == title[c..d]
            && forall x: nat, c': nat, d': nat :: x < a ==> !ByMatch(title, x, c', d'))
      && (g.None? ==> forall a: nat, c: nat, d: nat :: !ByMatch(title, a, c, d))
  {
    var a := ByFromSpec(title, 1);
    var r := ByFrom(title, 1);
    if r.Some? {
      assert FirstAtPrefix(title, a, r.value.0, r.value.1);
    }
  }

  // ---------------------------------------------------------------- noise words

  /** The words the noise pattern `\s*(official|audio|...)\s*` removes, in the order of its alternation. */
  const NoiseWords: seq<string> := ["official", "audio", "video", "music", "lyrics", "hd", "hq", "4k"]

  /** `w` occurs at `q` of `s`, in any case. */
  predicate WordAt(s: string, q: nat, w: string) {
    q + |w| <= |s| && Lower(s[q..q + |w|]) == w
  }

  /** The length of the first noise word at `q`, trying them from index `i` on. */
  function NoiseFrom(s: string, q: nat, i: nat): (n: Option<nat>)
    requires i <= |NoiseWords|
    ensures n.Some? ==> n.value > 0 && q + n.value <= |s|
    decreases |NoiseWords| - i
  {
    if i == |NoiseWords| then None
    else if WordAt(s, q, NoiseWords[i]) then Some(|NoiseWords[i]|)
    else NoiseFrom(s, q, i + 1)
  }

  /** `NoiseFrom` finds a word exactly when one of the words occurs there. */
  lemma {:induction false} NoiseFromSpec(s: string, q: nat, i: nat)
    requires i <= |NoiseWords|
    ensures var n := NoiseFrom(s, q, i);
      && (n.Some? ==> exists k :: i <= k < |NoiseWords| && WordAt(s, q, NoiseWords[k]) && n.value == |NoiseWords[k]|)
      && (n.None? ==> forall k :: i <= k < |NoiseWords| ==> !WordAt(s, q, NoiseWords[k]))
    decreases |NoiseWords| - i
  {
    if i < |NoiseWords| && !WordAt(s, q, NoiseWords[i]) {
      NoiseFromSpec(s, q, i + 1);
    }
  }

  /** The global replacement, scanning from `p`: where optional whitespace
      and a noise word start, they and the whitespace after them are
      dropped and the scan resumes after them; elsewhere one character is
      kept. */
  function StripNoise(s: string, p: nat): (r: string)
    requires p <= |s|
    ensures |r| <= |s| - p
    decreases |s| - p
  {
    if p == |s| then []
    else
      var q := WsEnd(s, p);
      var n := NoiseFrom(s, q, 0);
      if n.Some? then StripNoise(s, WsEnd(s, q + n.value))
      else [s[p]] + StripNoise(s, p + 1)
  }

  /** No noise word occurs anywhere in `s`. */
  predicate NoNoise(s: string) {
    forall q, k :: 0 <= q <= |s| && 0 <= k < |NoiseWords| ==> !WordAt(s, q, NoiseWords[k])
  }

  /** A text without noise words is left as it is. */
  lemma {:induction false} StripNoiseKeeps(s: string, p: nat)
    requires p <= |s| && NoNoise(s)
    ensures StripNoise(s, p) == s[p..]
    decreases |s| - p
  {
    if p < |s| {
      var q := WsEnd(s, p);
      NoiseFromSpec(s, q, 0);
      StripNoiseKeeps(s, p + 1);
      assert s[p..] == [s[p]] + s[p + 1..];
    }
  }

  /** The candidate: the group trimmed, cleared of noise words, trimmed again. */
  function Clean(group: string): (r: string)
    ensures IsTrimmed(r)
  {
    Trim(StripNoise(Trim(group), 0))
  }

  // ---------------------------------------------------------------- the heuristic

  datatype Pattern = DashPattern | ByPattern

  const Patterns: seq<Pattern> := [DashPattern, ByPattern]

  function Group(p: Pattern, title: string): Option<string> {
    match p
    case DashPattern => DashGroup(title)
    case ByPattern => ByGroup(title)
  }

  /** The cleaned candidate a pattern yields, if it matches. */
  function Candidate(p: Pattern, title: string): (c: Option<string>)
    ensures c.Some? ==> IsTrimmed(c.value)
  {
    var g := Group(p, title);
    if g.Some? then Some(Clean(g.value)) else None
  }

  /** A candidate is taken when its length, in UTF-16 code units, is
      between 2 and 49. */
  predicate Acceptable(c: Option<string>) {
    c.Some? && 1 < JsLength(c.value) < 50
  }

  /** The artist after inference. */
  function Inferred(artist: string, title: Option<string>): string {
    if artist != SpotifyService.UnknownArtist || !SpotifyService.Truthy(title) then artist
    else if Acceptable(Candidate(DashPattern, title.value)) then Candidate(DashPattern, title.value).value
    else if Acceptable(Candidate(ByPattern, title.value)) then Candidate(ByPattern, title.value).value
    else artist
  }

  /** The inference: only for an unknown artist and a non-empty title. */
  method InferArtist(artist: string, title: Option<string>) returns (r: string)
    ensures r == Inferred(artist, title)
  {
    r := artist;
    if artist == SpotifyService.UnknownArtist && SpotifyService.Truthy(title) {
      r := PickArtist(artist, title.value);
    }
  }

  /** The loop over the patterns: each in order, stopping at the first
      acceptable candidate. */
  method PickArtist(artist: string, ytTitle: string) returns (r: string)
    requires artist == SpotifyService.UnknownArtist && ytTitle != ""
    ensures r == Inferred(artist, Some(ytTitle))
  {
    r := artist;
    var i := 0;
    while i < |Patterns|
      invariant 0 <= i <= |Patterns|
      invariant r == artist
      invariant forall j :: 0 <= j < i ==> !Acceptable(Candidate(Patterns[j], ytTitle))
    {
      var c, ok := TryPattern(Patterns[i], ytTitle);
      if ok {
        InferredPicks(artist, ytTitle, i);
        return c;
      }
      i := i + 1;
    }
    InferredPicks(artist, ytTitle, |Patterns|);
  }

  /** One pattern's candidate, and whether it is taken. */
  method TryPattern(p: Pattern, title: string) returns (c: string, ok: bool)
    ensures ok == Acceptable(Candidate(p, title))
    ensures ok ==> c == Candidate(p, title).value && 2 <= JsLength(c) <= 49
  {
    var g := Candidate(p, title);
    ok := Acceptable(g);
    c := if g.Some? then g.value else "";
  }

  /** The inference keeps the candidate of the first pattern that yields an
      acceptable one, and the artist when none does. */
  lemma {:induction false} InferredPicks(artist: string, title: string, i: nat)
    requires artist == SpotifyService.UnknownArtist && title != ""
    requires i <= |Patterns|
    requires forall j :: 0 <= j < i ==> !Acceptable(Candidate(Patterns[j], title))
    ensures i < |Patterns| && Acceptable(Candidate(Patterns[i], title)) ==>
      Inferred(artist, Some(title)) == Candidate(Patterns[i], title).value
    ensures i == |Patterns| ==> Inferred(artist, Some(title)) == artist
  {
    assert Patterns[0] == DashPattern && Patterns[1] == ByPattern;
  }

  /** Inference only runs for an unknown artist and a non-empty title; the
      artist changes only to the candidate of a pattern, whose UTF-16
      length is within 2..49 (so one astral character is enough) and which
      has no surrounding whitespace; the first
      pattern wins whenever its candidate is acceptable; and when neither
      is, the artist stays unknown. */
  lemma {:induction false} InferredSpec(artist: string, title: Option<string>)
    ensures var r := Inferred(artist, title);
      && (artist != SpotifyService.UnknownArtist || !SpotifyService.Truthy(title) ==> r == artist)
      && (r != artist ==>
            && 2 <= JsLength(r) <= 49 && 1 <= |r| <= 49 && IsTrimmed(r)
            && (Candidate(DashPattern, title.value) == Some(r) || Candidate(ByPattern, title.value) == Some(r)))
      && (artist == SpotifyService.UnknownArtist && SpotifyService.Truthy(title) ==>
            && (Acceptable(Candidate(DashPattern, title.value)) ==> r == Candidate(DashPattern, title.value).value)
            && (!Acceptable(Candidate(DashPattern, title.value)) && !Acceptable(Candidate(ByPattern, title.value)) ==> r == artist))
  {
  }
}
