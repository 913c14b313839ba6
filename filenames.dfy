/** The download-name sanitiser the three pipelines apply to the names they
    hand to the user: remove the characters `<>:"/\|?*`, turn every run of
    whitespace into one space, then trim. */
module Filenames {
  import opened Text

  /** The class `[<>:"/\\|?*]`. */
  predicate IsForbidden(c: char) {
    c == '<' || c == '>' || c == ':' || c == '"' || c == '/' || c == '\\'
    || c == '|' || c == '?' || c == '*'
  }

  predicate NoForbidden(s: string) { forall i :: 0 <= i < |s| ==> !IsForbidden(s[i]) }

  /** Every whitespace character is a plain space and no two are adjacent. */
  predicate SingleSpaced(s: string) {
    && (forall i :: 0 <= i < |s| && IsWhitespace(s[i]) ==> s[i] == ' ')
    && (forall i :: 0 <= i < |s| - 1 ==> !IsWhitespace(s[i]) || !IsWhitespace(s[i + 1]))
  }

  predicate Trimmed(s: string) {
    s == [] || (!IsWhitespace(s[0]) && !IsWhitespace(s[|s| - 1]))
  }

  /** Neither forbidden nor whitespace anywhere. */
  predicate Plain(s: string) {
    forall i :: 0 <= i < |s| ==> !IsForbidden(s[i]) && !IsWhitespace(s[i])
  }

  /** What a sanitised name looks like. */
  predicate IsSafeName(s: string) { NoForbidden(s) && SingleSpaced(s) && Trimmed(s) }

  /** The characters that are neither forbidden nor whitespace, in order. */
  function Visible(s: string): string {
    if s == [] then []
    else (if IsForbidden(s[0]) || IsWhitespace(s[0]) then [] else [s[0]]) + Visible(s[1..])
  }

  // ---------------------------------------------------------------- the chain

  /** `.replace(/[<>:"/\\|?*]/g, "")` */
  function RemoveForbidden(s: string): (r: string)
    ensures NoForbidden(r)
    ensures |r| <= |s|
  {
    if s == [] then []
    else if IsForbidden(s[0]) then RemoveForbidden(s[1..])
    else [s[0]] + RemoveForbidden(s[1..])
  }

  /** `.replace(/\s+/g, " ")`: each maximal run of whitespace becomes one
      space, written where the run starts. `inRun` says whether the character
      before `s` was whitespace. */
  function CollapseRun(s: string, inRun: bool): string {
    if s == [] then []
    else if !IsWhitespace(s[0]) then [s[0]] + CollapseRun(s[1..], false)
    else if inRun then CollapseRun(s[1..], true)
    else " " + CollapseRun(s[1..], true)
  }

  function Collapse(s: string): string {
    CollapseRun(s, false)
  }

  function Sanitize(s: string): string {
    Trim(Collapse(RemoveForbidden(s)))
  }

  /** After collapsing, whitespace is single spaces only; inside a run the
      output goes on with a visible character; at the start of a run the first
      character stays whitespace or not; nothing forbidden is introduced. */
  lemma {:induction false} CollapseRunShape(s: string, inRun: bool)
    ensures var r := CollapseRun(s, inRun);
      && SingleSpaced(r)
      && (inRun ==> r == [] || !IsWhitespace(r[0]))
      && (!inRun && s != [] ==> r != [] && (IsWhitespace(r[0]) <==> IsWhitespace(s[0])))
      && (NoForbidden(s) ==> NoForbidden(r))
  {
    if s != [] {
      CollapseRunShape(s[1..], IsWhitespace(s[0]));
      var rest := CollapseRun(s[1..], IsWhitespace(s[0]));
      if !IsWhitespace(s[0]) || !inRun {
        var c := if IsWhitespace(s[0]) then ' ' else s[0];
        assert CollapseRun(s, inRun) == [c] + rest;
        assert forall i :: 0 <= i < |rest| ==> ([c] + rest)[i + 1] == rest[i];
      }
    }
  }

  // ---------------------------------------------------------------- safety

  lemma {:induction false} InfixSafe(s: string, k: nat, t: string)
    requires NoForbidden(s) && SingleSpaced(s)
    requires k + |t| <= |s| && t == s[k..k + |t|]
    ensures NoForbidden(t) && SingleSpaced(t)
  {
    forall i | 0 <= i < |t| - 1
      ensures !IsWhitespace(t[i]) || !IsWhitespace(t[i + 1])
    {
      assert t[i] == s[k + i] && t[i + 1] == s[k + i + 1];
    }
  }

  /** A sanitised name has no forbidden character, no whitespace but single
      spaces, and no whitespace at either end. */
  lemma {:induction false} SanitizeIsSafe(s: string)
    ensures IsSafeName(Sanitize(s))
  {
    CollapseRunShape(RemoveForbidden(s), false);
    TrimSafe(Collapse(RemoveForbidden(s)));
  }

  lemma {:induction false} TrimSafe(c: string)
    requires NoForbidden(c) && SingleSpaced(c)
    ensures IsSafeName(Trim(c))
  {
    var k := TrimIsInfix(c);
    InfixSafe(c, k, Trim(c));
  }

  lemma {:induction false} RemoveForbiddenFixed(s: string)
    requires NoForbidden(s)
    ensures RemoveForbidden(s) == s
  {
    if s != [] {
      RemoveForbiddenFixed(s[1..]);
    }
  }

  lemma {:induction false} CollapseRunFixed(s: string, inRun: bool)
    requires SingleSpaced(s) && (inRun ==> s == [] || !IsWhitespace(s[0]))
    ensures CollapseRun(s, inRun) == s
  {
    if s != [] {
      assert SingleSpaced(s[1..]) by {
        assert forall i :: 0 <= i < |s| - 1 ==> s[1..][i] == s[i + 1];
      }
      CollapseRunFixed(s[1..], IsWhitespace(s[0]));
    }
  }

  /** Names that already look sanitised are left alone. */
  lemma {:induction false} SafeNameFixed(s: string)
    requires IsSafeName(s)
    ensures Sanitize(s) == s
  {
    RemoveForbiddenFixed(s);
    CollapseRunFixed(s, false);
    TrimOfTrimmed(s);
  }

  /** The names the sanitiser leaves unchanged are exactly the safe names. */
  lemma {:induction false} SanitizeFixedPoints(s: string)
    ensures Sanitize(s) == s <==> IsSafeName(s)
  {
    SanitizeIsSafe(s);
    if IsSafeName(s) {
      SafeNameFixed(s);
    }
  }

  lemma {:induction false} SanitizeIdempotent(s: string)
    ensures Sanitize(Sanitize(s)) == Sanitize(s)
  {
    SanitizeIsSafe(s);
    SafeNameFixed(Sanitize(s));
  }

  // ---------------------------------------------------------------- content

  lemma {:induction false} VisibleConcat(a: string, b: string)
    ensures Visible(a + b) == Visible(a) + Visible(b)
  {
    if a == [] {
      assert a + b == b;
    } else {
      assert (a + b)[1..] == a[1..] + b;
      VisibleConcat(a[1..], b);
    }
  }

  lemma {:induction false} VisibleOfWhitespace(s: string)
    requires AllWhitespace(s)
    ensures Visible(s) == []
  {
    if s != [] {
      VisibleOfWhitespace(s[1..]);
    }
  }

  lemma {:induction false} VisibleRemoveForbidden(s: string)
    ensures Visible(RemoveForbidden(s)) == Visible(s)
  {
    if s != [] {
      VisibleRemoveForbidden(s[1..]);
      if !IsForbidden(s[0]) {
        VisibleConcat([s[0]], RemoveForbidden(s[1..]));
      }
    }
  }

  lemma {:induction false} VisibleCollapseRun(s: string, inRun: bool)
    ensures Visible(CollapseRun(s, inRun)) == Visible(s)
  {
    if s != [] {
      var rest := CollapseRun(s[1..], IsWhitespace(s[0]));
      VisibleCollapseRun(s[1..], IsWhitespace(s[0]));
      if !IsWhitespace(s[0]) {
        VisibleConcat([s[0]], rest);
      } else if !inRun {
        VisibleConcat(" ", rest);
      }
    }
  }

  lemma {:induction false} VisibleTrim(s: string)
    ensures Visible(Trim(s)) == Visible(s)
  {
    var lead, trail := TrimSplit(s);
    VisibleConcat(lead + Trim(s), trail);
    VisibleConcat(lead, Trim(s));
    VisibleOfWhitespace(lead);
    VisibleOfWhitespace(trail);
  }

  /** Sanitising keeps every character that is neither forbidden nor
      whitespace, in its original order. */
  lemma {:induction false} SanitizeKeepsVisible(s: string)
    ensures Visible(Sanitize(s)) == Visible(s)
  {
    VisibleRemoveForbidden(s);
    VisibleCollapseRun(RemoveForbidden(s), false);
    VisibleTrim(Collapse(RemoveForbidden(s)));
  }

  // ---------------------------------------------------------------- concatenation

  lemma {:induction false} RemoveForbiddenConcat(a: string, b: string)
    ensures RemoveForbidden(a + b) == RemoveForbidden(a) + RemoveForbidden(b)
  {
    if a == [] {
      assert a + b == b;
    } else {
      assert (a + b)[1..] == a[1..] + b;
      RemoveForbiddenConcat(a[1..], b);
    }
  }

  lemma {:induction false} TrimStartConcat(x: string, y: string)
    requires TrimStart(x) != [] || y == [] || !IsWhitespace(y[0])
    ensures TrimStart(x + y) == TrimStart(x) + y
  {
    if x != [] && IsWhitespace(x[0]) {
      assert (x + y)[1..] == x[1..] + y;
      TrimStartConcat(x[1..], y);
    } else if x == [] {
      assert x + y == y;
    }
  }

  lemma {:induction false} TrimEndConcat(x: string, y: string)
    requires TrimEnd(y) != [] || x == [] || !IsWhitespace(x[|x| - 1])
    ensures TrimEnd(x + y) == x + TrimEnd(y)
    decreases |y|
  {
    if y == [] {
      assert x + y == x;
      assert TrimEnd(x) == x;
    } else if IsWhitespace(y[|y| - 1]) {
      var y' := y[..|y| - 1];
      assert (x + y)[|x + y| - 1] == y[|y| - 1];
      assert (x + y)[..|x + y| - 1] == x + y';
      assert TrimEnd(y) == TrimEnd(y');
      TrimEndConcat(x, y');
    } else {
      assert (x + y)[|x + y| - 1] == y[|y| - 1];
    }
  }

  /** Whether the last character seen after `x` was whitespace. */
  function RunAfter(x: string, inRun: bool): bool {
    if x == [] then inRun else IsWhitespace(x[|x| - 1])
  }

  /** Collapsing a concatenation collapses the second part in the state the
      first part leaves behind. */
  lemma {:induction false} CollapseRunConcat(x: string, y: string, inRun: bool)
    ensures CollapseRun(x + y, inRun) == CollapseRun(x, inRun) + CollapseRun(y, RunAfter(x, inRun))
  {
    if x == [] {
      assert x + y == y;
    } else {
      assert (x + y)[0] == x[0];
      assert (x + y)[1..] == x[1..] + y;
      CollapseRunConcat(x[1..], y, IsWhitespace(x[0]));
    }
  }

  /** A name that ends in a plain extension still ends in it once sanitised. */
  lemma {:induction false} SanitizeKeepsSuffix(s: string, ext: string)
    requires ext != [] && Plain(ext)
    ensures |Sanitize(s + ext)| >= |ext|
    ensures Sanitize(s + ext)[|Sanitize(s + ext)| - |ext|..] == ext
  {
    var d := CollapseKeepsSuffix(s, ext);
    assert TrimEnd(d + ext) == d + ext;
    TrimStartConcat(d, ext);
    var t := TrimStart(d);
    assert Sanitize(s + ext) == t + ext;
    assert (t + ext)[|t + ext| - |ext|..] == ext;
  }

  /** Collapsing after removing the forbidden characters leaves a plain
      suffix where it is. */
  lemma {:induction false} CollapseKeepsSuffix(s: string, ext: string) returns (d: string)
    requires Plain(ext)
    ensures Collapse(RemoveForbidden(s + ext)) == d + ext
  {
    var c := RemoveForbidden(s);
    RemoveForbiddenConcat(s, ext);
    RemoveForbiddenFixed(ext);
    assert SingleSpaced(ext);
    CollapseRunConcat(c, ext, false);
    CollapseRunFixed(ext, RunAfter(c, false));
    d := Collapse(c);
  }

  /** A visible, single-spaced prefix survives sanitising unchanged. */
  lemma {:induction false} SanitizeKeepsPrefix(p: string, s: string)
    requires Trimmed(p) && p != [] && NoForbidden(p) && SingleSpaced(p)
    ensures p <= Sanitize(p + s)
  {
    RemoveForbiddenConcat(p, s);
    RemoveForbiddenFixed(p);
    var c := RemoveForbidden(s);
    CollapseRunConcat(p, c, false);
    CollapseRunFixed(p, false);
    var d := Collapse(c);
    TrimEndConcat(p, d);
    var e := TrimEnd(d);
    assert TrimStart(p + e) == p + e;
  }

  // ---------------------------------------------------------------- the names

  /** The `artist - title.mp3` name of a single track or video download. */
  function TrackFileName(artist: string, title: string): string {
    Sanitize(artist + " - " + title + ".mp3")
  }

  /** `String(index + 1).padStart(2, "0")`. */
  function Ordinal(index: nat): (o: string)
    ensures |o| >= 2 && forall i :: 0 <= i < |o| ==> IsDigit(o[i])
  {
    PadStart2(NatToString(index + 1))
  }

  /** The name a playlist entry is stored under inside the archive. */
  function PlaylistEntryName(index: nat, artist: string, title: string): string {
    Sanitize(Ordinal(index) + " - " + artist + " - " + title + ".mp3")
  }

  /** The name offered for a playlist archive. */
  function ArchiveName(playlistName: string): string {
    Sanitize(playlistName + ".zip")
  }

  /** `r` ends with `ext`. */
  predicate EndsWith(r: string, ext: string) {
    |r| >= |ext| && r[|r| - |ext|..] == ext
  }

  lemma {:induction false} ExtensionsArePlain()
    ensures Plain(".mp3") && Plain(".zip")
  {
  }

  /** A sanitised name with a plain extension is safe and keeps the extension. */
  lemma {:induction false} SanitizeWithExtension(s: string, ext: string)
    requires ext != [] && Plain(ext)
    ensures IsSafeName(Sanitize(s + ext))
    ensures EndsWith(Sanitize(s + ext), ext)
  {
    SanitizeIsSafe(s + ext);
    SanitizeKeepsSuffix(s, ext);
  }

  lemma {:induction false} TrackFileNameShape(artist: string, title: string)
    ensures IsSafeName(TrackFileName(artist, title))
    ensures EndsWith(TrackFileName(artist, title), ".mp3")
  {
    ExtensionsArePlain();
    SanitizeWithExtension(artist + " - " + title, ".mp3");
  }

  lemma {:induction false} ArchiveNameShape(playlistName: string)
    ensures IsSafeName(ArchiveName(playlistName))
    ensures EndsWith(ArchiveName(playlistName), ".zip")
  {
    ExtensionsArePlain();
    SanitizeWithExtension(playlistName, ".zip");
  }

  /** An entry name starts with its ordinal followed by " -". */
  lemma {:induction false} PlaylistEntryNamePrefix(index: nat, artist: string, title: string)
    ensures Ordinal(index) + " -" <= PlaylistEntryName(index, artist, title)
  {
    var o := Ordinal(index);
    OrdinalThenDash(o);
    var body := " " + artist + " - " + title + ".mp3";
    assert o + " - " + artist + " - " + title + ".mp3" == (o + " -") + body;
    SanitizeKeepsPrefix(o + " -", body);
  }

  /** An entry name is safe and ends in ".mp3". */
  lemma {:induction false} PlaylistEntryNameShape(index: nat, artist: string, title: string)
    ensures IsSafeName(PlaylistEntryName(index, artist, title))
    ensures EndsWith(PlaylistEntryName(index, artist, title), ".mp3")
  {
    ExtensionsArePlain();
    SanitizeWithExtension(Ordinal(index) + " - " + artist + " - " + title, ".mp3");
  }

  lemma {:induction false} OrdinalThenDash(o: string)
    requires o != [] && forall i :: 0 <= i < |o| ==> IsDigit(o[i])
    ensures var h := o + " -"; h != [] && Trimmed(h) && NoForbidden(h) && SingleSpaced(h)
  {
    var h := o + " -";
    assert forall i :: 0 <= i < |o| ==> h[i] == o[i];
    assert h[|o|] == ' ' && h[|o| + 1] == '-';
  }

  /** An ordinal reads back as its one-based index. */
  lemma {:induction false} OrdinalValue(index: nat)
    ensures ParseNat(Ordinal(index)) == index + 1
  {
    ParseNatPadStart2(NatToString(index + 1));
    ParseNatToString(index + 1);
  }

  /** Different indices have different ordinals. */
  lemma {:induction false} OrdinalInjective(i: nat, j: nat)
    requires Ordinal(i) == Ordinal(j)
    ensures i == j
  {
    OrdinalValue(i);
    OrdinalValue(j);
  }

  /** The digits before " -" at the head of a name are exactly the ordinal. */
  lemma {:induction false} DigitsBeforeDash(r: string, o: string)
    requires (forall i :: 0 <= i < |o| ==> IsDigit(o[i])) && o + " -" <= r
    ensures |o| < |r| && !IsDigit(r[|o|])
    ensures forall i :: 0 <= i < |o| ==> IsDigit(r[i])
    ensures r[..|o|] == o
  {
    assert r[|o|] == (o + " -")[|o|];
    assert forall i :: 0 <= i < |o| ==> r[i] == (o + " -")[i];
    assert r[..|o|] == (o + " -")[..|o|];
  }

  /** Different positions in a playlist never produce the same entry name, so
      no downloaded track overwrites another in the playlist directory. */
  lemma {:induction false} PlaylistEntryNamesDistinct(i: nat, a1: string, t1: string, j: nat, a2: string, t2: string)
    ensures PlaylistEntryName(i, a1, t1) == PlaylistEntryName(j, a2, t2) ==> i == j
  {
    var r := PlaylistEntryName(i, a1, t1);
    if r == PlaylistEntryName(j, a2, t2) {
      PlaylistEntryNamePrefix(i, a1, t1);
      PlaylistEntryNamePrefix(j, a2, t2);
      SameDigitPrefix(r, Ordinal(i), Ordinal(j));
      OrdinalInjective(i, j);
    }
  }

  /** Two runs of digits that both head `r` before " -" are the same. */
  lemma {:induction false} SameDigitPrefix(r: string, p: string, q: string)
    requires forall i :: 0 <= i < |p| ==> IsDigit(p[i])
    requires forall i :: 0 <= i < |q| ==> IsDigit(q[i])
    requires p + " -" <= r && q + " -" <= r
    ensures p == q
  {
    DigitsBeforeDash(r, p);
    DigitsBeforeDash(r, q);
    if |p| < |q| || |q| < |p| {
      assert false;
    }
  }
}
