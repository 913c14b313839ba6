/** String primitives of the JavaScript runtime that the backend relies on:
    the `\s` character class (which is also what `trim` removes), ASCII case
    folding, `includes`, `split`, `join`, number-to-string and `padStart`. */
module Text {

  /** Line terminators: the characters that `.` in a regular expression does not match. */
  predicate IsLineTerminator(c: char) {
    c == '\n' || c == '\r' || c == '\U{2028}' || c == '\U{2029}'
  }

  /** The `\s` class of JavaScript regular expressions, which is also the set
      `String.prototype.trim` removes. */
  predicate IsWhitespace(c: char) {
    || c == ' ' || c == '\t' || c == '\U{000B}' || c == '\U{000C}'
    || c == '\U{00A0}' || c == '\U{FEFF}' || c == '\U{1680}'
    || ('\U{2000}' <= c <= '\U{200A}')
    || c == '\U{202F}' || c == '\U{205F}' || c == '\U{3000}'
    || IsLineTerminator(c)
  }

  predicate IsDigit(c: char) { '0' <= c <= '9' }

  /** The class `[a-zA-Z0-9]`. */
  predicate IsAlnum(c: char) { 'a' <= c <= 'z' || 'A' <= c <= 'Z' || IsDigit(c) }

  predicate AllWhitespace(s: string) { forall i :: 0 <= i < |s| ==> IsWhitespace(s[i]) }

  /** ASCII lower-casing: the folding a regular expression with the `i` flag
      (and no `u` flag) applies to ASCII letters; other characters are left alone. */
  function LowerChar(c: char): (r: char)
    ensures !('A' <= r <= 'Z')
    ensures 'A' <= c <= 'Z' ==> 'a' <= r <= 'z' && r as int - 'a' as int == c as int - 'A' as int
    ensures !('A' <= c <= 'Z') ==> r == c
  {
    if 'A' <= c <= 'Z' then (c as int + 32) as char else c
  }

  function Lower(s: string): string {
    seq(|s|, i requires 0 <= i < |s| => LowerChar(s[i]))
  }

  lemma {:induction false} LowerSlice(s: string, i: nat, j: nat)
    requires i <= j <= |s|
    ensures Lower(s)[i..j] == Lower(s[i..j])
  {
  }

  lemma {:induction false} LowerIdempotent(s: string)
    ensures Lower(Lower(s)) == Lower(s)
  {
  }

  // ---------------------------------------------------------------- length

  /** A character outside the Basic Multilingual Plane: a surrogate pair in UTF-16. */
  predicate IsAstral(c: char) { c as int > 0xFFFF }

  /** `s.length`: the number of UTF-16 code units, two for an astral
      character and one for any other. */
  function JsLength(s: string): (n: nat)
    ensures |s| <= n <= 2 * |s|
    ensures n == |s| <==> forall i :: 0 <= i < |s| ==> !IsAstral(s[i])
  {
    if s == [] then 0
    else
      var n := (if IsAstral(s[0]) then 2 else 1) + JsLength(s[1..]);
      assert forall i :: 1 <= i < |s| ==> s[i] == s[1..][i - 1];
      n
  }

  // ---------------------------------------------------------------- startsWith

  /** `s.startsWith(p)`, one character at a time. */
  predicate StartsWith(s: string, p: string)
    ensures StartsWith(s, p) ==> |p| <= |s|
    decreases |s|
  {
    p == [] || (s != [] && s[0] == p[0] && StartsWith(s[1..], p[1..]))
  }

  lemma {:induction false} StartsWithIsPrefix(s: string, p: string)
    ensures StartsWith(s, p) <==> p <= s
    decreases |s|
  {
    if p != [] && s != [] {
      StartsWithIsPrefix(s[1..], p[1..]);
      if p <= s {
        assert p[1..] <= s[1..];
      }
      if s[0] == p[0] && p[1..] <= s[1..] {
        assert p == [p[0]] + p[1..];
      }
    }
  }

  // ---------------------------------------------------------------- includes

  /** `hay.includes(needle)`: `needle` occurs in `hay` at some position. */
  predicate Contains(hay: string, needle: string)
    decreases |hay|
  {
    needle <= hay || (|hay| > 0 && Contains(hay[1..], needle))
  }

  lemma {:induction false} ContainsAt(hay: string, needle: string, i: nat)
    requires i + |needle| <= |hay| && hay[i..i + |needle|] == needle
    ensures Contains(hay, needle)
    decreases i
  {
    if i == 0 {
      assert needle <= hay;
    } else {
      assert hay[1..][i - 1..i - 1 + |needle|] == needle;
      ContainsAt(hay[1..], needle, i - 1);
    }
  }

  lemma {:induction false} ContainsWitness(hay: string, needle: string) returns (i: nat)
    requires Contains(hay, needle)
    ensures i + |needle| <= |hay| && hay[i..i + |needle|] == needle
    decreases |hay|
  {
    if needle <= hay {
      i := 0;
    } else {
      var j := ContainsWitness(hay[1..], needle);
      i := j + 1;
      assert hay[i..i + |needle|] == hay[1..][j..j + |needle|];
    }
  }

  // ---------------------------------------------------------------- trim

  function TrimStart(s: string): (r: string)
    ensures |r| <= |s| && r == s[|s| - |r|..]
    ensures AllWhitespace(s[..|s| - |r|])
    ensures r == [] || !IsWhitespace(r[0])
  {
    if |s| > 0 && IsWhitespace(s[0]) then
      var r := TrimStart(s[1..]);
      assert s[..|s| - |r|] == [s[0]] + s[1..][..|s| - 1 - |r|];
      r
    else s
  }

  function TrimEnd(s: string): (r: string)
    ensures |r| <= |s| && r == s[..|r|]
    ensures AllWhitespace(s[|r|..])
    ensures r == [] || !IsWhitespace(r[|r| - 1])
  {
    if |s| > 0 && IsWhitespace(s[|s| - 1]) then
      var r := TrimEnd(s[..|s| - 1]);
      assert s[|r|..] == s[..|s| - 1][|r|..] + [s[|s| - 1]];
      r
    else s
  }

  /** Where the whitespace run starting at index `i` of `s` ends: what `\s*` consumes there. */
  function WsEnd(s: string, i: nat): (e: nat)
    requires i <= |s|
    ensures i <= e <= |s|
    ensures forall j :: i <= j < e ==> IsWhitespace(s[j])
    ensures e == |s| || !IsWhitespace(s[e])
    decreases |s| - i
  {
    if i < |s| && IsWhitespace(s[i]) then WsEnd(s, i + 1) else i
  }

  /** The run ends at the only index that ends a whitespace run. */
  lemma {:induction false} WsEndExact(s: string, i: nat, e: nat)
    requires i <= e <= |s|
    requires forall j :: i <= j < e ==> IsWhitespace(s[j])
    requires e == |s| || !IsWhitespace(s[e])
    ensures WsEnd(s, i) == e
  {
  }

  /** Trimming the start of a suffix skips exactly the whitespace run. */
  lemma {:induction false} WsEndTrimStart(s: string, i: nat)
    requires i <= |s|
    ensures TrimStart(s[i..]) == s[WsEnd(s, i)..]
    decreases |s| - i
  {
    if i < |s| && IsWhitespace(s[i]) {
      assert s[i..][1..] == s[i + 1..];
      WsEndTrimStart(s, i + 1);
    }
  }

  /** `WsEndTrimStart` for a string known to equal the suffix. */
  lemma {:induction false} TrimStartAt(s: string, i: nat, u: string)
    requires i <= |s| && u == s[i..]
    ensures TrimStart(u) == s[WsEnd(s, i)..]
  {
    WsEndTrimStart(s, i);
  }

  /** Whitespace in front of a string that does not start with whitespace
      is exactly what `TrimStart` removes. */
  lemma {:induction false} TrimStartSkip(w: string, y: string)
    requires AllWhitespace(w) && (y == [] || !IsWhitespace(y[0]))
    ensures TrimStart(w + y) == y
    decreases |w|
  {
    if w != [] {
      assert (w + y)[1..] == w[1..] + y;
      TrimStartSkip(w[1..], y);
    } else {
      assert w + y == y;
    }
  }

  /** Whitespace after a string that does not end with whitespace is exactly
      what `TrimEnd` removes. */
  lemma {:induction false} TrimEndSkip(x: string, w: string)
    requires AllWhitespace(w) && (x == [] || !IsWhitespace(x[|x| - 1]))
    ensures TrimEnd(x + w) == x
    decreases |w|
  {
    if w != [] {
      var v := w[..|w| - 1];
      assert (x + w)[..|x + w| - 1] == x + v;
      TrimEndSkip(x, v);
    } else {
      assert x + w == x;
    }
  }

  /** A string with no whitespace at either end. */
  predicate IsTrimmed(s: string) {
    s == [] || (!IsWhitespace(s[0]) && !IsWhitespace(s[|s| - 1]))
  }

  /** `String.prototype.trim`. */
  function Trim(s: string): (r: string)
    ensures r == [] || (!IsWhitespace(r[0]) && !IsWhitespace(r[|r| - 1]))
  {
    TrimStart(TrimEnd(s))
  }

  /** `trim` removes exactly a whitespace prefix and a whitespace suffix. */
  lemma {:induction false} TrimIsInfix(s: string) returns (k: nat)
    ensures k + |Trim(s)| <= |s| && Trim(s) == s[k..k + |Trim(s)|]
    ensures AllWhitespace(s[..k]) && AllWhitespace(s[k + |Trim(s)|..])
  {
    var e := TrimEnd(s);
    k := |e| - |Trim(s)|;
    assert s[k..k + |Trim(s)|] == e[k..];
    assert s[..k] == e[..k];
    assert s[k + |Trim(s)|..] == s[|e|..];
  }

  /** The same, as a split of `s` into three pieces. */
  lemma {:induction false} TrimSplit(s: string) returns (lead: string, trail: string)
    ensures s == lead + Trim(s) + trail
    ensures AllWhitespace(lead) && AllWhitespace(trail)
  {
    var k := TrimIsInfix(s);
    SplitThree(s, k, k + |Trim(s)|);
    lead, trail := s[..k], s[k + |Trim(s)|..];
  }

  lemma {:induction false} SplitThree(s: string, i: nat, j: nat)
    requires i <= j <= |s|
    ensures s == s[..i] + s[i..j] + s[j..]
  {
    assert s[..i] + s[i..j] == s[..j];
  }

  lemma {:induction false} TrimOfTrimmed(s: string)
    requires s == [] || (!IsWhitespace(s[0]) && !IsWhitespace(s[|s| - 1]))
    ensures Trim(s) == s
  {
  }

  // ---------------------------------------------------------------- split / join

  /** `s.split(sep)` for a separator that matches exactly one character of the
      class `isSep`: the pieces between separators, empty pieces included. */
  function SplitWhere(s: string, isSep: char -> bool): (parts: seq<string>)
    ensures |parts| >= 1
    ensures forall p, i :: p in parts && 0 <= i < |p| ==> !isSep(p[i])
  {
    if s == [] then [""]
    else
      var rest := SplitWhere(s[1..], isSep);
      if isSep(s[0]) then [""] + rest
      else [[s[0]] + rest[0]] + rest[1..]
  }

  function Join(parts: seq<string>, sep: string): string {
    if |parts| == 0 then ""
    else if |parts| == 1 then parts[0]
    else parts[0] + sep + Join(parts[1..], sep)
  }

  lemma {:induction false} JoinCons(x: string, rest: seq<string>, sep: string)
    requires |rest| >= 1
    ensures Join([x] + rest, sep) == x + sep + Join(rest, sep)
  {
    assert ([x] + rest)[1..] == rest;
  }

  /** Extending the first piece extends the joined string at the front. */
  lemma {:induction false} JoinExtendFirst(y: string, rest: seq<string>, sep: string)
    requires |rest| >= 1
    ensures Join([y + rest[0]] + rest[1..], sep) == y + Join(rest, sep)
  {
    if |rest| > 1 {
      JoinCons(y + rest[0], rest[1..], sep);
      JoinCons(rest[0], rest[1..], sep);
      assert rest == [rest[0]] + rest[1..];
    }
  }

  /** Splitting on a one-character separator and joining with that character
      gives the string back. */
  lemma {:induction false} JoinSplit(s: string, isSep: char -> bool, c: char)
    requires forall x :: isSep(x) <==> x == c
    ensures Join(SplitWhere(s, isSep), [c]) == s
  {
    if s != [] {
      var rest := SplitWhere(s[1..], isSep);
      JoinSplit(s[1..], isSep, c);
      if s[0] == c {
        JoinCons("", rest, [c]);
      } else {
        JoinExtendFirst([s[0]], rest, [c]);
      }
      assert s == [s[0]] + s[1..];
    }
  }

  /** A non-separator character glues onto the first piece of a split. */
  lemma {:induction false} SplitCons(a: char, s: string, isSep: char -> bool)
    requires !isSep(a)
    ensures SplitWhere([a] + s, isSep) == [[a] + SplitWhere(s, isSep)[0]] + SplitWhere(s, isSep)[1..]
  {
    assert ([a] + s)[1..] == s;
  }

  lemma {:induction false} ConsAppend(x: string, y: string)
    requires x != []
    ensures [x[0]] + (x[1..] + y) == x + y
  {
    assert x == [x[0]] + x[1..];
  }

  /** A piece without separators glues onto the first piece of a split. */
  lemma {:induction false} SplitPrefix(x: string, s: string, isSep: char -> bool)
    requires forall i :: 0 <= i < |x| ==> !isSep(x[i])
    ensures SplitWhere(x + s, isSep) == [x + SplitWhere(s, isSep)[0]] + SplitWhere(s, isSep)[1..]
  {
    var sp := SplitWhere(s, isSep);
    if x != [] {
      var u := x[1..] + s;
      assert x + s == [x[0]] + u;
      SplitPrefix(x[1..], s, isSep);
      SplitCons(x[0], u, isSep);
      var r := SplitWhere(u, isSep);
      assert r[0] == x[1..] + sp[0] && r[1..] == sp[1..];
      ConsAppend(x, sp[0]);
    } else {
      assert x + s == s && x + sp[0] == sp[0];
      assert sp == [sp[0]] + sp[1..];
    }
  }

  /** A separator after a piece without separators starts a new piece. */
  lemma {:induction false} SplitSeparated(x: string, c: char, j: string, isSep: char -> bool)
    requires isSep(c)
    requires forall i :: 0 <= i < |x| ==> !isSep(x[i])
    ensures SplitWhere(x + [c] + j, isSep) == [x] + SplitWhere(j, isSep)
  {
    assert x + [c] + j == x + ([c] + j);
    SplitPrefix(x, [c] + j, isSep);
    assert ([c] + j)[1..] == j;
    assert x + "" == x;
  }

  /** Joining pieces without separators on a separator character and
      splitting again gives the pieces back. */
  lemma {:induction false} SplitJoin(parts: seq<string>, isSep: char -> bool, c: char)
    requires |parts| >= 1 && isSep(c)
    requires forall k, i :: 0 <= k < |parts| && 0 <= i < |parts[k]| ==> !isSep(parts[k][i])
    ensures SplitWhere(Join(parts, [c]), isSep) == parts
  {
    var x := parts[0];
    if |parts| == 1 {
      SplitPrefix(x, "", isSep);
      assert x + "" == x;
    } else {
      var rest := parts[1..];
      SplitJoin(rest, isSep, c);
      var j := Join(rest, [c]);
      JoinCons(x, rest, [c]);
      assert parts == [x] + rest;
      SplitSeparated(x, c, j, isSep);
    }
  }

  // ---------------------------------------------------------------- numbers

  function DigitChar(d: nat): (c: char)
    requires d < 10
    ensures IsDigit(c)
  {
    ['0', '1', '2', '3', '4', '5', '6', '7', '8', '9'][d]
  }

  function DigitValue(c: char): nat
    requires IsDigit(c)
  {
    c as int - '0' as int
  }

  /** `String(n)` for a non-negative integer: its decimal digits without leading zeros. */
  function NatToString(n: nat): (s: string)
    ensures |s| >= 1
    ensures forall i :: 0 <= i < |s| ==> IsDigit(s[i])
    ensures |s| > 1 ==> s[0] != '0'
    ensures n < 10 <==> |s| == 1
  {
    if n < 10 then [DigitChar(n)] else NatToString(n / 10) + [DigitChar(n % 10)]
  }

  /** `String(i)` for any integer. */
  function IntToString(i: int): string {
    if i < 0 then "-" + NatToString(-i) else NatToString(i)
  }

  /** Reads a string of decimal digits back as a number. */
  function ParseNat(s: string): nat
    requires forall i :: 0 <= i < |s| ==> IsDigit(s[i])
  {
    if s == [] then 0 else ParseNat(s[..|s| - 1]) * 10 + DigitValue(s[|s| - 1])
  }

  lemma {:induction false} ParseNatToString(n: nat)
    ensures ParseNat(NatToString(n)) == n
  {
    var s := NatToString(n);
    if n >= 10 {
      assert s[..|s| - 1] == NatToString(n / 10);
      ParseNatToString(n / 10);
    }
  }

  /** Different numbers print differently. */
  lemma {:induction false} NatToStringInjective(m: nat, n: nat)
    requires NatToString(m) == NatToString(n)
    ensures m == n
  {
    ParseNatToString(m);
    ParseNatToString(n);
  }

  /** `s.padStart(2, "0")`. */
  function PadStart2(s: string): (r: string)
    ensures |s| >= 2 ==> r == s
    ensures |s| < 2 ==> |r| == 2 && r[2 - |s|..] == s
    ensures forall i :: 0 <= i < 2 - |s| ==> r[i] == '0'
    decreases 2 - |s|
  {
    if |s| >= 2 then s else PadStart2("0" + s)
  }

  /** Leading zeros from padding do not change the value read back. */
  lemma {:induction false} ParseNatPadStart2(s: string)
    requires forall i :: 0 <= i < |s| ==> IsDigit(s[i])
    ensures var r := PadStart2(s); (forall i :: 0 <= i < |r| ==> IsDigit(r[i])) && ParseNat(r) == ParseNat(s)
  {
    var r := PadStart2(s);
    if |s| == 1 {
      assert r == ['0', s[0]];
      assert r[..1] == ['0'] && [s[0]][..0] == [];
    } else if |s| == 0 {
      assert r == ['0', '0'];
      assert r[..1] == ['0'];
    }
  }
}
