/** Human-readable durations: the server uptime shown by the debug endpoint
    and the track length shown next to a conversion. Numbers are exact
    reals and integers; the operators are those of JavaScript. */
module Formatting {
  import opened Wrappers
  import opened Text

  // ---------------------------------------------------------------- JavaScript arithmetic

  /** `Math.trunc`: rounds toward zero; the result lies between zero and
      `x`, less than one away from `x`. */
  function Trunc(x: real): (t: int)
    ensures x >= 0.0 ==> 0 <= t && t as real <= x < t as real + 1.0
    ensures x < 0.0 ==> t <= 0 && t as real - 1.0 < x <= t as real
  {
    if x >= 0.0 then x.Floor else -((-x).Floor)
  }

  /** JavaScript's `%` on numbers: the remainder of truncating division,
      with the sign of the dividend. */
  function JsRem(a: real, b: real): real
    requires b != 0.0
  {
    a - b * Trunc(a / b) as real
  }

  /** JavaScript's `%` on integers, for a positive divisor. */
  function JsRemInt(a: int, b: int): int
    requires b > 0
  {
    if a >= 0 then a % b else -((-a) % b)
  }

  /** Dividing the floor is the floor of dividing. */
  lemma {:induction false} FloorQuotient(s: real, b: int)
    requires s >= 0.0 && b > 0
    ensures (s / b as real).Floor == s.Floor / b
  {
    var n := s.Floor;
    var q := n / b;
    assert q * b <= n < q * b + b;
    assert (q * b) as real == q as real * b as real;
    assert ((q + 1) * b) as real == (q + 1) as real * b as real;
    assert q as real * b as real <= s < (q + 1) as real * b as real;
    QuotientBounds(q as real, s, (q + 1) as real, b as real);
  }

  lemma {:induction false} QuotientBounds(lo: real, s: real, hi: real, b: real)
    requires b > 0.0 && lo * b <= s < hi * b
    ensures lo <= s / b < hi
  {
    var t := s / b;
    assert t * b == s;
    assert t < lo ==> t * b < lo * b;
    assert t >= hi ==> t * b >= hi * b;
  }

  /** For a non-negative dividend, the floor of the remainder is the integer remainder of the floor. */
  lemma {:induction false} RemFloor(s: real, b: int)
    requires s >= 0.0 && b > 0
    ensures JsRem(s, b as real) >= 0.0
    ensures JsRem(s, b as real).Floor == s.Floor % b
  {
    var n := s.Floor;
    FloorQuotient(s, b);
    var k := b * (n / b);
    assert JsRem(s, b as real) == s - k as real;
    assert (n - k) as real <= s - k as real < (n - k + 1) as real;
    assert n - k == n % b;
  }

  /** The quotient and remainder of a division are the only such pair. */
  lemma {:induction false} DivModUnique(n: int, a: int, q: int, r: int)
    requires a > 0 && 0 <= r < a && n == a * q + r
    ensures n / a == q && n % a == r
  {
    var d := n / a - q;
    assert a * d == r - n % a;
    assert d >= 1 ==> a * d >= a;
    assert d <= -1 ==> a * d <= -a;
  }

  /** Reducing modulo a multiple of `a` first does not change the remainder modulo `a`. */
  lemma {:induction false} ModNested(n: int, a: int, k: int)
    requires a > 0 && k > 0
    ensures (n % (a * k)) % a == n % a
  {
    var r := n % (a * k);
    var q := n / (a * k);
    assert n == (a * k) * q + r;
    assert r == a * (r / a) + r % a;
    assert n == a * (k * q + r / a) + r % a;
    DivModUnique(n, a, k * q + r / a, r % a);
  }

  // ---------------------------------------------------------------- formatUptime

  function Days(seconds: real): int { (seconds / 86400.0).Floor }
  function Hours(seconds: real): int { (JsRem(seconds, 86400.0) / 3600.0).Floor }
  function Minutes(seconds: real): int { (JsRem(seconds, 3600.0) / 60.0).Floor }
  function Secs(seconds: real): int { JsRem(seconds, 60.0).Floor }

  /** One optional component: present only when its value is positive. */
  function Field(v: int, unit: char): seq<string> {
    if v > 0 then [IntToString(v) + [unit]] else []
  }

  /** The components in order: days, hours and minutes when non-zero, then seconds always. */
  function UptimeParts(seconds: real): seq<string> {
    Components(Days(seconds), Hours(seconds), Minutes(seconds), Secs(seconds))
  }

  function Components(d: int, h: int, m: int, s: int): seq<string> {
    Field(d, 'd') + Field(h, 'h') + Field(m, 'm') + [IntToString(s) + "s"]
  }

  predicate IsSpace(c: char) { c == ' ' }

  /** `formatUptime(seconds)`. */
  function FormatUptime(seconds: real): string {
    Join(UptimeParts(seconds), " ")
  }

  /** The four fields are the mixed-radix digits of the whole number of seconds. */
  lemma {:induction false} UptimeFields(seconds: real)
    requires seconds >= 0.0
    ensures var n := seconds.Floor;
      && Days(seconds) == n / 86400
      && Hours(seconds) == (n % 86400) / 3600
      && Minutes(seconds) == (n % 3600) / 60
      && Secs(seconds) == n % 60
  {
    var n := seconds.Floor;
    FloorQuotient(seconds, 86400);
    RemFloor(seconds, 86400);
    FloorQuotient(JsRem(seconds, 86400.0), 3600);
    RemFloor(seconds, 3600);
    FloorQuotient(JsRem(seconds, 3600.0), 60);
    RemFloor(seconds, 60);
  }

  /** Days, hours, minutes and seconds are in range and add back up to the whole seconds. */
  lemma {:induction false} UptimeDecomposition(seconds: real)
    requires seconds >= 0.0
    ensures Days(seconds) >= 0
    ensures 0 <= Hours(seconds) < 24 && 0 <= Minutes(seconds) < 60 && 0 <= Secs(seconds) < 60
    ensures Days(seconds) * 86400 + Hours(seconds) * 3600 + Minutes(seconds) * 60 + Secs(seconds)
         == seconds.Floor
  {
    UptimeFields(seconds);
    MixedRadix(seconds.Floor);
  }

  /** A whole number of seconds as days, hours, minutes and seconds. */
  lemma {:induction false} MixedRadix(n: int)
    requires n >= 0
    ensures 0 <= (n % 86400) / 3600 < 24 && 0 <= (n % 3600) / 60 < 60
    ensures n / 86400 * 86400 + (n % 86400) / 3600 * 3600 + (n % 3600) / 60 * 60 + n % 60 == n
  {
    var m := n % 86400;
    var x := n % 3600;
    ModNested(n, 3600, 24);
    ModNested(n, 60, 60);
    assert n == 86400 * (n / 86400) + m;
    assert m == 3600 * (m / 3600) + m % 3600;
    assert x == 60 * (x / 60) + x % 60;
    assert m / 3600 < 24;
  }

  /** The unit letter of a component and the seconds it stands for. */
  function UnitSeconds(unit: char): int {
    match unit
    case 'd' => 86400
    case 'h' => 3600
    case 'm' => 60
    case _ => 1
  }

  /** A component: decimal digits followed by one unit letter. */
  predicate Component(p: string) {
    |p| >= 2 && forall i :: 0 <= i < |p| - 1 ==> IsDigit(p[i])
  }

  function ComponentUnit(p: string): char
    requires Component(p)
  {
    p[|p| - 1]
  }

  function ComponentSeconds(p: string): int
    requires Component(p)
  {
    ParseNat(p[..|p| - 1]) * UnitSeconds(ComponentUnit(p))
  }

  /** The seconds a list of components stands for. */
  function TotalSeconds(parts: seq<string>): int {
    if parts == [] then 0
    else (if Component(parts[0]) then ComponentSeconds(parts[0]) else 0) + TotalSeconds(parts[1..])
  }

  lemma {:induction false} TotalConcat(a: seq<string>, b: seq<string>)
    ensures TotalSeconds(a + b) == TotalSeconds(a) + TotalSeconds(b)
  {
    if a != [] {
      assert (a + b)[1..] == a[1..] + b;
      TotalConcat(a[1..], b);
    } else {
      assert a + b == b;
    }
  }

  /** A printed number followed by its unit reads back as that many seconds. */
  lemma {:induction false} ComponentReadBack(v: nat, unit: char)
    ensures Component(NatToString(v) + [unit])
    ensures ComponentUnit(NatToString(v) + [unit]) == unit
    ensures ComponentSeconds(NatToString(v) + [unit]) == v * UnitSeconds(unit)
  {
    var p := NatToString(v) + [unit];
    assert p[..|p| - 1] == NatToString(v);
    ParseNatToString(v);
  }

  lemma {:induction false} FieldReadBack(v: int, unit: char)
    requires v >= 0
    ensures TotalSeconds(Field(v, unit)) == v * UnitSeconds(unit)
    ensures forall k :: 0 <= k < |Field(v, unit)| ==>
      Component(Field(v, unit)[k]) && ComponentUnit(Field(v, unit)[k]) == unit
      && ComponentSeconds(Field(v, unit)[k]) > 0
  {
    if v > 0 {
      ComponentReadBack(v, unit);
      var p := NatToString(v) + [unit];
      assert Field(v, unit) == [p];
      assert [p][1..] == [];
    }
  }

  /** Splitting the printed uptime on spaces gives back its components; they
      add up to the whole number of seconds, their units strictly decrease,
      the last is the seconds component and every earlier one is non-zero. */
  lemma {:induction false} UptimeReadBack(seconds: real)
    requires seconds >= 0.0
    ensures var parts := SplitWhere(FormatUptime(seconds), IsSpace);
      && parts == UptimeParts(seconds)
      && (forall k :: 0 <= k < |parts| ==> Component(parts[k]))
      && TotalSeconds(parts) == seconds.Floor
      && ComponentUnit(parts[|parts| - 1]) == 's'
      && (forall k :: 0 <= k < |parts| - 1 ==> ComponentSeconds(parts[k]) > 0)
      && (forall k :: 0 <= k < |parts| - 1 ==>
            UnitSeconds(ComponentUnit(parts[k])) > UnitSeconds(ComponentUnit(parts[k + 1])))
  {
    UptimeDecomposition(seconds);
    ComponentsTotal(Days(seconds), Hours(seconds), Minutes(seconds), Secs(seconds));
    ComponentsShape(Days(seconds), Hours(seconds), Minutes(seconds), Secs(seconds));
  }

  /** Non-negative fields printed as components read back as their weighted sum. */
  lemma {:induction false} ComponentsTotal(d: nat, h: nat, m: nat, s: nat)
    ensures TotalSeconds(Components(d, h, m, s)) == d * 86400 + h * 3600 + m * 60 + s
  {
    var last := NatToString(s) + "s";
    FieldReadBack(d, 'd');
    FieldReadBack(h, 'h');
    FieldReadBack(m, 'm');
    ComponentReadBack(s, 's');
    assert TotalSeconds([last]) == s;
    TotalOfFour(Field(d, 'd'), Field(h, 'h'), Field(m, 'm'), [last]);
  }

  /** Non-negative fields printed as components split back on spaces into
      well-formed components with strictly decreasing units. */
  lemma {:induction false} ComponentsShape(d: nat, h: nat, m: nat, s: nat)
    ensures var parts := Components(d, h, m, s);
      && SplitWhere(Join(parts, " "), IsSpace) == parts
      && (forall k :: 0 <= k < |parts| ==> Component(parts[k]))
      && ComponentUnit(parts[|parts| - 1]) == 's'
      && (forall k :: 0 <= k < |parts| - 1 ==> ComponentSeconds(parts[k]) > 0)
      && (forall k :: 0 <= k < |parts| - 1 ==>
            UnitSeconds(ComponentUnit(parts[k])) > UnitSeconds(ComponentUnit(parts[k + 1])))
  {
    var last := NatToString(s) + "s";
    FieldReadBack(d, 'd');
    FieldReadBack(h, 'h');
    FieldReadBack(m, 'm');
    ComponentReadBack(s, 's');
    UptimeComponents(Field(d, 'd'), Field(h, 'h'), Field(m, 'm'), last);
    SplitJoin(Components(d, h, m, s), IsSpace, ' ');
  }

  lemma {:induction false} TotalOfFour(a: seq<string>, b: seq<string>, c: seq<string>, d: seq<string>)
    ensures TotalSeconds(a + b + c + d) == TotalSeconds(a) + TotalSeconds(b) + TotalSeconds(c) + TotalSeconds(d)
  {
    TotalConcat(a + b + c, d);
    TotalConcat(a + b, c);
    TotalConcat(a, b);
  }

  /** Shape facts about the concatenated components, kept apart from the arithmetic. */
  lemma {:induction false} UptimeComponents(fd: seq<string>, fh: seq<string>, fm: seq<string>, last: string)
    requires |fd| <= 1 && |fh| <= 1 && |fm| <= 1
    requires Component(last) && ComponentUnit(last) == 's'
    requires forall k :: 0 <= k < |fd| ==> Component(fd[k]) && ComponentUnit(fd[k]) == 'd' && ComponentSeconds(fd[k]) > 0
    requires forall k :: 0 <= k < |fh| ==> Component(fh[k]) && ComponentUnit(fh[k]) == 'h' && ComponentSeconds(fh[k]) > 0
    requires forall k :: 0 <= k < |fm| ==> Component(fm[k]) && ComponentUnit(fm[k]) == 'm' && ComponentSeconds(fm[k]) > 0
    ensures var parts := fd + fh + fm + [last];
      && (forall k :: 0 <= k < |parts| ==> Component(parts[k]))
      && ComponentUnit(parts[|parts| - 1]) == 's'
      && (forall k :: 0 <= k < |parts| - 1 ==> ComponentSeconds(parts[k]) > 0)
      && (forall k :: 0 <= k < |parts| - 1 ==>
            UnitSeconds(ComponentUnit(parts[k])) > UnitSeconds(ComponentUnit(parts[k + 1])))
      && (forall k, i :: 0 <= k < |parts| && 0 <= i < |parts[k]| ==> !IsSpace(parts[k][i]))
  {
    var parts := fd + fh + fm + [last];
    var a, b, c := |fd|, |fd| + |fh|, |fd| + |fh| + |fm|;
    forall k | 0 <= k < |parts|
      ensures Component(parts[k]) && ComponentUnit(parts[k]) in "dhms"
      ensures k < |parts| - 1 ==> ComponentSeconds(parts[k]) > 0
      ensures UnitSeconds(ComponentUnit(parts[k]))
           == if k < a then 86400 else if k < b then 3600 else if k < c then 60 else 1
    {
      if k < a { assert parts[k] == fd[k]; }
      else if k < b { assert parts[k] == fh[k - a]; }
      else if k < c { assert parts[k] == fm[k - b]; }
      else { assert parts[k] == last; }
    }
    forall k, i | 0 <= k < |parts| && 0 <= i < |parts[k]|
      ensures !IsSpace(parts[k][i])
    {
      if i < |parts[k]| - 1 {
        assert IsDigit(parts[k][i]);
      } else {
        assert parts[k][i] == ComponentUnit(parts[k]);
      }
    }
  }

  // ---------------------------------------------------------------- formatDuration

  /** `Math.floor(ms / 60000)`. */
  function DurationMinutes(ms: int): int { ms / 60000 }

  /** `Math.floor((ms % 60000) / 1000)`. */
  function DurationSeconds(ms: int): int { JsRemInt(ms, 60000) / 1000 }

  predicate IsColon(c: char) { c == ':' }

  /** `formatDuration(ms)`: a falsy duration (absent or zero) is shown as a placeholder. */
  function FormatDuration(ms: Option<int>): string {
    if ms.None? || ms.value == 0 then "--:--"
    else IntToString(DurationMinutes(ms.value)) + ":" + PadStart2(IntToString(DurationSeconds(ms.value)))
  }

  /** For a positive duration, minutes and seconds are its floor in whole
      seconds written in base 60 without carrying into hours. */
  lemma {:induction false} DurationFields(ms: int)
    requires ms > 0
    ensures DurationMinutes(ms) >= 0 && 0 <= DurationSeconds(ms) < 60
    ensures var total := DurationMinutes(ms) * 60000 + DurationSeconds(ms) * 1000;
      total <= ms < total + 1000
  {
    var r := ms % 60000;
    assert ms == 60000 * (ms / 60000) + r;
    assert r == 1000 * (r / 1000) + r % 1000;
  }

  /** A positive duration prints as two colon-separated digit fields, the
      second exactly two digits wide, and reading them back brackets the
      duration to the second. */
  lemma {:induction false} DurationReadBack(ms: int)
    requires ms > 0
    ensures var pieces := SplitWhere(FormatDuration(Some(ms)), IsColon);
      && |pieces| == 2 && |pieces[0]| >= 1 && |pieces[1]| == 2
      && (forall k, i :: 0 <= k < 2 && 0 <= i < |pieces[k]| ==> IsDigit(pieces[k][i]))
      && ParseNat(pieces[0]) == DurationMinutes(ms)
      && ParseNat(pieces[1]) == DurationSeconds(ms)
      && ParseNat(pieces[0]) * 60000 + ParseNat(pieces[1]) * 1000 <= ms
      && ms < ParseNat(pieces[0]) * 60000 + ParseNat(pieces[1]) * 1000 + 1000
  {
    DurationFields(ms);
    var m, s := DurationMinutes(ms), DurationSeconds(ms);
    var a, b := NatToString(m), PadStart2(NatToString(s));
    ParseNatToString(m);
    ParseNatToString(s);
    ParseNatPadStart2(NatToString(s));
    assert |NatToString(s)| <= 2 by {
      if |NatToString(s)| > 2 { NatToStringBound(s); }
    }
    TwoPieces(a, b);
  }

  /** A number below 60 has at most two digits. */
  lemma {:induction false} NatToStringBound(n: nat)
    requires |NatToString(n)| > 2
    ensures n >= 100
  {
    assert n >= 10;
    assert |NatToString(n / 10)| > 1;
  }

  lemma {:induction false} TwoPieces(a: string, b: string)
    requires forall i :: 0 <= i < |a| ==> IsDigit(a[i])
    requires forall i :: 0 <= i < |b| ==> IsDigit(b[i])
    ensures SplitWhere(a + ":" + b, IsColon) == [a, b]
  {
    var parts := [a, b];
    assert Join(parts, ":") == a + ":" + b by {
      assert parts[1..] == [b];
    }
    forall k, i | 0 <= k < 2 && 0 <= i < |parts[k]|
      ensures !IsColon(parts[k][i])
    {
      assert IsDigit(parts[k][i]);
    }
    SplitJoin(parts, IsColon, ':');
  }

  /** The placeholder is shown exactly for an absent or zero duration. */
  lemma {:induction false} DurationPlaceholder(ms: Option<int>)
    ensures FormatDuration(ms) == "--:--" <==> ms.None? || ms.value == 0
  {
    if ms.Some? && ms.value != 0 {
      var m := DurationMinutes(ms.value);
      var a := IntToString(m);
      var r := FormatDuration(ms);
      assert r == a + (":" + PadStart2(IntToString(DurationSeconds(ms.value))));
      if m < 0 {
        assert a == "-" + NatToString(-m);
        assert r[1] == NatToString(-m)[0];
        assert IsDigit(r[1]);
      } else {
        assert r[0] == NatToString(m)[0];
        assert IsDigit(r[0]);
      }
    }
  }
}
