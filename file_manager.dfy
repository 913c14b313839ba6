/** The temporary download directory: public download URLs, the periodic
    sweep of expired files, and single-file deletion. The directory is a
    map from file name to modification time in milliseconds; the clock and
    the file-system calls that can fail are parameters. */
module FileManager {
  import opened Wrappers

  // ---------------------------------------------------------------- getDownloadUrl

  /** `process.env.X || fallback`: an unset or empty variable falls back. */
  function EnvOr(v: Option<string>, fallback: string): string {
    if v.Some? && v.value != "" then v.value else fallback
  }

  /** The public base URL: the configured one, or the local server on its port. */
  function BaseUrl(backendUrl: Option<string>, port: Option<string>): string {
    EnvOr(backendUrl, "http://localhost:" + EnvOr(port, "3001"))
  }

  /** `getDownloadUrl(filename)`. */
  function GetDownloadUrl(backendUrl: Option<string>, port: Option<string>, filename: string): string {
    BaseUrl(backendUrl, port) + "/downloads/" + filename
  }

  /** Under one configuration, the file name can be read back from its URL. */
  lemma {:induction false} DownloadUrlReadBack(backendUrl: Option<string>, port: Option<string>, filename: string)
    ensures var base := BaseUrl(backendUrl, port);
      var r := GetDownloadUrl(backendUrl, port, filename);
      && |r| == |base| + 11 + |filename|
      && r[..|base|] == base
      && r[|base|..|base| + 11] == "/downloads/"
      && r[|base| + 11..] == filename
  {
  }

  /** Different files get different URLs. */
  lemma {:induction false} DownloadUrlInjective(backendUrl: Option<string>, port: Option<string>, f: string, g: string)
    requires GetDownloadUrl(backendUrl, port, f) == GetDownloadUrl(backendUrl, port, g)
    ensures f == g
  {
    DownloadUrlReadBack(backendUrl, port, f);
    DownloadUrlReadBack(backendUrl, port, g);
  }

  // ---------------------------------------------------------------- the sweep, as values

  /** An entry is expired when its age is strictly greater than the expiration period. */
  predicate Expired(mtime: int, now: int, minutes: int) {
    now - mtime > minutes * 60 * 1000
  }

  /** The entries a sweep deletes: the expired ones whose stat and unlink succeed. */
  function Removed(entries: map<string, int>, now: int, minutes: int, failing: set<string>): set<string> {
    set k | k in entries && Removable(entries, k, now, minutes, failing)
  }

  predicate Removable(entries: map<string, int>, k: string, now: int, minutes: int, failing: set<string>) {
    k in entries && Expired(entries[k], now, minutes) && k !in failing
  }

  /** The directory after a sweep: every other entry, with its time unchanged. */
  function Swept(entries: map<string, int>, now: int, minutes: int, failing: set<string>): map<string, int> {
    entries - Removed(entries, now, minutes, failing)
  }

  /** A sweep splits the directory into what it keeps and what it deletes. */
  lemma {:induction false} SweptPartition(entries: map<string, int>, now: int, minutes: int, failing: set<string>)
    ensures var kept := Swept(entries, now, minutes, failing).Keys;
      var gone := Removed(entries, now, minutes, failing);
      && kept + gone == entries.Keys
      && kept !! gone
      && |gone| == |entries| - |Swept(entries, now, minutes, failing)|
  {
    var kept := Swept(entries, now, minutes, failing).Keys;
    var gone := Removed(entries, now, minutes, failing);
    assert entries.Keys == kept + gone;
    assert |entries.Keys| == |kept| + |gone|;
  }

  /** Sweeping again at the same moment deletes nothing more. */
  lemma {:induction false} SweptIdempotent(entries: map<string, int>, now: int, minutes: int, failing: set<string>)
    ensures var once := Swept(entries, now, minutes, failing);
      Removed(once, now, minutes, failing) == {} && Swept(once, now, minutes, failing) == once
  {
    var once := Swept(entries, now, minutes, failing);
    assert Removed(once, now, minutes, failing) == {};
  }

  /** A later sweep deletes at least what an earlier one would have. */
  lemma {:induction false} RemovedMonotone(entries: map<string, int>, t0: int, t1: int, minutes: int, failing: set<string>)
    requires t0 <= t1
    ensures Removed(entries, t0, minutes, failing) <= Removed(entries, t1, minutes, failing)
  {
  }

  /** The entries among the first names listed that a sweep deletes. */
  ghost function RemovedAmong(names: seq<string>, entries: map<string, int>, now: int, minutes: int, failing: set<string>): set<string>
  {
    if names == [] then {}
    else
      var name := names[|names| - 1];
      RemovedAmong(names[..|names| - 1], entries, now, minutes, failing)
        + if Removable(entries, name, now, minutes, failing) then {name} else {}
  }

  lemma {:induction false} RemovedAmongSpec(names: seq<string>, entries: map<string, int>, now: int, minutes: int, failing: set<string>)
    ensures forall k :: k in RemovedAmong(names, entries, now, minutes, failing) <==>
      k in names && k in Removed(entries, now, minutes, failing)
  {
    if names != [] {
      var init := names[..|names| - 1];
      RemovedAmongSpec(init, entries, now, minutes, failing);
      assert names == init + [names[|names| - 1]];
    }
  }

  /** How many of the first names listed a sweep deletes. */
  function CountRemovable(names: seq<string>, entries: map<string, int>, now: int, minutes: int, failing: set<string>): nat
  {
    if names == [] then 0
    else
      CountRemovable(names[..|names| - 1], entries, now, minutes, failing)
        + if Removable(entries, names[|names| - 1], now, minutes, failing) then 1 else 0
  }

  /** Over distinct names, the count is the size of the deleted set. */
  lemma {:induction false} CountRemovableSpec(names: seq<string>, entries: map<string, int>, now: int, minutes: int, failing: set<string>)
    requires forall p, q :: 0 <= p < q < |names| ==> names[p] != names[q]
    ensures CountRemovable(names, entries, now, minutes, failing) == |RemovedAmong(names, entries, now, minutes, failing)|
  {
    if names != [] {
      var init := names[..|names| - 1];
      var name := names[|names| - 1];
      CountRemovableSpec(init, entries, now, minutes, failing);
      RemovedAmongSpec(init, entries, now, minutes, failing);
      assert name !in init;
    }
  }

  /** One step of the sweep loop: the next listed name is deleted when it is
      removable, and it was not deleted before because names are distinct. */
  lemma {:induction false} SweepStep(names: seq<string>, i: nat, entries: map<string, int>, now: int, minutes: int, failing: set<string>)
    requires i < |names|
    requires forall p, q :: 0 <= p < q < |names| ==> names[p] != names[q]
    ensures var before := RemovedAmong(names[..i], entries, now, minutes, failing);
      var after := RemovedAmong(names[..i + 1], entries, now, minutes, failing);
      var name := names[i];
      && name !in before
      && CountRemovable(names[..i + 1], entries, now, minutes, failing)
         == CountRemovable(names[..i], entries, now, minutes, failing)
            + (if Removable(entries, name, now, minutes, failing) then 1 else 0)
      && after == before + (if Removable(entries, name, now, minutes, failing) then {name} else {})
      && (name in entries ==> name in entries - before && (entries - before)[name] == entries[name])
  {
    assert names[..i + 1][..i] == names[..i];
    RemovedAmongSpec(names[..i], entries, now, minutes, failing);
  }

  lemma {:induction false} MinusOneMore(m: map<string, int>, gone: set<string>, name: string)
    requires name !in gone
    ensures (m - gone) - {name} == m - (gone + {name})
  {
  }

  /** The loop of the sweep over the listed names, on the directory's contents. */
  method SweepListing(listed: map<string, int>, names: seq<string>, now: int, minutes: int, failing: set<string>)
    returns (remaining: map<string, int>, cleaned: nat)
    requires forall i, j :: 0 <= i < j < |names| ==> names[i] != names[j]
    requires forall k :: k in listed ==> k in names
    ensures remaining == Swept(listed, now, minutes, failing)
    ensures cleaned == |Removed(listed, now, minutes, failing)|
  {
    remaining, cleaned := listed, 0;
    ghost var gone: set<string> := {};
    var i := 0;
    while i < |names|
      invariant 0 <= i <= |names|
      invariant gone == RemovedAmong(names[..i], listed, now, minutes, failing)
      invariant remaining == listed - gone
      invariant cleaned == CountRemovable(names[..i], listed, now, minutes, failing)
    {
      var name := names[i];
      SweepStep(names, i, listed, now, minutes, failing);
      if name in remaining && Expired(remaining[name], now, minutes) && name !in failing {
        MinusOneMore(listed, gone, name);
        remaining := remaining - {name};
        cleaned := cleaned + 1;
        gone := gone + {name};
      }
      i := i + 1;
    }
    RemovedAmongSpec(names, listed, now, minutes, failing);
    assert names[..i] == names;
    CountRemovableSpec(names, listed, now, minutes, failing);
    assert gone == Removed(listed, now, minutes, failing);
  }

  // ---------------------------------------------------------------- the directory

  class TempDirectory {
    /** Whether the directory exists at all. */
    var present: bool
    /** File name to modification time in milliseconds. */
    var entries: map<string, int>

    /** A directory that does not exist holds no files. */
    ghost predicate Valid()
      reads this
    {
      !present ==> entries == map[]
    }

    constructor (present: bool, entries: map<string, int>)
      requires present || entries == map[]
      ensures Valid() && this.present == present && this.entries == entries
    {
      this.present := present;
      this.entries := entries;
    }

    /** `cleanupExpiredFiles(tempPath, expirationMinutes)`. `names` is what
        listing the directory returns, `listFails` says whether the listing
        throws, and `failing` holds the entries whose stat or unlink throws;
        such an entry is skipped and the loop goes on. The function itself
        returns nothing: `cleaned` is the count of deleted files that it
        logs, not a return value. */
    method CleanupExpiredFiles(now: int, minutes: int, names: seq<string>, listFails: bool, failing: set<string>)
      returns (cleaned: nat)
      requires forall i, j :: 0 <= i < j < |names| ==> names[i] != names[j]
      requires Valid()
      requires forall k :: k in entries ==> k in names
      modifies this
      ensures Valid() && present == old(present)
      ensures !old(present) || listFails ==> entries == old(entries) && cleaned == 0
      ensures old(present) && !listFails ==>
        && entries == Swept(old(entries), now, minutes, failing)
        && cleaned == |Removed(old(entries), now, minutes, failing)|
    {
      cleaned := 0;
      if !present || listFails {
        return;
      }
      entries, cleaned := SweepListing(entries, names, now, minutes, failing);
    }

    /** `deleteFile(name)`: true exactly when the file existed and unlinking
        it succeeded; only then is it gone. */
    method DeleteFile(name: string, unlinkFails: bool) returns (deleted: bool)
      requires Valid()
      modifies this
      ensures Valid() && present == old(present)
      ensures deleted <==> name in old(entries) && !unlinkFails
      ensures entries == if deleted then old(entries) - {name} else old(entries)
    {
      deleted := false;
      if name in entries && !unlinkFails {
        entries := entries - {name};
        deleted := true;
      }
    }
  }
}
