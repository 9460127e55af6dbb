/**
 * The private database cache of `src/pacman.rs` (`DbCache`): a copy of
 * pacman's sync directory under the user's cache directory, refreshed by an
 * unprivileged `pacman -Sy` and trusted while its files are young enough.
 *
 * The sync directory is a map from file name to modification time; a time
 * of `None` is a file whose modification time cannot be read. Times are
 * integer nanoseconds on one clock, and "now" is a parameter.
 */
module DbCacheModel {
  import opened Wrappers
  import opened Strings

  type Time = int

  const NANOS_PER_SEC: nat := 1_000_000_000

  /** The three databases whose freshness decides whether to sync. */
  const RequiredDbs: seq<string> := ["core.db", "extra.db", "multilib.db"]

  /** One directory's view: file name to readable (or unreadable) modification time. */
  type SyncDir = map<string, Option<Time>>

  /** `Duration::as_secs` of `now - mtime`, for a non-future `mtime`. */
  function AgeSecs(mtime: Time, now: Time): nat
    requires mtime <= now
  {
    (now - mtime) / NANOS_PER_SEC
  }

  /** One required file passes the loop body of `is_fresh`. */
  predicate FileFresh(dir: SyncDir, name: string, ttlMinutes: nat, now: Time) {
    && name in dir
    && dir[name].Some?
    && dir[name].value <= now
    && AgeSecs(dir[name].value, now) <= ttlMinutes * 60
  }

  /** The `for db in required_dbs` loop of `is_fresh`: every listed file passes. */
  predicate AllFresh(dir: SyncDir, names: seq<string>, ttlMinutes: nat, now: Time)
    decreases |names|
  {
    names == [] || (FileFresh(dir, names[0], ttlMinutes, now) && AllFresh(dir, names[1..], ttlMinutes, now))
  }

  /** `DbCache::is_fresh` */
  predicate IsFresh(dir: SyncDir, ttlMinutes: nat, now: Time) {
    ttlMinutes != 0 && AllFresh(dir, RequiredDbs, ttlMinutes, now)
  }

  lemma {:induction false} AllFreshIff(dir: SyncDir, names: seq<string>, ttlMinutes: nat, now: Time)
    ensures AllFresh(dir, names, ttlMinutes, now) <==>
      forall k :: 0 <= k < |names| ==> FileFresh(dir, names[k], ttlMinutes, now)
    decreases |names|
  {
    if names != [] {
      AllFreshIff(dir, names[1..], ttlMinutes, now);
      assert forall k :: 1 <= k < |names| ==> names[k] == names[1..][k - 1];
    }
  }

  /**
   * The cache is fresh exactly when the TTL is not 0 and core.db, extra.db
   * and multilib.db all exist with a readable, non-future mtime whose
   * whole-second age is at most the TTL in seconds.
   */
  lemma IsFreshIff(dir: SyncDir, ttlMinutes: nat, now: Time)
    ensures IsFresh(dir, ttlMinutes, now) <==>
      ttlMinutes != 0
      && FileFresh(dir, "core.db", ttlMinutes, now)
      && FileFresh(dir, "extra.db", ttlMinutes, now)
      && FileFresh(dir, "multilib.db", ttlMinutes, now)
  {
    AllFreshIff(dir, RequiredDbs, ttlMinutes, now);
    assert RequiredDbs[0] == "core.db" && RequiredDbs[1] == "extra.db" && RequiredDbs[2] == "multilib.db";
  }

  /** An age of exactly the TTL is still fresh; one second more is not. */
  lemma FreshBoundary(dir: SyncDir, name: string, ttlMinutes: nat, now: Time)
    requires name in dir && dir[name].Some? && dir[name].value <= now
    ensures now - dir[name].value == ttlMinutes * 60 * NANOS_PER_SEC ==> FileFresh(dir, name, ttlMinutes, now)
    ensures now - dir[name].value == (ttlMinutes * 60 + 1) * NANOS_PER_SEC ==> !FileFresh(dir, name, ttlMinutes, now)
  {
  }

  // ---------------------------------------------------------------------
  // copy_system_dbs
  // ---------------------------------------------------------------------

  /** `fs::metadata` of a source file: missing, or present with a readable or unreadable mtime. */
  datatype SourceStat = SourceMissing | SourcePresent(mtime: Option<Time>)

  /** A readable entry of /var/lib/pacman/sync and whether `fs::copy` of it would succeed. */
  datatype SourceEntry = SourceEntry(name: string, stat: SourceStat, copyOk: bool)

  /** `path.extension() == "db"`: the name ends in ".db" after a non-empty stem. */
  predicate HasDbExtension(name: string) {
    |name| > 3 && EndsWith(name, ".db")
  }

  /** Rust's ordering of `Option`: `None` is below every `Some`. */
  predicate OptionGreater(a: Option<Time>, b: Option<Time>) {
    match (a, b)
    case (Some(x), Some(y)) => x > y
    case (Some(_), None) => true
    case (None, _) => false
  }

  /** The `should_copy` decision for one entry. */
  predicate ShouldCopy(dir: SyncDir, e: SourceEntry) {
    match e.stat
    case SourceMissing => false
    case SourcePresent(srcTime) => e.name !in dir || OptionGreater(srcTime, dir[e.name])
  }

  /** One entry: a `*.db` file that should be copied and copies successfully lands with the source's mtime. */
  function CopyEntry(dir: SyncDir, e: SourceEntry): (r: SyncDir)
    ensures r.Keys == dir.Keys || r.Keys == dir.Keys + {e.name}
    ensures forall k :: k in dir && k != e.name ==> k in r && r[k] == dir[k]
    ensures r != dir ==> HasDbExtension(e.name) && ShouldCopy(dir, e) && e.copyOk
  {
    if HasDbExtension(e.name) && ShouldCopy(dir, e) && e.copyOk then dir[e.name := e.stat.mtime]
    else dir
  }

  /** All entries in directory order. */
  function CopyEntries(dir: SyncDir, entries: seq<SourceEntry>): SyncDir
    decreases |entries|
  {
    if entries == [] then dir else CopyEntries(CopyEntry(dir, entries[0]), entries[1..])
  }

  /** `DbCache::copy_system_dbs`, given the source directory (`None` when it is missing or unreadable). */
  function CopySystemDbs(dir: SyncDir, source: Option<seq<SourceEntry>>): SyncDir {
    match source
    case None => dir
    case Some(entries) => CopyEntries(dir, entries)
  }

  /** Decision table of `should_copy`. */
  lemma ShouldCopyCases(dir: SyncDir, e: SourceEntry)
    ensures e.stat.SourceMissing? ==> !ShouldCopy(dir, e)
    ensures e.stat.SourcePresent? && e.name !in dir ==> ShouldCopy(dir, e)
    ensures e.stat == SourcePresent(None) ==> (ShouldCopy(dir, e) <==> e.name !in dir)
    ensures e.stat.SourcePresent? && e.stat.mtime.Some? && e.name in dir && dir[e.name].None? ==> ShouldCopy(dir, e)
    ensures e.stat.SourcePresent? && e.stat.mtime.Some? && e.name in dir && dir[e.name].Some? ==>
      (ShouldCopy(dir, e) <==> e.stat.mtime.value > dir[e.name].value)
  {
  }

  /** After a successful copy the destination carries the source's mtime (`copy_mtime`). */
  lemma CopiedCarriesSourceTime(dir: SyncDir, e: SourceEntry)
    requires HasDbExtension(e.name) && ShouldCopy(dir, e) && e.copyOk
    ensures e.name in CopyEntry(dir, e) && CopyEntry(dir, e)[e.name] == e.stat.mtime
  {
  }

  /** Only `*.db` names of the source are ever added or changed. */
  lemma {:induction false} CopyTouchesOnlyDbFiles(dir: SyncDir, entries: seq<SourceEntry>, k: string)
    requires !HasDbExtension(k)
    ensures var r := CopyEntries(dir, entries);
            (k in r <==> k in dir) && (k in dir ==> r[k] == dir[k])
    decreases |entries|
  {
    if entries != [] {
      CopyTouchesOnlyDbFiles(CopyEntry(dir, entries[0]), entries[1..], k);
    }
  }

  /** A file that is never named by an entry is left as it was. */
  lemma {:induction false} CopyLeavesUnlisted(dir: SyncDir, entries: seq<SourceEntry>, k: string)
    requires forall j :: 0 <= j < |entries| ==> entries[j].name != k
    ensures var r := CopyEntries(dir, entries);
            (k in r <==> k in dir) && (k in dir ==> r[k] == dir[k])
    decreases |entries|
  {
    if entries != [] {
      CopyLeavesUnlisted(CopyEntry(dir, entries[0]), entries[1..], k);
    }
  }

  /** Copying never removes a file. */
  lemma {:induction false} CopyKeepsFiles(dir: SyncDir, entries: seq<SourceEntry>)
    ensures dir.Keys <= CopyEntries(dir, entries).Keys
    decreases |entries|
  {
    if entries != [] {
      CopyKeepsFiles(CopyEntry(dir, entries[0]), entries[1..]);
    }
  }

  // ---------------------------------------------------------------------
  // touch
  // ---------------------------------------------------------------------

  /** `utimensat(UTIME_NOW)` on one path: an existing file gets `now`, a missing one stays missing. */
  function TouchFile(dir: SyncDir, name: string, now: Time): (r: SyncDir)
    ensures r.Keys == dir.Keys
  {
    if name in dir then dir[name := Some(now)] else dir
  }

  function TouchAll(dir: SyncDir, names: seq<string>, now: Time): SyncDir
    decreases |names|
  {
    if names == [] then dir else TouchAll(TouchFile(dir, names[0], now), names[1..], now)
  }

  /** `DbCache::touch` */
  function Touch(dir: SyncDir, now: Time): SyncDir {
    TouchAll(dir, RequiredDbs, now)
  }

  /** Touching creates no file, stamps every existing listed file with `now`, and leaves the rest alone. */
  lemma {:induction false} TouchAllEffect(dir: SyncDir, names: seq<string>, now: Time)
    ensures var r := TouchAll(dir, names, now);
            && r.Keys == dir.Keys
            && (forall k :: k in dir && k in names ==> r[k] == Some(now))
            && (forall k :: k in dir && k !in names ==> r[k] == dir[k])
    decreases |names|
  {
    if names != [] {
      TouchAllEffect(TouchFile(dir, names[0], now), names[1..], now);
      assert forall k :: k in names <==> k == names[0] || k in names[1..];
    }
  }

  /** Right after `touch`, the cache is fresh for any positive TTL, provided the three databases exist. */
  lemma TouchMakesFresh(dir: SyncDir, ttlMinutes: nat, now: Time)
    requires ttlMinutes > 0
    requires forall k :: k in RequiredDbs ==> k in dir
    ensures IsFresh(Touch(dir, now), ttlMinutes, now)
  {
    TouchAllEffect(dir, RequiredDbs, now);
    var r := Touch(dir, now);
    assert "core.db" in RequiredDbs && "extra.db" in RequiredDbs && "multilib.db" in RequiredDbs;
    IsFreshIff(r, ttlMinutes, now);
  }

  /** A missing database stays missing after `touch`, so the cache is still not fresh. */
  lemma TouchCannotCreate(dir: SyncDir, ttlMinutes: nat, now: Time)
    requires "core.db" !in dir
    ensures !IsFresh(Touch(dir, now), ttlMinutes, now)
  {
    TouchAllEffect(dir, RequiredDbs, now);
    IsFreshIff(Touch(dir, now), ttlMinutes, now);
  }

  // ---------------------------------------------------------------------
  // The cache object
  // ---------------------------------------------------------------------

  /** `DbCache`: the cache directory path and the sync directory it holds. */
  class DbCache {
    const path: string
    var sync: SyncDir

    constructor (path: string, sync: SyncDir)
      ensures this.path == path && this.sync == sync
    {
      this.path := path;
      this.sync := sync;
    }

    /** `DbCache::is_fresh` on the current directory. */
    predicate Fresh(ttlMinutes: nat, now: Time)
      reads this
    {
      IsFresh(sync, ttlMinutes, now)
    }

    /** `DbCache::copy_system_dbs`: the loop over the source entries. */
    method CopySystemDbsInPlace(source: Option<seq<SourceEntry>>)
      modifies this
      ensures sync == CopySystemDbs(old(sync), source)
    {
      if source.None? {
        return;
      }
      var entries := source.value;
      var i := 0;
      while i < |entries|
        invariant 0 <= i <= |entries|
        invariant CopyEntries(sync, entries[i..]) == CopyEntries(old(sync), entries)
      {
        var e := entries[i];
        assert entries[i..][1..] == entries[i + 1..];
        if HasDbExtension(e.name) {
          var shouldCopy := match e.stat
            case SourceMissing => false
            case SourcePresent(srcTime) => e.name !in sync || OptionGreater(srcTime, sync[e.name]);
          if shouldCopy && e.copyOk {
            sync := sync[e.name := e.stat.mtime];
          }
        }
        i := i + 1;
      }
    }

    /** `DbCache::touch`: stamp each required database that exists. */
    method TouchInPlace(now: Time)
      modifies this
      ensures sync == Touch(old(sync), now)
    {
      var i := 0;
      while i < |RequiredDbs|
        invariant 0 <= i <= |RequiredDbs|
        invariant TouchAll(sync, RequiredDbs[i..], now) == Touch(old(sync), now)
      {
        assert RequiredDbs[i..][1..] == RequiredDbs[i + 1..];
        var name := RequiredDbs[i];
        if name in sync {
          sync := sync[name := Some(now)];
        }
        i := i + 1;
      }
    }
  }
}
