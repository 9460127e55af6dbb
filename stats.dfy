/**
 * `src/stats.rs`: the stat identifiers a configuration can list, their keys
 * and labels, how each one's value is rendered, and which data sources a
 * list of requested stats needs.
 */
module Stats {
  import opened Wrappers
  import opened Strings
  import opened PacmanData
  import Util

  datatype StatId =
    | Title | Installed | Upgradable | LastUpdate | DownloadSize | InstalledSize
    | NetUpgradeSize | OrphanedPackages | CacheSize | MirrorUrl | MirrorHealth | Disk

  datatype StatIdOrTitle = Stat(id: StatId) | NamedTitle(name: string) | LegacyTitle

  /** Rendering of a float with a fixed number of decimals (Rust's `{:.N}`); not defined by the model. */
  type FixedFormat = (real, nat) -> string

  const BYTES_PER_GIB: real := 1073741824.0

  /** `StatId::config_key` */
  function ConfigKey(id: StatId): (key: string)
    ensures key != []
  {
    match id
    case Title => "title"
    case Installed => "installed"
    case Upgradable => "upgradable"
    case LastUpdate => "last_update"
    case DownloadSize => "download_size"
    case InstalledSize => "installed_size"
    case NetUpgradeSize => "net_upgrade_size"
    case OrphanedPackages => "orphaned_packages"
    case CacheSize => "cache_size"
    case MirrorUrl => "mirror_url"
    case MirrorHealth => "mirror_health"
    case Disk => "disk"
  }

  /** `s` is the key of a stat other than the title. */
  ghost predicate IsStatKey(s: string) {
    exists id: StatId :: id != Title && ConfigKey(id) == s
  }

  /** The stat (other than the title) whose key is `s`. */
  function StatOfKey(s: string): (r: Option<StatId>)
    ensures r.Some? ==> r.value != Title && ConfigKey(r.value) == s
    ensures r.None? ==> !IsStatKey(s)
  {
    if s == "installed" then Some(Installed)
    else if s == "upgradable" then Some(Upgradable)
    else if s == "last_update" then Some(LastUpdate)
    else if s == "download_size" then Some(DownloadSize)
    else if s == "installed_size" then Some(InstalledSize)
    else if s == "net_upgrade_size" then Some(NetUpgradeSize)
    else if s == "orphaned_packages" then Some(OrphanedPackages)
    else if s == "cache_size" then Some(CacheSize)
    else if s == "mirror_url" then Some(MirrorUrl)
    else if s == "mirror_health" then Some(MirrorHealth)
    else if s == "disk" then Some(Disk)
    else None
  }

  /** `StatId::parse` */
  function Parse(s: string): (r: Result<StatIdOrTitle, string>)
    ensures StartsWith(s, "title.") && |s| > 6 ==> r == Ok(NamedTitle(s[6..]))
    ensures s == "title." ==> r == Err("title name cannot be empty")
    ensures s == "title" ==> r == Ok(LegacyTitle)
    ensures r.Ok? && r.value.Stat? ==> r.value.id != Title && ConfigKey(r.value.id) == s
    ensures !StartsWith(s, "title.") && s != "title" ==>
      (r.Err? <==> !IsStatKey(s)) && (r.Err? ==> r.error == "unknown stat: " + s)
  {
    match StripPrefix(s, "title.")
    case Some(name) =>
      if name == [] then Err("title name cannot be empty") else Ok(NamedTitle(name))
    case None =>
      if s == "title" then Ok(LegacyTitle)
      else match StatOfKey(s)
        case Some(id) => Ok(Stat(id))
        case None => Err("unknown stat: " + s)
  }

  /** Every stat other than the title parses back from its key. */
  lemma ParseConfigKey(id: StatId)
    requires id != Title
    ensures Parse(ConfigKey(id)) == Ok(Stat(id))
  {
    FirstCharBlocksPrefix(ConfigKey(id), "title.");
  }

  /** The twelve keys are pairwise distinct. */
  lemma ConfigKeyInjective(a: StatId, b: StatId)
    requires ConfigKey(a) == ConfigKey(b)
    ensures a == b
  {
    if a != Title && b != Title {
      ParseConfigKey(a);
      ParseConfigKey(b);
    } else if a == Title && b != Title {
      ParseConfigKey(b);
    } else if a != Title {
      ParseConfigKey(a);
    }
  }

  /** `StatId::label`: total, and empty only for the title. */
  function Label(id: StatId): (name: string)
    ensures name == [] <==> id == Title
  {
    match id
    case Title => ""
    case Installed => "Installed"
    case Upgradable => "Upgradable"
    case LastUpdate => "Last System Update"
    case DownloadSize => "Download Size"
    case InstalledSize => "Installed Size"
    case NetUpgradeSize => "Net Upgrade Size"
    case OrphanedPackages => "Orphaned Packages"
    case CacheSize => "Package Cache"
    case MirrorUrl => "Mirror URL"
    case MirrorHealth => "Mirror Health"
    case Disk => "Disk"
  }

  function Mib(x: real, fixed: FixedFormat): (r: string)
    ensures EndsWith(r, " MiB") && r[..|r| - 4] == fixed(x, 2)
  {
    fixed(x, 2) + " MiB"
  }

  /** `StatId::format_value`; `fixed` stands for Rust's float formatting. */
  function FormatValue(id: StatId, stats: PacmanStats, fixed: FixedFormat): (r: Option<string>)
    ensures id == Title ==> r.None?
    ensures id == Installed ==> r.Some? && AllDigits(r.value) && DecimalValue(r.value) == stats.totalInstalled
    ensures id == Upgradable ==> r.Some? && AllDigits(r.value) && DecimalValue(r.value) == stats.totalUpgradable
    ensures id == LastUpdate ==> (r.Some? <==> stats.daysSinceLastUpdate.Some?)
    ensures id == DownloadSize ==> (r.Some? <==> stats.downloadSizeMb.Some?)
    ensures id == InstalledSize ==> (r.Some? <==> stats.totalInstalledSizeMb.Some?)
    ensures id == NetUpgradeSize ==> (r.Some? <==> stats.netUpgradeSizeMb.Some?)
    ensures id == CacheSize ==> (r.Some? <==> stats.cacheSizeMb.Some?)
    ensures id == LastUpdate && stats.daysSinceLastUpdate.Some? ==>
      r == Some(Util.NormalizeDuration(stats.daysSinceLastUpdate.value))
    ensures id == DownloadSize && stats.downloadSizeMb.Some? ==> r == Some(Mib(stats.downloadSizeMb.value, fixed))
    ensures id == InstalledSize && stats.totalInstalledSizeMb.Some? ==>
      r == Some(Mib(stats.totalInstalledSizeMb.value, fixed))
    ensures id == NetUpgradeSize && stats.netUpgradeSizeMb.Some? ==> r == Some(Mib(stats.netUpgradeSizeMb.value, fixed))
    ensures id == CacheSize && stats.cacheSizeMb.Some? ==> r == Some(Mib(stats.cacheSizeMb.value, fixed))
    ensures id == MirrorUrl ==> r == stats.mirrorUrl
    ensures id == MirrorHealth ==> r.Some?
    ensures id == MirrorHealth && stats.mirrorUrl.None? ==> r == Some("Err - no mirror found")
    ensures id == MirrorHealth && stats.mirrorUrl.Some? && stats.mirrorSyncAgeHours.None? ==>
      r == Some("Err - could not check sync status")
    ensures id == MirrorHealth && stats.mirrorUrl.Some? && stats.mirrorSyncAgeHours.Some? ==>
      StartsWith(r.value, "OK (last sync ")
    ensures id == OrphanedPackages ==> (r.None? <==> stats.orphanedPackages.None?)
    ensures id == OrphanedPackages && stats.orphanedPackages == Some(0) ==> r == Some("0")
    ensures id == Disk ==> (r.Some? <==> stats.diskUsedBytes.Some? && stats.diskTotalBytes.Some?)
  {
    match id
    case Title => None
    case Installed => Some(CountValue(stats.totalInstalled))
    case Upgradable => Some(CountValue(stats.totalUpgradable))
    case LastUpdate =>
      (match stats.daysSinceLastUpdate
       case Some(secs) => Some(Util.NormalizeDuration(secs))
       case None => None)
    case DownloadSize => SizeValue(stats.downloadSizeMb, fixed)
    case InstalledSize => SizeValue(stats.totalInstalledSizeMb, fixed)
    case NetUpgradeSize => SizeValue(stats.netUpgradeSizeMb, fixed)
    case OrphanedPackages => OrphanValue(stats, fixed)
    case CacheSize => SizeValue(stats.cacheSizeMb, fixed)
    case MirrorUrl => stats.mirrorUrl
    case MirrorHealth => Some(MirrorHealthValue(stats, fixed))
    case Disk => DiskValue(stats, fixed)
  }

  /** A package count, in decimal. */
  function CountValue(n: nat): (r: string)
    ensures AllDigits(r) && DecimalValue(r) == n
  {
    DecimalValueOfNatToString(n);
    NatToString(n)
  }

  /** A size in MiB, when known. */
  function SizeValue(size: Option<real>, fixed: FixedFormat): (r: Option<string>)
    ensures r.Some? <==> size.Some?
    ensures size.Some? ==> r == Some(Mib(size.value, fixed))
  {
    match size case Some(s) => Some(Mib(s, fixed)) case None => None
  }

  /** The orphan count, with the orphans' size in MiB when it is known and the count is positive. */
  function OrphanValue(stats: PacmanStats, fixed: FixedFormat): (r: Option<string>)
    ensures r.None? <==> stats.orphanedPackages.None?
    ensures stats.orphanedPackages == Some(0) ==> r == Some("0")
  {
    match stats.orphanedPackages
    case Some(count) =>
      if count > 0 then
        (match stats.orphanedSizeMb
         case Some(size) => Some(NatToString(count) + " (" + Mib(size, fixed) + ")")
         case None => Some(NatToString(count)))
      else Some("0")
    case None => None
  }

  /** The mirror health: the age of the last sync, or why it is not known. */
  function MirrorHealthValue(stats: PacmanStats, fixed: FixedFormat): (r: string)
    ensures stats.mirrorUrl.None? ==> r == "Err - no mirror found"
    ensures stats.mirrorUrl.Some? && stats.mirrorSyncAgeHours.None? ==> r == "Err - could not check sync status"
    ensures stats.mirrorUrl.Some? && stats.mirrorSyncAgeHours.Some? ==> StartsWith(r, "OK (last sync ")
  {
    match (stats.mirrorUrl, stats.mirrorSyncAgeHours)
    case (Some(_), Some(age)) =>
      var r := "OK (last sync " + fixed(age, 1) + " hours)";
      assert r[..14] == "OK (last sync ";
      r
    case (Some(_), None) => "Err - could not check sync status"
    case (None, _) => "Err - no mirror found"
  }

  /** Used and total disk space in GiB and the share in use, when both are known. */
  function DiskValue(stats: PacmanStats, fixed: FixedFormat): (r: Option<string>)
    ensures r.Some? <==> stats.diskUsedBytes.Some? && stats.diskTotalBytes.Some?
  {
    match (stats.diskUsedBytes, stats.diskTotalBytes)
    case (Some(used), Some(total)) =>
      var pct := if total > 0 then (used as real / total as real) * 100.0 else 0.0;
      Some(fixed(used as real / BYTES_PER_GIB, 2) + " GiB / " + fixed(total as real / BYTES_PER_GIB, 2)
           + " GiB (" + fixed(pct, 0) + "%)")
    case _ => None
  }

  /** A positive orphan count reads back from the front of its rendering, with the size when known. */
  lemma OrphanValueShape(stats: PacmanStats, fixed: FixedFormat)
    requires stats.orphanedPackages.Some? && stats.orphanedPackages.value > 0
    ensures var r := FormatValue(OrphanedPackages, stats, fixed).value;
            var n := NatToString(stats.orphanedPackages.value);
            && StartsWith(r, n)
            && DecimalValue(n) == stats.orphanedPackages.value
            && (stats.orphanedSizeMb.Some? ==> r == n + " (" + fixed(stats.orphanedSizeMb.value, 2) + " MiB)")
            && (stats.orphanedSizeMb.None? ==> r == n)
  {
    DecimalValueOfNatToString(stats.orphanedPackages.value);
  }

  // --- which data sources a request needs ---

  predicate IsUpgradeStat(s: StatIdOrTitle) {
    s == Stat(Upgradable) || s == Stat(DownloadSize) || s == Stat(InstalledSize) || s == Stat(NetUpgradeSize)
  }

  /** `needs_upgrade_stats` */
  predicate NeedsUpgradeStats(requested: seq<StatIdOrTitle>) {
    exists i | 0 <= i < |requested| :: IsUpgradeStat(requested[i])
  }

  /** `needs_orphan_stats` */
  predicate NeedsOrphanStats(requested: seq<StatIdOrTitle>) {
    exists i | 0 <= i < |requested| :: requested[i] == Stat(OrphanedPackages)
  }

  /** `needs_mirror_health` */
  predicate NeedsMirrorHealth(requested: seq<StatIdOrTitle>) {
    exists i | 0 <= i < |requested| :: requested[i] == Stat(MirrorHealth)
  }

  /** `needs_mirror_url` */
  predicate NeedsMirrorUrl(requested: seq<StatIdOrTitle>) {
    exists i | 0 <= i < |requested| :: requested[i] == Stat(MirrorUrl) || requested[i] == Stat(MirrorHealth)
  }

  /** `needs_disk_stat` */
  predicate NeedsDiskStat(requested: seq<StatIdOrTitle>) {
    exists i | 0 <= i < |requested| :: requested[i] == Stat(Disk)
  }

  /** A request for mirror health also needs the mirror URL. */
  lemma MirrorHealthNeedsUrl(requested: seq<StatIdOrTitle>)
    ensures NeedsMirrorHealth(requested) ==> NeedsMirrorUrl(requested)
  {
  }

  /** Upgrade data is needed exactly when one of the four upgrade stats is listed. */
  lemma NeedsUpgradeStatsIff(requested: seq<StatIdOrTitle>)
    ensures NeedsUpgradeStats(requested) <==>
      Stat(Upgradable) in requested || Stat(DownloadSize) in requested
      || Stat(InstalledSize) in requested || Stat(NetUpgradeSize) in requested
  {
  }
}
