/**
 * `get_stats` of `src/pacman.rs`: fills only the `PacmanStats` fields that
 * the requested stats need, starting from the default record.
 *
 * Each data source is replaced by what it yields: the upgrade figures of the
 * synced and of the system databases, the orphan figures, the files and
 * command outputs the small parsers read, the elapsed seconds since the last
 * upgrade, the cache size, `statvfs`, and the mirror check (a function of the
 * URL, since it runs on a thread over the network).
 */
module Gather {
  import opened Wrappers
  import opened Strings
  import opened PacmanData
  import opened Stats
  import opened UpgradeTotals
  import opened PacmanText

  datatype Sources = Sources(
    synced: UpgradeStats,                  // calculate_upgrade_stats_with_sync
    local: UpgradeStats,                   // calculate_upgrade_stats("/var/lib/pacman")
    orphanCount: Option<nat>,              // get_orphaned_packages
    orphanSizeMb: Option<real>,
    mirrorlist: Option<string>,            // /etc/pacman.d/mirrorlist
    installedListing: string,              // output of `pacman -Q`
    secondsSinceUpdate: Option<int>,       // get_seconds_since_update
    cacheSizeMb: Option<real>,             // get_cache_size
    fsStat: Option<FsStat>,                // statvfs of the configured path
    versionOutput: Option<string>)         // output of `pacman --version`

  /** The four upgrade figures, from the synced copy when `--fresh-sync` is given. */
  method GatherUpgrade(need: bool, freshSync: bool, src: Sources, d: PacmanStats)
    returns (count: nat, download: Option<real>, installed: Option<real>, net: Option<real>)
    ensures var up := if freshSync then src.synced else src.local;
            if need then (count, download, installed, net) == (up.packageCount, up.downloadSizeMb, up.installedSizeMb, up.netUpgradeSizeMb)
            else (count, download, installed, net) == (d.totalUpgradable, d.downloadSizeMb, d.totalInstalledSizeMb, d.netUpgradeSizeMb)
  {
    count, download, installed, net := d.totalUpgradable, d.downloadSizeMb, d.totalInstalledSizeMb, d.netUpgradeSizeMb;
    if need {
      var up := if freshSync then src.synced else src.local;
      count, download, installed, net := up.packageCount, up.downloadSizeMb, up.installedSizeMb, up.netUpgradeSizeMb;
    }
  }

  /** The disk figures, only when the disk stat is requested and `statvfs` answers. */
  method GatherDisk(need: bool, fsStat: Option<FsStat>, d: PacmanStats) returns (used: Option<nat>, total: Option<nat>)
    requires fsStat.Some? ==> fsStat.value.blocksFree <= fsStat.value.blocks
    ensures need && fsStat.Some? ==> used == Some(DiskUsage(fsStat).value.0) && total == Some(DiskUsage(fsStat).value.1)
    ensures !(need && fsStat.Some?) ==> used == d.diskUsedBytes && total == d.diskTotalBytes
  {
    used, total := d.diskUsedBytes, d.diskTotalBytes;
    if need {
      match DiskUsage(fsStat) {
        case Some((u, t)) =>
          used, total := Some(u), Some(t);
        case None =>
      }
    }
  }

  /** `get_installed_count`: one installed package per line of `pacman -Q`. */
  method GatherInstalled(need: bool, listing: string, d: PacmanStats) returns (count: nat)
    ensures count == if need then |Lines(listing)| else d.totalInstalled
  {
    count := d.totalInstalled;
    if need {
      count := |Lines(listing)|;
    }
  }

  /**
   * The mirror URL when the URL or its health is requested, and its sync age
   * (joined from the checking thread) only when the health is requested and a
   * URL was found.
   */
  method GatherMirror(needUrl: bool, needHealth: bool, mirrorlist: Option<string>, mirrorAge: string -> Option<real>)
    returns (url: Option<string>, age: Option<real>)
    requires needHealth ==> needUrl
    ensures url == if needUrl then GetMirrorUrl(mirrorlist) else None
    ensures age == if needHealth && url.Some? then mirrorAge(url.value) else None
  {
    url, age := None, None;
    var checkMirror := false;
    if needUrl {
      url := GetMirrorUrl(mirrorlist);
      checkMirror := needHealth;
    }
    if checkMirror {
      age := match url case Some(u) => mirrorAge(u) case None => None;
    }
  }

  /** `get_stats`; `mirrorAge` stands for `check_mirror_sync`. */
  method GetStats(requested: seq<StatIdOrTitle>, freshSync: bool, src: Sources, mirrorAge: string -> Option<real>)
    returns (stats: PacmanStats)
    requires src.fsStat.Some? ==> src.fsStat.value.blocksFree <= src.fsStat.value.blocks
    ensures var up := if freshSync then src.synced else src.local;
            && stats.totalUpgradable == (if NeedsUpgradeStats(requested) then up.packageCount else 0)
            && stats.downloadSizeMb == (if NeedsUpgradeStats(requested) then up.downloadSizeMb else None)
            && stats.totalInstalledSizeMb == (if NeedsUpgradeStats(requested) then up.installedSizeMb else None)
            && stats.netUpgradeSizeMb == (if NeedsUpgradeStats(requested) then up.netUpgradeSizeMb else None)
    ensures stats.orphanedPackages == (if NeedsOrphanStats(requested) then src.orphanCount else None)
    ensures stats.orphanedSizeMb == (if NeedsOrphanStats(requested) then src.orphanSizeMb else None)
    ensures stats.mirrorUrl == (if NeedsMirrorUrl(requested) then GetMirrorUrl(src.mirrorlist) else None)
    ensures stats.mirrorSyncAgeHours ==
      (if NeedsMirrorHealth(requested) && stats.mirrorUrl.Some? then mirrorAge(stats.mirrorUrl.value) else None)
    ensures stats.totalInstalled == (if Stat(Installed) in requested then |Lines(src.installedListing)| else 0)
    ensures stats.daysSinceLastUpdate == (if Stat(LastUpdate) in requested then src.secondsSinceUpdate else None)
    ensures stats.cacheSizeMb == (if Stat(CacheSize) in requested then src.cacheSizeMb else None)
    ensures NeedsDiskStat(requested) && src.fsStat.Some? ==>
      stats.diskUsedBytes == Some(DiskUsage(src.fsStat).value.0) && stats.diskTotalBytes == Some(DiskUsage(src.fsStat).value.1)
    ensures !(NeedsDiskStat(requested) && src.fsStat.Some?) ==> stats.diskUsedBytes == None && stats.diskTotalBytes == None
    ensures stats.pacmanVersion == GetPacmanVersion(src.versionOutput)
  {
    // The record starts as `PacmanStats::default()`; each field is kept in a
    // local until the end, where the record is assembled once.
    var d := DefaultStats;
    var totalUpgradable, downloadSizeMb, totalInstalledSizeMb, netUpgradeSizeMb :=
      GatherUpgrade(NeedsUpgradeStats(requested), freshSync, src, d);

    var needOrphans := NeedsOrphanStats(requested);
    var orphanedPackages := if needOrphans then src.orphanCount else d.orphanedPackages;
    var orphanedSizeMb := if needOrphans then src.orphanSizeMb else d.orphanedSizeMb;

    // The mirror check runs on its own thread while the rest is gathered;
    // its answer is joined last, which leaves no trace in the record.
    MirrorHealthNeedsUrl(requested);
    var mirrorUrl, mirrorSyncAgeHours :=
      GatherMirror(NeedsMirrorUrl(requested), NeedsMirrorHealth(requested), src.mirrorlist, mirrorAge);

    var totalInstalled := GatherInstalled(Stat(Installed) in requested, src.installedListing, d);
    var daysSinceLastUpdate := if Stat(LastUpdate) in requested then src.secondsSinceUpdate else d.daysSinceLastUpdate;
    var cacheSizeMb := if Stat(CacheSize) in requested then src.cacheSizeMb else d.cacheSizeMb;

    var diskUsedBytes, diskTotalBytes := GatherDisk(NeedsDiskStat(requested), src.fsStat, d);

    var pacmanVersion := GetPacmanVersion(src.versionOutput);

    stats := PacmanStats(totalInstalled, totalUpgradable, daysSinceLastUpdate, downloadSizeMb,
                         totalInstalledSizeMb, netUpgradeSizeMb, orphanedPackages, orphanedSizeMb,
                         cacheSizeMb, mirrorUrl, mirrorSyncAgeHours, pacmanVersion,
                         diskUsedBytes, diskTotalBytes);
  }
}
