/**
 * The `PacmanStats` record of `src/pacman.rs` that the stat gatherer fills and
 * the display code reads. Floating-point fields are `real`; counts are `nat`.
 */
module PacmanData {
  import opened Wrappers

  datatype PacmanStats = PacmanStats(
    totalInstalled: nat,
    totalUpgradable: nat,
    /** Despite its name the source stores elapsed SECONDS here. */
    daysSinceLastUpdate: Option<int>,
    downloadSizeMb: Option<real>,
    totalInstalledSizeMb: Option<real>,
    netUpgradeSizeMb: Option<real>,
    orphanedPackages: Option<nat>,
    orphanedSizeMb: Option<real>,
    cacheSizeMb: Option<real>,
    mirrorUrl: Option<string>,
    mirrorSyncAgeHours: Option<real>,
    pacmanVersion: Option<string>,
    diskUsedBytes: Option<nat>,
    diskTotalBytes: Option<nat>)

  /** `PacmanStats::default()`: counts 0, everything else absent. */
  const DefaultStats: PacmanStats :=
    PacmanStats(0, 0, None, None, None, None, None, None, None, None, None, None, None, None)
}
