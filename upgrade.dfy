/**
 * `upgrade_system` of `src/pacman.rs`: refuse unless root, optionally sync
 * the databases first, gather and show the stats from the system databases,
 * then hand over to an interactive `pacman -Su` whose output is filtered.
 */
module Upgrade {
  import opened Wrappers
  import opened PacmanData
  import opened Stats
  import opened UpgradeTotals
  import opened HeadlessSync
  import opened PacmanPty
  import opened Gather

  /** What the three external steps would answer. */
  datatype World = World(
    isRoot: bool,
    syncSpawnError: Option<string>, syncPolls: seq<Poll>,       // `pacman -Sy`
    src: Sources, mirrorAge: string -> Option<real>,            // `get_stats`
    ptySpawnError: Option<string>, ptyPolls: seq<Poll>, stdin: seq<Option<string>>)  // `pacman -Su`

  /**
   * `upgrade_system`. `stats` is the record handed to the display, absent
   * when the function returns before gathering; `output` is what the
   * interactive session writes.
   */
  method UpgradeSystem(requested: seq<StatIdOrTitle>, syncFirst: bool, w: World)
    returns (r: Result<(), string>, stats: Option<PacmanStats>, command: string, output: string)
    requires w.src.fsStat.Some? ==> w.src.fsStat.value.blocksFree <= w.src.fsStat.value.blocks
    ensures !w.isRoot ==> r == Err(NotRoot) && stats == None && output == []
    ensures w.isRoot && syncFirst && w.syncSpawnError.Some? ==>
      r == Err("Failed to spawn pacman: " + w.syncSpawnError.value) && stats == None && output == []
    ensures stats.Some? <==> w.isRoot && !(syncFirst && w.syncSpawnError.Some?)
    // after a sync the databases are current, so the figures come from the system databases
    ensures stats.Some? ==>
      stats.value.totalUpgradable == (if NeedsUpgradeStats(requested) then w.src.local.packageCount else 0)
      && stats.value.downloadSizeMb == (if NeedsUpgradeStats(requested) then w.src.local.downloadSizeMb else None)
      && stats.value.totalInstalledSizeMb == (if NeedsUpgradeStats(requested) then w.src.local.installedSizeMb else None)
      && stats.value.netUpgradeSizeMb == (if NeedsUpgradeStats(requested) then w.src.local.netUpgradeSizeMb else None)
    // the interactive session is `pacman -Su`
    ensures stats.Some? ==> command == PtyCommand(["-Su"]) && command == "pacman -Su"
    ensures stats.Some? ==>
      var f := PtyRun(Initial.(stdin := w.stdin), false, w.ptyPolls, true);
      && (w.ptySpawnError.Some? ==> r == Err("Failed to spawn pacman: " + w.ptySpawnError.value) && output == [])
      && (w.ptySpawnError.None? ==> r == Ok(()) && output == Epilogue(f, true))
  {
    stats, command, output := None, [], [];
    if !w.isRoot {
      return Err(NotRoot), stats, command, output;
    }
    if syncFirst {
      var synced, message := RunPacmanSync(w.isRoot, w.syncSpawnError, w.syncPolls);
      if synced.Err? {
        return Err(synced.error), stats, command, output;
      }
    }
    var gathered := GetStats(requested, false, w.src, w.mirrorAge);
    stats := Some(gathered);
    var sent;
    r, command, output, sent := RunPacmanPty(["-Su"], true, w.ptySpawnError, w.ptyPolls, w.stdin);
    UpgradeCommand();
  }

  /** The upgrade session's command line. */
  lemma UpgradeCommand()
    ensures PtyCommand(["-Su"]) == "pacman -Su"
  {
    assert Join(["-Su"], " ") == "-Su";
  }
}
