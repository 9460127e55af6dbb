/**
 * The package arithmetic of `src/pacman.rs`: what a system upgrade would
 * download, install and change in size (`calculate_upgrade_stats`), and the
 * orphaned dependencies (`get_orphaned_packages`).
 *
 * The alpm library is replaced by its answers: whether each call succeeds,
 * and the package records a prepared transaction would add and remove.
 * Sizes are integer bytes; the MiB figures are exact `real` quotients.
 */
module UpgradeTotals {
  import opened Wrappers

  const BYTES_PER_MIB: real := 1048576.0

  /** A package a transaction would install: name, download size and installed size. */
  datatype SyncPkg = SyncPkg(name: string, downloadSize: int, isize: int)

  datatype Reason = Explicit | Depend

  /** A package of the local database. */
  datatype LocalPkg = LocalPkg(name: string, isize: int, reason: Reason,
                               requiredBy: seq<string>, optionalFor: seq<string>)

  /** `UpgradeStats`; the default has no sizes and a count of 0. */
  datatype UpgradeStats = UpgradeStats(downloadSizeMb: Option<real>, installedSizeMb: Option<real>,
                                       netUpgradeSizeMb: Option<real>, packageCount: nat)

  const Fail: UpgradeStats := UpgradeStats(None, None, None, 0)

  /** What the alpm calls of `calculate_upgrade_stats` answer. */
  datatype AlpmAnswers = AlpmAnswers(
    newOk: bool,               // Alpm::new
    transInitOk: bool,         // trans_init
    sysupgradeOk: bool,        // sync_sysupgrade
    prepareOk: bool,           // trans_prepare
    toAdd: seq<SyncPkg>,       // trans_add
    toRemove: seq<LocalPkg>,   // trans_remove
    localSizes: map<string, int>) // localdb: installed size by name

  /** The alpm calls that open and close a transaction, in the order they are made. */
  datatype Call = TransInit | SyncSysupgrade | TransPrepare | TransRelease

  // --- the sums ---

  function SumDownload(pkgs: seq<SyncPkg>): int {
    if pkgs == [] then 0 else pkgs[0].downloadSize + SumDownload(pkgs[1..])
  }

  function SumIsize(pkgs: seq<SyncPkg>): int {
    if pkgs == [] then 0 else pkgs[0].isize + SumIsize(pkgs[1..])
  }

  /** Each added package's contribution to the net size. */
  function NetDelta(p: SyncPkg, local: map<string, int>): int {
    if p.name in local then p.isize - local[p.name] else p.isize
  }

  function SumNetDelta(pkgs: seq<SyncPkg>, local: map<string, int>): int {
    if pkgs == [] then 0 else NetDelta(pkgs[0], local) + SumNetDelta(pkgs[1..], local)
  }

  /** Installed size of the versions being replaced. */
  function SumReplaced(pkgs: seq<SyncPkg>, local: map<string, int>): int {
    if pkgs == [] then 0
    else (if pkgs[0].name in local then local[pkgs[0].name] else 0) + SumReplaced(pkgs[1..], local)
  }

  function SumLocal(pkgs: seq<LocalPkg>): int {
    if pkgs == [] then 0 else pkgs[0].isize + SumLocal(pkgs[1..])
  }

  /** The net change: new sizes, minus the sizes they replace, minus what is removed. */
  lemma {:induction false} NetIsInstalledMinusReplaced(pkgs: seq<SyncPkg>, local: map<string, int>)
    ensures SumNetDelta(pkgs, local) == SumIsize(pkgs) - SumReplaced(pkgs, local)
    decreases |pkgs|
  {
    if pkgs != [] {
      NetIsInstalledMinusReplaced(pkgs[1..], local);
    }
  }

  /** Sums over a prefix extended by one element (the loops add in this order). */
  lemma {:induction false} SumsSnoc(pkgs: seq<SyncPkg>, p: SyncPkg, local: map<string, int>)
    ensures SumDownload(pkgs + [p]) == SumDownload(pkgs) + p.downloadSize
    ensures SumIsize(pkgs + [p]) == SumIsize(pkgs) + p.isize
    ensures SumNetDelta(pkgs + [p], local) == SumNetDelta(pkgs, local) + NetDelta(p, local)
    decreases |pkgs|
  {
    if pkgs == [] {
      assert [] + [p] == [p];
    } else {
      assert (pkgs + [p])[1..] == pkgs[1..] + [p];
      SumsSnoc(pkgs[1..], p, local);
    }
  }

  lemma {:induction false} SumLocalSnoc(pkgs: seq<LocalPkg>, p: LocalPkg)
    ensures SumLocal(pkgs + [p]) == SumLocal(pkgs) + p.isize
    decreases |pkgs|
  {
    if pkgs == [] {
      assert [] + [p] == [p];
    } else {
      assert (pkgs + [p])[1..] == pkgs[1..] + [p];
      SumLocalSnoc(pkgs[1..], p);
    }
  }

  /** The net size in MiB, snapped to 0 within 0.01 MiB of 0. */
  function NetMib(net: int): real {
    var mib := net as real / BYTES_PER_MIB;
    if mib > -0.01 && mib < 0.01 then 0.0 else mib
  }

  /** The snap, stated on integer bytes: the figure is 0 exactly when |net| * 100 < 1 MiB. */
  lemma NetMibZero(net: int)
    ensures NetMib(net) == 0.0 <==> (if net < 0 then -net else net) * 100 < 1048576
  {
  }

  /** The figures of a prepared transaction. */
  function Totals(a: AlpmAnswers): UpgradeStats {
    UpgradeStats(
      Some(SumDownload(a.toAdd) as real / BYTES_PER_MIB),
      Some(SumIsize(a.toAdd) as real / BYTES_PER_MIB),
      Some(NetMib(SumNetDelta(a.toAdd, a.localSizes) - SumLocal(a.toRemove))),
      |a.toAdd|)
  }

  /** Every alpm step up to the prepared transaction succeeds. */
  predicate Prepared(a: AlpmAnswers) {
    a.newOk && a.transInitOk && a.sysupgradeOk && a.prepareOk
  }

  /**
   * `calculate_upgrade_stats`: returns the calls made on the transaction as
   * well as the figures.
   */
  method CalculateUpgradeStats(a: AlpmAnswers) returns (stats: UpgradeStats, calls: seq<Call>)
    ensures Prepared(a) ==> stats == Totals(a)
    ensures !Prepared(a) ==> stats == Fail
    ensures !a.newOk ==> calls == []
    ensures a.newOk && a.transInitOk ==> |calls| >= 2 && calls[0] == TransInit && calls[|calls| - 1] == TransRelease
    ensures a.newOk && !a.transInitOk ==> calls == [TransInit]
    ensures forall k :: 0 <= k < |calls| - 1 ==> calls[k] != TransRelease
  {
    calls := [];
    if !a.newOk {
      return Fail, calls;
    }
    calls := calls + [TransInit];
    if !a.transInitOk {
      return Fail, calls;
    }
    calls := calls + [SyncSysupgrade];
    if !a.sysupgradeOk {
      calls := calls + [TransRelease];
      return Fail, calls;
    }
    calls := calls + [TransPrepare];
    if !a.prepareOk {
      calls := calls + [TransRelease];
      return Fail, calls;
    }

    var totalDownload := 0;
    var totalInstalled := 0;
    var net := 0;
    var count := 0;
    var i := 0;
    while i < |a.toAdd|
      invariant 0 <= i <= |a.toAdd|
      invariant count == i
      invariant totalDownload == SumDownload(a.toAdd[..i])
      invariant totalInstalled == SumIsize(a.toAdd[..i])
      invariant net == SumNetDelta(a.toAdd[..i], a.localSizes)
    {
      var pkg := a.toAdd[i];
      SumsSnoc(a.toAdd[..i], pkg, a.localSizes);
      assert a.toAdd[..i + 1] == a.toAdd[..i] + [pkg];
      count := count + 1;
      totalDownload := totalDownload + pkg.downloadSize;
      var newSize := pkg.isize;
      totalInstalled := totalInstalled + newSize;
      if pkg.name in a.localSizes {
        var oldSize := a.localSizes[pkg.name];
        net := net + (newSize - oldSize);
      } else {
        net := net + newSize;
      }
      i := i + 1;
    }
    assert a.toAdd[..i] == a.toAdd;

    var j := 0;
    while j < |a.toRemove|
      invariant 0 <= j <= |a.toRemove|
      invariant net == SumNetDelta(a.toAdd, a.localSizes) - SumLocal(a.toRemove[..j])
    {
      SumLocalSnoc(a.toRemove[..j], a.toRemove[j]);
      assert a.toRemove[..j + 1] == a.toRemove[..j] + [a.toRemove[j]];
      net := net - a.toRemove[j].isize;
      j := j + 1;
    }
    assert a.toRemove[..j] == a.toRemove;

    calls := calls + [TransRelease];

    var netMib := net as real / BYTES_PER_MIB;
    if netMib > -0.01 && netMib < 0.01 {
      netMib := 0.0;
    }
    stats := UpgradeStats(Some(totalDownload as real / BYTES_PER_MIB), Some(totalInstalled as real / BYTES_PER_MIB),
                          Some(netMib), count);
  }

  // --- orphans ---

  /** A dependency that nothing requires, even optionally. */
  predicate IsOrphan(p: LocalPkg) {
    p.reason == Depend && p.requiredBy == [] && p.optionalFor == []
  }

  function Orphans(pkgs: seq<LocalPkg>): (r: seq<LocalPkg>)
    ensures |r| <= |pkgs|
    ensures forall k :: 0 <= k < |r| ==> IsOrphan(r[k]) && r[k] in pkgs
  {
    if pkgs == [] then []
    else if IsOrphan(pkgs[0]) then [pkgs[0]] + Orphans(pkgs[1..])
    else Orphans(pkgs[1..])
  }

  lemma {:induction false} OrphansSnoc(pkgs: seq<LocalPkg>, p: LocalPkg)
    ensures Orphans(pkgs + [p]) == Orphans(pkgs) + (if IsOrphan(p) then [p] else [])
    decreases |pkgs|
  {
    if pkgs == [] {
      assert [] + [p] == [p];
    } else {
      assert (pkgs + [p])[1..] == pkgs[1..] + [p];
      OrphansSnoc(pkgs[1..], p);
    }
  }

  /** Every orphan of the database is counted. */
  lemma {:induction false} OrphansComplete(pkgs: seq<LocalPkg>, p: LocalPkg)
    requires p in pkgs && IsOrphan(p)
    ensures p in Orphans(pkgs)
    decreases |pkgs|
  {
    if pkgs[0] != p {
      assert p in pkgs[1..];
      OrphansComplete(pkgs[1..], p);
    }
  }

  /**
   * `get_orphaned_packages`: the number and total size in MiB of orphans,
   * or nothing at all when the local database cannot be opened.
   */
  method GetOrphanedPackages(alpmOk: bool, pkgs: seq<LocalPkg>) returns (count: Option<nat>, sizeMb: Option<real>)
    ensures !alpmOk ==> count == None && sizeMb == None
    ensures alpmOk ==> count == Some(|Orphans(pkgs)|)
    ensures alpmOk ==> sizeMb == Some(SumLocal(Orphans(pkgs)) as real / BYTES_PER_MIB)
  {
    if !alpmOk {
      return None, None;
    }
    var n, totalSize := CountOrphans(pkgs);
    count := Some(n);
    sizeMb := Some(totalSize as real / BYTES_PER_MIB);
  }

  /** The loop of `get_orphaned_packages`: the number of orphans and their installed bytes. */
  method CountOrphans(pkgs: seq<LocalPkg>) returns (n: nat, totalSize: int)
    ensures n == |Orphans(pkgs)|
    ensures totalSize == SumLocal(Orphans(pkgs))
  {
    n, totalSize := 0, 0;
    var i := 0;
    while i < |pkgs|
      invariant 0 <= i <= |pkgs|
      invariant n == |Orphans(pkgs[..i])|
      invariant totalSize == SumLocal(Orphans(pkgs[..i]))
    {
      var pkg := pkgs[i];
      ghost var before := Orphans(pkgs[..i]);
      assert pkgs[..i + 1] == pkgs[..i] + [pkg];
      OrphansSnoc(pkgs[..i], pkg);
      if pkg.reason == Depend && pkg.requiredBy == [] && pkg.optionalFor == [] {
        assert Orphans(pkgs[..i + 1]) == before + [pkg];
        SumLocalSnoc(before, pkg);
        n := n + 1;
        totalSize := totalSize + pkg.isize;
      } else {
        assert Orphans(pkgs[..i + 1]) == before + [];
        assert before + [] == before;
      }
      i := i + 1;
    }
    assert pkgs[..i] == pkgs;
  }
}
