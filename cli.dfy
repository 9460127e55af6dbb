/**
 * `src/main.rs`: which flags are accepted, how the configured
 * `default_args` stand in for a bare invocation, which operation runs, and
 * which keys the JSON output holds.
 *
 * Command-line parsing itself belongs to the argument parser and is a
 * parameter here: a function from an argument vector to the parsed flags, or
 * `None` when the parser rejects it.
 */
module Cli {
  import opened Wrappers
  import opened Strings
  import opened PacmanData
  import opened Stats

  /** The parsed command line. */
  datatype Flags = Flags(
    syncOp: bool, syncDb: bool, upgrade: bool,        // -S, -y, -u
    debug: bool, local: bool, help: bool, version: bool,
    ascii: Option<string>, color: Option<string>, image: Option<string>,
    json: bool, yay: bool, paru: bool)

  /** Where the gathered stats go. */
  datatype Output = Json | PlainListing | Graphics

  /** What `main` goes on to do. */
  datatype Action =
    | Unrecognized                 // the parser rejected the command line
    | ShowHelp
    | ShowVersion
    | BadCombination               // "unrecognized flag combination"
    | Upgrade(syncFirst: bool)     // `upgrade_system`
    | YayUpgrade
    | ParuUpgrade
    | ShowStats(syncFirst: bool, freshSync: bool, debug: bool, output: Output)

  // --- the flag rules ---

  /** `is_bare_invocation`: no operation and no `--local`. */
  predicate IsBareInvocation(f: Flags) {
    !f.syncOp && !f.syncDb && !f.upgrade && !f.yay && !f.paru && !f.local
  }

  /** The `invalid_flag` rule: of `-S`, `-y`, `-u` only none, `-Sy`, `-Su` and `-Syu` pass. */
  function InvalidFlag(f: Flags): (r: bool)
    ensures !r <==> (f.syncOp, f.syncDb, f.upgrade) in {(false, false, false), (true, true, false), (true, false, true), (true, true, true)}
  {
    (f.syncOp && !f.syncDb && !f.upgrade) || ((f.syncDb || f.upgrade) && !f.syncOp)
  }

  /** The operation chosen once the flags are final. */
  function Dispatch(f: Flags): (a: Action)
    ensures a == BadCombination <==> InvalidFlag(f)
    // `-Su`/`-Syu` win over `--yay` and `--paru`
    ensures !InvalidFlag(f) && f.syncOp && f.upgrade ==> a == Upgrade(f.syncDb)
    ensures a.Upgrade? ==> f.syncOp && f.upgrade && a.syncFirst == f.syncDb
    ensures a == YayUpgrade <==> !InvalidFlag(f) && !f.upgrade && f.yay
    ensures a == ParuUpgrade <==> !InvalidFlag(f) && !f.upgrade && !f.yay && f.paru
    ensures a.ShowStats? <==> !InvalidFlag(f) && !f.upgrade && !f.yay && !f.paru
    ensures a.ShowStats? ==>
      && a.syncFirst == (f.syncOp && f.syncDb)
      // after `-Sy` the system databases are current, so no temporary sync is made
      && (!a.freshSync <==> f.local || a.syncFirst)
      && (a.output == Json <==> f.json)
      && (a.output == PlainListing <==> !f.json && f.debug)
      // JSON output gathers quietly unless the databases were synced first
      && (a.debug <==> f.debug && (a.syncFirst || !f.json))
  {
    if InvalidFlag(f) then BadCombination
    else if f.syncOp && f.upgrade then Upgrade(f.syncDb)
    else if f.yay then YayUpgrade
    else if f.paru then ParuUpgrade
    else
      var freshSync := !(f.local || (f.syncOp && f.syncDb));
      var output := if f.json then Json else if f.debug then PlainListing else Graphics;
      if f.syncOp && f.syncDb then ShowStats(true, freshSync, f.debug, output)
      else if f.json then ShowStats(false, freshSync, false, output)
      else ShowStats(false, freshSync, f.debug, output)
  }

  /**
   * A bare invocation is exactly the one that shows stats gathered against a
   * fresh temporary sync without syncing the system databases first.
   */
  lemma BareInvocationShowsFreshStats(f: Flags)
    ensures IsBareInvocation(f) <==>
      var a := Dispatch(f);
      a.ShowStats? && a.freshSync && !a.syncFirst
  {
  }

  // --- `default_args` ---

  /** The options of the original command line that the re-parse carries over. */
  datatype Carried = Carried(debug: bool, ascii: Option<string>, color: Option<string>, image: Option<string>, json: bool)

  function CarriedOf(f: Flags): Carried {
    Carried(f.debug, f.ascii, f.color, f.image, f.json)
  }

  /** The arguments appended after the configured ones, in the order they are pushed. */
  function CarriedArgs(c: Carried): seq<string> {
    (if c.debug then ["-d"] else [])
    + (match c.ascii case Some(v) => ["--ascii", v] case None => [])
    + (match c.color case Some(v) => ["--color", v] case None => [])
    + (match c.image case Some(v) => ["--image", v] case None => [])
    + (if c.json then ["--json"] else [])
  }

  /**
   * How a parser reads these five options back: a flag sets its field, an
   * option takes the next argument as its value.
   */
  function ReadCarried(args: seq<string>, c: Carried): Carried
    decreases |args|
  {
    if args == [] then c
    else if args[0] == "-d" then ReadCarried(args[1..], c.(debug := true))
    else if args[0] == "--json" then ReadCarried(args[1..], c.(json := true))
    else if args[0] == "--ascii" && |args| >= 2 then ReadCarried(args[2..], c.(ascii := Some(args[1])))
    else if args[0] == "--color" && |args| >= 2 then ReadCarried(args[2..], c.(color := Some(args[1])))
    else if args[0] == "--image" && |args| >= 2 then ReadCarried(args[2..], c.(image := Some(args[1])))
    else ReadCarried(args[1..], c)
  }

  const NoneCarried := Carried(false, None, None, None, false)

  lemma ReadFlag(x: string, rest: seq<string>, c: Carried)
    requires x == "-d" || x == "--json"
    ensures ReadCarried([x] + rest, c) == ReadCarried(rest, if x == "-d" then c.(debug := true) else c.(json := true))
  {
    assert ([x] + rest)[1..] == rest;
  }

  lemma ReadOption(x: string, v: string, rest: seq<string>, c: Carried)
    requires x == "--ascii" || x == "--color" || x == "--image"
    ensures ReadCarried([x, v] + rest, c) == ReadCarried(rest,
      if x == "--ascii" then c.(ascii := Some(v)) else if x == "--color" then c.(color := Some(v)) else c.(image := Some(v)))
  {
    assert ([x, v] + rest)[2..] == rest;
  }

  /**
   * The carried arguments read back as the original options, whatever their
   * values (a value that looks like a flag is still taken as the value).
   */
  lemma CarriedRoundTrip(c: Carried)
    ensures ReadCarried(CarriedArgs(c), NoneCarried) == c
  {
    var j := if c.json then ["--json"] else [];
    var i := (match c.image case Some(v) => ["--image", v] case None => []) + j;
    var k := (match c.color case Some(v) => ["--color", v] case None => []) + i;
    var a := (match c.ascii case Some(v) => ["--ascii", v] case None => []) + k;
    Nest(if c.debug then ["-d"] else [], (match c.ascii case Some(v) => ["--ascii", v] case None => []),
         (match c.color case Some(v) => ["--color", v] case None => []), (match c.image case Some(v) => ["--image", v] case None => []), j);
    assert CarriedArgs(c) == (if c.debug then ["-d"] else []) + a;
    var c1 := NoneCarried.(debug := c.debug);
    ReadDebugIf(c.debug, a, NoneCarried);
    var c2 := c1.(ascii := c.ascii);
    ReadAsciiIf(c.ascii, k, c1);
    var c3 := c2.(color := c.color);
    ReadColorIf(c.color, i, c2);
    var c4 := c3.(image := c.image);
    ReadImageIf(c.image, j, c3);
    assert j == (if c.json then ["--json"] else []) + [];
    ReadJsonIf(c.json, [], c4);
    assert c4.(json := c.json) == c;
  }

  // Each carried option, pushed only when set, is read back as it was.

  lemma ReadDebugIf(b: bool, rest: seq<string>, c: Carried)
    requires !c.debug
    ensures ReadCarried((if b then ["-d"] else []) + rest, c) == ReadCarried(rest, c.(debug := b))
  {
    if b {
      ReadFlag("-d", rest, c);
    } else {
      assert [] + rest == rest;
    }
  }

  lemma ReadJsonIf(b: bool, rest: seq<string>, c: Carried)
    requires !c.json
    ensures ReadCarried((if b then ["--json"] else []) + rest, c) == ReadCarried(rest, c.(json := b))
  {
    if b {
      ReadFlag("--json", rest, c);
    } else {
      assert [] + rest == rest;
    }
  }

  lemma ReadAsciiIf(o: Option<string>, rest: seq<string>, c: Carried)
    requires c.ascii.None?
    ensures ReadCarried((match o case Some(v) => ["--ascii", v] case None => []) + rest, c) == ReadCarried(rest, c.(ascii := o))
  {
    match o
    case Some(v) => ReadOption("--ascii", v, rest, c);
    case None => assert [] + rest == rest;
  }

  lemma ReadColorIf(o: Option<string>, rest: seq<string>, c: Carried)
    requires c.color.None?
    ensures ReadCarried((match o case Some(v) => ["--color", v] case None => []) + rest, c) == ReadCarried(rest, c.(color := o))
  {
    match o
    case Some(v) => ReadOption("--color", v, rest, c);
    case None => assert [] + rest == rest;
  }

  lemma ReadImageIf(o: Option<string>, rest: seq<string>, c: Carried)
    requires c.image.None?
    ensures ReadCarried((match o case Some(v) => ["--image", v] case None => []) + rest, c) == ReadCarried(rest, c.(image := o))
  {
    match o
    case Some(v) => ReadOption("--image", v, rest, c);
    case None => assert [] + rest == rest;
  }

  /** The argument vector re-parsed in place of a bare invocation, pushed as `main` pushes it. */
  method DefaultArgv(defaultArgs: string, f: Flags) returns (args: seq<string>)
    ensures args == ["pacfetch"] + SplitWhitespace(defaultArgs) + CarriedArgs(CarriedOf(f))
  {
    args := ["pacfetch"] + SplitWhitespace(defaultArgs);
    var c := CarriedOf(f);
    var carried: seq<string> := [];
    if f.debug {
      carried := carried + ["-d"];
    }
    assert carried == (if c.debug then ["-d"] else []);
    ghost var upToDebug := carried;
    if f.ascii.Some? {
      carried := carried + ["--ascii", f.ascii.value];
    }
    assert carried == upToDebug + (match c.ascii case Some(v) => ["--ascii", v] case None => []);
    ghost var upToAscii := carried;
    if f.color.Some? {
      carried := carried + ["--color", f.color.value];
    }
    assert carried == upToAscii + (match c.color case Some(v) => ["--color", v] case None => []);
    ghost var upToColor := carried;
    if f.image.Some? {
      carried := carried + ["--image", f.image.value];
    }
    assert carried == upToColor + (match c.image case Some(v) => ["--image", v] case None => []);
    ghost var upToImage := carried;
    if f.json {
      carried := carried + ["--json"];
    }
    assert carried == upToImage + (if c.json then ["--json"] else []);
    assert carried == CarriedArgs(c);
    args := args + carried;
  }

  lemma Nest<T>(d: seq<T>, a: seq<T>, c: seq<T>, i: seq<T>, j: seq<T>)
    ensures d + a + c + i + j == d + (a + (c + (i + j)))
  {
  }

  /**
   * The flags `main` goes on with: on a bare invocation with non-empty
   * `default_args`, those arguments re-parsed (with the carried options);
   * when the re-parse fails, a warning and the original flags.
   */
  method EffectiveFlags(f: Flags, defaultArgs: string, parse: seq<string> -> Option<Flags>)
    returns (g: Flags, warned: bool)
    ensures !(IsBareInvocation(f) && defaultArgs != []) ==> g == f && !warned
    ensures IsBareInvocation(f) && defaultArgs != [] ==>
      var p := parse(["pacfetch"] + SplitWhitespace(defaultArgs) + CarriedArgs(CarriedOf(f)));
      && (p.Some? ==> g == p.value && !warned)
      && (p.None? ==> g == f && warned)
  {
    g, warned := f, false;
    if IsBareInvocation(f) && defaultArgs != [] {
      var args := DefaultArgv(defaultArgs, f);
      match parse(args) {
        case Some(h) => g := h;
        case None => warned := true;
      }
    }
  }

  /** The display settings that the command line overrides. */
  datatype ArtSettings = ArtSettings(ascii: string, asciiColor: string, image: string)

  /**
   * `main` up to the dispatch: a parse failure, help and version end early;
   * otherwise the art settings take the original command line's options,
   * the flags may be replaced through `default_args`, and the final flags
   * choose the operation.
   */
  method Start(parsed: Option<Flags>, configured: ArtSettings, defaultArgs: string, parse: seq<string> -> Option<Flags>)
    returns (a: Action, art: ArtSettings, warned: bool)
    ensures parsed.None? ==> a == Unrecognized
    ensures parsed.Some? && parsed.value.help ==> a == ShowHelp
    ensures parsed.Some? && !parsed.value.help && parsed.value.version ==> a == ShowVersion
    ensures parsed.Some? && !parsed.value.help && !parsed.value.version ==>
      var f := parsed.value;
      && art == ArtSettings(f.ascii.GetOr(configured.ascii), f.color.GetOr(configured.asciiColor), f.image.GetOr(configured.image))
      && (!(IsBareInvocation(f) && defaultArgs != []) ==> a == Dispatch(f) && !warned)
      && (IsBareInvocation(f) && defaultArgs != [] ==>
            var p := parse(["pacfetch"] + SplitWhitespace(defaultArgs) + CarriedArgs(CarriedOf(f)));
            && (p.Some? ==> a == Dispatch(p.value) && !warned)
            && (p.None? ==> a == Dispatch(f) && warned))
  {
    art, warned := configured, false;
    if parsed.None? {
      return Unrecognized, art, warned;
    }
    var f := parsed.value;
    if f.help {
      return ShowHelp, art, warned;
    }
    if f.version {
      return ShowVersion, art, warned;
    }
    if f.ascii.Some? {
      art := art.(ascii := f.ascii.value);
    }
    if f.color.Some? {
      art := art.(asciiColor := f.color.value);
    }
    if f.image.Some? {
      art := art.(image := f.image.value);
    }
    var g;
    g, warned := EffectiveFlags(f, defaultArgs, parse);
    a := Dispatch(g);
  }

  // --- `stats_to_json_string` ---

  /** The JSON object as a map from key to value: one entry per stat with a value. */
  function JsonObject(ids: seq<StatId>, stats: PacmanStats, fixed: FixedFormat): map<string, string> {
    if ids == [] then map[]
    else
      var rest := JsonObject(ids[..|ids| - 1], stats, fixed);
      var id := ids[|ids| - 1];
      match FormatValue(id, stats, fixed)
      case Some(v) => rest[ConfigKey(id) := v]
      case None => rest
  }

  /** The loop over the stat ids, inserting each stat that has a value. */
  method StatsToJson(ids: seq<StatId>, stats: PacmanStats, fixed: FixedFormat) returns (obj: map<string, string>)
    ensures obj == JsonObject(ids, stats, fixed)
  {
    obj := map[];
    for i := 0 to |ids|
      invariant obj == JsonObject(ids[..i], stats, fixed)
    {
      assert ids[..i + 1][..i] == ids[..i];
      match FormatValue(ids[i], stats, fixed) {
        case Some(v) => obj := obj[ConfigKey(ids[i]) := v];
        case None =>
      }
    }
    assert ids[..|ids|] == ids;
  }

  /** `JsonObject` with the formatting of a value taken as a parameter. */
  function Collect(ids: seq<StatId>, val: StatId -> Option<string>): map<string, string> {
    if ids == [] then map[]
    else
      var rest := Collect(ids[..|ids| - 1], val);
      var id := ids[|ids| - 1];
      match val(id)
      case Some(v) => rest[ConfigKey(id) := v]
      case None => rest
  }

  lemma {:induction false} JsonObjectIsCollect(ids: seq<StatId>, stats: PacmanStats, fixed: FixedFormat)
    ensures JsonObject(ids, stats, fixed) == Collect(ids, id => FormatValue(id, stats, fixed))
    decreases |ids|
  {
    if ids != [] {
      JsonObjectIsCollect(ids[..|ids| - 1], stats, fixed);
    }
  }

  lemma {:induction false} CollectKeys(ids: seq<StatId>, val: StatId -> Option<string>)
    ensures forall id | id in ids :: ConfigKey(id) in Collect(ids, val) <==> val(id).Some?
    ensures forall id | id in ids && val(id).Some? :: Collect(ids, val)[ConfigKey(id)] == val(id).value
    ensures forall k | k in Collect(ids, val) :: exists id | id in ids :: ConfigKey(id) == k
    decreases |ids|
  {
    if ids != [] {
      var init, last := ids[..|ids| - 1], ids[|ids| - 1];
      CollectKeys(init, val);
      assert ids == init + [last];
      forall id | id in ids && id != last
        ensures id in init && ConfigKey(id) != ConfigKey(last)
      {
        if ConfigKey(id) == ConfigKey(last) {
          ConfigKeyInjective(id, last);
        }
      }
    }
  }

  /**
   * The object holds exactly the keys of the stats with a value, each with
   * that value, and nothing else.
   */
  lemma JsonKeys(ids: seq<StatId>, stats: PacmanStats, fixed: FixedFormat)
    ensures forall id | id in ids :: ConfigKey(id) in JsonObject(ids, stats, fixed) <==> FormatValue(id, stats, fixed).Some?
    ensures forall id | id in ids && FormatValue(id, stats, fixed).Some? ::
      JsonObject(ids, stats, fixed)[ConfigKey(id)] == FormatValue(id, stats, fixed).value
    ensures forall k | k in JsonObject(ids, stats, fixed) :: exists id | id in ids :: ConfigKey(id) == k
  {
    var val := id => FormatValue(id, stats, fixed);
    JsonObjectIsCollect(ids, stats, fixed);
    CollectKeys(ids, val);
  }

  /** The installed and upgradable counts are always in the object, as decimal numbers. */
  lemma JsonHasCounts(ids: seq<StatId>, stats: PacmanStats, fixed: FixedFormat)
    requires Installed in ids && Upgradable in ids
    ensures var obj := JsonObject(ids, stats, fixed);
            && "installed" in obj && AllDigits(obj["installed"]) && DecimalValue(obj["installed"]) == stats.totalInstalled
            && "upgradable" in obj && AllDigits(obj["upgradable"]) && DecimalValue(obj["upgradable"]) == stats.totalUpgradable
  {
    JsonKeys(ids, stats, fixed);
    assert ConfigKey(Installed) == "installed" && ConfigKey(Upgradable) == "upgradable";
  }

  /** A size that was not gathered is left out of the object. */
  lemma JsonOmitsMissingDownloadSize(ids: seq<StatId>, fixed: FixedFormat)
    ensures "download_size" !in JsonObject(ids, DefaultStats.(totalInstalled := 100), fixed)
  {
    var stats := DefaultStats.(totalInstalled := 100);
    JsonKeys(ids, stats, fixed);
    forall id | id in ids && ConfigKey(id) == "download_size"
      ensures id == DownloadSize
    {
      assert ConfigKey(DownloadSize) == "download_size";
      ConfigKeyInjective(id, DownloadSize);
    }
  }
}
