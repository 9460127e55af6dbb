/**
 * The three-database progress display of `src/pacman.rs` that follows the
 * output of `pacman -Sy`: each of core, extra and multilib is either
 * syncing at some percentage or complete.
 */
module SyncDisplay {
  import opened Wrappers
  import opened Strings
  import Util

  /** `DbSyncState`: a percentage below 100, or done. */
  datatype DbSyncState = Syncing(pct: nat) | Complete

  datatype Db = Core | Extra | Multilib

  /** The three states as one value. */
  datatype Progress = Progress(core: DbSyncState, extra: DbSyncState, multilib: DbSyncState) {
    function Get(db: Db): DbSyncState {
      match db
      case Core => core
      case Extra => extra
      case Multilib => multilib
    }

    function With(db: Db, state: DbSyncState): Progress {
      match db
      case Core => this.(core := state)
      case Extra => this.(extra := state)
      case Multilib => this.(multilib := state)
    }
  }

  /** No database is shown syncing at 100% or more. */
  predicate WellFormed(state: DbSyncState) {
    state.Syncing? ==> state.pct < 100
  }

  predicate ProgressWellFormed(p: Progress) {
    WellFormed(p.core) && WellFormed(p.extra) && WellFormed(p.multilib)
  }

  const Initial: Progress := Progress(Syncing(0), Syncing(0), Syncing(0))

  function DbName(db: Db): string {
    match db
    case Core => "core"
    case Extra => "extra"
    case Multilib => "multilib"
  }

  function DbOfName(name: string): (r: Option<Db>)
    ensures r.Some? <==> name in {"core", "extra", "multilib"}
    ensures r.Some? ==> DbName(r.value) == name
  {
    if name == "core" then Some(Core)
    else if name == "extra" then Some(Extra)
    else if name == "multilib" then Some(Multilib)
    else None
  }

  /** What one line of pacman output does to the display. */
  datatype Change = NoChange | Set(db: Db, state: DbSyncState)

  function Apply(p: Progress, c: Change): Progress {
    match c
    case NoChange => p
    case Set(db, state) => p.With(db, state)
  }

  /** A percentage read from the output: 100 or more counts as complete. */
  function StateOfPercent(pct: nat): (s: DbSyncState)
    ensures WellFormed(s)
    ensures s.Syncing? <==> pct < 100
    ensures s.Syncing? ==> s.pct == pct
  {
    if pct >= 100 then Complete else Syncing(pct)
  }

  /** The percentage of a token ending in '%', when it is a `u8`. */
  function PercentOf(token: string): (r: Option<nat>)
    ensures r.Some? ==> r.value < 256 && EndsWith(token, "%")
  {
    if EndsWith(token, "%") then ParseU8(token[..|token| - 1]) else None
  }

  /** A "<name> ... <n>%" progress line, already split into tokens. */
  function ClassifyParts(parts: seq<string>): (c: Change)
    ensures c.Set? <==>
      |parts| >= 2 && DbOfName(parts[0]).Some? && PercentOf(parts[|parts| - 1]).Some?
    ensures c.Set? ==> WellFormed(c.state)
    ensures c.Set? ==> parts[0] == DbName(c.db)
    ensures c.Set? ==> c.state == StateOfPercent(PercentOf(parts[|parts| - 1]).value)
  {
    if |parts| >= 2 then
      match (DbOfName(parts[0]), PercentOf(parts[|parts| - 1]))
      case (Some(db), Some(pct)) => Set(db, StateOfPercent(pct))
      case _ => NoChange
    else NoChange
  }

  /**
   * An "is up to date" line, recognised by the database name it starts with;
   * the prefixes are tried in the order core, extra, multilib.
   */
  function ClassifyUpToDate(trimmed: string): (c: Change)
    ensures StartsWith(trimmed, "core") ==> c == Set(Core, Complete)
    ensures !StartsWith(trimmed, "core") && StartsWith(trimmed, "extra") ==> c == Set(Extra, Complete)
    ensures !StartsWith(trimmed, "core") && !StartsWith(trimmed, "extra") && StartsWith(trimmed, "multilib")
      ==> c == Set(Multilib, Complete)
    ensures c.NoChange? <==>
      !StartsWith(trimmed, "core") && !StartsWith(trimmed, "extra") && !StartsWith(trimmed, "multilib")
    ensures c.Set? ==> c.state == Complete && StartsWith(trimmed, DbName(c.db))
  {
    if StartsWith(trimmed, "core") then Set(Core, Complete)
    else if StartsWith(trimmed, "extra") then Set(Extra, Complete)
    else if StartsWith(trimmed, "multilib") then Set(Multilib, Complete)
    else NoChange
  }

  /** The visible text of a line without surrounding whitespace. */
  function Cleaned(line: string): string {
    Trim(Util.Visible(line))
  }

  /**
   * `update_from_line`, as a function of the line: the visible, trimmed text
   * either reports a database "is up to date" (recognised by its prefix), or
   * is "<name> ... <n>%" with a known name. `ClassifyIff` states both paths.
   */
  function Classify(line: string): (c: Change)
    ensures c.Set? ==> WellFormed(c.state)
  {
    var trimmed := Cleaned(line);
    if Contains(trimmed, "is up to date") then ClassifyUpToDate(trimmed)
    else ClassifyParts(SplitWhitespace(trimmed))
  }

  lemma ClassifyCases(line: string)
    ensures Contains(Cleaned(line), "is up to date") ==> Classify(line) == ClassifyUpToDate(Cleaned(line))
    ensures !Contains(Cleaned(line), "is up to date") ==> Classify(line) == ClassifyParts(SplitWhitespace(Cleaned(line)))
  {
  }

  /**
   * Both paths of `update_from_line` in terms of the line: an "is up to
   * date" line completes a database exactly when it starts with one of the
   * three names, and any other line changes the display exactly when its
   * first token is a database name and its last token a `u8` percentage.
   */
  lemma ClassifyIff(line: string)
    ensures var t := Cleaned(line); var c := Classify(line);
      Contains(t, "is up to date") ==>
        && (c.Set? <==> StartsWith(t, "core") || StartsWith(t, "extra") || StartsWith(t, "multilib"))
        && (c.Set? ==> c.state == Complete && StartsWith(t, DbName(c.db)))
    ensures var t := Cleaned(line); var c := Classify(line); var parts := SplitWhitespace(t);
      !Contains(t, "is up to date") ==>
        && (c.Set? <==> |parts| >= 2 && DbOfName(parts[0]).Some? && PercentOf(parts[|parts| - 1]).Some?)
        && (c.Set? ==> c == Set(DbOfName(parts[0]).value, StateOfPercent(PercentOf(parts[|parts| - 1]).value)))
  {
    ClassifyCases(line);
  }

  /** `SyncProgress::format_state` */
  function FormatState(state: DbSyncState): string {
    match state
    case Syncing(pct) => NatToString(pct) + "%"
    case Complete => "✓"
  }

  /** `SyncProgress::format` */
  function Render(p: Progress): string {
    "core " + FormatState(p.core) + " | extra " + FormatState(p.extra)
    + " | multilib " + FormatState(p.multilib)
  }

  /** `SyncProgress`: the display state that `update_from_line` changes in place. */
  class SyncProgress {
    var core: DbSyncState
    var extra: DbSyncState
    var multilib: DbSyncState

    function State(): Progress
      reads this
    {
      Progress(core, extra, multilib)
    }

    predicate Valid()
      reads this
    {
      ProgressWellFormed(State())
    }

    /** `SyncProgress::new`: everything at 0%. */
    constructor ()
      ensures State() == Initial && Valid()
    {
      core := Syncing(0);
      extra := Syncing(0);
      multilib := Syncing(0);
    }

    /** `SyncProgress::format` on the current state. */
    function Format(): string
      reads this
    {
      Render(State())
    }

    /** Set one database's state. */
    method SetState(db: Db, state: DbSyncState)
      modifies this
      ensures State() == old(State()).With(db, state)
    {
      match db
      case Core => core := state;
      case Extra => extra := state;
      case Multilib => multilib := state;
    }

    /** `SyncProgress::update_from_line` */
    method UpdateFromLine(line: string)
      requires Valid()
      modifies this
      ensures Valid()
      ensures State() == Apply(old(State()), Classify(line))
    {
      var clean := Util.StripAnsi(line);
      var trimmed := Trim(clean);
      assert trimmed == Cleaned(line);
      ClassifyCases(line);
      if Contains(trimmed, "is up to date") {
        MarkUpToDate(trimmed);
        return;
      }
      var parts := SplitWhitespace(trimmed);
      UpdateFromParts(parts);
    }

    /** The "is up to date" half of `update_from_line`, on the trimmed line. */
    method MarkUpToDate(trimmed: string)
      requires Valid()
      modifies this
      ensures Valid()
      ensures State() == Apply(old(State()), ClassifyUpToDate(trimmed))
    {
      if StartsWith(trimmed, "core") {
        core := Complete;
      } else if StartsWith(trimmed, "extra") {
        extra := Complete;
      } else if StartsWith(trimmed, "multilib") {
        multilib := Complete;
      }
    }

    /** The "<name> ... <n>%" half of `update_from_line`, on the line's tokens. */
    method UpdateFromParts(parts: seq<string>)
      requires Valid()
      modifies this
      ensures Valid()
      ensures State() == Apply(old(State()), ClassifyParts(parts))
    {
      if |parts| >= 2 {
        var dbName := parts[0];
        var last := parts[|parts| - 1];
        if EndsWith(last, "%") {
          var pct := ParseU8(last[..|last| - 1]);
          assert pct == PercentOf(last);
          if pct.Some? {
            var state := if pct.value >= 100 then Complete else Syncing(pct.value);
            match DbOfName(dbName)
            case Some(db) => SetState(db, state);
            case None =>
          }
        }
      }
    }
  }

  // --- properties ---

  /** Applying a line keeps the display well formed and changes at most one database. */
  lemma ApplyChangesOneDb(p: Progress, line: string, other: Db)
    requires ProgressWellFormed(p)
    ensures ProgressWellFormed(Apply(p, Classify(line)))
    ensures var c := Classify(line);
            (c.NoChange? || c.db != other) ==> Apply(p, c).Get(other) == p.Get(other)
  {
    var c := Classify(line);
    if c.Set? {
      assert WellFormed(c.state);
      match c.db
      case Core =>
      case Extra =>
      case Multilib =>
    }
  }

  /** A decimal number followed by '%' is one token, without escapes or an 's'. */
  lemma {:induction false} PercentTokenPlain(n: nat)
    ensures var t := NatToString(n) + "%";
            NoWhitespace(t) && Util.ESC !in t && 's' !in t
  {
    var digits := NatToString(n);
    var t := digits + "%";
    forall i | 0 <= i < |t|
      ensures !IsWhitespace(t[i]) && t[i] != Util.ESC && t[i] != 's'
    {
      if i < |digits| {
        assert t[i] == digits[i];
      }
    }
  }

  /** Cleaning leaves two escape-free tokens joined by a space alone. */
  lemma TwoPlainTokensClean(a: string, b: string)
    requires a != [] && b != [] && NoWhitespace(a) && NoWhitespace(b)
    requires Util.ESC !in a && Util.ESC !in b
    ensures Cleaned(a + " " + b) == a + " " + b
  {
    var line := a + " " + b;
    assert Util.ESC !in line;
    Util.StripIdentity(line);
    assert line[0] == a[0];
    assert line[|line| - 1] == b[|b| - 1];
    TrimNoOp(line);
  }

  /** Two tokens joined by a space split back apart. */
  lemma {:induction false} TwoPlainTokensSplit(a: string, b: string)
    requires a != [] && b != [] && NoWhitespace(a) && NoWhitespace(b)
    ensures var parts := SplitWhitespace(a + " " + b);
            |parts| == 2 && parts[0] == a && parts[1] == b
  {
    assert a + " " + b == a + [' '] + b;
    SplitWhitespaceCons(a, ' ', b);
    SplitWhitespaceSingle(b);
  }

  /** Two plain tokens without an 's', joined by a space, are classified as those tokens. */
  lemma ClassifyTwoTokens(a: string, b: string)
    requires a != [] && b != [] && NoWhitespace(a) && NoWhitespace(b)
    requires Util.ESC !in a && Util.ESC !in b && 's' !in a && 's' !in b
    ensures Classify(a + " " + b) == ClassifyParts([a, b])
  {
    TwoTokensLine(a, b);
    ClassifyClean(a + " " + b, [a, b]);
  }

  lemma TwoTokensLine(a: string, b: string)
    requires a != [] && b != [] && NoWhitespace(a) && NoWhitespace(b)
    requires Util.ESC !in a && Util.ESC !in b && 's' !in a && 's' !in b
    ensures var line := a + " " + b;
            Cleaned(line) == line && !Contains(line, "is up to date") && SplitWhitespace(line) == [a, b]
  {
    TwoPlainTokensClean(a, b);
    TwoPlainTokensSplit(a, b);
    NoUpToDateWithoutS(a, b);
  }

  lemma NoUpToDateWithoutS(a: string, b: string)
    requires 's' !in a && 's' !in b
    ensures !Contains(a + " " + b, "is up to date")
  {
    assert 's' !in a + " " + b;
    MissingCharNotContains(a + " " + b, "is up to date", 's');
  }

  /**
   * Round trip with the display: the line "<name> <state>" for a syncing
   * state, as the display itself renders it, is read back as that state.
   */
  lemma ClassifyReadsFormatState(db: Db, state: DbSyncState)
    requires state.Syncing? && WellFormed(state)
    ensures Classify(DbName(db) + " " + FormatState(state)) == Set(db, state)
  {
    var n := state.pct;
    var line := DbName(db) + " " + FormatState(state);
    ReadAsTwoTokens(db, n);
    var parts := [DbName(db), FormatState(state)];
    assert ClassifyParts(parts) == Set(db, state) by {
      PercentOfFormatState(n);
      DbOfNameOfDbName(db);
    }
  }

  /** The display's own "<name> <n>%" is classified by its two tokens. */
  lemma ReadAsTwoTokens(db: Db, n: nat)
    ensures var line := DbName(db) + " " + FormatState(Syncing(n));
            Classify(line) == ClassifyParts([DbName(db), FormatState(Syncing(n))])
  {
    PercentTokenPlain(n);
    var name := DbName(db);
    var pct := FormatState(Syncing(n));
    assert NoWhitespace(name) && Util.ESC !in name && 's' !in name by {
      match db
      case Core =>
      case Extra =>
      case Multilib =>
    }
    assert NoWhitespace(pct) && Util.ESC !in pct && 's' !in pct;
    ClassifyTwoTokens(name, pct);
  }

  /** A clean line that does not say "is up to date" is classified by its tokens. */
  lemma ClassifyClean(line: string, parts: seq<string>)
    requires Cleaned(line) == line && !Contains(line, "is up to date") && SplitWhitespace(line) == parts
    ensures Classify(line) == ClassifyParts(parts)
  {
  }

  lemma DbOfNameOfDbName(db: Db)
    ensures DbOfName(DbName(db)) == Some(db)
  {
  }

  /** Reading a rendered percentage back gives it, when it fits in a `u8`. */
  lemma PercentOfFormatState(n: nat)
    ensures PercentOf(FormatState(Syncing(n))) == if n < 256 then Some(n) else None
  {
    var last := FormatState(Syncing(n));
    assert last[..|last| - 1] == NatToString(n);
    if n < 256 {
      ParseU8OfNatToString(n);
    } else {
      DecimalValueOfNatToString(n);
      assert NatToString(n)[0] != '+';
    }
  }

  /** A percentage that does not fit in a `u8` leaves the display as it was. */
  lemma OverflowIgnored(db: Db, n: nat)
    requires n >= 256
    ensures Classify(DbName(db) + " " + FormatState(Syncing(n))) == NoChange
  {
    ReadAsTwoTokens(db, n);
    PercentOfFormatState(n);
  }
}
