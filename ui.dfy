/**
 * `src/ui/mod.rs`: the title text, the plain stat listing, and the listing
 * beside the ASCII art with a colour palette underneath.
 *
 * Styled text is kept abstract: a line is a list of pieces, each a text with
 * a foreground, a background and a bold flag, instead of terminal escape
 * codes. What a line reads as is the concatenation of its pieces' texts.
 */
module Ui {
  import opened Wrappers
  import opened Strings
  import opened PacmanData
  import opened Stats
  import opened Colors
  import AsciiArt

  /** `[display.title]`: the title setting and its two colours. */
  datatype TitleConfig = TitleConfig(text: string, textColor: string, lineColor: string)

  /** The parts of the configuration the display reads. */
  datatype DisplayConfig = DisplayConfig(
    stats: seq<StatId>, glyph: string, title: TitleConfig,
    ascii: string, asciiColor: string, diskPath: string)

  // --- `resolve_title_text` ---

  /**
   * `resolve_title_text`. `pkgVersion` is the crate version the binary was
   * built with.
   */
  function ResolveTitleText(title: TitleConfig, version: Option<string>, pkgVersion: string): (r: string)
    ensures title.text == "default" ==> r == (if version.Some? then version.value else "pacfetch " + pkgVersion)
    ensures title.text == "pacman_ver" && version.None? ==> r == "Pacman"
    ensures title.text == "pacman_ver" && version.Some? ==>
      && Contains(version.value, r)
      && !Contains(r, " - ")
      && (r == version.value <==> !Contains(version.value, " - "))
    ensures title.text == "pacman_ver" && version.Some? && Contains(version.value, " - ") ==>
      var i := IndexOf(version.value, " - ").value;
      && OccursAt(version.value, " - ", i)
      && (forall j :: 0 <= j < i ==> !OccursAt(version.value, " - ", j))
      && r == Trim(version.value[..i])
    ensures title.text == "pacfetch_ver" ==> r == "pacfetch " + pkgVersion
    ensures title.text !in {"default", "pacman_ver", "pacfetch_ver"} ==> r == title.text
  {
    match title.text
    case "default" => if version.Some? then version.value else "pacfetch " + pkgVersion
    case "pacman_ver" =>
      (match version
       case Some(full) => PacmanVerTitle(full)
       case None => "Pacman")
    case "pacfetch_ver" => "pacfetch " + pkgVersion
    case _ => title.text
  }

  /**
   * The `pacman_ver` title: the trimmed text before the first `" - "`, or
   * the whole version line when it has none.
   */
  function PacmanVerTitle(full: string): (r: string)
    ensures Contains(full, r)
    ensures !Contains(r, " - ")
    ensures r == full <==> !Contains(full, " - ")
    ensures Contains(full, " - ") ==>
      var i := IndexOf(full, " - ").value;
      && OccursAt(full, " - ", i)
      && (forall j :: 0 <= j < i ==> !OccursAt(full, " - ", j))
      && r == Trim(full[..i])
  {
    if Contains(full, " - ") then
      var before := BeforeFirst(full, " - ");
      var r := Trim(before);
      TrimIsInfix(before);
      assert OccursAt(full, before, 0);
      ContainsTrans(full, before, r);
      assert !Contains(r, " - ") by {
        if Contains(r, " - ") {
          ContainsTrans(before, r, " - ");
        }
      }
      r
    else
      assert OccursAt(full, full, 0);
      full
  }

  // --- `display_stats` ---

  /** The label of a stat line; the disk label names the measured path. */
  function StatLabel(id: StatId, diskPath: string): string {
    if id == Disk then "Disk (" + diskPath + ")" else Label(id)
  }

  /** What `display_stats` prints for one stat. */
  function PlainLines(id: StatId, stats: PacmanStats, title: TitleConfig, glyph: string, diskPath: string,
                      fixed: FixedFormat, pkgVersion: string): (lines: seq<string>)
    ensures id == Title ==>
      var t := ResolveTitleText(title, stats.pacmanVersion, pkgVersion);
      && |lines| == 2 && lines[0] == t
      && |lines[1]| == Utf8Len(t) && forall k :: 0 <= k < |lines[1]| ==> lines[1][k] == '-'
    ensures id != Title ==> (|lines| == 1 <==> FormatValue(id, stats, fixed).Some?)
    ensures id != Title ==> (lines == [] <==> FormatValue(id, stats, fixed).None?)
    ensures id != Title && lines != [] ==>
      lines[0] == StatLabel(id, diskPath) + glyph + FormatValue(id, stats, fixed).value
  {
    if id == Title then
      var t := ResolveTitleText(title, stats.pacmanVersion, pkgVersion);
      [t, Repeat('-', Utf8Len(t))]
    else
      match FormatValue(id, stats, fixed)
      case Some(value) => [StatLabel(id, diskPath) + glyph + value]
      case None => []
  }

  /** All lines `display_stats` prints for `ids`, in order. */
  function DisplayLines(ids: seq<StatId>, stats: PacmanStats, title: TitleConfig, glyph: string, diskPath: string,
                        fixed: FixedFormat, pkgVersion: string): seq<string>
  {
    if ids == [] then []
    else DisplayLines(ids[..|ids| - 1], stats, title, glyph, diskPath, fixed, pkgVersion)
         + PlainLines(ids[|ids| - 1], stats, title, glyph, diskPath, fixed, pkgVersion)
  }

  /** `display_stats`: the printed lines, collected in order. */
  method DisplayStats(stats: PacmanStats, cfg: DisplayConfig, fixed: FixedFormat, pkgVersion: string)
    returns (out: seq<string>)
    ensures out == DisplayLines(cfg.stats, stats, cfg.title, cfg.glyph, cfg.diskPath, fixed, pkgVersion)
  {
    out := [];
    for i := 0 to |cfg.stats|
      invariant out == DisplayLines(cfg.stats[..i], stats, cfg.title, cfg.glyph, cfg.diskPath, fixed, pkgVersion)
    {
      var lines := PrintStat(cfg.stats[i], stats, cfg, fixed, pkgVersion);
      assert cfg.stats[..i + 1][..i] == cfg.stats[..i];
      out := out + lines;
    }
    assert cfg.stats[..|cfg.stats|] == cfg.stats;
  }

  /** One pass of the loop of `display_stats`: the title and its underline, or the stat's line when it has a value. */
  method PrintStat(id: StatId, stats: PacmanStats, cfg: DisplayConfig, fixed: FixedFormat, pkgVersion: string)
    returns (lines: seq<string>)
    ensures lines == PlainLines(id, stats, cfg.title, cfg.glyph, cfg.diskPath, fixed, pkgVersion)
  {
    lines := [];
    if id == Title {
      var titleText := ResolveTitleText(cfg.title, stats.pacmanVersion, pkgVersion);
      var dashes := Repeat('-', Utf8Len(titleText));
      lines := [titleText, dashes];
    } else {
      var value := FormatValue(id, stats, fixed);
      if value.Some? {
        var name := if id == Disk then "Disk (" + cfg.diskPath + ")" else Label(id);
        lines := [name + cfg.glyph + value.value];
      }
    }
  }

  /** Each stat contributes its lines independently of the others. */
  lemma {:induction false} DisplayLinesAppend(a: seq<StatId>, b: seq<StatId>, stats: PacmanStats, title: TitleConfig,
                                              glyph: string, diskPath: string, fixed: FixedFormat, pkgVersion: string)
    ensures DisplayLines(a + b, stats, title, glyph, diskPath, fixed, pkgVersion)
         == DisplayLines(a, stats, title, glyph, diskPath, fixed, pkgVersion)
          + DisplayLines(b, stats, title, glyph, diskPath, fixed, pkgVersion)
    decreases |b|
  {
    if b == [] {
      assert a + b == a;
    } else {
      assert (a + b)[..|a + b| - 1] == a + b[..|b| - 1];
      assert (a + b)[|a + b| - 1] == b[|b| - 1];
      DisplayLinesAppend(a, b[..|b| - 1], stats, title, glyph, diskPath, fixed, pkgVersion);
    }
  }

  /** Lines printed per stat: two for the title, one for a stat with a value, none otherwise. */
  function LineCount(ids: seq<StatId>, stats: PacmanStats, fixed: FixedFormat): nat {
    if ids == [] then 0
    else (if ids[0] == Title then 2 else if FormatValue(ids[0], stats, fixed).Some? then 1 else 0)
         + LineCount(ids[1..], stats, fixed)
  }

  lemma {:induction false} DisplayLinesCount(ids: seq<StatId>, stats: PacmanStats, title: TitleConfig, glyph: string,
                                             diskPath: string, fixed: FixedFormat, pkgVersion: string)
    ensures |DisplayLines(ids, stats, title, glyph, diskPath, fixed, pkgVersion)| == LineCount(ids, stats, fixed)
    decreases |ids|
  {
    if ids != [] {
      assert ids == [ids[0]] + ids[1..];
      DisplayLinesAppend([ids[0]], ids[1..], stats, title, glyph, diskPath, fixed, pkgVersion);
      assert [ids[0]][..0] == [];
      DisplayLinesCount(ids[1..], stats, title, glyph, diskPath, fixed, pkgVersion);
    }
  }

  // --- styled text ---

  /** A run of text with its style. */
  datatype Piece = Piece(text: string, fg: Option<Color>, bg: Option<Color>, bold: bool)

  type Line = seq<Piece>

  function Plain(s: string): Piece {
    Piece(s, None, None, false)
  }

  /** What a styled line reads as. */
  function Text(line: Line): string {
    if line == [] then [] else Text(line[..|line| - 1]) + line[|line| - 1].text
  }

  lemma {:induction false} TextAppend(a: Line, b: Line)
    ensures Text(a + b) == Text(a) + Text(b)
    decreases |b|
  {
    if b == [] {
      assert a + b == a;
    } else {
      assert (a + b)[..|a + b| - 1] == a + b[..|b| - 1];
      TextAppend(a, b[..|b| - 1]);
    }
  }

  lemma TextOfOne(p: Piece)
    ensures Text([p]) == p.text
  {
    assert [p][..0] == [];
    assert Text([p]) == Text([]) + p.text;
  }

  lemma TextOfTwo(p: Piece, q: Piece)
    ensures Text([p, q]) == p.text + q.text
  {
    assert [p, q][..1] == [p];
    TextOfOne(p);
  }

  lemma TextOfThree(p: Piece, q: Piece, u: Piece)
    ensures Text([p, q, u]) == p.text + q.text + u.text
  {
    assert [p, q, u][..2] == [p, q];
    TextOfTwo(p, q);
  }

  // --- `display_stats_with_graphics` ---

  /** The mirror health value: `OK` in green or `Err` in red, then the plain explanation. */
  function MirrorHealthPieces(stats: PacmanStats, fixed: FixedFormat): Line {
    match (stats.mirrorUrl, stats.mirrorSyncAgeHours)
    case (Some(_), Some(age)) => [Piece("OK", Some(Green), None, false), Plain(" (last sync " + fixed(age, 1) + " hours)")]
    case (Some(_), None) => [Piece("Err", Some(Red), None, false), Plain(" - could not check sync status")]
    case (None, _) => [Piece("Err", Some(Red), None, false), Plain(" - no mirror found")]
  }

  /** Percentage of the disk in use; 0 for a zero-sized filesystem. */
  function DiskPercent(used: nat, total: nat): real {
    if total > 0 then (used as real / total as real) * 100.0 else 0.0
  }

  /** The colour of the disk percentage: red above 90, yellow from 70, green below. */
  function DiskPercentColor(pct: real): Color {
    if pct > 90.0 then Red else if pct >= 70.0 then Yellow else Green
  }

  /** The disk value: used and total in GiB, then the coloured percentage. */
  function DiskPieces(used: nat, total: nat, fixed: FixedFormat): Line {
    var pct := DiskPercent(used, total);
    [Plain(fixed(used as real / BYTES_PER_GIB, 2) + " GiB / " + fixed(total as real / BYTES_PER_GIB, 2) + " GiB "),
     Piece("(" + fixed(pct, 0) + "%)", Some(DiskPercentColor(pct)), None, false)]
  }

  /** The value part of a stat line beside the art; `-` stands for a missing value. */
  function ValuePieces(id: StatId, stats: PacmanStats, fixed: FixedFormat): Line {
    if id == MirrorHealth then MirrorHealthPieces(stats, fixed)
    else if id == Disk && stats.diskUsedBytes.Some? && stats.diskTotalBytes.Some? then
      DiskPieces(stats.diskUsedBytes.value, stats.diskTotalBytes.value, fixed)
    else
      [Plain(match FormatValue(id, stats, fixed) case Some(v) => v case None => "-")]
  }

  /** The lines one stat adds beside the art. */
  function GraphicsLines(id: StatId, stats: PacmanStats, title: TitleConfig, glyph: string, diskPath: string,
                         fixed: FixedFormat, pkgVersion: string): (lines: seq<Line>)
    ensures |lines| == if id == Title then 2 else 1
  {
    if id == Title then
      var t := ResolveTitleText(title, stats.pacmanVersion, pkgVersion);
      [[Piece(t, ParseColor(title.textColor), None, true)],
       [Piece(Repeat('-', Utf8Len(t)), ParseColor(title.lineColor), None, false)]]
    else
      [[Piece(StatLabel(id, diskPath), Some(Yellow), None, true), Plain(glyph)] + ValuePieces(id, stats, fixed)]
  }

  /** The coloured mirror health reads as its plain rendering: a synced mirror, */
  lemma MirrorSyncedText(stats: PacmanStats, fixed: FixedFormat)
    requires stats.mirrorUrl.Some? && stats.mirrorSyncAgeHours.Some?
    ensures Text(MirrorHealthPieces(stats, fixed)) == MirrorHealthValue(stats, fixed)
  {
    var x := fixed(stats.mirrorSyncAgeHours.value, 1);
    var p := MirrorHealthPieces(stats, fixed);
    assert p == [Piece("OK", Some(Green), None, false), Plain(" (last sync " + x + " hours)")];
    TextOfTwo(p[0], p[1]);
    SyncedSplits(x);
  }

  lemma SyncedSplits(x: string)
    ensures "OK" + (" (last sync " + x + " hours)") == "OK (last sync " + x + " hours)"
  {
  }

  lemma UncheckedSplits()
    ensures "Err" + " - could not check sync status" == "Err - could not check sync status"
  {
  }

  lemma NoMirrorSplits()
    ensures "Err" + " - no mirror found" == "Err - no mirror found"
  {
  }

  /** a mirror whose sync age is unknown, */
  lemma MirrorUncheckedText(stats: PacmanStats, fixed: FixedFormat)
    requires stats.mirrorUrl.Some? && stats.mirrorSyncAgeHours.None?
    ensures Text(MirrorHealthPieces(stats, fixed)) == MirrorHealthValue(stats, fixed)
  {
    var p := MirrorHealthPieces(stats, fixed);
    assert p == [Piece("Err", Some(Red), None, false), Plain(" - could not check sync status")];
    TextOfTwo(p[0], p[1]);
    UncheckedSplits();
  }

  /** and no mirror at all. */
  lemma NoMirrorText(stats: PacmanStats, fixed: FixedFormat)
    requires stats.mirrorUrl.None?
    ensures Text(MirrorHealthPieces(stats, fixed)) == MirrorHealthValue(stats, fixed)
  {
    var p := MirrorHealthPieces(stats, fixed);
    assert p == [Piece("Err", Some(Red), None, false), Plain(" - no mirror found")];
    TextOfTwo(p[0], p[1]);
    NoMirrorSplits();
  }

  /** The disk value with its coloured percentage reads as its plain rendering. */
  lemma DiskText(stats: PacmanStats, fixed: FixedFormat)
    requires stats.diskUsedBytes.Some? && stats.diskTotalBytes.Some?
    ensures Text(DiskPieces(stats.diskUsedBytes.value, stats.diskTotalBytes.value, fixed)) == FormatValue(Disk, stats, fixed).value
  {
    var used, total := stats.diskUsedBytes.value, stats.diskTotalBytes.value;
    var p := DiskPieces(used, total, fixed);
    TextOfTwo(p[0], p[1]);
    var a, b, c := fixed(used as real / BYTES_PER_GIB, 2), fixed(total as real / BYTES_PER_GIB, 2), fixed(DiskPercent(used, total), 0);
    assert (a + " GiB / " + b + " GiB ") + ("(" + c + "%)") == a + " GiB / " + b + " GiB (" + c + "%)";
  }

  /** The value part reads as the plain rendering, or `-` when there is none. */
  lemma ValueText(id: StatId, stats: PacmanStats, fixed: FixedFormat)
    ensures var v := FormatValue(id, stats, fixed);
            Text(ValuePieces(id, stats, fixed)) == if v.Some? then v.value else "-"
  {
    if id == MirrorHealth {
      if stats.mirrorUrl.None? {
        NoMirrorText(stats, fixed);
      } else if stats.mirrorSyncAgeHours.None? {
        MirrorUncheckedText(stats, fixed);
      } else {
        MirrorSyncedText(stats, fixed);
      }
    } else if id == Disk && stats.diskUsedBytes.Some? && stats.diskTotalBytes.Some? {
      DiskText(stats, fixed);
    } else {
      var v := FormatValue(id, stats, fixed);
      TextOfOne(Plain(if v.Some? then v.value else "-"));
    }
  }

  /**
   * Beside the art every stat but the title takes exactly one line, reading
   * as the plain listing's line would, or with `-` where the plain listing
   * leaves the stat out.
   */
  lemma GraphicsLineText(id: StatId, stats: PacmanStats, title: TitleConfig, glyph: string, diskPath: string,
                         fixed: FixedFormat, pkgVersion: string)
    requires id != Title
    ensures var g := GraphicsLines(id, stats, title, glyph, diskPath, fixed, pkgVersion);
            var v := FormatValue(id, stats, fixed);
            && |g| == 1
            && Text(g[0]) == StatLabel(id, diskPath) + glyph + (if v.Some? then v.value else "-")
  {
    var head := [Piece(StatLabel(id, diskPath), Some(Yellow), None, true), Plain(glyph)];
    var vp := ValuePieces(id, stats, fixed);
    assert GraphicsLines(id, stats, title, glyph, diskPath, fixed, pkgVersion) == [head + vp];
    TextAppend(head, vp);
    TextOfTwo(head[0], head[1]);
    ValueText(id, stats, fixed);
  }

  /**
   * The title beside the art: the resolved title text in bold, in the text
   * colour, then a dash line as long as the title's UTF-8 byte length, in
   * the line colour. Read as text, the two lines are those of the plain
   * listing.
   */
  lemma GraphicsTitleText(id: StatId, stats: PacmanStats, title: TitleConfig, glyph: string, diskPath: string,
                          fixed: FixedFormat, pkgVersion: string)
    requires id == Title
    ensures var g := GraphicsLines(id, stats, title, glyph, diskPath, fixed, pkgVersion);
            var t := ResolveTitleText(title, stats.pacmanVersion, pkgVersion);
            && |g| == 2 && |g[0]| == 1 && |g[1]| == 1
            && Text(g[0]) == t
            && |Text(g[1])| == Utf8Len(t) && (forall k :: 0 <= k < |Text(g[1])| ==> Text(g[1])[k] == '-')
            && g[0][0].bold && g[0][0].fg == ParseColor(title.textColor) && g[0][0].bg.None?
            && !g[1][0].bold && g[1][0].fg == ParseColor(title.lineColor) && g[1][0].bg.None?
            && [Text(g[0]), Text(g[1])] == PlainLines(id, stats, title, glyph, diskPath, fixed, pkgVersion)
  {
    var g := GraphicsLines(id, stats, title, glyph, diskPath, fixed, pkgVersion);
    TextOfOne(g[0][0]);
    TextOfOne(g[1][0]);
    assert g[0] == [g[0][0]] && g[1] == [g[1][0]];
  }

  /** All stat lines beside the art, in order. */
  function GraphicsStatLines(ids: seq<StatId>, stats: PacmanStats, title: TitleConfig, glyph: string, diskPath: string,
                             fixed: FixedFormat, pkgVersion: string): seq<Line>
  {
    if ids == [] then []
    else GraphicsStatLines(ids[..|ids| - 1], stats, title, glyph, diskPath, fixed, pkgVersion)
         + GraphicsLines(ids[|ids| - 1], stats, title, glyph, diskPath, fixed, pkgVersion)
  }

  /** Number of stat lines beside the art: two for a title, one for any other stat. */
  lemma {:induction false} GraphicsStatLinesCount(ids: seq<StatId>, stats: PacmanStats, title: TitleConfig, glyph: string,
                                                  diskPath: string, fixed: FixedFormat, pkgVersion: string)
    ensures |GraphicsStatLines(ids, stats, title, glyph, diskPath, fixed, pkgVersion)| == |ids| + multiset(ids)[Title]
    decreases |ids|
  {
    if ids != [] {
      var init, last := ids[..|ids| - 1], ids[|ids| - 1];
      GraphicsStatLinesCount(init, stats, title, glyph, diskPath, fixed, pkgVersion);
      SplitLast(ids);
    }
  }

  lemma SplitLast<T>(s: seq<T>)
    requires s != []
    ensures s == s[..|s| - 1] + [s[|s| - 1]]
    ensures multiset(s) == multiset(s[..|s| - 1]) + multiset{s[|s| - 1]}
  {
    assert s == s[..|s| - 1] + [s[|s| - 1]];
  }

  /** The first palette row. */
  const DarkPalette: seq<Color> := [Black, DarkRed, DarkGreen, DarkYellow, DarkBlue, DarkMagenta, DarkCyan, Grey]

  /** The second palette row. */
  const BrightPalette: seq<Color> := [DarkGrey, Red, Green, Yellow, Blue, Magenta, Cyan, White]

  /** A palette row: three blanks on each colour, built in a loop as the source does. */
  method PaletteRow(colors: seq<Color>) returns (row: Line)
    ensures row == PaletteLine(colors)
  {
    row := [];
    for i := 0 to |colors|
      invariant row == PaletteLine(colors[..i])
    {
      row := row + [Piece("   ", None, Some(colors[i]), false)];
      assert colors[..i + 1][..i] == colors[..i];
    }
    assert colors[..|colors|] == colors;
  }

  /** Width reserved for a missing art row: the longest art line in characters (escapes included). */
  function ArtWidth(art: seq<string>): (w: nat)
    ensures forall i :: 0 <= i < |art| ==> |art[i]| <= w
    ensures art != [] ==> exists i :: 0 <= i < |art| && |art[i]| == w
  {
    if art == [] then 0
    else
      var rest := ArtWidth(art[..|art| - 1]);
      assert forall i :: 0 <= i < |art| - 1 ==> art[..|art| - 1][i] == art[i];
      if |art[|art| - 1]| > rest then |art[|art| - 1]| else rest
  }

  function Max(a: nat, b: nat): nat {
    if a >= b then a else b
  }

  /** One printed row: a blank, the art cell, three blanks, the stat line. */
  function Row(artCell: string, artColor: Option<Color>, stat: Line): Line {
    [Plain(" "), Piece(artCell, artColor, None, false), Plain("   ")] + stat
  }

  /** The rows printed for the art and the stat lines. */
  function MergeRows(art: seq<string>, artColor: Option<Color>, statLines: seq<Line>): (rows: seq<Line>)
    ensures art == [] ==> rows == statLines
    ensures art != [] ==> |rows| == Max(|art|, |statLines|)
  {
    if art == [] then statLines
    else
      seq(Max(|art|, |statLines|), i requires 0 <= i < Max(|art|, |statLines|) => MergedRow(art, artColor, statLines, i))
  }

  /** Row `i`: the art line or blanks as wide as the art, beside the stat line or nothing. */
  function MergedRow(art: seq<string>, artColor: Option<Color>, statLines: seq<Line>, i: nat): Line
    requires art != []
  {
    Row(if i < |art| then art[i] else Repeat(' ', ArtWidth(art)), artColor,
        if i < |statLines| then statLines[i] else [])
  }

  /**
   * Each merged row reads as a blank, the art line (or blanks as wide as the
   * widest art line), three blanks and the stat line (or nothing).
   */
  lemma MergedRowText(art: seq<string>, artColor: Option<Color>, statLines: seq<Line>, i: nat)
    requires art != [] && i < Max(|art|, |statLines|)
    ensures Text(MergeRows(art, artColor, statLines)[i])
         == " " + (if i < |art| then art[i] else Repeat(' ', ArtWidth(art))) + "   "
          + (if i < |statLines| then Text(statLines[i]) else "")
  {
    var cell := if i < |art| then art[i] else Repeat(' ', ArtWidth(art));
    var stat := if i < |statLines| then statLines[i] else [];
    assert MergeRows(art, artColor, statLines)[i] == MergedRow(art, artColor, statLines, i);
    assert Text(stat) == if i < |statLines| then Text(statLines[i]) else "";
    RowText(cell, artColor, stat);
  }

  lemma RowText(cell: string, artColor: Option<Color>, stat: Line)
    ensures Text(Row(cell, artColor, stat)) == " " + cell + "   " + Text(stat)
  {
    var head := [Plain(" "), Piece(cell, artColor, None, false), Plain("   ")];
    TextAppend(head, stat);
    TextOfThree(head[0], head[1], head[2]);
  }

  /** The stat lines beside the art, built in a loop over the configured stats. */
  method BuildStatLines(ids: seq<StatId>, stats: PacmanStats, title: TitleConfig, glyph: string, diskPath: string,
                        fixed: FixedFormat, pkgVersion: string)
    returns (lines: seq<Line>)
    ensures lines == GraphicsStatLines(ids, stats, title, glyph, diskPath, fixed, pkgVersion)
  {
    lines := [];
    for i := 0 to |ids|
      invariant lines == GraphicsStatLines(ids[..i], stats, title, glyph, diskPath, fixed, pkgVersion)
    {
      lines := lines + GraphicsLines(ids[i], stats, title, glyph, diskPath, fixed, pkgVersion);
      TakeSnoc(ids, i);
    }
    assert ids[..|ids|] == ids;
  }

  lemma TakeSnoc<T>(s: seq<T>, i: nat)
    requires i < |s|
    ensures s[..i + 1][..i] == s[..i] && s[..i + 1][i] == s[i]
  {
  }

  /** The art and the stat lines side by side, row by row. */
  method MergeArt(art: seq<string>, artColor: Option<Color>, statLines: seq<Line>) returns (rows: seq<Line>)
    requires art != []
    ensures rows == MergeRows(art, artColor, statLines)
  {
    var padding := Repeat(' ', ArtWidth(art));
    var maxLines := Max(|art|, |statLines|);
    rows := [];
    for i := 0 to maxLines
      invariant |rows| == i
      invariant forall k :: 0 <= k < i ==> rows[k] == MergedRow(art, artColor, statLines, k)
    {
      var artLine := if i < |art| then art[i] else padding;
      var statLine := if i < |statLines| then statLines[i] else [];
      rows := rows + [Row(artLine, artColor, statLine)];
    }
    assert forall k :: 0 <= k < maxLines ==> MergeRows(art, artColor, statLines)[k] == MergedRow(art, artColor, statLines, k);
  }

  /**
   * `display_stats_with_graphics`: the screen it prints, a blank line above
   * and below. `fileLines` stands for the art file's lines.
   */
  method DisplayStatsWithGraphics(stats: PacmanStats, cfg: DisplayConfig, fileLines: seq<string>,
                                  fixed: FixedFormat, pkgVersion: string)
    returns (screen: seq<Line>)
    ensures screen == [[]] + MergeRows(
      AsciiArt.GetArt(cfg.ascii, fileLines), ParseColor(cfg.asciiColor),
      GraphicsStatLines(cfg.stats, stats, cfg.title, cfg.glyph, cfg.diskPath, fixed, pkgVersion)
        + [[], PaletteLine(DarkPalette), PaletteLine(BrightPalette)]) + [[]]
  {
    var art := AsciiArt.GetArt(cfg.ascii, fileLines);
    var artColor := ParseColor(cfg.asciiColor);

    var statsLines := BuildStatLines(cfg.stats, stats, cfg.title, cfg.glyph, cfg.diskPath, fixed, pkgVersion);
    var row1 := PaletteRow(DarkPalette);
    var row2 := PaletteRow(BrightPalette);
    statsLines := statsLines + [[], row1, row2];

    var body := statsLines;
    if art != [] {
      body := MergeArt(art, artColor, statsLines);
    }
    screen := [[]] + body + [[]];
  }

  /** The palette row as a value (what `PaletteRow` builds). */
  function PaletteLine(colors: seq<Color>): (row: Line)
    ensures |row| == |colors|
    ensures forall i :: 0 <= i < |colors| ==> row[i] == Piece("   ", None, Some(colors[i]), false)
    ensures Text(row) == Repeat(' ', 3 * |colors|)
  {
    if colors == [] then []
    else
      var init := PaletteLine(colors[..|colors| - 1]);
      TextAppend(init, [Piece("   ", None, Some(colors[|colors| - 1]), false)]);
      assert [Piece("   ", None, Some(colors[|colors| - 1]), false)][..0] == [];
      init + [Piece("   ", None, Some(colors[|colors| - 1]), false)]
  }
}
