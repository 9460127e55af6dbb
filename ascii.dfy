/**
 * `src/ui/ascii.rs`: which ASCII art sits left of the stats, and the padding
 * that gives every art line the same visible width.
 */
module AsciiArt {
  import opened Strings
  import Util

  /** `PACMAN_DEFAULT` */
  const PacmanDefault: seq<string> := [
    "⠀⠀⠀⠀⠀⠀⠀⠀⠀⠀⠀⢀⣀⣤⣤⣤⣤⣤⣤⣤⣤⣀⣀⠀⠀⠀⠀⠀⠀⠀⠀⠀⠀⠀⠀⠀⠀⠀⠀",
    "⠀⠀⠀⠀⠀⠀⠀⢀⣤⣶⣿⣿⣿⣿⣿⣿⣿⣿⣿⣿⣿⣿⣿⣿⣶⣤⡀⠀⠀⠀⠀⠀⠀⠀⠀⠀⠀⠀⠀",
    "⠀⠀⠀⠀⠀⣠⣾⣿⣿⣿⣿⣿⣿⣿⣿⣿⣿⣿⣿⣿⣿⣿⣿⣿⣿⣿⣿⣷⡄  ⠀⠀⠀⠀⠀⠀⠀⠀",
    "⠀⠀⠀⢠⣾⣿⣿⣿⣿⣿⣿⣿⣿⣿⣿⣿⣿⣿⠟⠛⠻⣿⣿⣿⣿⣿⣿⣿⣿⣆⠀⠀ ⠀⠀⠀⠀⠀⠀",
    "⠀⠀⣰⣿⣿⣿⣿⣿⣿⣿⣿⣿⣿⣿⣿⣿⣿⡇⠀⠀⠀⢸⣿⣿⣿⣿⣿⣿⣿⡿⠃⠀⠀⠀⠀⠀⠀⠀⠀",
    "⠀⣸⣿⣿⣿⣿⣿⣿⣿⣿⣿⣿⣿⣿⣿⣿⣿⣿⣦⣤⣴⣿⣿⣿⣿⣿⡿⠛⠁⠀⠀⠀⠀⠀⠀⠀⠀⠀⠀",
    "⢰⣿⣿⣿⣿⣿⣿⣿⣿⣿⣿⣿⣿⣿⣿⣿⣿⣿⣿⣿⣿⣿⣿⠿⠛⠁⠀⠀⠀⠀⠀⠀⠀⠀⠀⠀⠀⠀⠀",
    "⣾⣿⣿⣿⣿⣿⣿⣿⣿⣿⣿⣿⣿⣿⣿⣿⣿⣿⣿⣿⠿⠋⠁⠀⠀⠀⣴⣿⣿⣿⣆⠀⠀⠀⣴⣿⣿⣿⣆",
    "⢿⣿⣿⣿⣿⣿⣿⣿⣿⣿⣿⣿⣿⣿⣿⣿⣿⣿⣿⣷⣦⣄⠀⠀⠀⠀⢿⣿⣿⣿⠏⠀⠀⠀⢿⣿⣿⣿⠏",
    "⠸⣿⣿⣿⣿⣿⣿⣿⣿⣿⣿⣿⣿⣿⣿⣿⣿⣿⣿⣿⣿⣿⣿⣦⣄⠀⠀⠉⠉⠁⠀ ⠀⠀⠀⠉⠉⠁⠀",
    "⠀⢻⣿⣿⣿⣿⣿⣿⣿⣿⣿⣿⣿⣿⣿⣿⣿⣿⣿⣿⣿⣿⣿⣿⣿⣿⣶⣄⡀⠀⠀⠀⠀⠀⠀⠀⠀⠀⠀",
    "⠀⠀⠻⣿⣿⣿⣿⣿⣿⣿⣿⣿⣿⣿⣿⣿⣿⣿⣿⣿⣿⣿⣿⣿⣿⣿⣿⣿⣿⣷⡄⠀⠀⠀⠀⠀⠀⠀⠀",
    "⠀⠀⠀⠙⢿⣿⣿⣿⣿⣿⣿⣿⣿⣿⣿⣿⣿⣿⣿⣿⣿⣿⣿⣿⣿⣿⣿⣿⡿⠋⠀⠀⠀⠀⠀⠀⠀⠀⠀",
    "⠀⠀⠀⠀⠀⠛⢿⣿⣿⣿⣿⣿⣿⣿⣿⣿⣿⣿⣿⣿⣿⣿⣿⣿⣿⣿⡿⠋⠁⠀⠀⠀⠀⠀⠀⠀⠀⠀⠀",
    "⠀⠀⠀⠀⠀⠀⠀⠉⠻⢿⣿⣿⣿⣿⣿⣿⣿⣿⣿⣿⣿⣿⣿⠿⠛⠉⠀⠀⠀⠀⠀⠀⠀⠀⠀⠀⠀⠀⠀",
    "⠀⠀⠀⠀⠀⠀⠀⠀⠀⠀⠀⠉⠙⠛⠛⠛⠛⠛⠛⠋⠉⠀⠀⠀⠀⠀ ⠀⠀⠀⠀⠀⠀⠀⠀⠀⠀⠀⠀"
  ]

  /** `PACMAN_SMALL`, the art of `pacman -v` */
  const PacmanSmall: seq<string> := [
    "  .--.                ",
    " / _.-' .-.  .-.  .-. ",
    " \\  '-. '-'  '-'  '-' ",
    "  '--'                "
  ]

  /** Columns a line takes on screen: characters left after escape sequences are removed. */
  function VisibleWidth(line: string): nat {
    |Util.Visible(line)|
  }

  /** The widest visible width among `lines`, 0 for none. */
  function MaxWidth(lines: seq<string>): (w: nat)
    ensures forall i :: 0 <= i < |lines| ==> VisibleWidth(lines[i]) <= w
    ensures lines != [] ==> exists i :: 0 <= i < |lines| && VisibleWidth(lines[i]) == w
    ensures lines == [] ==> w == 0
  {
    if lines == [] then 0
    else
      var rest := MaxWidth(lines[..|lines| - 1]);
      var last := VisibleWidth(lines[|lines| - 1]);
      assert forall i :: 0 <= i < |lines| - 1 ==> lines[..|lines| - 1][i] == lines[i];
      if last > rest then last else rest
  }

  /**
   * `normalize_width`: each line padded on the right with spaces up to the
   * widest visible width.
   */
  function NormalizeWidth(lines: seq<string>): (r: seq<string>)
    ensures |r| == |lines|
    ensures forall i :: 0 <= i < |lines| ==>
      |lines[i]| <= |r[i]| && r[i][..|lines[i]|] == lines[i]
      && (forall k :: |lines[i]| <= k < |r[i]| ==> r[i][k] == ' ')
    ensures forall i :: 0 <= i < |lines| && VisibleWidth(lines[i]) == MaxWidth(lines) ==> r[i] == lines[i]
  {
    var w := MaxWidth(lines);
    seq(|lines|, i requires 0 <= i < |lines| =>
      var padding := w - VisibleWidth(lines[i]);
      if padding > 0 then lines[i] + Repeat(' ', padding) else lines[i])
  }

  /**
   * After padding, every line is exactly as wide as the widest, provided no
   * line ends inside an unterminated escape sequence (which would swallow
   * the padding as well).
   */
  lemma NormalizedWidths(lines: seq<string>)
    requires forall i :: 0 <= i < |lines| ==> !Util.EscapeOpenAfter(lines[i], false)
    ensures var r := NormalizeWidth(lines);
            forall i :: 0 <= i < |r| ==> VisibleWidth(r[i]) == MaxWidth(lines)
  {
    var r := NormalizeWidth(lines);
    forall i | 0 <= i < |r| ensures VisibleWidth(r[i]) == MaxWidth(lines) {
      var pad := Repeat(' ', MaxWidth(lines) - VisibleWidth(lines[i]));
      if |pad| > 0 {
        assert r[i] == lines[i] + pad;
        Util.StripAppend(lines[i], pad, false);
        assert Util.ESC !in pad;
        Util.StripIdentity(pad);
      }
    }
  }

  /** An unterminated escape at the end of a line hides its padding. */
  lemma OpenEscapeHidesPadding()
    ensures var lines := ["ab", [Util.ESC] + "["];
            VisibleWidth(NormalizeWidth(lines)[1]) == 0 != MaxWidth(lines)
  {
    var lines := ["ab", [Util.ESC] + "["];
    assert VisibleWidth("ab") == 2 by { Util.StripIdentity("ab"); }
    Util.EscapeWithoutTerminator([], "[");
    assert [] + [Util.ESC] + "[" == lines[1];
    Util.EscapeWithoutTerminator([], "[" + Repeat(' ', 2));
    assert [] + [Util.ESC] + ("[" + Repeat(' ', 2)) == lines[1] + Repeat(' ', 2);
  }

  /**
   * `get_art`. `fileLines` stands for what `load_from_file` yields for a path
   * setting: the file's lines, or the default art when it cannot be read.
   */
  function GetArt(setting: string, fileLines: seq<string>): seq<string>
  {
    if setting == "NONE" then []
    else if '\n' in setting then NormalizeWidth(Lines(setting))
    else if IsPathSetting(setting) then NormalizeWidth(fileLines)
    else if setting == "PACMAN_SMALL" then PacmanSmall
    else PacmanDefault
  }

  /** A setting naming a file: absolute, home-relative or relative. */
  predicate IsPathSetting(setting: string) {
    StartsWith(setting, "/") || StartsWith(setting, "~") || StartsWith(setting, ".")
  }

  /**
   * Inline art is checked before the path test: any setting other than
   * `NONE` that holds a line break is the art itself, even one starting
   * with `/`, `~` or `.`.
   */
  lemma InlineArtBeforePath(setting: string, fileLines: seq<string>)
    requires setting != "NONE" && '\n' in setting
    ensures GetArt(setting, fileLines) == NormalizeWidth(Lines(setting))
  {
  }

  /** A one-line setting naming a path gives the file's lines, padded. */
  lemma PathSettingLoadsFile(setting: string, fileLines: seq<string>)
    requires '\n' !in setting && IsPathSetting(setting)
    ensures GetArt(setting, fileLines) == NormalizeWidth(fileLines)
  {
    assert setting != "NONE" by { assert "NONE"[..1] == ['N']; }
  }

  /**
   * Inline art (a setting holding a line break, as `cowsay` prints) comes out
   * as its own lines, every line padded to one visible width.
   */
  lemma InlineArtIsUniform(setting: string, fileLines: seq<string>)
    requires setting != "NONE" && '\n' in setting
    requires forall i :: 0 <= i < |Lines(setting)| ==> !Util.EscapeOpenAfter(Lines(setting)[i], false)
    ensures var art := GetArt(setting, fileLines);
            && art == NormalizeWidth(Lines(setting))
            && |art| == |Lines(setting)|
            && forall i :: 0 <= i < |art| ==> VisibleWidth(art[i]) == MaxWidth(Lines(setting))
  {
    InlineArtBeforePath(setting, fileLines);
    NormalizedWidths(Lines(setting));
  }

  /** A path setting's file is padded the same way. */
  lemma FileArtIsUniform(setting: string, fileLines: seq<string>)
    requires '\n' !in setting && IsPathSetting(setting)
    requires forall i :: 0 <= i < |fileLines| ==> !Util.EscapeOpenAfter(fileLines[i], false)
    ensures var art := GetArt(setting, fileLines);
            && art == NormalizeWidth(fileLines)
            && |art| == |fileLines|
            && forall i :: 0 <= i < |art| ==> VisibleWidth(art[i]) == MaxWidth(fileLines)
  {
    PathSettingLoadsFile(setting, fileLines);
    NormalizedWidths(fileLines);
  }

  /** `NONE` means no art, and `PACMAN_SMALL` the four-line art. */
  lemma NamedArt(fileLines: seq<string>)
    ensures GetArt("NONE", fileLines) == []
    ensures GetArt("PACMAN_SMALL", fileLines) == PacmanSmall && |PacmanSmall| == 4
  {
    var s := "PACMAN_SMALL";
    assert forall i | 0 <= i < |s| :: s[i] != '\n';
    assert s[..1] == ['P'];
  }

  /**
   * Every other one-line setting that is not a path, `PACMAN_DEFAULT` or an
   * unknown name alike, falls back to the default art.
   */
  lemma UnknownNameIsDefault(setting: string, fileLines: seq<string>)
    requires setting != "NONE" && setting != "PACMAN_SMALL" && '\n' !in setting && !IsPathSetting(setting)
    ensures GetArt(setting, fileLines) == PacmanDefault
  {
  }

  /** `PACMAN_DEFAULT` is such a setting. */
  lemma DefaultNameIsDefault(fileLines: seq<string>)
    ensures GetArt("PACMAN_DEFAULT", fileLines) == PacmanDefault
  {
    var s := "PACMAN_DEFAULT";
    assert forall i | 0 <= i < |s| :: s[i] != '\n';
    assert s[..1] == ['P'];
    UnknownNameIsDefault(s, fileLines);
  }
}
