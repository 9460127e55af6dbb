# pacfetch, modelled in Dafny

pacfetch is a fetch-style system summary for Arch Linux. It counts installed
and upgradable packages. It reports the download and net sizes of the pending
upgrade, orphans, the mirror and its sync age, the time since the last
upgrade, the package cache size and disk usage. It shows these as plain
lines, as JSON, or beside ASCII art with a colour palette underneath. With
`-Su`/`-Syu` it runs the system upgrade itself inside a pseudo-terminal.
Upgrade figures can be computed against a private copy of the sync databases
that is refreshed by a headless `pacman -Sy` when it is older than a TTL.

The model follows the program's own files:

| Dafny file | module | models |
|---|---|---|
| `pacman_stats.dfy` | `PacmanData` | the gathered record `PacmanStats` and its empty value `DefaultStats` |
| `stats.dfy` | `Stats` | `src/stats.rs`: stat ids, keys, labels, value formatting, which data a stat list needs |
| `util.dfy` | `Util` | `src/util.rs`: `strip_ansi` (a loop, against a reference function), `normalize_duration` |
| `color.dfy` | `Colors` | `src/color.rs`: `parse_color`, `parse_hex` (as written and corrected), `parse_named` |
| `ascii.dfy` | `AsciiArt` | `src/ui/ascii.rs`: choosing the art, `normalize_width` |
| `ui.dfy` | `Ui` | `src/ui/mod.rs`: title text, plain listing, the listing beside the art |
| `sync_progress.dfy` | `SyncDisplay` | `SyncProgress` of `src/pacman.rs`: a class whose state each line of `pacman -Sy` output updates |
| `db_cache.dfy` | `DbCacheModel` | `DbCache`: freshness, copying the system databases, `touch`; as functions on a directory map and as a class updated in place |
| `upgrade_stats.dfy` | `UpgradeTotals` | `UpgradeStats`, `calculate_upgrade_stats` and `get_orphaned_packages`: the alpm loops and their sums |
| `headless_sync.dfy` | `HeadlessSync` | the poll-and-read loop of `calculate_upgrade_stats_with_sync` and `run_pacman_sync` |
| `pacman_pty.dfy` | `PacmanPty` | `run_pacman_pty`: line filtering, prompt answering, raw pass-through |
| `pacman_text.dfy` | `PacmanText` | the text readers: last upgrade from `pacman.log`, mirror URL, pacman version, `~` expansion; the `statvfs` answer `FsStat` and the disk figures taken from it |
| `gather.dfy` | `Gather` | `get_stats`: which sources are consulted for which requested stat |
| `upgrade.dfy` | `Upgrade` | `upgrade_system` |
| `cli.dfy` | `Cli` | `src/main.rs`: flag rules, `default_args`, dispatch, JSON output |
| `strings.dfy`, `wrappers.dfy` | `Strings`, `Wrappers` | Rust's `str` operations used above (`trim`, `find`, `lines`, `split_whitespace`, `parse::<u8>`, UTF-8 length), `Option`/`Result` |

The outside world is made of parameters. Answers of the alpm library, a
directory listing with modification times, the bytes a child process writes
(one poll at a time), the lines typed on standard input, and the answer of
`statvfs` are all inputs. The clock is a number. Float formatting is a
function `fixed(value, decimals)`. The argument parser is a function from an
argument vector to the parsed flags. Terminal styling is kept as a list of
styled pieces; the text a line reads as is the concatenation of their texts.

After a `default_args` re-parse, the art settings (`--ascii`, `--color`,
`--image`) are still taken from the original command line only
(`src/main.rs:124-134` runs before `136-169`). An art option written inside
`default_args` is parsed but never applied. `Cli.Start` states this
behaviour as it is.

## Model

| member | source | states |
|---|---|---|
| Stats.ConfigKey | src/stats.rs:62-77 | every stat has a non-empty configuration key |
| Stats.StatOfKey | src/stats.rs:34-60 | a key names a stat other than the title exactly when it is one of the stats' keys |
| Stats.Parse | src/stats.rs:34-60 | `title.<name>` gives a named title, a bare `title.` is the error "title name cannot be empty", `title` the legacy title, a stat key that stat, and anything else the error "unknown stat: " followed by the text |
| Stats.ParseConfigKey | src/stats.rs:34-77 | parsing a stat's own key gives that stat back (round trip) |
| Stats.ConfigKeyInjective | src/stats.rs:62-77 | no two stats share a key |
| Stats.Label | src/stats.rs:79-94 | the label is empty for the title and only for it |
| Stats.FormatValue | src/stats.rs:96-147 | per stat: the title has no value; the counts always have one, reading back as the count; the last update, when gathered, is `normalize_duration` of its seconds, and each size, when gathered, is its `{:.2}` figure followed by ` MiB`, none of them having a value otherwise; the mirror URL is passed through; mirror health always has one of its three texts; the disk needs both byte counts |
| Stats.OrphanValueShape | src/stats.rs:107-121 | a positive orphan count starts its rendering, followed by the size in MiB when it is known |
| Stats.MirrorHealthNeedsUrl | src/stats.rs:169-180 | requesting mirror health also requests the mirror URL |
| Stats.NeedsUpgradeStatsIff | src/stats.rs:151-161 | upgrade data is needed exactly when one of the four upgrade stats is requested |
| Util.StripAnsi | src/util.rs:50-65 | the loop with the `in_escape` flag computes the visible text `Visible(s)` |
| Util.StripHasNoEscape | src/util.rs:50-65 | the output never contains ESC |
| Util.StripIdentity | src/util.rs:50-65 | text without ESC is unchanged |
| Util.VisibleIdempotent | src/util.rs:50-65 | stripping twice is stripping once |
| Util.StripSubsequence | src/util.rs:50-65 | the output is the input with characters deleted |
| Util.StripAppend | src/util.rs:50-65 | stripping a concatenation strips the parts, carrying the escape state across |
| Util.VisibleRemovesRuns | src/util.rs:50-65 | the output equals the reference definition that deletes every run from ESC up to the next `m` |
| Util.EscapeWithoutTerminator | src/util.rs:54-59 | after an ESC with no later `m`, nothing is visible |
| Util.EraseLineSwallowsRest | src/util.rs:54-59 | an erase-line sequence never closes, so the text after it is hidden |
| Util.Decompose | src/util.rs:9-34 | the unit chosen (seconds, minutes, hours, days and hours) and bounds tying each number back to the input |
| Util.NormalizeDuration | src/util.rs:9-34 | no contract of its own: the unit and numbers are those `Decompose` states, and the plural rule is `AmountPlural` |
| Util.AmountPlural | src/util.rs:11-32 | a component ends in its unit with an `s` exactly when its number is not 1 |
| Util.NegativeIsSeconds | src/util.rs:10-12 | a negative duration is shown as signed seconds, plural |
| Colors.HexDigit | src/color.rs:17-19 | a base-16 digit of either case, and its value below 16 |
| Colors.ParseHexU8 | src/color.rs:17-19 | `u8::from_str_radix(_, 16)` accepts only ASCII and returns a value below 256 |
| Colors.HexChar | src/color.rs:17-19 | a digit character reads back as its value |
| Colors.Hex2 | src/color.rs:17-19 | two ASCII hex digits for a byte |
| Colors.ParseHex2 | src/color.rs:17-19 | two hex digits of a byte parse back to that byte |
| Colors.CharIndexAtByte | src/color.rs:14-19 | a byte offset it answers maps to the character index whose prefix has exactly that UTF-8 length |
| Colors.CharIndexAtByteNone | src/color.rs:14-19 | when it answers none, no prefix of the text has that UTF-8 length: the offset falls inside a character or past the end |
| Colors.AsciiByteIndex | src/color.rs:14-19 | in ASCII text every byte offset is the same character index |
| Colors.ParseHexAsWritten | src/color.rs:12-21 | `parse_hex` as written (byte length check, byte-offset slices, early returns) gives either a panic or an RGB colour or none |
| Colors.ParseHex | src/color.rs:12-21 | corrected `parse_hex`: a colour only for `#` followed by six bytes, with components below 256 |
| Colors.ParseHexLength | src/color.rs:13-16 | anything but six bytes after `#` is no colour, in both versions |
| Colors.ParseHexRoundTrip | src/color.rs:12-21 | `#` with three two-digit hex bytes in any case reads back as that colour |
| Colors.AsWrittenOnAscii | src/color.rs:14-19 | on six ASCII characters the as-written version gives the corrected answer |
| Colors.AsWrittenAgrees | src/color.rs:12-21 | wherever the as-written version does not panic, it agrees with the corrected one |
| Colors.AsWrittenPanics | src/color.rs:14-19 | `#a€bc` passes the length check and then panics on the first slice; the corrected version answers no colour |
| Colors.ParseNamed | src/color.rs:23-44 | a name never gives an RGB colour |
| Colors.NameOf | src/color.rs:23-44 | every named colour has a name that parses to it |
| Colors.NamedSynonyms | src/color.rs:26-41 | `red`/`dark_red`, `white`/`bright_white`, `grey`/`gray`, `dark_grey`/`dark_gray` are synonyms; `purple` and `none` are not names |
| Colors.ParseColor | src/color.rs:3-10 | trimmed and lower-cased: `none` is no colour, a `#` value goes to the corrected hex parser `ParseHex`, anything else to the name table; so on `#a€bc`, where `parse_hex` as written panics, the model answers no colour (see Findings) |
| Colors.ParseColorDispatch | src/color.rs:3-10 | a parsed colour is RGB exactly when the text began with `#` |
| AsciiArt.MaxWidth | src/ui/ascii.rs:31-35 | the widest visible width: no line is wider, some line reaches it, 0 for no lines |
| AsciiArt.NormalizeWidth | src/ui/ascii.rs:30-48 | as many lines as before, each the original followed only by spaces, the widest left alone |
| AsciiArt.NormalizedWidths | src/ui/ascii.rs:30-48 | after padding every line is exactly as wide as the widest, when no line ends inside an escape |
| AsciiArt.OpenEscapeHidesPadding | src/ui/ascii.rs:39-43 | a line ending in an unterminated escape stays narrower, since its padding is hidden |
| AsciiArt.InlineArtBeforePath | src/ui/ascii.rs:12-15 | any setting other than `NONE` holding a line break is the art itself, padded, checked before the path test |
| AsciiArt.PathSettingLoadsFile | src/ui/ascii.rs:18-20 | a one-line setting starting with `/`, `~` or `.` gives the file's lines, padded |
| AsciiArt.InlineArtIsUniform | src/ui/ascii.rs:12-15 | inline art is its own lines padded; it keeps their count and every line has the widest visible width |
| AsciiArt.FileArtIsUniform | src/ui/ascii.rs:18-20 | a path setting's file is padded; it keeps the file's line count and every line has the widest visible width |
| AsciiArt.NamedArt | src/ui/ascii.rs:7-9 | `NONE` is no art and `PACMAN_SMALL` the four-line art |
| AsciiArt.UnknownNameIsDefault | src/ui/ascii.rs:23-27 | every other one-line setting that is not a path gives the default art |
| AsciiArt.DefaultNameIsDefault | src/ui/ascii.rs:23-27 | `PACMAN_DEFAULT` gives the default art |
| Ui.ResolveTitleText | src/ui/mod.rs:11-30 | `default` is the pacman version or `pacfetch <version>`; `pacman_ver` is `Pacman` without a version, the whole version line when it has no " - ", and otherwise the trimmed text before its first " - "; `pacfetch_ver`; any other text verbatim |
| Ui.PacmanVerTitle | src/ui/mod.rs:17-22 | the whole version line exactly when it has no " - "; otherwise the trimmed text before the first " - ", which holds no " - " |
| Ui.PlainLines | src/ui/mod.rs:34-50 | the title gives itself and a dash line of its byte length; another stat gives one line `label glyph value` exactly when it has a value |
| Ui.DisplayLines | src/ui/mod.rs:34-51 | no contract of its own: the lines of the plain listing, stated by `DisplayLinesAppend`, `DisplayLinesCount` and `PlainLines`, and printed by `DisplayStats` |
| Ui.DisplayStats | src/ui/mod.rs:32-52 | the loop prints `DisplayLines` of the configured stats |
| Ui.PrintStat | src/ui/mod.rs:35-50 | one stat prints its `PlainLines`: the title and a dash line as long as its UTF-8 byte length, or `label + glyph + value` (the disk label naming the path) when the stat has a value, else nothing |
| Ui.DisplayLinesAppend | src/ui/mod.rs:34-51 | each stat's lines are independent of the others |
| Ui.DisplayLinesCount | src/ui/mod.rs:34-51 | two lines for the title, one per stat with a value, none otherwise |
| Ui.GraphicsLines | src/ui/mod.rs:62-127 | beside the art the title takes two lines and every other stat one |
| Ui.GraphicsTitleText | src/ui/mod.rs:63-81 | beside the art the title is the resolved title text in bold in the text colour, then a dash line as long as its UTF-8 byte length in the line colour; read as text these are the plain listing's two lines |
| Ui.MirrorSyncedText | src/ui/mod.rs:86-88 | the coloured health of a synced mirror reads as its plain value |
| Ui.MirrorUncheckedText | src/ui/mod.rs:89 | so does an unchecked mirror's |
| Ui.NoMirrorText | src/ui/mod.rs:90 | and the no-mirror text |
| Ui.DiskText | src/ui/mod.rs:92-109 | the disk value with its coloured percentage reads as the plain value |
| Ui.ValueText | src/ui/mod.rs:83-115 | the value part reads as the plain value, or `-` when there is none |
| Ui.GraphicsLineText | src/ui/mod.rs:83-126 | a stat line beside the art is the plain listing's line, with `-` where the plain listing omits the stat |
| Ui.GraphicsStatLinesCount | src/ui/mod.rs:62-127 | the stat lines number the stats plus one per title |
| Ui.PaletteRow | src/ui/mod.rs:144-152 | the loop builds `PaletteLine` of its colours |
| Ui.PaletteLine | src/ui/mod.rs:132-152 | one three-blank piece on each colour, in order; it reads as blanks |
| Ui.ArtWidth | src/ui/mod.rs:164-168 | the longest art line in characters: no line longer, some line that long |
| Ui.MergeRows | src/ui/mod.rs:159-181 | without art the stat lines alone; with art as many rows as the longer of the two |
| Ui.MergedRowText | src/ui/mod.rs:171-179 | row `i` reads as a blank, the art line or blanks of the art width, three blanks, the stat line or nothing |
| Ui.BuildStatLines | src/ui/mod.rs:59-127 | the loop builds `GraphicsStatLines` of the configured stats |
| Ui.MergeArt | src/ui/mod.rs:164-181 | the loop builds `MergeRows` |
| Ui.DisplayStatsWithGraphics | src/ui/mod.rs:54-185 | the screen is a blank line, the merged art and stat lines (stats, a blank line, the two palette rows), a blank line |
| SyncDisplay.DbOfName | src/pacman.rs:100-120 | `core`, `extra` and `multilib` and only they name a database, and the name is that database's |
| SyncDisplay.StateOfPercent | src/pacman.rs:100-120 | a percentage under 100 is syncing at that percentage, otherwise complete |
| SyncDisplay.PercentOf | src/pacman.rs:100-120 | a percentage is read only from a token ending in `%`, and fits in a `u8` |
| SyncDisplay.ClassifyParts | src/pacman.rs:100-120 | a line changes a database exactly when it has two or more tokens, the first a database name and the last a `u8` followed by `%`; the new state is that percentage, complete from 100 on |
| SyncDisplay.ClassifyUpToDate | src/pacman.rs:88-98 | an "is up to date" line completes core, else extra, else multilib, by the first prefix it starts with, and changes nothing exactly when it starts with none of them |
| SyncDisplay.Classify | src/pacman.rs:84-121 | every change keeps the display well formed (a syncing state stays under 100); which change each line makes is stated by `ClassifyIff` |
| SyncDisplay.ClassifyIff | src/pacman.rs:84-121 | for any line, both directions of when each path of `update_from_line` changes the display, and to what |
| SyncDisplay.Render | src/pacman.rs:68-82 | no contract of its own: `ClassifyReadsFormatState` states that each database's `<name> <n>%` reads back through `update_from_line` as that database and state |
| SyncDisplay.SyncProgress.constructor | src/pacman.rs:60-66 | all three databases start at 0% |
| SyncDisplay.SyncProgress.UpdateFromLine | src/pacman.rs:84-121 | the new state is the old one with the line's change applied |
| SyncDisplay.SyncProgress.MarkUpToDate | src/pacman.rs:88-98 | the same for the "is up to date" half: the database the line starts with becomes complete |
| SyncDisplay.SyncProgress.UpdateFromParts | src/pacman.rs:100-120 | the same for the token half of the method |
| SyncDisplay.ApplyChangesOneDb | src/pacman.rs:84-121 | a line changes at most one database and keeps the display well formed |
| SyncDisplay.ClassifyReadsFormatState | src/pacman.rs:68-121 | round trip: the display's own `<name> <n>%` is read back as that database and state |
| SyncDisplay.PercentOfFormatState | src/pacman.rs:77-82 | a rendered percentage reads back when it fits in a `u8` |
| SyncDisplay.OverflowIgnored | src/pacman.rs:100-120 | a percentage of 256 or more leaves the display unchanged |
| DbCacheModel.AllFreshIff | src/pacman.rs:187-209 | the loop passes exactly when every listed database passes |
| DbCacheModel.IsFresh | src/pacman.rs:182-210 | no contract of its own: `IsFreshIff`, `FreshBoundary`, `TouchMakesFresh` and `TouchCannotCreate` state when it holds |
| DbCacheModel.IsFreshIff | src/pacman.rs:182-210 | fresh exactly when the TTL is not 0 and core, extra and multilib all exist with a readable, non-future mtime no older than the TTL |
| DbCacheModel.FreshBoundary | src/pacman.rs:200-206 | an age of exactly the TTL is fresh, one second more is not |
| DbCacheModel.CopyEntry | src/pacman.rs:224-239 | a copy adds or changes only that entry, and only for a `.db` file that should be copied and copies |
| DbCacheModel.ShouldCopyCases | src/pacman.rs:229-235 | the decision table: missing source never, missing destination always, otherwise a strictly newer source |
| DbCacheModel.CopiedCarriesSourceTime | src/pacman.rs:125-149 | a copied file carries the source's mtime |
| DbCacheModel.CopyTouchesOnlyDbFiles | src/pacman.rs:213-242 | names without the `.db` extension are left alone |
| DbCacheModel.CopyLeavesUnlisted | src/pacman.rs:213-242 | a file that is not in the source is left alone |
| DbCacheModel.CopyKeepsFiles | src/pacman.rs:213-242 | copying never removes a file |
| DbCacheModel.CopySystemDbs | src/pacman.rs:213-242 | no contract of its own: `ShouldCopyCases`, `CopyEntry`, `CopiedCarriesSourceTime`, `CopyTouchesOnlyDbFiles`, `CopyLeavesUnlisted` and `CopyKeepsFiles` state its effect, and `DbCache.CopySystemDbsInPlace` computes it in place |
| DbCacheModel.TouchFile | src/pacman.rs:245-263 | touching never creates a file |
| DbCacheModel.Touch | src/pacman.rs:245-263 | no contract of its own: `TouchAllEffect`, `TouchMakesFresh` and `TouchCannotCreate` state its effect, and `DbCache.TouchInPlace` computes it in place |
| DbCacheModel.TouchAllEffect | src/pacman.rs:245-263 | every existing listed file gets `now`, others are unchanged, no file is created |
| DbCacheModel.TouchMakesFresh | src/pacman.rs:182-263 | after `touch` the cache is fresh for any positive TTL when the three databases exist |
| DbCacheModel.TouchCannotCreate | src/pacman.rs:182-263 | a missing database keeps the cache stale after `touch` |
| DbCacheModel.DbCache.constructor | src/pacman.rs:158-172 | the cache object holds its path and directory |
| DbCacheModel.DbCache.CopySystemDbsInPlace | src/pacman.rs:213-242 | the loop leaves the directory equal to `CopySystemDbs` of the old one |
| DbCacheModel.DbCache.TouchInPlace | src/pacman.rs:245-263 | the loop leaves the directory equal to `Touch` of the old one |
| UpgradeTotals.NetIsInstalledMinusReplaced | src/pacman.rs:495-516 | the net size is the new installed sizes minus the sizes they replace |
| UpgradeTotals.NetMibZero | src/pacman.rs:524-526 | the net figure snaps to 0 exactly when its magnitude is under 0.01 MiB |
| UpgradeTotals.Totals | src/pacman.rs:495-527 | no contract of its own: `NetIsInstalledMinusReplaced` and `NetMibZero` state its figures, and `CalculateUpgradeStats` returns them on success |
| UpgradeTotals.CalculateUpgradeStats | src/pacman.rs:459-534 | with every alpm step successful, the figures are the sums; any failure gives the failure record; the transaction is released once, last, exactly when it was started |
| UpgradeTotals.Orphans | src/pacman.rs:536-564 | only orphans of the database are collected |
| UpgradeTotals.OrphansComplete | src/pacman.rs:536-564 | every orphan is collected |
| UpgradeTotals.GetOrphanedPackages | src/pacman.rs:536-564 | the loop's count and MiB size are those of the orphans, nothing when the database cannot be opened |
| UpgradeTotals.CountOrphans | src/pacman.rs:548-562 | the loop counts exactly the orphans and sums exactly their installed sizes |
| HeadlessSync.FeedCharsKeepsOk | src/pacman.rs:351-369 | lines fed to the display are never empty and hold no line end |
| HeadlessSync.FeedCharsAppend | src/pacman.rs:351-369 | how the output is cut into reads does not matter |
| HeadlessSync.FeedCharsPlain | src/pacman.rs:351-369 | text without a line end only grows the buffer |
| HeadlessSync.CrLfFeedsOneLine | src/pacman.rs:351-369 | `\r\n` ends one line, fed once |
| HeadlessSync.Run | src/pacman.rs:335-378 | no contract of its own: `RunSucceedsIff`, `ExitFlushesBuffer`, `RunKeepsOk` and `RunIgnoresFed` state its outcome, and `PollLoop` computes it |
| HeadlessSync.RunSucceedsIff | src/pacman.rs:335-378 | the loop succeeds exactly when some poll sees the exit and every earlier poll kept it going |
| HeadlessSync.ExitFlushesBuffer | src/pacman.rs:338-346 | on exit the unterminated line is fed before success |
| HeadlessSync.RunKeepsOk | src/pacman.rs:335-378 | whatever the polls, fed lines stay non-empty and free of line ends |
| HeadlessSync.FeedChunk | src/pacman.rs:351-369 | the loop updates the display object and buffer as `FeedChars` does |
| HeadlessSync.PollLoop | src/pacman.rs:335-378 | the loop's outcome and display are those of `Run` |
| HeadlessSync.FeedCharsIgnoresFed | src/pacman.rs:351-369 | the lines fed earlier do not influence the display or buffer |
| HeadlessSync.RunIgnoresFed | src/pacman.rs:335-378 | the same for the whole loop |
| HeadlessSync.CalculateUpgradeStatsWithSync | src/pacman.rs:266-407 | no cache is failure; a fresh cache is used as is; a stale one is copied, synced with the command for root or fakeroot, touched only after success, and the figures computed only after success |
| HeadlessSync.SyncThenCalculate | src/pacman.rs:304-407 | the stale-cache path ends in the state `SyncOutcome` describes |
| HeadlessSync.RunPacmanSync | src/pacman.rs:846-915 | not root and spawn failure are the errors; once started the result is `Ok` and the spinner shows the final display |
| PacmanPty.MarkerLinesHidden | src/pacman.rs:715-738 | a line whose visible text, after colour codes are stripped, holds any of the six markers anywhere is hidden |
| PacmanPty.BlankLinesHidden | src/pacman.rs:715-738 | a blank line is hidden |
| PacmanPty.FilterUpgradeLine | src/pacman.rs:715-738 | no contract of its own: `MarkerLinesHidden` and `BlankLinesHidden` state which lines it hides |
| PacmanPty.PtyCommand | src/pacman.rs:751 | `pacman ` alone for no arguments; otherwise cutting the rest at its blanks gives back the arguments, in order, when none holds a blank |
| PacmanPty.JoinSplit | src/pacman.rs:751 | round trip: splitting on a character undoes `join` with that character when no piece holds it |
| PacmanPty.PtyRunGrows | src/pacman.rs:767-834 | over the loop, raw mode never switches off and output is only appended |
| PacmanPty.PtyRun | src/pacman.rs:765-834 | no contract of its own: `PtyRunGrows`, `RawRunIsVerbatim`, `PtyCharsAppend`, `CarriageReturnIgnored` and `PromptAnswered` state its behaviour, and `PtyLoop` computes it |
| PacmanPty.RawRunIsVerbatim | src/pacman.rs:777-791 | in raw mode output gains exactly what is read, with no buffering, input or answer |
| PacmanPty.PtyCharsAppend | src/pacman.rs:793-822 | how the output is cut into reads does not matter in line mode |
| PacmanPty.CarriageReturnIgnored | src/pacman.rs:793-822 | carriage returns never reach a printed line or a prompt |
| PacmanPty.PromptAnswered | src/pacman.rs:803-820 | a prompt reads one input line, sends it trimmed and switches to raw mode |
| PacmanPty.RunPacmanPty | src/pacman.rs:748-844 | spawn failure is the only error; otherwise the output is the loop's with the epilogue and the answers sent are the loop's |
| PacmanPty.PtyLoop | src/pacman.rs:765-834 | the read loop from the initial terminal state computes `PtyRun` |
| PacmanPty.PollOnce | src/pacman.rs:768-833 | one pass: the child counts as exited once a liveness check fails or says so; an empty read or WouldBlock/Interrupted stops only after exit, any other read error stops at once, and a continuing pass leaves what `PtyRun` computes from the rest unchanged |
| PacmanPty.FeedLineMode | src/pacman.rs:793-822 | the per-character loop computes `PtyChars` |
| PacmanText.Timestamp | src/pacman.rs:425-429 | the text before the first `]` (the whole line when there is none) with exactly its run of leading `[` removed, so it holds no `]` and does not start with `[` |
| Strings.TrimStartMatchesDropsOnly | src/pacman.rs:428 | `trim_start_matches` removes only copies of the given character |
| PacmanText.LastCompletedUpgrade | src/pacman.rs:422-440 | the scan finds nothing exactly when no upgrade start was followed by its completion, and otherwise the start of the last completed one |
| PacmanText.OrphanCompletionIgnored | src/pacman.rs:422-440 | a completion with no pending start changes nothing |
| PacmanText.LaterStartOverwrites | src/pacman.rs:422-440 | a later start replaces the pending one |
| PacmanText.ReadLog | src/pacman.rs:422-440 | one reading per log line |
| PacmanText.LastUpgradeStart | src/pacman.rs:422-440 | the scan over the log's lines gives the scan's answer for the log |
| PacmanText.ScanLines | src/pacman.rs:422-440 | the loop over the lines keeps the three variables equal to the scan of the lines read so far, and ends with the scan's answer |
| PacmanText.ScanLine | src/pacman.rs:431-439 | one line's effect on the three variables is one step of the scan |
| PacmanText.Rfc3339Offset | src/pacman.rs:443 | only the offset changes, `+hhmm` becoming `+hh:mm` |
| PacmanText.GetSecondsSinceUpdate | src/pacman.rs:415-456 | no answer exactly when no upgrade completed; otherwise the seconds since its start, clamped at 0 |
| PacmanText.FirstServerLine | src/pacman.rs:603-615 | the first line that trims to a `Server = ` line |
| PacmanText.MirrorUrl | src/pacman.rs:603-615 | a URL exactly when there is a server line, and then the URL of the first such line |
| PacmanText.ServerUrl | src/pacman.rs:607-611 | the text after `Server = ` up to its first `/$repo`, or all of it when there is none |
| PacmanText.GetMirrorUrl | src/pacman.rs:603-615 | no contract of its own: nothing when the mirror list cannot be read, else `MirrorUrl` of its lines |
| PacmanText.PacmanVersion | src/pacman.rs:617-631 | a version exactly when some line names pacman and libalpm, and then the version taken from the first such line |
| PacmanText.FirstVersionLine | src/pacman.rs:621-624 | the first line that holds both `Pacman v` and `libalpm v` |
| PacmanText.VersionFrom | src/pacman.rs:624-627 | the text of the line from its first `Pacman v` up to the line's trailing whitespace |
| PacmanText.GetPacmanVersion | src/pacman.rs:617-631 | no contract of its own: nothing when pacman cannot be run, else `PacmanVersion` of its lines |
| PacmanText.ExpandTilde | src/pacman.rs:583-590 | `~` alone or before `/` becomes the home directory when known; any other path is kept |
| PacmanText.ExpandTildeCases | src/pacman.rs:583-590 | `~`, `~/x`, `~user` and an unknown home, case by case |
| PacmanText.DiskUsage | src/pacman.rs:592-601 | used bytes never exceed the total; the total is blocks times fragment size and the free part free blocks times fragment size |
| Gather.GatherUpgrade | src/pacman.rs:976-995 | the upgrade figures come from the synced copy with a fresh sync and from the system databases otherwise, only when requested |
| Gather.GatherDisk | src/pacman.rs:1063-1074 | disk figures only when requested and `statvfs` answers |
| Gather.GatherInstalled | src/pacman.rs:409-413 | one installed package per line of `pacman -Q` |
| Gather.GatherMirror | src/pacman.rs:1009-1037 | the URL when URL or health is requested, and the sync age only for health with a URL |
| Gather.GetStats | src/pacman.rs:964-1097 | each field of the record is gathered exactly when a requested stat needs it, from the source named for it |
| Upgrade.UpgradeSystem | src/pacman.rs:923-962 | root is required; with `-y` a failed sync start ends it; all four upgrade figures are gathered from the system databases; the session runs `pacman -Su`, whose spawn failure is the error; otherwise the session output is the filtered loop's |
| Upgrade.UpgradeCommand | src/pacman.rs:961 | the upgrade session's command line is `pacman -Su` |
| Cli.InvalidFlag | src/main.rs:171-172 | of `-S`, `-y`, `-u` exactly none, `-Sy`, `-Su` and `-Syu` are accepted |
| Cli.IsBareInvocation | src/main.rs:91-93 | no contract of its own: `BareInvocationShowsFreshStats` states it in both directions against `Dispatch` |
| Cli.Dispatch | src/main.rs:171-261 | bad combinations are refused; `-Su`/`-Syu` upgrade first, then `--yay`, then `--paru`; stats otherwise, with the sync, fresh sync, debug and output choices of `main` |
| Cli.BareInvocationShowsFreshStats | src/main.rs:91-93 | a bare invocation is exactly one that shows stats against a fresh sync without `-Sy` |
| Cli.CarriedRoundTrip | src/main.rs:139-156 | the options pushed after `default_args` read back as the original ones |
| Cli.DefaultArgv | src/main.rs:137-156 | the argument vector is `pacfetch`, the split `default_args`, then the carried options |
| Cli.EffectiveFlags | src/main.rs:136-169 | only a bare invocation with `default_args` is re-parsed; a failed re-parse warns and keeps the original flags |
| Cli.Start | src/main.rs:102-185 | parse failure, help and version end early; art settings take the original options; the final flags choose the operation |
| Cli.StatsToJson | src/main.rs:264-276 | the loop builds `JsonObject` |
| Cli.JsonKeys | src/main.rs:264-276 | the object holds exactly the keys of stats with a value, each with its value |
| Cli.JsonHasCounts | src/main.rs:284-295 | `installed` and `upgradable` are always present, as the counts in decimal |
| Cli.JsonOmitsMissingDownloadSize | src/main.rs:297-306 | a size that was not gathered is absent |

## Left out

- Terminal output, the spinner, sleeps, `println!` layout and crossterm escape codes: the display is a list of styled pieces or lines.
- Process spawning, the pseudo-terminal and its raw mode on the real terminal, and `is_root`: their answers are parameters (`isRoot`, spawn errors, polls).
- `check_mirror_sync` (an HTTP request on a thread) is the parameter `mirrorAge`; the thread join is not modelled.
- The alpm library: its answers (package lists, sizes, transaction steps) are inputs.
- Floating point: sizes in MiB and GiB are reals, and formatting with `{:.N}` is the parameter `fixed`; the f64 rounding of the disk percentage is not modelled.
- `get_cache_size` (a directory walk) is an input to `get_stats`.
- `Config::load`, `ensure_config_exists` and `parsed_stats`: the settings are inputs, and the list of stat ids is a parameter.
- `yay_upgrade` and `paru_upgrade`: only the choice to run them is modelled, in `Cli.Dispatch`.
- Command-line parsing by the argument parser: a parameter from arguments to flags; `Cli.ReadCarried` reads back only the five carried options.
- JSON pretty printing: the object is a map from key to value.
- `to_lowercase` is modelled on ASCII letters only.
- Reading an art file (and `SUDO_USER` home lookup) is the parameter `fileLines`.
- The crate version is the parameter `pkgVersion`.
- Lossy UTF-8 decoding of child output is not modelled: the output is text.
- `log_error` and the debug log file.
- Upgrade.UpgradeSystem: does not model the display of the gathered stats before `pacman -Su`; it returns the record instead.
- Gather.GatherInstalled: the `pacman -Q` listing is an input that is always there; the source unwraps the command's result and panics when pacman cannot be run.
- PacmanText.GetSecondsSinceUpdate: requires a timestamp of at least 22 characters that parses, since the source panics otherwise; a missing log (a panic too) is not modelled, and the timestamp is cut by characters where the source cuts by bytes.
- PacmanText.DiskUsage: `u64` products are unbounded, and requires free blocks not above total blocks.
- AsciiArt.GetArt: has no contract of its own; its five cases are stated, for all inputs, by `NamedArt`, `InlineArtBeforePath`, `PathSettingLoadsFile` and `UnknownNameIsDefault`.
- HeadlessSync.Run: the child's output is a finite sequence of polls standing for the unbounded read loop, which keeps polling until the child exits; running out of polls before an exit (`Unfinished`) is not an outcome of the program.
- HeadlessSync.PollLoop: the same finite poll sequence as `Run`.
- HeadlessSync.SyncThenCalculate: on an exhausted poll sequence it takes the failure path (no touch, no figures); the program would still be polling.
- HeadlessSync.RunPacmanSync: returns `Ok` with the display reached when the polls run out; the program would still be polling.
- PacmanPty.PtyRun: the finite poll sequence stands for the loop that runs until pacman exits; an exhausted sequence is not an outcome of the program.
- PacmanPty.RunPacmanPty: when the polls run out it appends the epilogue as if pacman had exited.
- Cli.BareInvocationShowsFreshStats: follows directly from the contract of `Cli.Dispatch`.

## Findings

| source | as written | input that shows it | evidently intended | confidence | as-written member | corrected member |
|---|---|---|---|---|---|---|
| src/color.rs:14-19 | the length check counts bytes, and `hex[0..2]`, `hex[2..4]`, `hex[4..6]` slice by byte offset | a colour setting `#a€bc` (six bytes, the `€` taking three): `&hex[0..2]` ends inside `€` and panics | a value that is not six hex digits is no colour | not executed | Colors.AsWrittenPanics | Colors.AsWrittenAgrees |
