/**
 * `run_pacman_pty` of `src/pacman.rs`: runs pacman on a pseudo-terminal,
 * echoes its output line by line (optionally hiding the lines pacfetch
 * already showed), answers its prompts from standard input, and after the
 * first answer passes everything through untouched.
 *
 * The terminal is replaced by the answers the loop gets (`HeadlessSync.Poll`:
 * after the child has exited its liveness is no longer asked, but reads go
 * on), standard input by the lines it would return (`None` for a read error;
 * once exhausted it is at end of file, where `read_line` returns an empty
 * line), and standard output by the text written.
 */
module PacmanPty {
  import opened Wrappers
  import opened Strings
  import Util
  import opened HeadlessSync

  // --- which lines are shown ---

  /** Texts of lines that the upgrade output hides: pacfetch showed these figures itself. */
  const HiddenMarkers: seq<string> := [
    "Total Download Size:", "Total Installed Size:", "Net Upgrade Size:",
    "resolving dependencies", "looking for conflicting packages", ":: Starting full system upgrade..."]

  /** `filter_upgrade_line`: blank lines and lines holding a marker are hidden. */
  predicate FilterUpgradeLine(line: string) {
    var trimmed := Trim(Util.Visible(line));
    trimmed != [] && forall k :: 0 <= k < |HiddenMarkers| ==> !Contains(trimmed, HiddenMarkers[k])
  }

  /** `should_print` */
  predicate ShouldPrint(line: string, filter: bool) {
    !filter || FilterUpgradeLine(line)
  }

  /**
   * A line whose visible text holds one of the markers is hidden, wherever
   * the marker stands in it and whatever colour codes surround it.
   */
  lemma MarkerLinesHidden(line: string, k: nat)
    requires k < |HiddenMarkers| && Contains(Util.Visible(line), HiddenMarkers[k])
    ensures !FilterUpgradeLine(line)
  {
    var m := HiddenMarkers[k];
    assert m != [] && !IsWhitespace(m[0]) && !IsWhitespace(m[|m| - 1]) by {
      if k == 0 { assert m == "Total Download Size:"; }
      else if k == 1 { assert m == "Total Installed Size:"; }
      else if k == 2 { assert m == "Net Upgrade Size:"; }
      else if k == 3 { assert m == "resolving dependencies"; }
      else if k == 4 { assert m == "looking for conflicting packages"; }
      else { assert m == ":: Starting full system upgrade..."; }
    }
    TrimKeepsContained(Util.Visible(line), m);
  }

  /** A line of whitespace only, or with no visible text at all, is hidden. */
  lemma BlankLinesHidden(line: string)
    requires forall i :: 0 <= i < |line| ==> IsWhitespace(line[i])
    ensures !FilterUpgradeLine(line)
  {
    Util.StripIdentity(line);
    BlankTrims(line);
  }

  lemma {:induction false} BlankTrims(s: string)
    requires forall i :: 0 <= i < |s| ==> IsWhitespace(s[i])
    ensures TrimStart(s) == []
    decreases |s|
  {
    if s != [] {
      BlankTrims(s[1..]);
    }
  }

  // --- the terminal state ---

  /** What the loop has: output written, the unterminated line, raw mode, unread input, answers sent. */
  datatype Tty = Tty(out: string, buffer: string, raw: bool, stdin: seq<Option<string>>, sent: seq<string>)

  /** `buffer` ends like a pacman question. */
  predicate IsPrompt(buffer: string) {
    EndsWith(buffer, "[Y/n] ") || (Contains(buffer, "::") && EndsWith(buffer, "]: "))
  }

  /** The text written for a prompt: a blank line before the installation question. */
  function PromptText(buffer: string, filter: bool): string {
    if ShouldPrint(buffer, filter) then
      (if Contains(buffer, "Proceed with installation") then "\n\n" else "") + buffer
    else ""
  }

  /** The next `read_line`: at end of input, an empty line. */
  function NextInput(stdin: seq<Option<string>>): Option<string> {
    if stdin == [] then Some("") else stdin[0]
  }

  function RestInput(stdin: seq<Option<string>>): seq<Option<string>> {
    if stdin == [] then [] else stdin[1..]
  }

  /** Show the prompt, read a line and send it trimmed; raw mode starts once a line was read. */
  function Answer(t: Tty, filter: bool): Tty {
    var input := NextInput(t.stdin);
    Tty(t.out + PromptText(t.buffer, filter), [], t.raw || input.Some?, RestInput(t.stdin),
        if input.Some? then t.sent + [Trim(input.value)] else t.sent)
  }

  /** One character of a chunk in line mode. */
  function PtyChar(t: Tty, c: char, filter: bool): Tty {
    if c == '\n' then
      t.(out := t.out + (if ShouldPrint(t.buffer, filter) then t.buffer + "\n" else ""), buffer := [])
    else if c == '\r' then t
    else
      var u := t.(buffer := t.buffer + [c]);
      if IsPrompt(u.buffer) then Answer(u, filter) else u
  }

  function PtyChars(t: Tty, text: string, filter: bool): Tty
    decreases |text|
  {
    if text == [] then t else PtyChars(PtyChar(t, text[0], filter), text[1..], filter)
  }

  /** A non-empty chunk: written verbatim in raw mode (checked once, before the chunk), else character by character. */
  function PtyChunk(t: Tty, text: string, filter: bool): Tty {
    if t.raw then t.(out := t.out + text) else PtyChars(t, text, filter)
  }

  /**
   * The loop: `exited` says the child was seen gone. An empty read or a
   * WouldBlock/Interrupted error ends the loop once the child has exited;
   * any other read error ends it at once.
   */
  function PtyRun(t: Tty, exited: bool, polls: seq<Poll>, filter: bool): Tty
    decreases |polls|
  {
    if polls == [] then t
    else
      var ex := exited || polls[0].alive != Running;
      match polls[0].read
      case Chunk(text) =>
        if text == [] then (if ex then t else PtyRun(t, ex, polls[1..], filter))
        else PtyRun(PtyChunk(t, text, filter), ex, polls[1..], filter)
      case WouldBlock => if ex then t else PtyRun(t, ex, polls[1..], filter)
      case Interrupted => if ex then t else PtyRun(t, ex, polls[1..], filter)
      case ReadFailed => t
  }

  const Reset: string := "\U{1b}[0m"

  /** After the loop: the unterminated line if it is to be shown, then a colour reset. */
  function Epilogue(t: Tty, filter: bool): string {
    t.out + (if t.buffer != [] && ShouldPrint(t.buffer, filter) then t.buffer + "\n" else "") + Reset
  }

  function Join(parts: seq<string>, sep: string): string {
    if parts == [] then "" else if |parts| == 1 then parts[0] else parts[0] + sep + Join(parts[1..], sep)
  }

  /**
   * The command line of `run_pacman_pty`: `pacman`, a blank, then the
   * arguments joined by single blanks. Cut at its blanks, the text after
   * `pacman ` gives back the arguments, so each one reaches the spawned
   * command whole and in order.
   */
  function PtyCommand(args: seq<string>): (cmd: string)
    ensures StartsWith(cmd, "pacman ")
    ensures args == [] ==> cmd == "pacman "
    ensures args != [] && (forall k :: 0 <= k < |args| ==> ' ' !in args[k]) ==>
      SplitOn(cmd[7..], ' ') == args
  {
    var cmd := "pacman " + Join(args, " ");
    assert cmd[..7] == "pacman ";
    assert cmd[7..] == Join(args, [' ']);
    if args != [] && (forall k :: 0 <= k < |args| ==> ' ' !in args[k]) then
      JoinSplit(args, ' ');
      cmd
    else cmd
  }

  /** `s.split(c)`: the pieces between the occurrences of `c`; there is always at least one. */
  function SplitOn(s: string, c: char): (r: seq<string>)
    ensures |r| >= 1
  {
    if s == [] then [""]
    else if s[0] == c then [""] + SplitOn(s[1..], c)
    else
      var rest := SplitOn(s[1..], c);
      [[s[0]] + rest[0]] + rest[1..]
  }

  /** A piece without `c` in front of a text joins the text's first piece. */
  lemma {:induction false} SplitOnPiece(p: string, t: string, c: char)
    requires c !in p
    ensures SplitOn(p + t, c) == [p + SplitOn(t, c)[0]] + SplitOn(t, c)[1..]
  {
    if p == [] {
      var r := SplitOn(t, c);
      assert p + t == t && p + r[0] == r[0];
      assert [r[0]] + r[1..] == r;
    } else {
      assert (p + t)[1..] == p[1..] + t;
      SplitOnPiece(p[1..], t, c);
      assert [p[0]] + (p[1..] + SplitOn(t, c)[0]) == p + SplitOn(t, c)[0];
    }
  }

  /** Splitting on `c` undoes joining with `c`, when no piece holds `c`. */
  lemma {:induction false} JoinSplit(parts: seq<string>, c: char)
    requires parts != []
    requires forall k :: 0 <= k < |parts| ==> c !in parts[k]
    ensures SplitOn(Join(parts, [c]), c) == parts
  {
    if |parts| == 1 {
      SplitOnPiece(parts[0], "", c);
      assert parts[0] + "" == parts[0];
    } else {
      var rest := Join(parts[1..], [c]);
      var t := [c] + rest;
      assert Join(parts, [c]) == parts[0] + t;
      assert t[1..] == rest;
      JoinSplit(parts[1..], c);
      assert SplitOn(t, c) == [""] + parts[1..];
      SplitOnPiece(parts[0], t, c);
      assert parts[0] + "" == parts[0];
      assert [parts[0]] + parts[1..] == parts;
    }
  }

  // --- properties of the loop ---

  predicate IsPrefix(a: string, b: string) {
    |a| <= |b| && b[..|a|] == a
  }

  /** Raw mode, once on, stays on; output is only ever appended to. */
  predicate Grows(t: Tty, u: Tty) {
    (t.raw ==> u.raw) && IsPrefix(t.out, u.out)
  }

  lemma GrowsTrans(t: Tty, u: Tty, v: Tty)
    requires Grows(t, u) && Grows(u, v)
    ensures Grows(t, v)
  {
    assert v.out[..|u.out|][..|t.out|] == v.out[..|t.out|];
  }

  lemma GrowsAppend(t: Tty, u: Tty, extra: string)
    requires u.out == t.out + extra && (t.raw ==> u.raw)
    ensures Grows(t, u)
  {
    assert u.out[..|t.out|] == t.out;
  }

  lemma PtyCharGrows(t: Tty, c: char, filter: bool)
    ensures Grows(t, PtyChar(t, c, filter))
  {
    var r := PtyChar(t, c, filter);
    if c == '\n' {
      GrowsAppend(t, r, if ShouldPrint(t.buffer, filter) then t.buffer + "\n" else "");
    } else if c != '\r' {
      var u := t.(buffer := t.buffer + [c]);
      if IsPrompt(u.buffer) {
        GrowsAppend(t, r, PromptText(u.buffer, filter));
      } else {
        GrowsAppend(t, r, "");
      }
    } else {
      GrowsAppend(t, r, "");
    }
  }

  lemma {:induction false} PtyCharsGrows(t: Tty, text: string, filter: bool)
    ensures Grows(t, PtyChars(t, text, filter))
    decreases |text|
  {
    if text == [] {
      GrowsAppend(t, t, "");
    } else {
      var u := PtyChar(t, text[0], filter);
      PtyCharGrows(t, text[0], filter);
      PtyCharsGrows(u, text[1..], filter);
      GrowsTrans(t, u, PtyChars(u, text[1..], filter));
    }
  }

  /** Over the whole loop, raw mode never switches off and nothing written is taken back. */
  lemma {:induction false} PtyRunGrows(t: Tty, exited: bool, polls: seq<Poll>, filter: bool)
    ensures Grows(t, PtyRun(t, exited, polls, filter))
    decreases |polls|
  {
    var r := PtyRun(t, exited, polls, filter);
    if r == t {
      GrowsAppend(t, t, "");
    } else {
      var ex := exited || polls[0].alive != Running;
      match polls[0].read
      case Chunk(text) =>
        if text == [] {
          PtyRunGrows(t, ex, polls[1..], filter);
        } else {
          var u := PtyChunk(t, text, filter);
          if t.raw {
            GrowsAppend(t, u, text);
          } else {
            PtyCharsGrows(t, text, filter);
          }
          PtyRunGrows(u, ex, polls[1..], filter);
          GrowsTrans(t, u, r);
        }
      case WouldBlock => PtyRunGrows(t, ex, polls[1..], filter);
      case Interrupted => PtyRunGrows(t, ex, polls[1..], filter);
      case ReadFailed =>
    }
  }

  /** The text the loop reads before it stops (independent reference for raw mode). */
  function ReadText(exited: bool, polls: seq<Poll>): string
    decreases |polls|
  {
    if polls == [] then []
    else
      var ex := exited || polls[0].alive != Running;
      match polls[0].read
      case Chunk(text) =>
        if text == [] && ex then [] else text + ReadText(ex, polls[1..])
      case WouldBlock => if ex then [] else ReadText(ex, polls[1..])
      case Interrupted => if ex then [] else ReadText(ex, polls[1..])
      case ReadFailed => []
  }

  /**
   * In raw mode the rest of the session is passed through verbatim: the
   * output gains exactly what is read, and no line is buffered, no input
   * read and no answer sent.
   */
  lemma {:induction false} RawRunIsVerbatim(t: Tty, exited: bool, polls: seq<Poll>, filter: bool)
    requires t.raw
    ensures PtyRun(t, exited, polls, filter) == t.(out := t.out + ReadText(exited, polls))
    decreases |polls|
  {
    if polls == [] {
      assert t.out + [] == t.out;
    } else {
      var ex := exited || polls[0].alive != Running;
      match polls[0].read
      case Chunk(text) =>
        if text == [] && ex {
          assert t.out + [] == t.out;
        } else {
          var u := t.(out := t.out + text);
          RawRunIsVerbatim(u, ex, polls[1..], filter);
          assert t.out + text + ReadText(ex, polls[1..]) == t.out + (text + ReadText(ex, polls[1..]));
          if text == [] {
            assert u == t;
          }
        }
      case WouldBlock =>
        if ex {
          assert t.out + [] == t.out;
        } else {
          RawRunIsVerbatim(t, ex, polls[1..], filter);
        }
      case Interrupted =>
        if ex {
          assert t.out + [] == t.out;
        } else {
          RawRunIsVerbatim(t, ex, polls[1..], filter);
        }
      case ReadFailed =>
        assert t.out + [] == t.out;
    }
  }

  lemma {:induction false} PtyCharsAppend(t: Tty, a: string, b: string, filter: bool)
    ensures PtyChars(t, a + b, filter) == PtyChars(PtyChars(t, a, filter), b, filter)
    decreases |a|
  {
    if a == [] {
      assert a + b == b;
    } else {
      assert (a + b)[0] == a[0];
      assert (a + b)[1..] == a[1..] + b;
      PtyCharsAppend(PtyChar(t, a[0], filter), a[1..], b, filter);
    }
  }

  /** Carriage returns are dropped in line mode: they never reach a printed line or a prompt. */
  lemma CarriageReturnIgnored(t: Tty, a: string, b: string, filter: bool)
    ensures PtyChars(t, a + "\r" + b, filter) == PtyChars(t, a + b, filter)
  {
    PtyCharsAppend(t, a + "\r", b, filter);
    PtyCharsAppend(t, a, "\r", filter);
    PtyCharsAppend(t, a, b, filter);
    var u := PtyChars(t, a, filter);
    assert PtyChars(u, "\r", filter) == PtyChars(PtyChar(u, '\r', filter), "\r"[1..], filter);
  }

  /** A prompt consumes one line of input and sends it trimmed, then switches to raw mode. */
  lemma PromptAnswered(t: Tty, c: char, filter: bool)
    requires c != '\n' && c != '\r' && IsPrompt(t.buffer + [c])
    requires t.stdin != [] && t.stdin[0].Some?
    ensures var r := PtyChar(t, c, filter);
            && r.raw && r.buffer == [] && r.stdin == t.stdin[1..]
            && r.sent == t.sent + [Trim(t.stdin[0].value)]
            && IsPrefix(t.out, r.out)
  {
    PtyCharGrows(t, c, filter);
  }

  // --- the function itself ---

  const Initial: Tty := Tty([], [], false, [], [])

  /**
   * `run_pacman_pty`: spawn failure is the only error. Returns the command,
   * what was written to standard output and the answers sent to pacman.
   */
  method RunPacmanPty(args: seq<string>, filter: bool, spawnError: Option<string>,
                      polls: seq<Poll>, stdin: seq<Option<string>>)
    returns (r: Result<(), string>, command: string, output: string, sent: seq<string>)
    ensures command == PtyCommand(args)
    ensures spawnError.Some? ==> r == Err("Failed to spawn pacman: " + spawnError.value) && output == [] && sent == []
    ensures spawnError.None? ==>
      var f := PtyRun(Initial.(stdin := stdin), false, polls, filter);
      r == Ok(()) && output == Epilogue(f, filter) && sent == f.sent
  {
    command := "pacman " + Join(args, " ");
    if spawnError.Some? {
      return Err("Failed to spawn pacman: " + spawnError.value), command, [], [];
    }
    var t := PtyLoop(Initial.(stdin := stdin), polls, filter);
    var last := "";
    if t.buffer != [] && ShouldPrint(t.buffer, filter) {
      last := t.buffer + "\n";
    }
    output := t.out + last + Reset;
    r := Ok(());
    sent := t.sent;
  }

  /** The read loop of `run_pacman_pty`, from the state `t0` before the first read. */
  method PtyLoop(t0: Tty, polls: seq<Poll>, filter: bool) returns (t: Tty)
    ensures t == PtyRun(t0, false, polls, filter)
  {
    t := t0;
    ghost var start := t;
    var exited := false;
    var i := 0;
    while i < |polls|
      invariant 0 <= i <= |polls|
      invariant PtyRun(t, exited, polls[i..], filter) == PtyRun(start, false, polls, filter)
      decreases |polls| - i
    {
      assert polls[i..] == [polls[i]] + polls[i + 1..];
      var stop;
      t, exited, stop := PollOnce(t, exited, polls[i], filter, polls[i + 1..]);
      if stop {
        break;
      }
      i := i + 1;
    }
  }

  /**
   * One pass of the loop of `run_pacman_pty`: note whether the child has
   * exited, then handle what the read returned; `stop` is a `break`.
   */
  method PollOnce(t0: Tty, exited0: bool, p: Poll, filter: bool, ghost rest: seq<Poll>)
    returns (t: Tty, exited: bool, stop: bool)
    ensures exited == (exited0 || p.alive != Running)
    ensures stop ==> t == t0 && PtyRun(t0, exited0, [p] + rest, filter) == t0
    ensures !stop ==> PtyRun(t0, exited0, [p] + rest, filter) == PtyRun(t, exited, rest, filter)
  {
    assert ([p] + rest)[0] == p && ([p] + rest)[1..] == rest;
    t, exited, stop := t0, exited0, false;
    if !exited {
      match p.alive {
        case Running =>
        case Exited => exited := true;
        case AliveError => exited := true;
      }
    }
    match p.read {
      case Chunk(text) =>
        if text == [] {
          stop := exited;
        } else if t.raw {
          t := t.(out := t.out + text);
        } else {
          t := FeedLineMode(t, text, filter);
        }
      case WouldBlock =>
        stop := exited;
      case Interrupted =>
        stop := exited;
      case ReadFailed =>
        stop := true;
    }
  }

  /** The `for ch in chunk.chars()` loop in line mode. */
  method FeedLineMode(t0: Tty, text: string, filter: bool) returns (t: Tty)
    ensures t == PtyChars(t0, text, filter)
  {
    t := t0;
    var i := 0;
    while i < |text|
      invariant 0 <= i <= |text|
      invariant PtyChars(t, text[i..], filter) == PtyChars(t0, text, filter)
    {
      assert text[i..][1..] == text[i + 1..];
      var ch := text[i];
      ghost var before := t;
      if ch == '\n' {
        if ShouldPrint(t.buffer, filter) {
          t := t.(out := t.out + (t.buffer + "\n"));
        }
        t := t.(buffer := []);
      } else if ch == '\r' {
      } else {
        t := t.(buffer := t.buffer + [ch]);
        if EndsWith(t.buffer, "[Y/n] ") || (Contains(t.buffer, "::") && EndsWith(t.buffer, "]: ")) {
          var shown := "";
          if ShouldPrint(t.buffer, filter) {
            if Contains(t.buffer, "Proceed with installation") {
              shown := "\n\n";
            }
            shown := shown + t.buffer;
          }
          var input := if t.stdin == [] then Some("") else t.stdin[0];
          var rest := if t.stdin == [] then [] else t.stdin[1..];
          if input.Some? {
            t := Tty(t.out + shown, [], true, rest, t.sent + [Trim(input.value)]);
          } else {
            t := Tty(t.out + shown, [], t.raw, rest, t.sent);
          }
        }
      }
      assert t == PtyChar(before, ch, filter);
      i := i + 1;
    }
  }
}
