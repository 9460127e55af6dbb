/**
 * The small text and arithmetic helpers of `src/pacman.rs`: the scan of
 * `pacman.log` for the last completed full upgrade, the mirror URL, the
 * pacman version line, `~` expansion and the disk figures.
 *
 * File contents, command output, the home directory, the clock and the
 * RFC 3339 date parser are parameters.
 */
module PacmanText {
  import opened Wrappers
  import opened Strings

  // --- the last-update scan ---

  const UpgradeStart: string := "starting full system upgrade"
  const UpgradeDone: string := "transaction completed"

  /** What the scan reads from one log line. */
  datatype LogLine = LogLine(isStart: bool, isDone: bool, stamp: string)

  /**
   * The timestamp of a trimmed log line: the text before the first ']'
   * (all of it when there is none), without its run of leading '['.
   */
  function Timestamp(trimmed: string): (ts: string)
    ensures var head := BeforeFirst(trimmed, "]");
            && |ts| <= |head| && ts == head[|head| - |ts|..]
            && (forall i :: 0 <= i < |head| - |ts| ==> head[i] == '[')
    ensures ']' !in ts && (ts != [] ==> ts[0] != '[')
  {
    var head := BeforeFirst(trimmed, "]");
    assert forall i :: 0 <= i < |head| ==> head[i] != ']' by {
      forall i | 0 <= i < |head| ensures head[i] != ']' {
        assert !OccursAt(head, "]", i);
        assert head[i..i + 1] == [head[i]];
      }
    }
    TrimStartMatchesDropsOnly(head, '[');
    TrimStartMatches(head, '[')
  }

  function ReadLogLine(line: string): LogLine {
    var trimmed := Trim(line);
    LogLine(Contains(trimmed, UpgradeStart), Contains(trimmed, UpgradeDone), Timestamp(trimmed))
  }

  /** The loop's flags: a start waiting for its completion, its timestamp, and the last completed start. */
  datatype ScanState = ScanState(sawStart: bool, start: Option<string>, last: Option<string>)

  /** One line: a start (re)places the pending one; a completion with a pending start records it. */
  function ScanStep(st: ScanState, e: LogLine): ScanState {
    var st1 := if e.isStart then st.(sawStart := true, start := Some(e.stamp)) else st;
    if st1.sawStart && e.isDone then st1.(last := st1.start, sawStart := false) else st1
  }

  function ScanLog(es: seq<LogLine>): ScanState
    decreases |es|
  {
    if es == [] then ScanState(false, None, None) else ScanStep(ScanLog(es[..|es| - 1]), es[|es| - 1])
  }

  /** Line `i` started an upgrade that line `j` completed: no other start or completion between. */
  predicate CompletedAt(es: seq<LogLine>, i: int, j: int) {
    && 0 <= i <= j < |es| && es[i].isStart && es[j].isDone
    && (forall k :: i < k <= j ==> !es[k].isStart)
    && (forall k :: i <= k < j ==> !es[k].isDone)
  }

  /** Line `i` started an upgrade that is still waiting for its completion. */
  predicate PendingAt(es: seq<LogLine>, i: int) {
    && 0 <= i < |es| && es[i].isStart
    && (forall k :: i < k < |es| ==> !es[k].isStart)
    && (forall k :: i <= k < |es| ==> !es[k].isDone)
  }

  /** The scan's state describes the lines read so far. */
  ghost predicate Describes(es: seq<LogLine>, st: ScanState) {
    && (st.sawStart <==> exists i :: PendingAt(es, i))
    && (forall i :: PendingAt(es, i) ==> st.start == Some(es[i].stamp))
    && (st.last.None? <==> forall i, j :: !CompletedAt(es, i, j))
    && (st.last.Some? ==> exists i, j :: CompletedAt(es, i, j) && es[i].stamp == st.last.value
                                       && forall i', j' :: CompletedAt(es, i', j') ==> j' <= j)
  }

  lemma PendingSnoc(es: seq<LogLine>, e: LogLine, i: int)
    ensures PendingAt(es + [e], i) <==>
      (if e.isStart then i == |es| && !e.isDone else PendingAt(es, i) && !e.isDone)
  {
    var es2 := es + [e];
    if PendingAt(es2, i) && i < |es| {
      assert es2[|es|] == e;
      assert forall k :: i < k < |es| ==> es2[k] == es[k];
    }
    if !e.isStart && PendingAt(es, i) && !e.isDone {
      assert forall k :: i < k < |es2| ==> !es2[k].isStart by {
        forall k | i < k < |es2| ensures !es2[k].isStart {
          if k < |es| { assert es2[k] == es[k]; }
        }
      }
      assert forall k :: i <= k < |es2| ==> !es2[k].isDone by {
        forall k | i <= k < |es2| ensures !es2[k].isDone {
          if k < |es| { assert es2[k] == es[k]; }
        }
      }
    }
  }

  lemma CompletedOld(es: seq<LogLine>, e: LogLine, i: int, j: int)
    requires j < |es|
    ensures CompletedAt(es + [e], i, j) <==> CompletedAt(es, i, j)
  {
    var es2 := es + [e];
    assert forall k :: 0 <= k < |es| ==> es2[k] == es[k];
  }

  lemma CompletedNew(es: seq<LogLine>, e: LogLine, i: int)
    ensures CompletedAt(es + [e], i, |es|) <==>
      e.isDone && (if e.isStart then i == |es| else PendingAt(es, i))
  {
    var es2 := es + [e];
    assert es2[|es|] == e;
    assert forall k :: 0 <= k < |es| ==> es2[k] == es[k];
  }

  lemma {:induction false} ScanDescribes(es: seq<LogLine>)
    ensures Describes(es, ScanLog(es))
    decreases |es|
  {
    if es == [] {
    } else {
      var pre := es[..|es| - 1];
      var e := es[|es| - 1];
      assert es == pre + [e];
      ScanDescribes(pre);
      StepDescribes(pre, e, ScanLog(pre));
    }
  }

  lemma StepDescribes(es: seq<LogLine>, e: LogLine, st: ScanState)
    requires Describes(es, st)
    ensures Describes(es + [e], ScanStep(st, e))
  {
    StepPending(es, e, st);
    StepLast(es, e, st);
  }

  lemma StepPending(es: seq<LogLine>, e: LogLine, st: ScanState)
    requires Describes(es, st)
    ensures var r := ScanStep(st, e);
            && (r.sawStart <==> exists i :: PendingAt(es + [e], i))
            && (forall i :: PendingAt(es + [e], i) ==> r.start == Some((es + [e])[i].stamp))
  {
    var es2 := es + [e];
    var n := |es|;
    forall i ensures PendingAt(es2, i) <==> (if e.isStart then i == n && !e.isDone else PendingAt(es, i) && !e.isDone) {
      PendingSnoc(es, e, i);
    }
    if e.isStart && !e.isDone {
      assert PendingAt(es2, n);
    }
    forall i | PendingAt(es2, i) ensures es2[i] == (if i < n then es[i] else e) {
    }
  }

  /** The loop records a completion on this line exactly when one is completed here. */
  lemma StepLast(es: seq<LogLine>, e: LogLine, st: ScanState)
    requires Describes(es, st)
    ensures var r := ScanStep(st, e);
            && (r.last.None? <==> forall i, j :: !CompletedAt(es + [e], i, j))
            && (r.last.Some? ==> exists i, j :: CompletedAt(es + [e], i, j) && (es + [e])[i].stamp == r.last.value
                                              && forall i', j' :: CompletedAt(es + [e], i', j') ==> j' <= j)
  {
    if e.isDone && (e.isStart || st.sawStart) {
      StepLastNew(es, e, st);
    } else {
      StepLastOld(es, e, st);
    }
  }

  lemma CompletedBound(es: seq<LogLine>, e: LogLine)
    ensures forall i, j :: CompletedAt(es + [e], i, j) ==> j <= |es|
    ensures forall i, j | j < |es| :: CompletedAt(es + [e], i, j) <==> CompletedAt(es, i, j)
  {
    forall i, j | j < |es| ensures CompletedAt(es + [e], i, j) <==> CompletedAt(es, i, j) {
      CompletedOld(es, e, i, j);
    }
  }

  lemma StepLastNew(es: seq<LogLine>, e: LogLine, st: ScanState)
    requires Describes(es, st)
    requires e.isDone && (e.isStart || st.sawStart)
    ensures var r := ScanStep(st, e);
            r.last.Some? && exists i :: CompletedAt(es + [e], i, |es|) && (es + [e])[i].stamp == r.last.value
  {
    var es2 := es + [e];
    var n := |es|;
    if e.isStart {
      CompletedNew(es, e, n);
      assert es2[n] == e;
    } else {
      var i :| PendingAt(es, i);
      CompletedNew(es, e, i);
      assert es2[i] == es[i];
    }
  }

  lemma StepLastOld(es: seq<LogLine>, e: LogLine, st: ScanState)
    requires Describes(es, st)
    requires !(e.isDone && (e.isStart || st.sawStart))
    ensures ScanStep(st, e).last == st.last
    ensures forall i, j :: CompletedAt(es + [e], i, j) <==> CompletedAt(es, i, j)
  {
    var n := |es|;
    CompletedBound(es, e);
    forall i ensures !CompletedAt(es + [e], i, n) {
      CompletedNew(es, e, i);
    }
    forall i, j | CompletedAt(es, i, j) ensures CompletedAt(es + [e], i, j) {
      CompletedOld(es, e, i, j);
    }
  }

  /**
   * The scan's answer: the timestamp of the start of the last upgrade that
   * was completed, or nothing when no start was ever followed by a completion.
   */
  lemma LastCompletedUpgrade(es: seq<LogLine>)
    ensures ScanLog(es).last.None? <==> forall i, j :: !CompletedAt(es, i, j)
    ensures ScanLog(es).last.Some? ==>
      exists i, j :: CompletedAt(es, i, j) && es[i].stamp == ScanLog(es).last.value
                     && forall i', j' :: CompletedAt(es, i', j') ==> j' <= j
  {
    ScanDescribes(es);
  }

  /** A completion without a pending start changes nothing. */
  lemma OrphanCompletionIgnored(st: ScanState, e: LogLine)
    requires !st.sawStart && !e.isStart
    ensures ScanStep(st, e) == st
  {
  }

  /** A later start replaces a pending one. */
  lemma LaterStartOverwrites(st: ScanState, e: LogLine)
    requires e.isStart && !e.isDone
    ensures ScanStep(st, e).sawStart && ScanStep(st, e).start == Some(e.stamp) && ScanStep(st, e).last == st.last
  {
  }

  function ReadLog(lines: seq<string>): (es: seq<LogLine>)
    ensures |es| == |lines| && forall k :: 0 <= k < |lines| ==> es[k] == ReadLogLine(lines[k])
  {
    seq(|lines|, k requires 0 <= k < |lines| => ReadLogLine(lines[k]))
  }

  /** The scan of `get_seconds_since_update` over the log's lines. */
  method LastUpgradeStart(log: string) returns (last: Option<string>)
    ensures last == ScanLog(ReadLog(Lines(log))).last
  {
    var lines := Lines(log);
    last := ScanLines(lines);
  }

  /** The `for line in contents.lines()` loop of `get_seconds_since_update`. */
  method ScanLines(lines: seq<string>) returns (last: Option<string>)
    ensures last == ScanLog(ReadLog(lines)).last
  {
    ghost var es := ReadLog(lines);
    var sawStart := false;
    var start: Option<string> := None;
    last := None;
    var i := 0;
    while i < |lines|
      invariant 0 <= i <= |lines|
      invariant ScanState(sawStart, start, last) == ScanLog(es[..i])
    {
      var e := ReadLogLine(lines[i]);
      sawStart, start, last := ScanNext(es, i, sawStart, start, last, e);
      i := i + 1;
    }
    assert es[..i] == es;
  }

  /** Scanning one more line is one more step. */
  lemma ScanLogSnoc(es: seq<LogLine>, i: nat)
    requires i < |es|
    ensures ScanLog(es[..i + 1]) == ScanStep(ScanLog(es[..i]), es[i])
  {
    assert es[..i + 1][..i] == es[..i];
  }

  /** One turn of the scan loop, against the scan of the lines before it. */
  method ScanNext(ghost es: seq<LogLine>, i: nat, sawStart0: bool, start0: Option<string>, last0: Option<string>, e: LogLine)
    returns (sawStart: bool, start: Option<string>, last: Option<string>)
    requires i < |es| && e == es[i]
    requires ScanState(sawStart0, start0, last0) == ScanLog(es[..i])
    ensures ScanState(sawStart, start, last) == ScanLog(es[..i + 1])
  {
    ScanLogSnoc(es, i);
    sawStart, start, last := ScanLine(sawStart0, start0, last0, e);
  }

  /** The body of the scan loop: one log line's effect on the three variables. */
  method ScanLine(sawStart0: bool, start0: Option<string>, last0: Option<string>, e: LogLine)
    returns (sawStart: bool, start: Option<string>, last: Option<string>)
    ensures ScanState(sawStart, start, last) == ScanStep(ScanState(sawStart0, start0, last0), e)
  {
    sawStart, start, last := sawStart0, start0, last0;
    if e.isStart {
      sawStart := true;
      start := Some(e.stamp);
    }
    if sawStart && e.isDone {
      last := start;
      sawStart := false;
    }
  }

  /** pacman logs `+hhmm`; a ':' after the hour gives RFC 3339's `+hh:mm` (section 5.6). */
  function Rfc3339Form(ts: string): string
    requires |ts| >= 22
  {
    ts[..22] + ":" + ts[22..]
  }

  /** On the 24-character form "YYYY-MM-DDTHH:MM:SS+hhmm" only the offset changes: "+hh:mm". */
  lemma Rfc3339Offset(ts: string)
    requires |ts| == 24
    ensures var r := Rfc3339Form(ts);
            |r| == 25 && r[..22] == ts[..22] && r[22] == ':' && r[23..] == ts[22..]
  {
  }

  /**
   * `get_seconds_since_update`: the whole seconds from the start of the last
   * completed upgrade to `now`, never negative. `instantOf` is the RFC 3339
   * parser; the original panics when the timestamp is shorter than 22
   * characters or does not parse, so those are excluded.
   */
  method GetSecondsSinceUpdate(log: string, now: int, instantOf: string -> Option<int>) returns (r: Option<int>)
    requires var last := ScanLog(ReadLog(Lines(log))).last;
             last.Some? ==> |last.value| >= 22 && instantOf(Rfc3339Form(last.value)).Some?
    ensures r.None? <==> ScanLog(ReadLog(Lines(log))).last.None?
    ensures r.Some? ==> r.value >= 0
    ensures r.Some? ==> var ts := ScanLog(ReadLog(Lines(log))).last.value;
            r.value == if now >= instantOf(Rfc3339Form(ts)).value then now - instantOf(Rfc3339Form(ts)).value else 0
  {
    var last := LastUpgradeStart(log);
    if last.None? {
      return None;
    }
    var instant := instantOf(Rfc3339Form(last.value)).value;
    var seconds := now - instant;
    if seconds < 0 {
      seconds := 0;
    }
    return Some(seconds);
  }

  // --- mirror URL and pacman version ---

  const ServerPrefix: string := "Server = "

  predicate IsServerLine(line: string) {
    StartsWith(Trim(line), ServerPrefix)
  }

  /** Index of the first line that, trimmed, starts with "Server = ". */
  function FirstServerLine(lines: seq<string>): (r: Option<nat>)
    ensures r.Some? ==> r.value < |lines| && IsServerLine(lines[r.value])
    ensures r.Some? ==> forall k :: 0 <= k < r.value ==> !IsServerLine(lines[k])
    ensures r.None? ==> forall k :: 0 <= k < |lines| ==> !IsServerLine(lines[k])
  {
    var flags := seq(|lines|, k requires 0 <= k < |lines| => IsServerLine(lines[k]));
    assert forall k :: 0 <= k < |lines| ==> flags[k] == IsServerLine(lines[k]);
    FirstTrue(flags)
  }

  /**
   * The `for line in mirrorlist.lines()` loop of `get_mirror_url`: the URL of
   * the first "Server = " line, cut before "/$repo".
   */
  function MirrorUrl(lines: seq<string>): (r: Option<string>)
    ensures r.None? <==> FirstServerLine(lines).None?
    ensures r.Some? ==> r.value == ServerUrl(Trim(lines[FirstServerLine(lines).value]))
    ensures r.Some? ==> !Contains(r.value, "/$repo")
    ensures r.Some? ==> StartsWith(Trim(lines[FirstServerLine(lines).value]), ServerPrefix + r.value)
  {
    match FirstServerLine(lines)
    case None => None
    case Some(k) => Some(ServerUrl(Trim(lines[k])))
  }

  /**
   * The URL of a "Server = " line: the rest of the line up to its first
   * "/$repo", or all of it when there is none.
   */
  function ServerUrl(trimmed: string): (url: string)
    requires StartsWith(trimmed, ServerPrefix)
    ensures var rest := trimmed[|ServerPrefix|..];
            && StartsWith(rest, url)
            && (url == rest || OccursAt(rest, "/$repo", |url|))
    ensures !Contains(url, "/$repo") && StartsWith(trimmed, ServerPrefix + url)
  {
    var rest := trimmed[|ServerPrefix|..];
    var base := BeforeFirst(rest, "/$repo");
    assert trimmed == ServerPrefix + rest;
    assert (ServerPrefix + base) == trimmed[..|ServerPrefix + base|];
    assert Contains(rest, "/$repo") ==> OccursAt(rest, "/$repo", |base|) by {
      if Contains(rest, "/$repo") {
        assert rest[|base|..][..6] == rest[|base|..|base| + 6];
      }
    }
    base
  }

  /** `get_mirror_url`: nothing when the mirror list cannot be read. */
  function GetMirrorUrl(mirrorlist: Option<string>): Option<string> {
    match mirrorlist
    case None => None
    case Some(text) => MirrorUrl(Lines(text))
  }

  /** The index of the first line that names both pacman and libalpm. */
  function FirstVersionLine(lines: seq<string>): (r: Option<nat>)
    ensures r.Some? ==> r.value < |lines| && IsVersionLine(lines[r.value])
    ensures r.Some? ==> forall k :: 0 <= k < r.value ==> !IsVersionLine(lines[k])
    ensures r.None? ==> forall k :: 0 <= k < |lines| ==> !IsVersionLine(lines[k])
  {
    var flags := seq(|lines|, k requires 0 <= k < |lines| => IsVersionLine(lines[k]));
    assert forall k :: 0 <= k < |lines| ==> flags[k] == IsVersionLine(lines[k]);
    FirstTrue(flags)
  }

  /** The first line of `pacman --version` that names both pacman and libalpm, from "Pacman v" on, trimmed. */
  function PacmanVersion(lines: seq<string>): (r: Option<string>)
    ensures r.None? <==> forall k :: 0 <= k < |lines| ==> !IsVersionLine(lines[k])
    ensures r.Some? ==>
      FirstVersionLine(lines).Some? && r.value == VersionFrom(lines[FirstVersionLine(lines).value])
    ensures r.Some? ==> StartsWith(r.value, "Pacman v")
  {
    match FirstVersionLine(lines)
    case None => None
    case Some(k) => Some(VersionFrom(lines[k]))
  }

  predicate IsVersionLine(line: string) {
    Contains(line, "Pacman v") && Contains(line, "libalpm v")
  }

  /**
   * The line from its first "Pacman v" on, trimmed: the text that starts at
   * that occurrence and stops before the trailing whitespace of the line.
   */
  function VersionFrom(line: string): (r: string)
    requires Contains(line, "Pacman v")
    ensures var i := IndexOf(line, "Pacman v").value;
            && OccursAt(line, "Pacman v", i)
            && (forall j :: 0 <= j < i ==> !OccursAt(line, "Pacman v", j))
            && OccursAt(line, r, i)
            && (forall j :: i + |r| <= j < |line| ==> IsWhitespace(line[j]))
    ensures StartsWith(r, "Pacman v") && !IsWhitespace(r[|r| - 1])
  {
    var start := IndexOf(line, "Pacman v").value;
    var tail := line[start..];
    assert tail[..8] == "Pacman v";
    TrimKeepsPrefix(tail, "Pacman v");
    TrimmedSuffix(line, start);
    Trim(tail)
  }

  /** Trimming the part of a line from a visible character on cuts only trailing whitespace. */
  lemma TrimmedSuffix(line: string, start: nat)
    requires start < |line| && !IsWhitespace(line[start])
    ensures var r := Trim(line[start..]);
            && OccursAt(line, r, start)
            && forall j :: start + |r| <= j < |line| ==> IsWhitespace(line[j])
  {
    var tail := line[start..];
    TrimFromVisibleStart(tail);
    var r := Trim(tail);
    assert line[start..start + |r|] == tail[..|r|];
    forall j | start + |r| <= j < |line| ensures IsWhitespace(line[j]) {
      assert line[j] == tail[j - start];
    }
  }

  /** Trimming a text that starts with a word ending in non-whitespace keeps that word in front. */
  lemma TrimKeepsPrefix(s: string, p: string)
    requires p != [] && !IsWhitespace(p[0]) && !IsWhitespace(p[|p| - 1]) && StartsWith(s, p)
    ensures StartsWith(Trim(s), p)
  {
    assert TrimStart(s) == s;
    var r := TrimEnd(s);
    assert s[|p| - 1] == p[|p| - 1];
    assert |p| <= |r|;
    assert r[..|p|] == s[..|p|];
  }

  /** `get_pacman_version`: nothing when pacman cannot be run. */
  function GetPacmanVersion(output: Option<string>): Option<string> {
    match output
    case None => None
    case Some(text) => PacmanVersion(Lines(text))
  }

  // --- paths and disk figures ---

  /** `expand_tilde`: a leading "~" (alone or before '/') becomes the home directory, if known. */
  function ExpandTilde(path: string, home: Option<string>): (r: string)
    ensures (path == "~" || StartsWith(path, "~/")) && home.Some? ==> r == home.value + path[1..]
    ensures !((path == "~" || StartsWith(path, "~/")) && home.Some?) ==> r == path
  {
    if (path == "~" || StartsWith(path, "~/")) && home.Some? then home.value + path[1..] else path
  }

  /** "~" is the home directory itself, "~/x" a path under it; "~user" and paths without '~' are kept. */
  lemma ExpandTildeCases(home: string, rest: string)
    ensures ExpandTilde("~", Some(home)) == home
    ensures ExpandTilde("~/" + rest, Some(home)) == home + "/" + rest
    ensures rest == [] || rest[0] != '/' ==> ExpandTilde("~" + rest, Some(home)) == (if rest == [] then home else "~" + rest)
    ensures ExpandTilde("~/" + rest, None) == "~/" + rest
  {
    assert ("~/" + rest)[..2] == "~/";
    assert ("~/" + rest)[1..] == "/" + rest;
    if rest != [] && rest[0] != '/' {
      assert ("~" + rest)[1] == rest[0];
      assert ("~" + rest) != "~";
    } else if rest == [] {
      assert "~" + rest == "~";
    }
  }

  /** Fragment counts from `statvfs`; the free count never exceeds the total. */
  datatype FsStat = FsStat(blocks: nat, blocksFree: nat, fragmentSize: nat)

  /**
   * `get_disk_usage`: used and total bytes, or nothing when `statvfs` fails.
   * The original's `u64` products are unbounded here.
   */
  function DiskUsage(stat: Option<FsStat>): (r: Option<(nat, nat)>)
    requires stat.Some? ==> stat.value.blocksFree <= stat.value.blocks
    ensures r.Some? <==> stat.Some?
    ensures r.Some? ==> r.value.0 <= r.value.1
    ensures r.Some? ==> r.value.1 == stat.value.blocks * stat.value.fragmentSize
    ensures r.Some? ==> r.value.1 - r.value.0 == stat.value.blocksFree * stat.value.fragmentSize
  {
    match stat
    case None => None
    case Some(s) =>
      var used := (s.blocks - s.blocksFree) * s.fragmentSize;
      var total := s.blocks * s.fragmentSize;
      assert total - used == s.blocksFree * s.fragmentSize by {
        assert s.blocks * s.fragmentSize == (s.blocks - s.blocksFree) * s.fragmentSize + s.blocksFree * s.fragmentSize;
      }
      Some((used, total))
  }
}
