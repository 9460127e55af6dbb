/**
 * The headless `pacman -Sy` loops of `src/pacman.rs`: the one in
 * `calculate_upgrade_stats_with_sync` that refreshes the private cache, and
 * the one in `run_pacman_sync` behind `-Sy`. Both poll the child, split what
 * it prints into lines on '\n' or '\r', and feed every non-empty line to the
 * progress display.
 *
 * The pseudo-terminal is replaced by the sequence of answers the loop would
 * get: each iteration first asks whether the child is alive and, if it is,
 * tries one read.
 */
module HeadlessSync {
  import opened Wrappers
  import opened SyncDisplay
  import opened DbCacheModel
  import opened UpgradeTotals

  /** `session.is_alive()`: `Ok(true)`, `Ok(false)` or an error. */
  datatype Alive = Running | Exited | AliveError

  /** `session.try_read`: some text (empty for `Ok(0)`), WouldBlock, Interrupted or another error. */
  datatype Read = Chunk(text: string) | WouldBlock | Interrupted | ReadFailed

  /** One loop iteration's answers; `read` is only consulted while the child runs. */
  datatype Poll = Poll(alive: Alive, read: Read)

  predicate IsLineEnd(c: char) {
    c == '\n' || c == '\r'
  }

  /** The loop's data: the display, the unterminated line, and (for the proofs) every line fed so far. */
  datatype Scan = Scan(progress: Progress, buffer: string, fed: seq<string>)

  /** Feed a line to the display unless it is empty. */
  function FeedLine(s: Scan, line: string): Scan {
    if line != [] then Scan(Apply(s.progress, Classify(line)), s.buffer, s.fed + [line]) else s
  }

  /** One character of a chunk. */
  function Step(s: Scan, c: char): Scan {
    if IsLineEnd(c) then
      var fed := FeedLine(s, s.buffer);
      Scan(fed.progress, [], fed.fed)
    else Scan(s.progress, s.buffer + [c], s.fed)
  }

  /** The `for ch in chunk.chars()` loop. */
  function FeedChars(s: Scan, text: string): Scan
    decreases |text|
  {
    if text == [] then s else FeedChars(Step(s, text[0]), text[1..])
  }

  datatype Outcome = Succeeded | Failed | Unfinished

  /**
   * The polling loop: an exit flushes the unterminated line and succeeds; an
   * `is_alive` error or a read error other than WouldBlock/Interrupted fails;
   * running out of answers leaves the loop undecided.
   */
  function Run(s: Scan, polls: seq<Poll>): (Outcome, Scan)
    decreases |polls|
  {
    if polls == [] then (Unfinished, s)
    else match polls[0].alive
      case Exited => (Succeeded, FeedLine(s, s.buffer))
      case AliveError => (Failed, s)
      case Running =>
        match polls[0].read
        case Chunk(text) => Run(FeedChars(s, text), polls[1..])
        case WouldBlock => Run(s, polls[1..])
        case Interrupted => Run(s, polls[1..])
        case ReadFailed => (Failed, s)
  }

  const Start: Scan := Scan(Initial, [], [])

  // --- properties of the line assembly ---

  predicate NoLineEnd(s: string) {
    forall i :: 0 <= i < |s| ==> !IsLineEnd(s[i])
  }

  /** Fed lines are never empty and never contain a line end; neither does the buffer. */
  predicate ScanOk(s: Scan) {
    NoLineEnd(s.buffer) && forall k :: 0 <= k < |s.fed| ==> s.fed[k] != [] && NoLineEnd(s.fed[k])
  }

  /** Feeding a line free of line ends keeps the assembled lines in shape. */
  lemma FeedLineKeepsOk(s: Scan, line: string)
    requires ScanOk(s) && NoLineEnd(line)
    ensures ScanOk(FeedLine(s, line)) && FeedLine(s, line).buffer == s.buffer
  {
    if line != [] {
      assert FeedLine(s, line).fed == s.fed + [line];
    }
  }

  lemma {:induction false} FeedCharsKeepsOk(s: Scan, text: string)
    requires ScanOk(s)
    ensures ScanOk(FeedChars(s, text))
    decreases |text|
  {
    if text != [] {
      var t := Step(s, text[0]);
      assert ScanOk(t) by {
        if IsLineEnd(text[0]) {
          FeedLineKeepsOk(s, s.buffer);
        } else {
          assert forall i :: 0 <= i < |s.buffer| ==> (s.buffer + [text[0]])[i] == s.buffer[i];
        }
      }
      FeedCharsKeepsOk(t, text[1..]);
    }
  }

  /** How the output is cut into reads does not matter. */
  lemma {:induction false} FeedCharsAppend(s: Scan, a: string, b: string)
    ensures FeedChars(s, a + b) == FeedChars(FeedChars(s, a), b)
    decreases |a|
  {
    if a == [] {
      assert a + b == b;
    } else {
      assert (a + b)[0] == a[0];
      assert (a + b)[1..] == a[1..] + b;
      FeedCharsAppend(Step(s, a[0]), a[1..], b);
    }
  }

  /** Text without a line end only grows the buffer. */
  lemma {:induction false} FeedCharsPlain(s: Scan, text: string)
    requires NoLineEnd(text)
    ensures FeedChars(s, text) == Scan(s.progress, s.buffer + text, s.fed)
    decreases |text|
  {
    if text == [] {
      assert s.buffer + text == s.buffer;
    } else {
      assert NoLineEnd(text[1..]);
      FeedCharsPlain(Step(s, text[0]), text[1..]);
      assert s.buffer + [text[0]] + text[1..] == s.buffer + text;
    }
  }

  /**
   * "\r\n" (or any run of line ends) ends one line: the text before it is
   * fed once, and the empty lines between the line ends are not fed.
   */
  lemma CrLfFeedsOneLine(s: Scan, text: string)
    requires NoLineEnd(text)
    ensures FeedChars(s, text + "\r\n") == Scan(FeedLine(s, s.buffer + text).progress, [], FeedLine(s, s.buffer + text).fed)
  {
    FeedCharsAppend(s, text, "\r\n");
    FeedCharsPlain(s, text);
    var t := Scan(s.progress, s.buffer + text, s.fed);
    assert FeedChars(t, "\r\n") == FeedChars(Step(t, '\r'), "\n");
    assert "\r\n"[1..] == "\n";
  }

  // --- properties of the polling loop ---

  /** The loop keeps going at poll `k`: the child runs and the read did not fail. */
  predicate Continues(p: Poll) {
    p.alive == Running && p.read != ReadFailed
  }

  /**
   * The loop succeeds exactly when some poll reports the child exited and
   * every poll before it kept the loop going.
   */
  lemma {:induction false} RunSucceedsIff(s: Scan, polls: seq<Poll>)
    ensures Run(s, polls).0 == Succeeded <==> CleanExit(polls)
    decreases |polls|
  {
    if polls != [] {
      var next := match polls[0].read case Chunk(text) => FeedChars(s, text) case _ => s;
      RunSucceedsIff(next, polls[1..]);
      CleanExitCons(polls);
    }
  }

  /** Some poll reports the exit and every poll before it kept the loop going. */
  predicate CleanExit(polls: seq<Poll>) {
    exists k :: 0 <= k < |polls| && polls[k].alive == Exited && forall j :: 0 <= j < k ==> Continues(polls[j])
  }

  lemma CleanExitCons(polls: seq<Poll>)
    requires polls != []
    ensures CleanExit(polls) <==> polls[0].alive == Exited || (Continues(polls[0]) && CleanExit(polls[1..]))
  {
    var rest := polls[1..];
    if CleanExit(polls) && polls[0].alive != Exited {
      var k :| 0 <= k < |polls| && polls[k].alive == Exited && forall j :: 0 <= j < k ==> Continues(polls[j]);
      assert Continues(polls[0]);
      assert rest[k - 1].alive == Exited;
      forall j | 0 <= j < k - 1 ensures Continues(rest[j]) {
        assert rest[j] == polls[j + 1];
      }
    }
    if polls[0].alive != Exited && Continues(polls[0]) && CleanExit(rest) {
      var k :| 0 <= k < |rest| && rest[k].alive == Exited && forall j :: 0 <= j < k ==> Continues(rest[j]);
      assert polls[k + 1].alive == Exited;
      forall j | 0 <= j < k + 1 ensures Continues(polls[j]) {
        if j > 0 {
          assert polls[j] == rest[j - 1];
        }
      }
    }
  }

  /** On exit the unterminated last line is fed before success is reported. */
  lemma ExitFlushesBuffer(s: Scan, polls: seq<Poll>)
    requires polls != [] && polls[0].alive == Exited && s.buffer != []
    ensures Run(s, polls).0 == Succeeded
    ensures Run(s, polls).1.progress == Apply(s.progress, Classify(s.buffer))
  {
  }

  /** Whatever the answers, the assembled lines are non-empty and free of line ends. */
  lemma {:induction false} RunKeepsOk(s: Scan, polls: seq<Poll>)
    requires ScanOk(s)
    ensures ScanOk(Run(s, polls).1)
    decreases |polls|
  {
    if polls != [] && polls[0].alive == Running {
      match polls[0].read
      case Chunk(text) =>
        FeedCharsKeepsOk(s, text);
        RunKeepsOk(FeedChars(s, text), polls[1..]);
      case WouldBlock => RunKeepsOk(s, polls[1..]);
      case Interrupted => RunKeepsOk(s, polls[1..]);
      case ReadFailed =>
    } else if polls != [] && polls[0].alive == Exited {
      FeedLineKeepsOk(s, s.buffer);
    }
  }

  // --- the loop itself ---

  /** The `for ch in chunk.chars()` loop, updating the display object. */
  method FeedChunk(progress: SyncProgress, buffer: string, text: string) returns (newBuffer: string)
    requires progress.Valid()
    modifies progress
    ensures progress.Valid()
    ensures var r := FeedChars(Scan(old(progress.State()), buffer, []), text);
            progress.State() == r.progress && newBuffer == r.buffer
  {
    newBuffer := buffer;
    ghost var fed: seq<string> := [];
    var i := 0;
    while i < |text|
      invariant 0 <= i <= |text|
      invariant progress.Valid()
      invariant FeedChars(Scan(progress.State(), newBuffer, fed), text[i..]).progress
                == FeedChars(Scan(old(progress.State()), buffer, []), text).progress
      invariant FeedChars(Scan(progress.State(), newBuffer, fed), text[i..]).buffer
                == FeedChars(Scan(old(progress.State()), buffer, []), text).buffer
    {
      var ch := text[i];
      assert text[i..][1..] == text[i + 1..];
      if ch == '\n' || ch == '\r' {
        if newBuffer != [] {
          progress.UpdateFromLine(newBuffer);
          fed := fed + [newBuffer];
        }
        newBuffer := [];
      } else {
        newBuffer := newBuffer + [ch];
      }
      i := i + 1;
    }
  }

  /** The `loop { is_alive; try_read }` of both headless syncs. */
  method PollLoop(progress: SyncProgress, polls: seq<Poll>) returns (outcome: Outcome)
    requires progress.Valid()
    modifies progress
    ensures progress.Valid()
    ensures var r := Run(Scan(old(progress.State()), [], []), polls);
            outcome == r.0 && progress.State() == r.1.progress
  {
    var lineBuffer: string := [];
    ghost var fed: seq<string> := [];
    var i := 0;
    while i < |polls|
      invariant 0 <= i <= |polls|
      invariant progress.Valid()
      invariant Run(Scan(progress.State(), lineBuffer, fed), polls[i..]).0 == Run(Scan(old(progress.State()), [], []), polls).0
      invariant Run(Scan(progress.State(), lineBuffer, fed), polls[i..]).1.progress
                == Run(Scan(old(progress.State()), [], []), polls).1.progress
      decreases |polls| - i
    {
      var p := polls[i];
      assert polls[i..][1..] == polls[i + 1..];
      match p.alive {
        case Running =>
        case Exited =>
          if lineBuffer != [] {
            progress.UpdateFromLine(lineBuffer);
          }
          return Succeeded;
        case AliveError =>
          return Failed;
      }
      match p.read {
        case Chunk(text) =>
          ghost var before := Scan(progress.State(), lineBuffer, fed);
          lineBuffer := FeedChunk(progress, lineBuffer, text);
          FeedCharsIgnoresFed(before, text);
          fed := FeedChars(before, text).fed;
          RunIgnoresFed(FeedChars(before, text), Scan(progress.State(), lineBuffer, fed), polls[i + 1..]);
        case WouldBlock =>
        case Interrupted =>
        case ReadFailed =>
          return Failed;
      }
      i := i + 1;
    }
    return Unfinished;
  }

  /** The lines already fed do not influence the display or the buffer. */
  lemma {:induction false} FeedCharsIgnoresFed(s: Scan, text: string)
    ensures forall f :: FeedChars(Scan(s.progress, s.buffer, f), text).progress == FeedChars(s, text).progress
    ensures forall f :: FeedChars(Scan(s.progress, s.buffer, f), text).buffer == FeedChars(s, text).buffer
    decreases |text|
  {
    if text != [] {
      FeedCharsIgnoresFed(Step(s, text[0]), text[1..]);
      forall f ensures FeedChars(Scan(s.progress, s.buffer, f), text).progress == FeedChars(s, text).progress
                    && FeedChars(Scan(s.progress, s.buffer, f), text).buffer == FeedChars(s, text).buffer
      {
        var t := Step(Scan(s.progress, s.buffer, f), text[0]);
        var u := Step(s, text[0]);
        assert t.progress == u.progress && t.buffer == u.buffer;
        assert Scan(t.progress, t.buffer, t.fed) == t;
        FeedCharsIgnoresFed(u, text[1..]);
      }
    }
  }

  lemma {:induction false} RunIgnoresFed(a: Scan, b: Scan, polls: seq<Poll>)
    requires a.progress == b.progress && a.buffer == b.buffer
    ensures Run(a, polls).0 == Run(b, polls).0 && Run(a, polls).1.progress == Run(b, polls).1.progress
    decreases |polls|
  {
    if polls != [] && polls[0].alive == Running {
      match polls[0].read
      case Chunk(text) =>
        FeedCharsIgnoresFed(a, text);
        FeedCharsIgnoresFed(b, text);
        assert b == Scan(a.progress, a.buffer, b.fed);
        RunIgnoresFed(FeedChars(a, text), FeedChars(b, text), polls[1..]);
      case WouldBlock => RunIgnoresFed(a, b, polls[1..]);
      case Interrupted => RunIgnoresFed(a, b, polls[1..]);
      case ReadFailed =>
    }
  }

  // --- the two callers ---

  /** The command that refreshes the private cache at `dbpath`; without root it runs under fakeroot. */
  function SyncCommand(isRoot: bool, dbpath: string): string {
    if isRoot then "pacman -Sy --dbpath " + dbpath + " --logfile /dev/null"
    else "fakeroot -- pacman -Sy --disable-sandbox-filesystem --dbpath " + dbpath + " --logfile /dev/null"
  }

  /** Everything marked complete, as shown once a sync has succeeded. */
  const AllComplete: Progress := Progress(Complete, Complete, Complete)

  /**
   * `calculate_upgrade_stats_with_sync`. A null `cache` is `DbCache::new`
   * failing; `now` is the time of the freshness check and `touchTime` the
   * time the sync finishes; `spawnError` is the error of starting the
   * command, if any; `spinner` says whether a spinner is shown. Returns the
   * command it started and the last "Syncing databases: ..." message of the
   * spinner.
   */
  method CalculateUpgradeStatsWithSync(cache: DbCache?, ttlMinutes: nat, now: Time, touchTime: Time,
                                       source: Option<seq<SourceEntry>>, isRoot: bool,
                                       spawnError: Option<string>, polls: seq<Poll>,
                                       spinner: bool, alpm: AlpmAnswers)
    returns (stats: UpgradeStats, command: Option<string>, message: Option<string>)
    modifies cache
    ensures cache == null ==> stats == Fail && command == None && message == None
    ensures cache != null && old(cache.Fresh(ttlMinutes, now)) ==>
      command == None && message == None && cache.sync == old(cache.sync)
      && stats == (if Prepared(alpm) then Totals(alpm) else Fail)
    ensures cache != null && !old(cache.Fresh(ttlMinutes, now)) ==>
      command == Some(SyncCommand(isRoot, cache.path))
      && SyncOutcome(old(cache.sync), cache.sync, touchTime, source, spawnError, polls, spinner, alpm, stats, message)
  {
    command := None;
    message := None;
    if cache == null {
      return Fail, command, message;
    }
    if cache.Fresh(ttlMinutes, now) {
      var calls;
      stats, calls := CalculateUpgradeStats(alpm);
      return;
    }
    command := Some(SyncCommand(isRoot, cache.path));
    stats, message := SyncThenCalculate(cache, touchTime, source, spawnError, polls, spinner, alpm);
  }

  /**
   * What the sync path leaves behind: the cache holds the copied databases,
   * stamped only if the sync succeeded; the stats are computed only after a
   * success; the spinner ends on the display's last state, all complete after
   * a success.
   */
  ghost predicate SyncOutcome(before: SyncDir, after: SyncDir, touchTime: Time, source: Option<seq<SourceEntry>>,
                              spawnError: Option<string>, polls: seq<Poll>, spinner: bool, alpm: AlpmAnswers,
                              stats: UpgradeStats, message: Option<string>)
  {
    var copied := CopySystemDbs(before, source);
    if spawnError.Some? then
      stats == Fail && message == None && after == copied
    else
      var r := Run(Start, polls);
      if r.0 == Succeeded then
        && after == Touch(copied, touchTime)
        && stats == (if Prepared(alpm) then Totals(alpm) else Fail)
        && message == (if spinner then Some("Syncing databases: " + Render(AllComplete)) else None)
      else
        && after == copied
        && stats == Fail
        && message == (if spinner then Some("Syncing databases: " + Render(r.1.progress)) else None)
  }

  /** The part of `calculate_upgrade_stats_with_sync` after the cache was found stale. */
  method SyncThenCalculate(cache: DbCache, touchTime: Time, source: Option<seq<SourceEntry>>,
                           spawnError: Option<string>, polls: seq<Poll>, spinner: bool, alpm: AlpmAnswers)
    returns (stats: UpgradeStats, message: Option<string>)
    modifies cache
    ensures SyncOutcome(old(cache.sync), cache.sync, touchTime, source, spawnError, polls, spinner, alpm, stats, message)
  {
    message := None;
    cache.CopySystemDbsInPlace(source);
    if spawnError.Some? {
      return Fail, message;
    }
    var progress := new SyncProgress();
    assert Scan(progress.State(), [], []) == Start;
    var outcome := PollLoop(progress, polls);
    ghost var r := Run(Start, polls);
    assert outcome == r.0 && progress.State() == r.1.progress;
    if spinner {
      message := Some("Syncing databases: " + progress.Format());
    }
    if outcome != Succeeded {
      return Fail, message;
    }
    cache.TouchInPlace(touchTime);
    if spinner {
      progress.SetState(Core, Complete);
      progress.SetState(Extra, Complete);
      progress.SetState(Multilib, Complete);
      assert progress.State() == AllComplete;
      message := Some("Syncing databases: " + progress.Format());
    }
    var calls;
    stats, calls := CalculateUpgradeStats(alpm);
  }

  const NotRoot: string := "you cannot perform this operation unless you are root."

  /**
   * `run_pacman_sync`: root is checked first, then the spawn; once `pacman
   * -Sy` has started the result is `Ok` whatever its outcome. Returns the
   * spinner's last message.
   */
  method RunPacmanSync(isRoot: bool, spawnError: Option<string>, polls: seq<Poll>)
    returns (r: Result<(), string>, message: Option<string>)
    ensures !isRoot ==> r == Err(NotRoot) && message == None
    ensures isRoot && spawnError.Some? ==> r == Err("Failed to spawn pacman: " + spawnError.value) && message == None
    ensures isRoot && spawnError.None? ==> r == Ok(()) && message == Some(Render(Run(Start, polls).1.progress))
  {
    if !isRoot {
      return Err(NotRoot), None;
    }
    if spawnError.Some? {
      return Err("Failed to spawn pacman: " + spawnError.value), None;
    }
    var progress := new SyncProgress();
    var outcome := PollLoop(progress, polls);
    return Ok(()), Some(progress.Format());
  }
}
