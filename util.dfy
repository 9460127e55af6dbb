/**
 * `src/util.rs`: the escape stripper used to measure and classify terminal
 * text, and the human-readable rendering of a number of seconds.
 */
module Util {
  import opened Strings

  const ESC: char := '\U{1b}'

  // ---------------------------------------------------------------------
  // strip_ansi
  // ---------------------------------------------------------------------

  /**
   * What `strip_ansi` keeps of `s` when it starts reading in escape state
   * `inEscape`: ESC opens an escape (also inside one), only 'm' closes it,
   * and characters outside an escape are kept.
   */
  function Strip(s: string, inEscape: bool): string {
    if s == [] then []
    else if s[0] == ESC then Strip(s[1..], true)
    else if inEscape then Strip(s[1..], s[0] != 'm')
    else [s[0]] + Strip(s[1..], false)
  }

  /** The visible text of `s`: `strip_ansi(s)`. */
  function Visible(s: string): string {
    Strip(s, false)
  }

  /** The escape state after reading `s` from state `inEscape`. */
  function EscapeOpenAfter(s: string, inEscape: bool): bool {
    if s == [] then inEscape
    else if s[0] == ESC then EscapeOpenAfter(s[1..], true)
    else if inEscape then EscapeOpenAfter(s[1..], s[0] != 'm')
    else EscapeOpenAfter(s[1..], false)
  }

  /** `strip_ansi`: one pass over the characters with an `in_escape` flag. */
  method StripAnsi(s: string) returns (result: string)
    ensures result == Visible(s)
  {
    result := [];
    var inEscape := false;
    var i := 0;
    while i < |s|
      invariant 0 <= i <= |s|
      invariant result + Strip(s[i..], inEscape) == Visible(s)
    {
      var c := s[i];
      assert s[i..][1..] == s[i + 1..];
      if c == ESC {
        inEscape := true;
      } else if inEscape {
        if c == 'm' {
          inEscape := false;
        }
      } else {
        result := result + [c];
      }
      i := i + 1;
    }
    assert s[i..] == [];
  }

  /** The output never contains ESC. */
  lemma {:induction false} StripHasNoEscape(s: string, inEscape: bool)
    ensures ESC !in Strip(s, inEscape)
    decreases |s|
  {
    if s != [] {
      StripHasNoEscape(s[1..], if s[0] == ESC then true else if inEscape then s[0] != 'm' else false);
    }
  }

  /** On ESC-free text outside an escape, stripping is the identity. */
  lemma {:induction false} StripIdentity(s: string)
    requires ESC !in s
    ensures Visible(s) == s
    decreases |s|
  {
    if s != [] {
      assert ESC !in s[1..];
      StripIdentity(s[1..]);
      assert s == [s[0]] + s[1..];
    }
  }

  /** Stripping twice is stripping once. */
  lemma VisibleIdempotent(s: string)
    ensures Visible(Visible(s)) == Visible(s)
  {
    StripHasNoEscape(s, false);
    StripIdentity(Visible(s));
  }

  /** `a` is obtained from `b` by deleting characters. */
  predicate IsSubsequence(a: string, b: string)
    decreases |b|
  {
    if a == [] then true
    else if b == [] then false
    else if a[0] == b[0] then IsSubsequence(a[1..], b[1..])
    else IsSubsequence(a, b[1..])
  }

  lemma {:induction false} SubsequenceSkip(a: string, b: string)
    requires b != [] && IsSubsequence(a, b[1..])
    ensures IsSubsequence(a, b)
    decreases |b|, 0
  {
    if a != [] && a[0] == b[0] {
      SubsequenceTail(a, b[1..]);
    }
  }

  lemma {:induction false} SubsequenceTail(a: string, b: string)
    requires a != [] && IsSubsequence(a, b)
    ensures IsSubsequence(a[1..], b)
    decreases |b|, 1
  {
    if a[0] != b[0] {
      SubsequenceTail(a, b[1..]);
    }
    SubsequenceSkip(a[1..], b);
  }

  /** The output is a subsequence of the input, so it is never longer. */
  lemma {:induction false} StripSubsequence(s: string, inEscape: bool)
    ensures IsSubsequence(Strip(s, inEscape), s)
    ensures |Strip(s, inEscape)| <= |s|
    decreases |s|
  {
    if s != [] {
      var next := if s[0] == ESC then true else if inEscape then s[0] != 'm' else false;
      StripSubsequence(s[1..], next);
      if s[0] == ESC || inEscape {
        if Strip(s, inEscape) != [] {
          SubsequenceSkip(Strip(s, inEscape), s);
        }
      } else {
        assert Strip(s, inEscape)[1..] == Strip(s[1..], false);
      }
    }
  }

  /** Stripping distributes over concatenation, carrying the escape state across. */
  lemma {:induction false} StripAppend(a: string, b: string, inEscape: bool)
    ensures Strip(a + b, inEscape) == Strip(a, inEscape) + Strip(b, EscapeOpenAfter(a, inEscape))
    decreases |a|
  {
    if a == [] {
      assert a + b == b;
    } else {
      assert (a + b)[0] == a[0];
      assert (a + b)[1..] == a[1..] + b;
      var next := if a[0] == ESC then true else if inEscape then a[0] != 'm' else false;
      StripAppend(a[1..], b, next);
    }
  }

  /** Inside an escape, everything up to and including the first 'm' is dropped. */
  lemma {:induction false} StripEscapeRun(t: string)
    ensures Strip(t, true) == match FindChar(t, 'm')
                              case None => []
                              case Some(k) => Strip(t[k + 1..], false)
    decreases |t|
  {
    if t != [] && t[0] != 'm' {
      StripEscapeRun(t[1..]);
      match FindChar(t[1..], 'm')
      case None =>
      case Some(k) =>
        assert t[1..][k + 1..] == t[k + 2..];
    }
  }

  /**
   * A reference definition: remove each run from an ESC up to and including
   * the next 'm'; a run with no 'm' after it removes the rest of the text.
   */
  function RemoveEscapeRuns(s: string): string
    decreases |s|
  {
    if s == [] then []
    else if s[0] != ESC then [s[0]] + RemoveEscapeRuns(s[1..])
    else match FindChar(s[1..], 'm')
      case None => []
      case Some(k) => RemoveEscapeRuns(s[k + 2..])
  }

  /** `strip_ansi` removes exactly the ESC..'m' runs. */
  lemma {:induction false} VisibleRemovesRuns(s: string)
    ensures Visible(s) == RemoveEscapeRuns(s)
    decreases |s|
  {
    if s != [] {
      if s[0] != ESC {
        VisibleRemovesRuns(s[1..]);
      } else {
        StripEscapeRun(s[1..]);
        match FindChar(s[1..], 'm')
        case None =>
        case Some(k) =>
          assert s[1..][k + 1..] == s[k + 2..];
          VisibleRemovesRuns(s[k + 2..]);
      }
    }
  }

  /** Only 'm' ends an escape: with no 'm' after an ESC, nothing after it is visible. */
  lemma EscapeWithoutTerminator(a: string, t: string)
    requires 'm' !in t
    ensures Visible(a + [ESC] + t) == Visible(a)
    ensures EscapeOpenAfter(a + [ESC] + t, false)
  {
    StripAppend(a, [ESC] + t, false);
    EscapeOpenAfterAppend(a, [ESC] + t, false);
    StripEscapeRun(t);
    OpenEscapeStaysOpen(t);
    assert ([ESC] + t)[1..] == t;
    assert a + [ESC] + t == a + ([ESC] + t);
  }

  lemma {:induction false} OpenEscapeStaysOpen(t: string)
    requires 'm' !in t
    ensures EscapeOpenAfter(t, true)
    decreases |t|
  {
    if t != [] {
      assert 'm' !in t[1..];
      OpenEscapeStaysOpen(t[1..]);
    }
  }

  lemma {:induction false} EscapeOpenAfterAppend(a: string, b: string, inEscape: bool)
    ensures EscapeOpenAfter(a + b, inEscape) == EscapeOpenAfter(b, EscapeOpenAfter(a, inEscape))
    decreases |a|
  {
    if a == [] {
      assert a + b == b;
    } else {
      assert (a + b)[0] == a[0];
      assert (a + b)[1..] == a[1..] + b;
      var next := if a[0] == ESC then true else if inEscape then a[0] != 'm' else false;
      EscapeOpenAfterAppend(a[1..], b, next);
    }
  }

  /** An erase-line sequence never closes (only `m` ends an escape), so "\x1b[2Kabc" shows nothing. */
  lemma EraseLineSwallowsRest()
    ensures Visible([ESC] + "[2Kabc") == []
  {
    EscapeWithoutTerminator([], "[2Kabc");
    assert [] + [ESC] + "[2Kabc" == [ESC] + "[2Kabc";
  }

  // ---------------------------------------------------------------------
  // normalize_duration
  // ---------------------------------------------------------------------

  /** The unit a number of seconds is shown in, with its amounts. */
  datatype Reading =
    | Seconds(secs: int)
    | Minutes(minutes: nat)
    | Hours(hours: nat)
    | DaysHours(days: nat, dayHours: nat)

  /** The unit decomposition done by `normalize_duration`. */
  function Decompose(seconds: int): (r: Reading)
    ensures seconds < 60 <==> r.Seconds?
    ensures r.Seconds? ==> r.secs == seconds
    ensures r.Minutes? ==> 60 <= seconds < 3600 && r.minutes * 60 <= seconds < (r.minutes + 1) * 60
    ensures r.Hours? ==> 3600 <= seconds < 86400 && r.hours * 3600 <= seconds < (r.hours + 1) * 3600
    ensures r.DaysHours? ==>
      && 86400 <= seconds && 1 <= r.days && r.dayHours < 24
      && r.days * 86400 + r.dayHours * 3600 <= seconds < r.days * 86400 + (r.dayHours + 1) * 3600
  {
    if seconds < 60 then Seconds(seconds)
    else if seconds < 3600 then Minutes(seconds / 60)
    else if seconds < 86400 then Hours(seconds / 3600)
    else DaysHours(seconds / 86400, (seconds % 86400) / 3600)
  }

  /** `"{n} {unit}"` with an "s" unless `n` is 1. */
  function Amount(n: int, unit: string): string {
    IntToString(n) + " " + unit + (if n != 1 then "s" else "")
  }

  /** `normalize_duration` */
  function NormalizeDuration(seconds: int): string {
    match Decompose(seconds)
    case Seconds(n) => Amount(n, "second")
    case Minutes(n) => Amount(n, "minute")
    case Hours(n) => Amount(n, "hour")
    case DaysHours(d, h) => Amount(d, "day") + " " + Amount(h, "hour")
  }

  /** A component carries the plural "s" exactly when its number is not 1. */
  lemma AmountPlural(n: int, unit: string)
    requires unit != [] && unit[|unit| - 1] != 's'
    ensures EndsWith(Amount(n, unit), unit + "s") <==> n != 1
    ensures StartsWith(Amount(n, unit), IntToString(n) + " " + unit)
  {
    var r := Amount(n, unit);
    if n == 1 {
      assert r[|r| - 1] == unit[|unit| - 1];
      var p := unit + "s";
      assert p[|p| - 1] == 's';
      assert |p| <= |r| ==> r[|r| - |p|..][|p| - 1] == r[|r| - 1];
    } else {
      assert r == (IntToString(n) + " ") + (unit + "s");
    }
    assert r[..|IntToString(n) + " " + unit|] == IntToString(n) + " " + unit;
  }

  /** A negative count of seconds is shown as seconds, with its sign and a plural. */
  lemma NegativeIsSeconds(seconds: int)
    requires seconds < 0
    ensures NormalizeDuration(seconds) == IntToString(seconds) + " seconds"
  {
  }
}
