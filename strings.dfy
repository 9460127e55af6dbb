/**
 * The parts of Rust's `str` API that the modelled code relies on, over
 * `string` (a sequence of Unicode scalar values). Byte offsets of the
 * original become character offsets here except where `Utf8Len` is used.
 */
module Strings {
  import opened Wrappers

  /** Rust's `char::is_whitespace`: the Unicode White_Space property. */
  predicate IsWhitespace(c: char) {
    ('\t' <= c <= '\r') || c == ' ' || c == '\U{85}' || c == '\U{A0}' || c == '\U{1680}'
    || ('\U{2000}' <= c <= '\U{200A}') || c == '\U{2028}' || c == '\U{2029}'
    || c == '\U{202F}' || c == '\U{205F}' || c == '\U{3000}'
  }

  predicate NoWhitespace(s: string) {
    forall i :: 0 <= i < |s| ==> !IsWhitespace(s[i])
  }

  predicate StartsWith(s: string, p: string) {
    |p| <= |s| && s[..|p|] == p
  }

  predicate EndsWith(s: string, p: string) {
    |p| <= |s| && s[|s| - |p|..] == p
  }

  /** `p` occurs in `s` starting at index `i`. */
  predicate OccursAt(s: string, p: string, i: int) {
    0 <= i && i + |p| <= |s| && s[i..i + |p|] == p
  }

  /** `s.contains(p)` */
  predicate Contains(s: string, p: string) {
    exists i | 0 <= i <= |s| - |p| :: OccursAt(s, p, i)
  }

  lemma OccursShift(s: string, p: string, i: int)
    requires 0 < |s| && 0 <= i
    ensures OccursAt(s[1..], p, i) <==> OccursAt(s, p, i + 1)
  {
    if 0 <= i && i + |p| <= |s| - 1 {
      assert s[1..][i..i + |p|] == s[i + 1..i + 1 + |p|];
    }
  }

  /** A string shorter than `p` cannot contain `p`. */
  lemma ShortNotContains(s: string, p: string)
    requires |s| < |p|
    ensures !Contains(s, p)
  {
  }

  /** A string whose first character differs from `p`'s does not start with `p`. */
  lemma FirstCharBlocksPrefix(s: string, p: string)
    requires p != [] && (s == [] || s[0] != p[0])
    ensures !StartsWith(s, p)
  {
    if |p| <= |s| {
      assert s[..|p|][0] == s[0];
    }
  }

  /** `s` cannot contain `p` when a character of `p` is missing from `s`. */
  lemma MissingCharNotContains(s: string, p: string, c: char)
    requires c in p && c !in s
    ensures !Contains(s, p)
  {
    var k :| 0 <= k < |p| && p[k] == c;
    forall i | 0 <= i <= |s| - |p|
      ensures !OccursAt(s, p, i)
    {
      if 0 <= i && i + |p| <= |s| {
        assert s[i..i + |p|][k] == s[i + k];
      }
    }
  }

  /** The first position holding `true` (the shape of a `for` loop that returns on the first match). */
  function FirstTrue(flags: seq<bool>): (r: Option<nat>)
    ensures r.Some? ==> r.value < |flags| && flags[r.value]
    ensures r.Some? ==> forall k :: 0 <= k < r.value ==> !flags[k]
    ensures r.None? ==> forall k :: 0 <= k < |flags| ==> !flags[k]
  {
    if flags == [] then None
    else if flags[0] then Some(0)
    else
      match FirstTrue(flags[1..])
      case None => None
      case Some(k) => Some(k + 1)
  }

  /** `s.find(p)`: the first index at which `p` occurs. */
  function IndexOf(s: string, p: string): (r: Option<nat>)
    ensures r.Some? ==> OccursAt(s, p, r.value)
    ensures r.Some? ==> forall j :: 0 <= j < r.value ==> !OccursAt(s, p, j)
    ensures r.None? <==> !Contains(s, p)
    decreases |s|
  {
    if |s| < |p| then None
    else if s[..|p|] == p then (assert OccursAt(s, p, 0); Some(0))
    else
      var rest := IndexOf(s[1..], p);
      IndexOfStep(s, p, rest);
      match rest
      case None => None
      case Some(k) => Some(k + 1)
  }

  lemma IndexOfStep(s: string, p: string, rest: Option<nat>)
    requires |p| <= |s| && s[..|p|] != p
    requires rest.Some? ==> OccursAt(s[1..], p, rest.value)
    requires rest.Some? ==> forall j :: 0 <= j < rest.value ==> !OccursAt(s[1..], p, j)
    requires rest.None? <==> !Contains(s[1..], p)
    ensures rest.Some? ==> OccursAt(s, p, rest.value + 1)
    ensures rest.Some? ==> forall j :: 0 <= j < rest.value + 1 ==> !OccursAt(s, p, j)
    ensures rest.None? <==> !Contains(s, p)
  {
    assert !OccursAt(s, p, 0);
    if Contains(s, p) {
      var i :| 0 <= i <= |s| - |p| && OccursAt(s, p, i);
      OccursShift(s, p, i - 1);
    }
    if Contains(s[1..], p) {
      var i :| 0 <= i <= |s| - 1 - |p| && OccursAt(s[1..], p, i);
      OccursShift(s, p, i);
    }
    if rest.Some? {
      OccursShift(s, p, rest.value);
      forall j | 0 <= j < rest.value + 1
        ensures !OccursAt(s, p, j)
      {
        if j > 0 {
          OccursShift(s, p, j - 1);
        }
      }
    }
  }

  /**
   * `s.split(sep).next()`: the text before the first `sep`, or all of `s`.
   * The contract pins the result for a separator that has no border (no
   * proper prefix that is also a suffix), as `/$repo`, " - " and `]` are.
   */
  function BeforeFirst(s: string, sep: string): (r: string)
    ensures StartsWith(s, r)
    ensures !Contains(s, sep) ==> r == s
    ensures Contains(s, sep) ==> StartsWith(s[|r|..], sep)
    ensures sep != [] ==> !Contains(r, sep)
  {
    match IndexOf(s, sep)
    case None => s
    case Some(i) =>
      assert s[i..][..|sep|] == s[i..i + |sep|];
      if sep != [] then PrefixOccurrences(s, sep, i); s[..i] else s[..i]
  }

  /** An occurrence inside `s[..i]` is an occurrence in `s`. */
  lemma PrefixOccurrences(s: string, p: string, i: nat)
    requires p != [] && i <= |s|
    requires forall j :: 0 <= j < i ==> !OccursAt(s, p, j)
    ensures !Contains(s[..i], p)
  {
    forall j | 0 <= j <= i - |p|
      ensures !OccursAt(s[..i], p, j)
    {
      assert j < i && !OccursAt(s, p, j);
      assert s[..i][j..j + |p|] == s[j..j + |p|];
    }
  }

  /** `s.strip_prefix(p)` */
  function StripPrefix(s: string, p: string): (r: Option<string>)
    ensures r.Some? <==> StartsWith(s, p)
    ensures r.Some? ==> s == p + r.value
  {
    if StartsWith(s, p) then Some(s[|p|..]) else None
  }

  /** `s.trim_start()` */
  function TrimStart(s: string): (r: string)
    ensures |r| <= |s| && r == s[|s| - |r|..]
    ensures r != [] ==> !IsWhitespace(r[0])
    ensures forall i :: 0 <= i < |s| - |r| ==> IsWhitespace(s[i])
  {
    if s != [] && IsWhitespace(s[0]) then
      var r := TrimStart(s[1..]);
      assert forall i | 1 <= i < |s| :: s[i] == s[1..][i - 1];
      r
    else s
  }

  /** `s.trim_end()` */
  function TrimEnd(s: string): (r: string)
    ensures |r| <= |s| && r == s[..|r|]
    ensures r != [] ==> !IsWhitespace(r[|r| - 1])
    ensures forall i :: |r| <= i < |s| ==> IsWhitespace(s[i])
  {
    if s != [] && IsWhitespace(s[|s| - 1]) then TrimEnd(s[..|s| - 1]) else s
  }

  /** `s.trim()` */
  function Trim(s: string): (r: string)
    ensures |r| <= |s|
    ensures r != [] ==> !IsWhitespace(r[0]) && !IsWhitespace(r[|r| - 1])
  {
    TrimEnd(TrimStart(s))
  }

  /** Trimming a string that neither starts nor ends with whitespace changes nothing. */
  lemma TrimNoOp(s: string)
    requires s != [] ==> !IsWhitespace(s[0]) && !IsWhitespace(s[|s| - 1])
    ensures Trim(s) == s
  {
  }

  /** Trimming keeps every occurrence of a text that neither starts nor ends with whitespace. */
  lemma TrimKeepsContained(s: string, m: string)
    requires m != [] && !IsWhitespace(m[0]) && !IsWhitespace(m[|m| - 1])
    requires Contains(s, m)
    ensures Contains(Trim(s), m)
  {
    TrimStartKeeps(s, m);
    TrimEndKeeps(TrimStart(s), m);
  }

  /** `trim_start` keeps every occurrence of a text that does not start with whitespace. */
  lemma {:induction false} TrimStartKeeps(s: string, m: string)
    requires m != [] && !IsWhitespace(m[0]) && Contains(s, m)
    ensures Contains(TrimStart(s), m)
    decreases |s|
  {
    if s != [] && IsWhitespace(s[0]) {
      var i :| 0 <= i <= |s| - |m| && OccursAt(s, m, i);
      CharsOfOccurrence(s, m, i);
      assert i != 0;
      OccursShift(s, m, i - 1);
      assert OccursAt(s[1..], m, i - 1);
      TrimStartKeeps(s[1..], m);
    }
  }

  /** `trim_end` keeps every occurrence of a text that does not end with whitespace. */
  lemma {:induction false} TrimEndKeeps(s: string, m: string)
    requires m != [] && !IsWhitespace(m[|m| - 1]) && Contains(s, m)
    ensures Contains(TrimEnd(s), m)
    decreases |s|
  {
    if s != [] && IsWhitespace(s[|s| - 1]) {
      var i :| 0 <= i <= |s| - |m| && OccursAt(s, m, i);
      CharsOfOccurrence(s, m, i);
      assert i + |m| < |s|;
      PrefixSlice(s, |s| - 1, i, i + |m|);
      assert OccursAt(s[..|s| - 1], m, i);
      TrimEndKeeps(s[..|s| - 1], m);
    }
  }

  /** The first and last characters of an occurrence. */
  lemma CharsOfOccurrence(s: string, m: string, i: nat)
    requires m != [] && OccursAt(s, m, i)
    ensures s[i] == m[0] && s[i + |m| - 1] == m[|m| - 1]
  {
    assert s[i..i + |m|][0] == s[i];
    assert s[i..i + |m|][|m| - 1] == s[i + |m| - 1];
  }

  lemma PrefixSlice<T>(s: seq<T>, n: nat, i: nat, j: nat)
    requires i <= j <= n <= |s|
    ensures s[..n][i..j] == s[i..j]
  {
  }

  /** `Trim(s)` is a piece of `s`. */
  lemma TrimIsInfix(s: string)
    ensures Contains(s, Trim(s))
  {
    var a := TrimStart(s);
    var d := |s| - |a|;
    var r := Trim(s);
    assert r == a[..|r|];
    assert s[d..d + |r|] == r;
    assert OccursAt(s, r, d);
  }

  /**
   * Trimming a text that starts with non-whitespace keeps a prefix of it,
   * and only whitespace follows that prefix.
   */
  lemma TrimFromVisibleStart(s: string)
    requires s != [] && !IsWhitespace(s[0])
    ensures Trim(s) == s[..|Trim(s)|]
    ensures forall j :: |Trim(s)| <= j < |s| ==> IsWhitespace(s[j])
  {
    assert TrimStart(s) == s;
  }

  /** An occurrence of `p` inside a piece `t` of `s` is an occurrence in `s`. */
  lemma InfixContains(s: string, t: string, k: nat, p: string)
    requires k + |t| <= |s| && s[k..k + |t|] == t
    requires Contains(t, p)
    ensures Contains(s, p)
  {
    var i :| 0 <= i <= |t| - |p| && OccursAt(t, p, i);
    forall j | 0 <= j < |p| ensures s[k + i + j] == p[j] {
      assert p[j] == t[i..i + |p|][j] == t[i + j] == s[k..k + |t|][i + j];
    }
    assert s[k + i..k + i + |p|] == p;
    assert OccursAt(s, p, k + i);
  }

  /** Containment is transitive. */
  lemma ContainsTrans(s: string, t: string, p: string)
    requires Contains(s, t) && Contains(t, p)
    ensures Contains(s, p)
  {
    var k :| 0 <= k <= |s| - |t| && OccursAt(s, t, k);
    InfixContains(s, t, k, p);
  }

  /** `s.trim_start_matches(c)`: every leading `c` removed. */
  function TrimStartMatches(s: string, c: char): (r: string)
    ensures |r| <= |s| && r == s[|s| - |r|..]
    ensures r != [] ==> r[0] != c
  {
    if s != [] && s[0] == c then TrimStartMatches(s[1..], c) else s
  }

  /** `trim_start_matches` removes only copies of `c`. */
  lemma {:induction false} TrimStartMatchesDropsOnly(s: string, c: char)
    ensures forall i :: 0 <= i < |s| - |TrimStartMatches(s, c)| ==> s[i] == c
  {
    if s != [] && s[0] == c {
      TrimStartMatchesDropsOnly(s[1..], c);
    }
  }

  /** Length of the leading run of non-whitespace characters. */
  function TokenLen(s: string): (k: nat)
    ensures k <= |s|
    ensures NoWhitespace(s[..k])
    ensures k < |s| ==> IsWhitespace(s[k])
  {
    if s == [] || IsWhitespace(s[0]) then 0 else 1 + TokenLen(s[1..])
  }

  /** `s.split_whitespace()` */
  function SplitWhitespace(s: string): (r: seq<string>)
    ensures forall k :: 0 <= k < |r| ==> r[k] != [] && NoWhitespace(r[k])
    decreases |s|
  {
    var t := TrimStart(s);
    if t == [] then []
    else
      var k := TokenLen(t);
      assert k != 0 by { assert !IsWhitespace(t[0]); }
      var rest := SplitWhitespace(t[k..]);
      ConsTokens(t[..k], rest);
      [t[..k]] + rest
  }

  lemma ConsTokens(head: string, rest: seq<string>)
    requires head != [] && NoWhitespace(head)
    requires forall k :: 0 <= k < |rest| ==> rest[k] != [] && NoWhitespace(rest[k])
    ensures forall k :: 0 <= k < |[head] + rest| ==> ([head] + rest)[k] != [] && NoWhitespace(([head] + rest)[k])
  {
  }

  /** Splitting `a + w + b`, where `a` is one token and `w` a whitespace character, gives `a` first. */
  lemma SplitWhitespaceCons(a: string, w: char, b: string)
    requires a != [] && NoWhitespace(a) && IsWhitespace(w)
    ensures SplitWhitespace(a + [w] + b) == [a] + SplitWhitespace(b)
  {
    var s := a + [w] + b;
    var wb := [w] + b;
    assert s == a + wb;
    assert s[0] == a[0];
    assert TrimStart(s) == s;
    TokenLenPrefix(a, wb);
    assert TokenLen(wb) == 0;
    assert TokenLen(s) == |a|;
    assert s[..|a|] == a;
    assert s[|a|..] == wb;
    assert SplitWhitespace(s) == [a] + SplitWhitespace(wb);
    assert wb[1..] == b;
    assert TrimStart(wb) == TrimStart(b);
  }

  lemma TokenLenPrefix(a: string, rest: string)
    requires NoWhitespace(a)
    ensures TokenLen(a + rest) == |a| + TokenLen(rest)
    decreases |a|
  {
    if a != [] {
      assert (a + rest)[1..] == a[1..] + rest;
      TokenLenPrefix(a[1..], rest);
    } else {
      assert a + rest == rest;
    }
  }

  /** A single token splits to itself. */
  lemma SplitWhitespaceSingle(a: string)
    requires a != [] && NoWhitespace(a)
    ensures SplitWhitespace(a) == [a]
  {
    TokenLenPrefix(a, []);
    assert a + [] == a;
    assert a[|a|..] == [];
  }

  /** Index of the first `c` in `s`. */
  function FindChar(s: string, c: char): (r: Option<nat>)
    ensures r.Some? ==> r.value < |s| && s[r.value] == c && c !in s[..r.value]
    ensures r.None? <==> c !in s
  {
    if s == [] then None
    else if s[0] == c then Some(0)
    else match FindChar(s[1..], c)
      case None => None
      case Some(k) => (assert s[..k + 1] == [s[0]] + s[1..][..k]; Some(k + 1))
  }

  /** `s` without one trailing '\r'. */
  function DropCr(s: string): (r: string)
    ensures r == s || (s == r + "\r")
  {
    if s != [] && s[|s| - 1] == '\r' then s[..|s| - 1] else s
  }

  /**
   * `s.lines()`: a piece ended by '\n' loses the '\n' and one '\r' just before it;
   * the last piece is kept as it is, and there is no empty piece after a final '\n'.
   */
  function Lines(s: string): (r: seq<string>)
    ensures forall k :: 0 <= k < |r| ==> '\n' !in r[k]
    decreases |s|
  {
    if s == [] then []
    else match FindChar(s, '\n')
      case None => [s]
      case Some(i) => [DropCr(s[..i])] + Lines(s[i + 1..])
  }

  /** A line-free non-empty text is one line. */
  lemma LinesSingle(s: string)
    requires s != [] && '\n' !in s
    ensures Lines(s) == [s]
  {
  }

  predicate IsDigit(c: char) {
    '0' <= c <= '9'
  }

  predicate AllDigits(s: string) {
    forall i :: 0 <= i < |s| ==> IsDigit(s[i])
  }

  function DigitChar(d: nat): (c: char)
    requires d < 10
    ensures IsDigit(c) && (c as int) - ('0' as int) == d
  {
    (('0' as int) + d) as char
  }

  /** The value of a run of decimal digits. */
  function DecimalValue(s: string): nat
    requires AllDigits(s)
  {
    if s == [] then 0
    else DecimalValue(s[..|s| - 1]) * 10 + ((s[|s| - 1] as int) - ('0' as int))
  }

  /** `n.to_string()` for a non-negative integer: no sign, no leading zero. */
  function NatToString(n: nat): (r: string)
    ensures r != [] && AllDigits(r)
    ensures |r| > 1 ==> r[0] != '0'
  {
    if n < 10 then [DigitChar(n)] else NatToString(n / 10) + [DigitChar(n % 10)]
  }

  /** `i.to_string()` for a signed integer. */
  function IntToString(i: int): (r: string)
    ensures i < 0 <==> (r != [] && r[0] == '-')
  {
    if i < 0 then "-" + NatToString(-i) else NatToString(i)
  }

  /** Rendering then reading back a number gives the number. */
  lemma {:induction false} DecimalValueOfNatToString(n: nat)
    ensures DecimalValue(NatToString(n)) == n
    decreases n
  {
    if n >= 10 {
      DecimalValueOfNatToString(n / 10);
      var r := NatToString(n);
      assert r[..|r| - 1] == NatToString(n / 10);
    }
  }

  /** Numbers below 10 print as one digit, below 100 as at most two. */
  lemma NatToStringShort(n: nat)
    ensures n < 10 ==> |NatToString(n)| == 1
    ensures n < 100 ==> |NatToString(n)| <= 2
    ensures n < 1000 ==> |NatToString(n)| <= 3
  {
  }

  /**
   * `s.parse::<u8>()`: one optional leading '+', then one or more ASCII
   * digits, value at most 255.
   */
  function ParseU8(s: string): (r: Option<nat>)
    ensures r.Some? ==> r.value < 256
    ensures r.Some? ==> s != [] && forall i :: 0 <= i < |s| ==> IsDigit(s[i]) || (i == 0 && s[i] == '+')
  {
    var digits := if |s| > 0 && s[0] == '+' then s[1..] else s;
    if digits == [] || !AllDigits(digits) then None
    else
      var v := DecimalValue(digits);
      if v < 256 then Some(v) else None
  }

  /** `ParseU8` reads back what `NatToString` prints. */
  lemma ParseU8OfNatToString(n: nat)
    requires n < 256
    ensures ParseU8(NatToString(n)) == Some(n)
  {
    DecimalValueOfNatToString(n);
  }

  /** `c.to_string().repeat(n)` */
  function Repeat(c: char, n: nat): (r: string)
    ensures |r| == n && forall i :: 0 <= i < n ==> r[i] == c
  {
    seq(n, i => c)
  }

  /** Number of bytes of `c` in UTF-8. */
  function CharUtf8Len(c: char): nat {
    if c as int < 0x80 then 1
    else if c as int < 0x800 then 2
    else if c as int < 0x10000 then 3
    else 4
  }

  /** `s.len()`: the length of `s` in UTF-8 bytes. */
  function Utf8Len(s: string): (n: nat)
    ensures n >= |s|
  {
    if s == [] then 0 else Utf8Len(s[..|s| - 1]) + CharUtf8Len(s[|s| - 1])
  }

  predicate IsAscii(s: string) {
    forall i :: 0 <= i < |s| ==> s[i] as int < 0x80
  }

  /** For an ASCII string the byte length is the character count, and only then. */
  lemma {:induction false} Utf8LenAscii(s: string)
    ensures Utf8Len(s) == |s| <==> IsAscii(s)
  {
    if s != [] {
      Utf8LenAscii(s[..|s| - 1]);
      assert Utf8Len(s[..|s| - 1]) >= |s| - 1;
      if IsAscii(s) {
        assert IsAscii(s[..|s| - 1]);
      } else if IsAscii(s[..|s| - 1]) {
        assert s[|s| - 1] as int >= 0x80 by {
          var i :| 0 <= i < |s| && s[i] as int >= 0x80;
          if i < |s| - 1 {
            assert s[..|s| - 1][i] == s[i];
          }
        }
      }
    }
  }

  lemma Utf8LenAppend(a: string, b: string)
    ensures Utf8Len(a + b) == Utf8Len(a) + Utf8Len(b)
    decreases |b|
  {
    if b == [] {
      assert a + b == a;
    } else {
      assert (a + b)[..|a + b| - 1] == a + b[..|b| - 1];
      Utf8LenAppend(a, b[..|b| - 1]);
    }
  }

  function LowerAsciiChar(c: char): char {
    if 'A' <= c <= 'Z' then ((c as int) + 32) as char else c
  }

  /** `s.to_lowercase()`, restricted to ASCII letters (other characters unchanged). */
  function ToLowerAscii(s: string): (r: string)
    ensures |r| == |s| && forall i :: 0 <= i < |s| ==> r[i] == LowerAsciiChar(s[i])
  {
    seq(|s|, i requires 0 <= i < |s| => LowerAsciiChar(s[i]))
  }
}
