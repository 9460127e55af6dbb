/**
 * `src/color.rs`: the colour settings of the configuration — a name from a
 * fixed table, `#rrggbb`, or `none`.
 */
module Colors {
  import opened Wrappers
  import opened Strings

  /** The terminal colours the table can name, and a 24-bit colour. */
  datatype Color =
    | Black | DarkGrey | Red | DarkRed | Green | DarkGreen | Yellow | DarkYellow
    | Blue | DarkBlue | Magenta | DarkMagenta | Cyan | DarkCyan | White | Grey
    | Rgb(r: nat, g: nat, b: nat)

  // --- `u8::from_str_radix(_, 16)` ---

  /** `c.to_digit(16)` */
  function HexDigit(c: char): (r: Option<nat>)
    ensures r.Some? ==> r.value < 16
    ensures r.Some? <==> '0' <= c <= '9' || 'a' <= c <= 'f' || 'A' <= c <= 'F'
  {
    if '0' <= c <= '9' then Some(c as int - '0' as int)
    else if 'a' <= c <= 'f' then Some(c as int - 'a' as int + 10)
    else if 'A' <= c <= 'F' then Some(c as int - 'A' as int + 10)
    else None
  }

  predicate AllHexDigits(s: string) {
    forall i :: 0 <= i < |s| ==> HexDigit(s[i]).Some?
  }

  /** Base-16 value of a string of hex digits, most significant first. */
  function HexValue(s: string): nat
    requires AllHexDigits(s)
  {
    if s == [] then 0 else HexValue(s[..|s| - 1]) * 16 + HexDigit(s[|s| - 1]).value
  }

  /**
   * `u8::from_str_radix(s, 16)`: one optional leading `+` (a lone sign is an
   * error, and `-` is never accepted for an unsigned type), then at least one
   * hex digit of either case, and a value that fits in a byte.
   */
  function ParseHexU8(s: string): (r: Option<nat>)
    ensures r.Some? ==> r.value < 256
    ensures r.Some? ==> IsAscii(s)
  {
    if s == [] || s == "+" || s == "-" then None
    else
      var digits := if s[0] == '+' then s[1..] else s;
      if !AllHexDigits(digits) then None
      else
        var v := HexValue(digits);
        if v < 256 then
          assert forall i :: 0 <= i < |s| ==> s[i] == '+' || HexDigit(s[i]).Some? by {
            forall i | 0 <= i < |s| ensures s[i] == '+' || HexDigit(s[i]).Some? {
              if s[0] == '+' && i > 0 { assert s[i] == digits[i - 1]; }
            }
          }
          Some(v)
        else None
  }

  /** The hex digit of `d`, upper- or lower-case. */
  function HexChar(d: nat, upper: bool): (c: char)
    requires d < 16
    ensures HexDigit(c) == Some(d)
  {
    if d < 10 then ('0' as int + d) as char
    else if upper then ('A' as int + d - 10) as char
    else ('a' as int + d - 10) as char
  }

  /** Two hex digits for a byte, as `{:02x}` or `{:02X}` prints it. */
  function Hex2(n: nat, upper: bool): (s: string)
    requires n < 256
    ensures |s| == 2 && IsAscii(s)
  {
    [HexChar(n / 16, upper), HexChar(n % 16, upper)]
  }

  lemma ParseHex2(n: nat, upper: bool)
    requires n < 256
    ensures ParseHexU8(Hex2(n, upper)) == Some(n)
  {
    var s := Hex2(n, upper);
    assert s[0] != '+' && s != "-";
    assert AllHexDigits(s);
    assert s[..1] == [s[0]] && s[..1][..0] == [];
    assert HexValue(s[..1]) == HexDigit(s[0]).value by {
      assert AllHexDigits(s[..1]) && s[..1][0] == s[0];
    }
    assert HexValue(s) == HexValue(s[..1]) * 16 + HexDigit(s[1]).value;
  }

  // --- byte slicing of a `&str` ---

  /**
   * The character index at which byte offset `b` of `s` falls, or `None`
   * when `b` is inside a character or past the end (`&s[..b]` then panics).
   */
  function CharIndexAtByte(s: string, b: nat): (r: Option<nat>)
    ensures r.Some? ==> r.value <= |s| && Utf8Len(s[..r.value]) == b
  {
    if b == 0 then Some(0)
    else if s == [] || CharUtf8Len(s[0]) > b then None
    else
      match CharIndexAtByte(s[1..], b - CharUtf8Len(s[0]))
      case None => None
      case Some(i) =>
        assert s[..i + 1] == [s[0]] + s[1..][..i];
        Utf8LenAppend([s[0]], s[1..][..i]);
        assert Utf8Len([s[0]]) == CharUtf8Len(s[0]) by { assert [s[0]][..0] == []; }
        Some(i + 1)
  }

  /** A byte offset with no character index falls inside a character or past the end: no prefix has that UTF-8 length. */
  lemma {:induction false} CharIndexAtByteNone(s: string, b: nat)
    requires CharIndexAtByte(s, b).None?
    ensures forall k :: 0 <= k <= |s| ==> Utf8Len(s[..k]) != b
  {
    forall k | 0 <= k <= |s|
      ensures Utf8Len(s[..k]) != b
    {
      if k > 0 {
        assert s[..k] == [s[0]] + s[1..][..k - 1];
        Utf8LenAppend([s[0]], s[1..][..k - 1]);
        assert Utf8Len([s[0]]) == CharUtf8Len(s[0]) by { assert [s[0]][..0] == []; }
        if CharUtf8Len(s[0]) <= b {
          CharIndexAtByteNone(s[1..], b - CharUtf8Len(s[0]));
        }
      }
    }
  }

  /** In ASCII text every byte offset up to the end is a character boundary. */
  lemma {:induction false} AsciiByteIndex(s: string, b: nat)
    requires IsAscii(s) && b <= |s|
    ensures CharIndexAtByte(s, b) == Some(b)
  {
    if b > 0 {
      assert IsAscii(s[1..]);
      AsciiByteIndex(s[1..], b - 1);
    }
  }

  // --- `parse_hex` ---

  /** How `parse_hex` ends: with an answer, or with a panic on a bad slice. */
  datatype HexOutcome = Answer(color: Option<Color>) | Panics

  /**
   * `parse_hex` as written: the length check counts BYTES, and the three
   * slices `hex[0..2]`, `hex[2..4]`, `hex[4..6]` are taken by byte offset, one
   * after the other, each parse returning early on failure.
   */
  function ParseHexAsWritten(s: string): (r: HexOutcome)
    ensures r.Answer? && r.color.Some? ==> r.color.value.Rgb?
  {
    match StripPrefix(s, "#")
    case None => Answer(None)
    case Some(hex) =>
      if Utf8Len(hex) != 6 then Answer(None)
      else
        match CharIndexAtByte(hex, 2)
        case None => Panics
        case Some(i) =>
          match ParseHexU8(hex[..i])
          case None => Answer(None)
          case Some(r) =>
            match CharIndexAtByte(hex, 4)
            case None => Panics
            case Some(j) =>
              if j < i then Answer(None)  // unreachable: offsets grow with indices
              else
                match ParseHexU8(hex[i..j])
                case None => Answer(None)
                case Some(g) =>
                  match ParseHexU8(hex[j..])
                  case None => Answer(None)
                  case Some(b) => Answer(Some(Rgb(r, g, b)))
  }

  /**
   * `parse_hex` as evidently intended: six bytes after `#`, which must then
   * be six ASCII characters, read as three bytes in base 16; anything else is
   * no colour rather than a panic.
   */
  function ParseHex(s: string): (r: Option<Color>)
    ensures r.Some? ==> r.value.Rgb? && r.value.r < 256 && r.value.g < 256 && r.value.b < 256
    ensures r.Some? ==> StartsWith(s, "#") && Utf8Len(s[1..]) == 6
  {
    match StripPrefix(s, "#")
    case None => None
    case Some(hex) =>
      if Utf8Len(hex) != 6 || !IsAscii(hex) then None
      else
        Utf8LenAscii(hex);
        match (ParseHexU8(hex[..2]), ParseHexU8(hex[2..4]), ParseHexU8(hex[4..]))
        case (Some(r), Some(g), Some(b)) => Some(Rgb(r, g, b))
        case _ => None
  }

  /** Exactly six bytes must follow the `#`. */
  lemma ParseHexLength(s: string)
    requires StartsWith(s, "#") && Utf8Len(s[1..]) != 6
    ensures ParseHex(s) == None && ParseHexAsWritten(s) == Answer(None)
  {
  }

  /** `#` and three two-digit hex bytes, in any mix of case, read back as that colour. */
  lemma ParseHexRoundTrip(r: nat, g: nat, b: nat, ur: bool, ug: bool, ub: bool)
    requires r < 256 && g < 256 && b < 256
    ensures ParseHex("#" + Hex2(r, ur) + Hex2(g, ug) + Hex2(b, ub)) == Some(Rgb(r, g, b))
  {
    var hex := Hex2(r, ur) + Hex2(g, ug) + Hex2(b, ub);
    var s := "#" + hex;
    assert "#" + Hex2(r, ur) + Hex2(g, ug) + Hex2(b, ub) == s;
    assert StripPrefix(s, "#") == Some(hex) by { assert s[1..] == hex; }
    assert IsAscii(hex);
    Utf8LenAscii(hex);
    assert hex[..2] == Hex2(r, ur) && hex[2..4] == Hex2(g, ug) && hex[4..] == Hex2(b, ub);
    ParseHex2(r, ur);
    ParseHex2(g, ug);
    ParseHex2(b, ub);
    assert ParseHexU8(hex[..2]) == Some(r) && ParseHexU8(hex[2..4]) == Some(g) && ParseHexU8(hex[4..]) == Some(b);
  }

  /** A `#` followed by three ASCII pieces: the original sees the same three slices. */
  lemma AsWrittenOnAscii(hex: string)
    requires IsAscii(hex) && |hex| == 6
    ensures ParseHexAsWritten("#" + hex) == Answer(ParseHex("#" + hex))
  {
    var s := "#" + hex;
    assert StripPrefix(s, "#") == Some(hex) by { assert s[1..] == hex; }
    Utf8LenAscii(hex);
    AsciiByteIndex(hex, 2);
    AsciiByteIndex(hex, 4);
  }

  /** The slices the original takes concatenate back to the whole. */
  lemma SlicesAscii(hex: string, i: nat, j: nat)
    requires i <= j <= |hex|
    requires IsAscii(hex[..i]) && IsAscii(hex[i..j]) && IsAscii(hex[j..])
    ensures IsAscii(hex)
  {
    forall k | 0 <= k < |hex| ensures hex[k] as int < 0x80 {
      if k < i { assert hex[k] == hex[..i][k]; }
      else if k < j { assert hex[k] == hex[i..j][k - i]; }
      else { assert hex[k] == hex[j..][k - j]; }
    }
  }

  /**
   * Wherever the original does not panic, it gives the corrected answer:
   * a colour is only ever read from ASCII text, where byte and character
   * offsets agree, and non-ASCII text never parses.
   */
  lemma AsWrittenAgrees(s: string)
    requires ParseHexAsWritten(s).Answer?
    ensures ParseHexAsWritten(s).color == ParseHex(s)
  {
    match StripPrefix(s, "#")
    case None =>
    case Some(hex) =>
      assert s == "#" + hex;
      if Utf8Len(hex) == 6 {
        if IsAscii(hex) {
          Utf8LenAscii(hex);
          AsWrittenOnAscii(hex);
        } else {
          var i := CharIndexAtByte(hex, 2).value;
          if ParseHexU8(hex[..i]).Some? {
            var j := CharIndexAtByte(hex, 4).value;
            if j >= i && ParseHexU8(hex[i..j]).Some? && ParseHexU8(hex[j..]).Some? {
              SlicesAscii(hex, i, j);
              assert false;
            }
          }
        }
      }
  }

  /** A non-ASCII character inside a six-byte `#` value makes the original panic. */
  lemma AsWrittenPanics()
    ensures ParseHexAsWritten("#a€bc") == Panics
    ensures ParseHex("#a€bc") == None
  {
    var hex := "a€bc";
    assert "#a€bc"[1..] == hex;
    assert Utf8Len(hex) == 6 by {
      assert hex[..3] == "a€b";
      assert "a€b"[..2] == "a€";
      assert "a€"[..1] == "a";
      assert "a"[..0] == "";
      assert CharUtf8Len('€') == 3;
    }
    assert CharIndexAtByte(hex[1..], 1) == None;
    assert !IsAscii(hex) by { assert hex[1] as int >= 0x80; }
  }

  // --- `parse_named` ---

  /** `parse_named`: the colour table, with its synonyms. */
  function ParseNamed(s: string): (r: Option<Color>)
    ensures r.Some? ==> !r.value.Rgb?
  {
    match s
    case "black" => Some(Black)
    case "red" => Some(DarkRed)
    case "dark_red" => Some(DarkRed)
    case "green" => Some(DarkGreen)
    case "dark_green" => Some(DarkGreen)
    case "yellow" => Some(DarkYellow)
    case "dark_yellow" => Some(DarkYellow)
    case "blue" => Some(DarkBlue)
    case "dark_blue" => Some(DarkBlue)
    case "magenta" => Some(DarkMagenta)
    case "dark_magenta" => Some(DarkMagenta)
    case "cyan" => Some(DarkCyan)
    case "dark_cyan" => Some(DarkCyan)
    case "white" => Some(White)
    case "grey" => Some(Grey)
    case "gray" => Some(Grey)
    case "bright_red" => Some(Red)
    case "bright_green" => Some(Green)
    case "bright_yellow" => Some(Yellow)
    case "bright_blue" => Some(Blue)
    case "bright_magenta" => Some(Magenta)
    case "bright_cyan" => Some(Cyan)
    case "bright_white" => Some(White)
    case "dark_grey" => Some(DarkGrey)
    case "dark_gray" => Some(DarkGrey)
    case _ => None
  }

  /** A name the table answers to for each of its colours. */
  function NameOf(c: Color): (name: string)
    requires !c.Rgb?
    ensures ParseNamed(name) == Some(c)
  {
    match c
    case Black => "black"
    case DarkGrey => "dark_grey"
    case Red => "bright_red"
    case DarkRed => "dark_red"
    case Green => "bright_green"
    case DarkGreen => "dark_green"
    case Yellow => "bright_yellow"
    case DarkYellow => "dark_yellow"
    case Blue => "bright_blue"
    case DarkBlue => "dark_blue"
    case Magenta => "bright_magenta"
    case DarkMagenta => "dark_magenta"
    case Cyan => "bright_cyan"
    case DarkCyan => "dark_cyan"
    case White => "white"
    case Grey => "grey"
  }

  /** The synonyms of the table. */
  lemma NamedSynonyms()
    ensures ParseNamed("red") == ParseNamed("dark_red") == Some(DarkRed)
    ensures ParseNamed("white") == ParseNamed("bright_white") == Some(White)
    ensures ParseNamed("grey") == ParseNamed("gray") == Some(Grey)
    ensures ParseNamed("dark_grey") == ParseNamed("dark_gray") == Some(DarkGrey)
    ensures ParseNamed("purple") == None && ParseNamed("none") == None
  {
    RedSynonyms();
    WhiteSynonyms();
    GreySynonyms();
    DarkGreySynonyms();
    NotNames();
  }

  lemma RedSynonyms()
    ensures ParseNamed("red") == ParseNamed("dark_red") == Some(DarkRed)
  {
  }

  lemma WhiteSynonyms()
    ensures ParseNamed("white") == ParseNamed("bright_white") == Some(White)
  {
  }

  lemma GreySynonyms()
    ensures ParseNamed("grey") == ParseNamed("gray") == Some(Grey)
  {
  }

  lemma DarkGreySynonyms()
    ensures ParseNamed("dark_grey") == ParseNamed("dark_gray") == Some(DarkGrey)
  {
  }

  lemma NotNames()
    ensures ParseNamed("purple") == None && ParseNamed("none") == None
  {
  }

  // --- `parse_color` ---

  /**
   * `parse_color`: trim, lower-case, then `none`, a `#` value, or a name.
   * `None` means "no colour", for an invalid setting as well as for `none`.
   */
  function ParseColor(s: string): (r: Option<Color>)
    ensures var t := ToLowerAscii(Trim(s));
            && (t == "none" ==> r == None)
            && (StartsWith(t, "#") ==> r == ParseHex(t))
            && (!StartsWith(t, "#") ==> r == ParseNamed(t))
  {
    var t := ToLowerAscii(Trim(s));
    if t == "none" then None
    else if StartsWith(t, "#") then ParseHex(t)
    else ParseNamed(t)
  }

  /** A value beginning with `#` is never read as a name, and a name never as a 24-bit colour. */
  lemma ParseColorDispatch(s: string)
    ensures var t := ToLowerAscii(Trim(s));
            ParseColor(s).Some? ==> (ParseColor(s).value.Rgb? <==> StartsWith(t, "#"))
  {
  }
}
