/** The CLI's hand-written JSON strings (crates/cli/src/main.rs:605-629), read back
    by the grammar of section 7 of RFC 8259. */
module Json {
  import opened Basics

  const HEX := "0123456789abcdef"

  /** `\u` and the code point in four lower-case hexadecimal digits. */
  function Hex4(n: nat): string
    requires n < 0x10000
  {
    ['\\', 'u', HEX[n / 0x1000], HEX[n / 0x100 % 16], HEX[n / 16 % 16], HEX[n % 16]]
  }

  function EscapeChar(c: char): string {
    if c == '"' then "\\\""
    else if c == '\\' then "\\\\"
    else if c == '\n' then "\\n"
    else if c == '\r' then "\\r"
    else if c == '\t' then "\\t"
    else if c as int < 0x20 then Hex4(c as int)
    else [c]
  }

  function Escape(s: string): string { if s == "" then "" else EscapeChar(s[0]) + Escape(s[1..]) }

  function JsonStr(s: string): string { "\"" + Escape(s) + "\"" }

  lemma {:induction false} EscapeSnoc(s: string, c: char)
    ensures Escape(s + [c]) == Escape(s) + EscapeChar(c)
  {
    hide EscapeChar;
    if s == "" {
      assert s + [c] == [c] && [c][1..] == "";
    } else {
      assert (s + [c])[1..] == s[1..] + [c];
      EscapeSnoc(s[1..], c);
      assert EscapeChar(s[0]) + (Escape(s[1..]) + EscapeChar(c)) == Escape(s) + EscapeChar(c);
    }
  }

  method PushEscaped(out: string, ch: char) returns (more: string)
    ensures more == out + EscapeChar(ch)
  {
    match ch
    case '"' => more := out + "\\\"";
    case '\\' => more := out + "\\\\";
    case '\n' => more := out + "\\n";
    case '\r' => more := out + "\\r";
    case '\t' => more := out + "\\t";
    case c =>
      if c as int < 0x20 { more := out + Hex4(c as int); } else { more := out + [c]; }
  }

  method JsonEscape(s: string) returns (out: string)
    ensures out == Escape(s)
  {
    hide EscapeChar;
    out := "";
    assert out == Escape(s[..0]);
    hide Escape;
    var i := 0;
    while i < |s|
      invariant i <= |s| && out == Escape(s[..i])
    {
      EscapeSnoc(s[..i], s[i]);
      assert s[..i] + [s[i]] == s[..i + 1];
      out := PushEscaped(out, s[i]);
      i := i + 1;
    }
    assert s[..i] == s;
  }

  // ── the reader of RFC 8259 ────────────────────────────────────────────────

  function HexValue(c: char): Option<nat> {
    if '0' <= c <= '9' then Some(c as int - '0' as int)
    else if 'a' <= c <= 'f' then Some(c as int - 'a' as int + 10)
    else if 'A' <= c <= 'F' then Some(c as int - 'A' as int + 10)
    else None
  }

  /** Four hexadecimal digits at the start of `t`. */
  function FourHex(t: string): (r: Option<nat>)
    ensures r.Some? ==> r.value < 0x10000 && |t| >= 4
  {
    if |t| < 4 then None
    else
      match (HexValue(t[0]), HexValue(t[1]), HexValue(t[2]), HexValue(t[3]))
      case (Some(a), Some(b), Some(c), Some(d)) =>
        if a < 16 && b < 16 && c < 16 && d < 16 then Some(a * 0x1000 + b * 0x100 + c * 16 + d) else None
      case _ => None
  }

  predicate Scalar(n: nat) { n < 0xD800 || 0xE000 <= n < 0x110000 }

  /** A character and how much of the text it took. */
  datatype Read = Read(c: char, used: nat)

  /** What follows a `\u`, the second half of a surrogate pair included. */
  function ReadUnicode(t: string): (r: Option<Read>)
    ensures r.Some? ==> 0 < r.value.used <= |t|
  {
    match FourHex(t)
    case None => None
    case Some(hi) =>
      if Scalar(hi) then Some(Read(hi as char, 4))
      else if hi < 0xDC00 && |t| >= 10 && t[4] == '\\' && t[5] == 'u' then
        match FourHex(t[6..])
        case None => None
        case Some(lo) =>
          if 0xDC00 <= lo < 0xE000 then Some(Read((0x10000 + (hi - 0xD800) * 0x400 + (lo - 0xDC00)) as char, 10))
          else None
      else None
  }

  /** What follows a backslash. */
  function ReadEscape(t: string): (r: Option<Read>)
    ensures r.Some? ==> 0 < r.value.used <= |t|
  {
    if t == "" then None
    else if t[0] == '"' || t[0] == '\\' || t[0] == '/' then Some(Read(t[0], 1))
    else if t[0] == 'b' then Some(Read(8 as char, 1))
    else if t[0] == 'f' then Some(Read(12 as char, 1))
    else if t[0] == 'n' then Some(Read('\n', 1))
    else if t[0] == 'r' then Some(Read('\r', 1))
    else if t[0] == 't' then Some(Read('\t', 1))
    else if t[0] == 'u' then
      match ReadUnicode(t[1..])
      case None => None
      case Some(r) => Some(Read(r.c, r.used + 1))
    else None
  }

  /** The characters up to the closing quote, and what follows it. */
  function ReadChars(t: string): Option<(string, string)>
    decreases |t|
  {
    if t == "" then None
    else if t[0] == '"' then Some(("", t[1..]))
    else if t[0] == '\\' then
      match ReadEscape(t[1..])
      case None => None
      case Some(r) => Prepend(r.c, ReadChars(t[1 + r.used..]))
    else if t[0] as int < 0x20 then None
    else Prepend(t[0], ReadChars(t[1..]))
  }

  function Prepend(c: char, rest: Option<(string, string)>): Option<(string, string)> {
    match rest
    case None => None
    case Some((s, t)) => Some(([c] + s, t))
  }

  function ReadString(t: string): Option<(string, string)> {
    if t == "" || t[0] != '"' then None else ReadChars(t[1..])
  }

  // ── round trip ────────────────────────────────────────────────────────────

  lemma ControlHex(n: nat)
    requires n < 0x20
    ensures Hex4(n) == ['\\', 'u', '0', '0', HEX[n / 16], HEX[n % 16]]
  {
    assert n / 0x1000 == 0 && n / 0x100 == 0 && n / 16 < 16;
  }

  lemma ControlRead(c: char, t: string)
    requires c as int < 0x20
    ensures ReadEscape(Hex4(c as int)[1..] + t) == Some(Read(c, 5))
  {
    var n := c as int;
    ControlHex(n);
    hide Hex4;
    var u := Hex4(n)[1..] + t;
    assert u[0] == 'u' && u[1..] == Hex4(n)[2..] + t;
    var d := u[1..];
    assert d[0] == '0' && d[1] == '0' && d[2] == HEX[n / 16] && d[3] == HEX[n % 16];
    HexDigit(0);
    HexDigit(n / 16);
    HexDigit(n % 16);
    assert HexValue('0') == Some(0);
    hide HexValue;
    assert FourHex(d) == Some(n);
  }

  lemma HexDigit(d: nat)
    requires d < 16
    ensures HexValue(HEX[d]) == Some(d)
  {
    if d < 10 { assert HEX[d] as int == '0' as int + d; } else { assert HEX[d] as int == 'a' as int + d - 10; }
  }

  lemma CharRead(c: char, t: string)
    ensures ReadChars(EscapeChar(c) + t) == Prepend(c, ReadChars(t))
  {
    var e := EscapeChar(c);
    var u := e + t;
    if e == [c] {
      assert u[1..] == t;
    } else {
      assert u[1..] == e[1..] + t && u[|e|..] == t;
      if c as int < 0x20 && c != '\n' && c != '\r' && c != '\t' {
        ControlRead(c, t);
      } else {
        assert u[1..][0] == e[1];
      }
    }
  }

  lemma {:induction false} EscapeRead(s: string, suffix: string)
    ensures ReadChars(Escape(s) + "\"" + suffix) == Some((s, suffix))
  {
    var tail := "\"" + suffix;
    if s == "" {
      assert Escape(s) + "\"" + suffix == tail && tail[1..] == suffix;
    } else {
      EscapeRead(s[1..], suffix);
      var rest := Escape(s[1..]) + "\"" + suffix;
      assert Escape(s) + "\"" + suffix == EscapeChar(s[0]) + rest;
      CharRead(s[0], rest);
      assert [s[0]] + s[1..] == s;
    }
  }

  /** Whatever follows it, a written string reads back as itself, and the reader stops
      where it ends. */
  lemma JsonRoundTrip(s: string, suffix: string)
    ensures ReadString(JsonStr(s) + suffix) == Some((s, suffix))
  {
    hide Escape, ReadChars;
    EscapeRead(s, suffix);
    assert (JsonStr(s) + suffix)[1..] == Escape(s) + "\"" + suffix;
  }

  /** Different strings are written differently, and neither is a prefix of the other. */
  lemma JsonPrefixFree(s: string, t: string)
    requires JsonStr(s) <= JsonStr(t)
    ensures s == t
  {
    var rest := JsonStr(t)[|JsonStr(s)|..];
    assert JsonStr(t) == JsonStr(s) + rest && JsonStr(t) + "" == JsonStr(t);
    JsonRoundTrip(s, rest);
    JsonRoundTrip(t, "");
  }

  // ── which of the possible spellings ───────────────────────────────────────

  /** How long a character's spelling is: two for the five with one of their own, six for
      the other control characters, one for the rest. */
  function Width(c: char): nat {
    if c in ['"', '\\', '\n', '\r', '\t'] then 2 else if c as int < 0x20 then 6 else 1
  }

  predicate LowerCase(e: string) { forall k :: 0 <= k < |e| ==> !('A' <= e[k] <= 'F') }

  /** A text the reader takes for the one character `c`. */
  predicate Spells(e: string, c: char) { ReadChars(e + "\"") == Some(([c], "")) }

  lemma EscapeWidth(c: char)
    ensures |EscapeChar(c)| == Width(c) && (Width(c) > 1 ==> LowerCase(EscapeChar(c)))
  {
    if Width(c) == 6 { ControlHex(c as int); }
    hide Hex4;
  }

  lemma EscapeSpells(c: char)
    ensures Spells(EscapeChar(c), c)
  {
    CharRead(c, "\"");
    hide EscapeChar, ReadEscape;
    assert "\""[1..] == "";
    assert ReadChars("\"") == Some(("", ""));
    assert [c] + "" == [c];
  }

  lemma PrependIs(x: char, rest: Option<(string, string)>, c: char)
    requires Prepend(x, rest) == Some(([c], ""))
    ensures x == c && rest == Some(("", ""))
  {
    var s := rest.value.0;
    assert ([x] + s)[0] == x && |[x] + s| == 1 + |s|;
  }

  /** Only the empty text is read as no characters and nothing left. */
  lemma NothingRead(t: string)
    requires t != "" && t[|t| - 1] == '"' && ReadChars(t) == Some(("", ""))
    ensures t == "\""
  {
    hide ReadEscape;
    assert t[0] == '"' && t[1..] == "";
    assert t == [t[0]] + t[1..];
  }

  lemma FirstChar(e: string, c: char)
    requires Spells(e, c)
    ensures e != "" && e[0] != '"'
    ensures e[0] != '\\' ==> e == [c]
    ensures e[0] == '\\' ==>
      var r := ReadEscape(e[1..] + "\"");
      r.Some? && r.value.c == c && r.value.used == |e| - 1
  {
    var u := e + "\"";
    hide ReadEscape;
    assert "\""[1..] == "" && u[|u| - 1] == '"';
    assert e != "" ==> u[1..] == e[1..] + "\"";
    var r := ReadEscape(u[1..]);
    var rest := if e[0] == '\\' then u[1 + r.value.used..] else u[1..];
    PrependIs(if e[0] == '\\' then r.value.c else e[0], ReadChars(rest), c);
    assert rest != "";
    NothingRead(rest);
    if e[0] != '\\' { assert e[1..] == ""; assert e == [e[0]] + e[1..]; }
  }

  lemma HexValueUnique(x: char, v: nat)
    requires HexValue(x) == Some(v) && !('A' <= x <= 'F')
    ensures v < 16 && x == HEX[v]
  {
    if v < 10 { assert HEX[v] as int == '0' as int + v; } else { assert HEX[v] as int == 'a' as int + v - 10; }
  }

  lemma FourHexUnique(d: string, n: nat)
    requires FourHex(d) == Some(n) && n < 0x20 && LowerCase(d[..4])
    ensures d[0] == d[1] == '0' && d[2] == HEX[n / 16] && d[3] == HEX[n % 16]
  {
    forall k | 0 <= k < 4 ensures !('A' <= d[k] <= 'F') { assert d[k] == d[..4][k]; }
    var a, b, x, y := HexValue(d[0]).value, HexValue(d[1]).value, HexValue(d[2]).value, HexValue(d[3]).value;
    HexValueUnique(d[0], a);
    HexValueUnique(d[1], b);
    HexValueUnique(d[2], x);
    HexValueUnique(d[3], y);
    hide HexValue, LowerCase;
    assert n == a * 0x1000 + b * 0x100 + x * 16 + y;
    assert a == 0 && b == 0 && n / 16 == x && n % 16 == y;
  }

  lemma HexUnique(e: string, c: char)
    requires |e| == 6 && e[0] == '\\' && LowerCase(e) && c as int < 0x20
    requires var r := ReadEscape(e[1..] + "\""); r.Some? && r.value.c == c && r.value.used == 5
    ensures e == Hex4(c as int)
  {
    var t := e[1..] + "\"";
    var d, n := t[1..], c as int;
    hide HexValue, FourHex, LowerCase;
    assert t[0] == 'u' && |d| == 5 && FourHex(d) == Some(n);
    assert LowerCase(d[..4]) by { LowerPart(e); assert d[..4] == e[2..6]; }
    FourHexUnique(d, n);
    ControlHex(n);
    hide Hex4;
    assert e == [e[0], e[1], e[2], e[3], e[4], e[5]];
  }

  lemma LowerPart(e: string)
    requires |e| == 6 && LowerCase(e)
    ensures LowerCase(e[2..6])
  {
  }

  /** The spelling written is the only one of its length, but for the case of hexadecimal
      digits. */
  lemma EscapeUnique(e: string, c: char)
    requires |e| == Width(c) && (Width(c) > 1 ==> LowerCase(e))
    ensures Spells(e, c) <==> e == EscapeChar(c)
  {
    EscapeSpells(c);
    hide Spells, ReadChars, ReadEscape;
    if Spells(e, c) {
      FirstChar(e, c);
      if Width(c) == 6 {
        hide EscapeChar;
        assert EscapeChar(c) == Hex4(c as int) by { ControlSpelled(c); }
        HexUnique(e, c);
      } else if Width(c) == 2 {
        PairUnique(e, c);
      }
    }
  }

  lemma ControlSpelled(c: char)
    requires Width(c) == 6
    ensures EscapeChar(c) == Hex4(c as int)
  {
    hide Hex4;
  }

  lemma PairUnique(e: string, c: char)
    requires |e| == Width(c) == 2
    requires e[0] == '\\' ==>
      var r := ReadEscape(e[1..] + "\""); r.Some? && r.value.c == c && r.value.used == 1
    requires e[0] != '\\' ==> e == [c]
    ensures e == EscapeChar(c)
  {
    hide ReadUnicode, Hex4;
    assert (e[1..] + "\"")[0] == e[1];
    assert e == [e[0], e[1]];
  }
}
