/** The fixture encoders and their inverses (crates/bench/benches/parse.rs:63-108). */
module Encoders {
  import opened Basics

  // ── UTF-16, big endian ────────────────────────────────────────────────────

  /** The code units of a character. */
  function Units(c: char): seq<nat> {
    var u := c as int;
    if u < 0x10000 then [u] else [0xD800 + (u - 0x10000) / 0x400, 0xDC00 + (u - 0x10000) % 0x400]
  }

  function BigEndian(unit: nat): Bytes { [(unit / 0x100 % 0x100) as Byte, (unit % 0x100) as Byte] }

  function UnitBytes(units: seq<nat>): Bytes {
    if units == [] then [] else BigEndian(units[0]) + UnitBytes(units[1..])
  }

  function Utf16(s: string): Bytes { if s == "" then [] else UnitBytes(Units(s[0])) + Utf16(s[1..]) }

  method Utf8ToUtf16be(s: string) returns (out: Bytes)
    ensures out == [0xFE, 0xFF] + Utf16(s)
  {
    hide UnitBytes, Units;
    out := [0xFE, 0xFF];
    assert out == [0xFE, 0xFF] + Utf16(s[..0]);
    hide Utf16;
    var i := 0;
    while i < |s|
      invariant i <= |s| && out == [0xFE, 0xFF] + Utf16(s[..i])
    {
      Utf16Snoc(s[..i], s[i]);
      assert s[..i] + [s[i]] == s[..i + 1];
      out := PushUnits(out, Units(s[i]));
      i := i + 1;
    }
    assert s[..i] == s;
  }

  /** The inner loop: two bytes a unit, high byte first. */
  method PushUnits(out: Bytes, units: seq<nat>) returns (more: Bytes)
    ensures more == out + UnitBytes(units)
  {
    more := out;
    var k := 0;
    assert units[0..] == units;
    while k < |units|
      invariant k <= |units| && more + UnitBytes(units[k..]) == out + UnitBytes(units)
    {
      var u := units[k];
      assert units[k..][1..] == units[k + 1..];
      assert more + (BigEndian(u) + UnitBytes(units[k + 1..])) == (more + BigEndian(u)) + UnitBytes(units[k + 1..]);
      more := more + [(u / 0x100 % 0x100) as Byte];
      more := more + [(u % 0x100) as Byte];
      k := k + 1;
    }
  }

  lemma {:induction false} Utf16Snoc(s: string, c: char)
    ensures Utf16(s + [c]) == Utf16(s) + UnitBytes(Units(c))
  {
    hide Units, UnitBytes;
    if s == "" {
      assert s + [c] == [c] && [c][1..] == "";
    } else {
      assert (s + [c])[1..] == s[1..] + [c];
      Utf16Snoc(s[1..], c);
    }
  }

  /** Decoding as in section 2.2 of RFC 2781; a unit out of place is an error. */
  function DecodeUtf16(b: Bytes): Option<string>
    decreases |b|
  {
    if b == [] then Some("")
    else if |b| < 2 then None
    else
      var w1 := b[0] as nat * 0x100 + b[1] as nat;
      if w1 < 0xD800 || w1 >= 0xE000 then
        (match DecodeUtf16(b[2..])
         case None => None
         case Some(rest) => Some([w1 as char] + rest))
      else if w1 >= 0xDC00 || |b| < 4 then None
      else
        var w2 := b[2] as nat * 0x100 + b[3] as nat;
        if w2 < 0xDC00 || w2 >= 0xE000 then None
        else
          match DecodeUtf16(b[4..])
          case None => None
          case Some(rest) => Some([(0x10000 + (w1 - 0xD800) * 0x400 + (w2 - 0xDC00)) as char] + rest)
  }

  lemma CharDecodes(c: char, b: Bytes)
    requires DecodeUtf16(b).Some?
    ensures DecodeUtf16(UnitBytes(Units(c)) + b) == Some([c] + DecodeUtf16(b).value)
  {
    var u := c as int;
    if u < 0x10000 {
      var e := BigEndian(u);
      assert UnitBytes(Units(c)) == e + [];
      assert (e + b)[2..] == b && u == u / 0x100 * 0x100 + u % 0x100;
    } else {
      PairDecodes(c, b);
    }
  }

  lemma PairDecodes(c: char, b: Bytes)
    requires DecodeUtf16(b).Some? && c as int >= 0x10000
    ensures DecodeUtf16(UnitBytes(Units(c)) + b) == Some([c] + DecodeUtf16(b).value)
  {
    var v := c as int - 0x10000;
    var hi, lo := 0xD800 + v / 0x400, 0xDC00 + v % 0x400;
    assert v < 0x100000 && v / 0x400 < 0x400;
    var e := BigEndian(hi) + BigEndian(lo);
    assert Units(c)[1..] == [lo] && [lo][1..] == [];
    assert UnitBytes([lo]) == BigEndian(lo) + [];
    assert UnitBytes(Units(c)) == e;
    assert (e + b)[4..] == b;
    assert (e + b)[0] as nat * 0x100 + (e + b)[1] as nat == hi;
    assert (e + b)[2] as nat * 0x100 + (e + b)[3] as nat == lo;
    assert 0x10000 + (hi - 0xD800) * 0x400 + (lo - 0xDC00) == c as int;
  }

  /** After the byte-order mark, decoding gives the characters back. */
  lemma {:induction false} Utf16RoundTrip(s: string)
    ensures DecodeUtf16(Utf16(s)) == Some(s)
  {
    if s != "" {
      Utf16RoundTrip(s[1..]);
      CharDecodes(s[0], Utf16(s[1..]));
      assert [s[0]] + s[1..] == s;
    }
  }

  // ── a one-byte code page ──────────────────────────────────────────────────

  const SUB: nat := 0x6F

  predicate CodePage(table: seq<nat>) { |table| == 0x100 && forall i :: 0 <= i < |table| ==> table[i] < 0x10000 }

  /** The last byte that stands for the code point. */
  function LastIndex(table: seq<nat>, cp: nat): (r: Option<nat>)
    ensures r.Some? ==> r.value < |table| && table[r.value] == cp && cp !in table[r.value + 1..]
    ensures r.None? <==> cp !in table
  {
    if table == [] then None
    else if table[|table| - 1] == cp then Some(|table| - 1)
    else LastIndex(table[..|table| - 1], cp)
  }

  function Or(o: Option<nat>, other: nat): nat { if o.Some? then o.value else other }

  function ByteOf(table: seq<nat>, cp: nat): nat { Or(LastIndex(table, cp), SUB) }

  function CodePoints(s: string): seq<nat> { seq(|s|, i requires 0 <= i < |s| => s[i] as int) }

  /** What `inv` holds after the first `k` entries. */
  ghost predicate Inverse(table: seq<nat>, k: nat, inv: seq<nat>)
    requires k <= |table|
  {
    |inv| == 0x100 && forall cp: nat :: cp < 0x100 ==> inv[cp] == Or(LastIndex(table[..k], cp), 0)
  }

  ghost predicate InverseHigh(table: seq<nat>, k: nat, high: map<nat, nat>)
    requires k <= |table|
  {
    forall cp: nat :: cp >= 0x100 ==> (if cp in high then Some(high[cp]) else None) == LastIndex(table[..k], cp)
  }

  lemma NextIndex(table: seq<nat>, k: nat, cp: nat)
    requires k < |table|
    ensures LastIndex(table[..k + 1], cp) == if table[k] == cp then Some(k) else LastIndex(table[..k], cp)
  {
    assert table[..k + 1][..k] == table[..k];
  }

  lemma NextInverse(table: seq<nat>, k: nat, inv: seq<nat>)
    requires k < |table| && Inverse(table, k, inv)
    ensures Inverse(table, k + 1, if table[k] < 0x100 then inv[table[k] := k] else inv)
  {
    var more := if table[k] < 0x100 then inv[table[k] := k] else inv;
    forall cp: nat | cp < 0x100 ensures more[cp] == Or(LastIndex(table[..k + 1], cp), 0) {
      NextIndex(table, k, cp);
      assert inv[cp] == Or(LastIndex(table[..k], cp), 0);
    }
  }

  lemma NextInverseHigh(table: seq<nat>, k: nat, high: map<nat, nat>)
    requires k < |table| && InverseHigh(table, k, high)
    ensures InverseHigh(table, k + 1, if table[k] < 0x100 then high else high[table[k] := k])
  {
    hide LastIndex;
    var more := if table[k] < 0x100 then high else high[table[k] := k];
    forall cp: nat | cp >= 0x100
      ensures (if cp in more then Some(more[cp]) else None) == LastIndex(table[..k + 1], cp)
    {
      NextIndex(table, k, cp);
    }
  }

  /** Fills the two inverse tables, later entries over earlier ones. */
  method Invert(table: seq<nat>) returns (inv: array<nat>, high: map<nat, nat>)
    requires CodePage(table)
    ensures fresh(inv) && Inverse(table, |table|, inv[..]) && InverseHigh(table, |table|, high)
  {
    inv := new nat[0x100](_ => 0);
    high := map[];
    var i := 0;
    while i < |table|
      invariant i <= |table| && inv.Length == 0x100
      invariant Inverse(table, i, inv[..]) && InverseHigh(table, i, high)
    {
      hide Inverse, InverseHigh;
      NextInverse(table, i, inv[..]);
      NextInverseHigh(table, i, high);
      var cp := table[i];
      if cp < 0x100 {
        inv[cp] := i;
      } else {
        high := high[cp := i];
      }
      i := i + 1;
    }
  }

  /** What the two inverse tables say of a code point. */
  function Looked(table: seq<nat>, inv: seq<nat>, high: map<nat, nat>, cp: nat): nat
    requires |table| > 0 && |inv| == 0x100
  {
    if cp < 0x100 then (if inv[cp] == 0 && cp != table[0] then SUB else inv[cp])
    else if cp in high then high[cp]
    else SUB
  }

  /** A zero in the low table is an entry exactly for the first code point. */
  lemma LookedIs(table: seq<nat>, inv: seq<nat>, high: map<nat, nat>, cp: nat)
    requires CodePage(table) && Inverse(table, |table|, inv) && InverseHigh(table, |table|, high)
    ensures Looked(table, inv, high, cp) == ByteOf(table, cp) < 0x100
  {
    assert table[..|table|] == table;
    if cp < 0x100 { assert inv[cp] == Or(LastIndex(table, cp), 0); }
    else { assert (if cp in high then Some(high[cp]) else None) == LastIndex(table, cp); }
  }

  /** The byte is the last that stands for the code point, or 0x6F if none does. */
  predicate StandsFor(table: seq<nat>, b: nat, cp: nat) {
    if cp in table then b < |table| && table[b] == cp && cp !in table[b + 1..] else b == 0x6F
  }

  lemma ByteStandsFor(table: seq<nat>, cp: nat)
    ensures StandsFor(table, ByteOf(table, cp), cp)
  {
  }

  method Utf8ToCodePage(table: seq<nat>, s: string) returns (out: seq<nat>)
    requires CodePage(table)
    ensures |out| == |s| && forall i :: 0 <= i < |s| ==> out[i] == ByteOf(table, s[i] as int) < 0x100
    ensures forall i :: 0 <= i < |s| ==> StandsFor(table, out[i], s[i] as int)
  {
    var inv, high := Invert(table);
    out := [];
    for k := 0 to |s|
      invariant inv.Length == 0x100 && Inverse(table, |table|, inv[..])
      invariant |out| == k && forall i :: 0 <= i < k ==> out[i] == ByteOf(table, s[i] as int) < 0x100
      invariant forall i :: 0 <= i < k ==> StandsFor(table, out[i], s[i] as int)
    {
      hide ByteOf, Inverse, InverseHigh, StandsFor;
      ByteStandsFor(table, s[k] as int);
      var cp := s[k] as int;
      LookedIs(table, inv[..], high, cp);
      if cp < 0x100 {
        var b := inv[cp];
        out := out + [if b == 0 && cp != table[0] then SUB else b];
      } else if cp in high {
        out := out + [high[cp]];
      } else {
        out := out + [SUB];
      }
    }
  }

  function DecodePage(table: seq<nat>, bytes: seq<nat>): seq<nat>
    requires CodePage(table) && forall i :: 0 <= i < |bytes| ==> bytes[i] < 0x100
  {
    seq(|bytes|, i requires 0 <= i < |bytes| => table[bytes[i]])
  }

  /** For any table, one-to-one or not, decoding gives the text back exactly when the
      table can express every character of it. */
  lemma CodePageRoundTripExactly(table: seq<nat>, s: string, out: seq<nat>)
    requires CodePage(table)
    requires |out| == |s| && forall i :: 0 <= i < |s| ==> out[i] == ByteOf(table, s[i] as int) < 0x100
    ensures DecodePage(table, out) == CodePoints(s) <==> forall i :: 0 <= i < |s| ==> s[i] as int in table
  {
    var d, c := DecodePage(table, out), CodePoints(s);
    forall i | 0 <= i < |s| ensures d[i] == c[i] <==> s[i] as int in table {
      assert d[i] == table[ByteOf(table, s[i] as int)];
    }
    if forall i :: 0 <= i < |s| ==> s[i] as int in table {
      assert d == c;
    } else {
      var i :| 0 <= i < |s| && s[i] as int !in table;
      assert d[i] != c[i];
    }
  }
}
