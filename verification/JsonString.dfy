/**
 The JSON string writer (src/ui.cpp): its output is a string of section 7 of RFC 8259 in valid
 UTF-8 that decodes to the input, with U+FFFD for every byte that starts no character.
 */
module JsonString {
  import opened Common
  import opened Utf8

  const QUOTE: Byte := 0x22
  const BACKSLASH: Byte := 0x5C

  // ---------------------------------------------------------------- grammar of RFC 8259, section 7

  /** What a two-character escape stands for. */
  function Short(b: Byte): Option<Byte> {
    if b == 0x22 || b == 0x5C || b == 0x2F then Some(b)
    else if b == 0x62 then Some(0x08)
    else if b == 0x66 then Some(0x0C)
    else if b == 0x6E then Some(0x0A)
    else if b == 0x72 then Some(0x0D)
    else if b == 0x74 then Some(0x09)
    else None
  }

  function HexValue(b: Byte): Option<bv32> {
    if 0x30 <= b <= 0x39 then Some((b - 0x30) as bv32)
    else if 0x61 <= b <= 0x66 then Some((b - 0x57) as bv32)
    else if 0x41 <= b <= 0x46 then Some((b - 0x37) as bv32)
    else None
  }

  predicate Hex4(s: seq<Byte>) {
    |s| == 4 && HexValue(s[0]).Some? && HexValue(s[1]).Some? && HexValue(s[2]).Some? && HexValue(s[3]).Some?
  }

  /** One char of the grammar: unescaped, or an escape of two or six bytes. */
  predicate JsonChar(u: seq<Byte>) {
    || (Char(u) && u[0] >= 0x20 && u[0] != QUOTE && u[0] != BACKSLASH)
    || (|u| == 2 && u[0] == BACKSLASH && Short(u[1]).Some?)
    || (|u| == 6 && u[0] == BACKSLASH && u[1] == 0x75 && Hex4(u[2..]))
  }

  predicate AllJsonChars(chars: seq<seq<Byte>>) {
    forall i | 0 <= i < |chars| :: JsonChar(chars[i])
  }

  ghost predicate JsonText(t: seq<Byte>) {
    exists chars :: AllJsonChars(chars) && t == [QUOTE] + Flatten(chars) + [QUOTE]
  }

  // ---------------------------------------------------------------- decoding

  function HexNumber(s: seq<Byte>): bv32
    requires Hex4(s)
  {
    (((((HexValue(s[0]).value << 4) | HexValue(s[1]).value) << 4) | HexValue(s[2]).value) << 4) | HexValue(s[3]).value
  }

  /** A scalar value in UTF-8. */
  function Encode(code: bv32): seq<Byte>
    requires code <= 0x10FFFF
  {
    if code < 0x80 then [code as Byte]
    else if code < 0x800 then [0xC0 | ((code >> 6) as Byte), 0x80 | ((code & 0x3F) as Byte)]
    else if code < 0x10000 then
      [0xE0 | ((code >> 12) as Byte), 0x80 | (((code >> 6) & 0x3F) as Byte), 0x80 | ((code & 0x3F) as Byte)]
    else
      [0xF0 | ((code >> 18) as Byte), 0x80 | (((code >> 12) & 0x3F) as Byte), 0x80 | (((code >> 6) & 0x3F) as Byte),
       0x80 | ((code & 0x3F) as Byte)]
  }

  /** A decoded char: how many bytes it took and what it means. */
  datatype Piece = Piece(length: nat, meaning: seq<Byte>)

  predicate Surrogate(code: bv32) {
    0xD800 <= code <= 0xDFFF
  }

  /** \\uXXXX, or a surrogate pair of them. */
  function NumericEscape(s: seq<Byte>): (p: Option<Piece>)
    ensures p.Some? ==> 0 < p.value.length <= |s|
  {
    if |s| < 6 || !Hex4(s[2..6]) then None
    else
      var code := HexNumber(s[2..6]);
      if code <= 0xFFFF && !Surrogate(code) then Some(Piece(6, Encode(code)))
      else if code <= 0xDBFF && |s| >= 12 && s[6] == BACKSLASH && s[7] == 0x75 && Hex4(s[8..12]) then
        var low := HexNumber(s[8..12]);
        if 0xDC00 <= low <= 0xDFFF then Some(Piece(12, PairMeaning(code, low))) else None
      else None
  }

  function PairMeaning(high: bv32, low: bv32): seq<Byte> {
    var code := 0x10000 + (((high & 0x3FF) << 10) | (low & 0x3FF));
    if code <= 0x10FFFF then Encode(code) else []
  }

  function Front(s: seq<Byte>): (p: Option<Piece>)
    ensures p.Some? ==> 0 < p.value.length <= |s|
  {
    if s == [] then None
    else if s[0] == BACKSLASH then
      if |s| < 2 then None
      else if Short(s[1]).Some? then Some(Piece(2, [Short(s[1]).value]))
      else if s[1] == 0x75 then NumericEscape(s)
      else None
    else if s[0] < 0x20 || s[0] == QUOTE || CharLength(s) == 0 then None
    else Some(Piece(CharLength(s), s[..CharLength(s)]))
  }

  function DecodeBody(s: seq<Byte>): Option<seq<Byte>>
    decreases |s|
  {
    if s == [] then Some([])
    else match Front(s)
      case None => None
      case Some(p) =>
        match DecodeBody(s[p.length..])
        case None => None
        case Some(rest) => Some(p.meaning + rest)
  }

  /** The text between the quotes, decoded. */
  function Decode(t: seq<Byte>): Option<seq<Byte>> {
    if |t| >= 2 && t[0] == QUOTE && t[|t| - 1] == QUOTE then DecodeBody(t[1..|t| - 1]) else None
  }

  // ---------------------------------------------------------------- what the writer produces

  /** U+FFFD in UTF-8. */
  const REPLACEMENT: seq<Byte> := [0xEF, 0xBF, 0xBD]

  /** The input with every byte that starts no character replaced by U+FFFD. */
  function Repaired(s: seq<Byte>): seq<Byte>
    decreases |s|
  {
    if s == [] then []
    else if CharLength(s) == 0 then REPLACEMENT + Repaired(s[1..])
    else s[..CharLength(s)] + Repaired(s[CharLength(s)..])
  }

  function HexDigit(v: Byte): Byte {
    if v < 10 then 0x30 + v else 0x57 + v
  }

  function EscapeAscii(b: Byte): seq<Byte> {
    if b == 0x22 then [BACKSLASH, 0x22]
    else if b == 0x5C then [BACKSLASH, 0x5C]
    else if b == 0x08 then [BACKSLASH, 0x62]
    else if b == 0x0C then [BACKSLASH, 0x66]
    else if b == 0x0A then [BACKSLASH, 0x6E]
    else if b == 0x0D then [BACKSLASH, 0x72]
    else if b == 0x09 then [BACKSLASH, 0x74]
    else if b < 0x20 then [BACKSLASH, 0x75, 0x30, 0x30, HexDigit(b >> 4), HexDigit(b & 0x0F)]
    else [b]
  }

  const REPLACEMENT_ESCAPE: seq<Byte> := [BACKSLASH, 0x75, 0x66, 0x66, 0x66, 0x64]

  /** How the bytes at the front are written. */
  function Unit(s: seq<Byte>): seq<Byte>
    requires s != []
  {
    var n := CharLength(s);
    if n == 0 then REPLACEMENT_ESCAPE else if n == 1 then EscapeAscii(s[0]) else s[..n]
  }

  function Taken(s: seq<Byte>): (n: nat)
    requires s != []
    ensures 0 < n <= |s|
  {
    if CharLength(s) == 0 then 1 else CharLength(s)
  }

  function Escape(s: seq<Byte>): seq<Byte>
    decreases |s|
  {
    if s == [] then [] else Unit(s) + Escape(s[Taken(s)..])
  }

  // ---------------------------------------------------------------- properties

  /** The control characters: two hex digits give the byte back. */
  lemma HexRoundTrip(b: Byte)
    requires b < 0x20
    ensures HexValue(HexDigit(b >> 4)) == Some((b >> 4) as bv32)
            && HexValue(HexDigit(b & 0x0F)) == Some((b & 0x0F) as bv32)
    ensures (((b >> 4) as bv32) << 4) | ((b & 0x0F) as bv32) == b as bv32
  {
  }

  lemma ReplacementReads(rest: seq<Byte>)
    ensures JsonChar(REPLACEMENT_ESCAPE) && Front(REPLACEMENT_ESCAPE + rest) == Some(Piece(6, REPLACEMENT))
  {
    var s := REPLACEMENT_ESCAPE + rest;
    var digits: seq<Byte> := [0x66, 0x66, 0x66, 0x64];
    assert s[2..6] == digits && REPLACEMENT_ESCAPE[2..] == digits;
    assert HexNumber(digits) == 0xFFFD;
    assert Encode(0xFFFD) == REPLACEMENT;
  }

  lemma ControlReads(b: Byte, rest: seq<Byte>)
    requires b < 0x20
    ensures var u := [BACKSLASH, 0x75, 0x30, 0x30, HexDigit(b >> 4), HexDigit(b & 0x0F)];
            JsonChar(u) && Front(u + rest) == Some(Piece(6, [b]))
  {
    var u := [BACKSLASH, 0x75, 0x30, 0x30, HexDigit(b >> 4), HexDigit(b & 0x0F)];
    var digits: seq<Byte> := [0x30, 0x30, HexDigit(b >> 4), HexDigit(b & 0x0F)];
    assert (u + rest)[2..6] == digits && u[2..] == digits;
    HexRoundTrip(b);
    assert HexNumber(digits) == b as bv32;
    SmallCode(b);
  }

  lemma SmallCode(b: Byte)
    requires b < 0x20
    ensures (b as bv32) < 0x80 && Encode(b as bv32) == [b]
  {
  }

  lemma AsciiReads(b: Byte, rest: seq<Byte>)
    requires b <= 0x7F
    ensures JsonChar(EscapeAscii(b)) && Front(EscapeAscii(b) + rest) == Some(Piece(|EscapeAscii(b)|, [b]))
  {
    if b < 0x20 { ControlReads(b, rest); }
    if b >= 0x20 && b != QUOTE && b != BACKSLASH { CharPrefix([b], rest); }
  }

  /** Each written unit is one char of the grammar and is read back as what it replaces. */
  lemma UnitReads(s: seq<Byte>, rest: seq<Byte>)
    requires s != []
    ensures JsonChar(Unit(s))
    ensures Front(Unit(s) + rest) == Some(Piece(|Unit(s)|, if CharLength(s) == 0 then REPLACEMENT
                                                else s[..CharLength(s)]))
  {
    var n := CharLength(s);
    if n == 0 {
      ReplacementReads(rest);
    } else if n == 1 {
      assert s[..1] == [s[0]];
      AsciiReads(s[0], rest);
    } else {
      CharPrefix(s[..n], rest);
    }
  }

  lemma ShortAscii(b: Byte)
    requires Short(b).Some?
    ensures |EscapeAscii(Short(b).value)| <= 2
  {
  }

  /** No other way to write a character is shorter: only what must be escaped is, and as briefly as can be. */
  lemma ShortestUnit(s: seq<Byte>, u: seq<Byte>)
    requires s != [] && CharLength(s) > 0 && Front(u) == Some(Piece(|u|, s[..CharLength(s)]))
    ensures |Unit(s)| <= |u|
  {
    var c := s[..CharLength(s)];
    if u[0] != BACKSLASH {
      assert u[..|u|] == u && u[0] == s[0];
    } else if Short(u[1]).Some? {
      assert c == [Short(u[1]).value] && c[0] == s[0];
      ShortAscii(u[1]);
    }
  }

  /** Decoding what was written gives the repaired input. */
  lemma {:induction false} EscapeDecodes(s: seq<Byte>)
    ensures DecodeBody(Escape(s)) == Some(Repaired(s))
    decreases |s|
  {
    if s != [] {
      var rest := Escape(s[Taken(s)..]);
      EscapeDecodes(s[Taken(s)..]);
      UnitReads(s, rest);
      assert (Unit(s) + rest)[|Unit(s)|..] == rest;
    }
  }

  lemma {:induction false} EscapeChars(s: seq<Byte>) returns (chars: seq<seq<Byte>>)
    ensures AllJsonChars(chars) && Flatten(chars) == Escape(s)
    decreases |s|
  {
    if s == [] {
      chars := [];
    } else {
      var rest := EscapeChars(s[Taken(s)..]);
      UnitReads(s, []);
      chars := [Unit(s)] + rest;
      assert chars[1..] == rest;
    }
  }

  lemma {:induction false} ScansConcat(a: seq<Byte>, b: seq<Byte>)
    requires Scans(a) && Scans(b)
    ensures Scans(a + b)
    decreases |a|
  {
    if a == [] {
      EmptyPrefix(b);
    } else {
      var n := CharLength(a);
      ScansConcat(a[n..], b);
      ScansBehind(a[..n], a[n..] + b);
      Associate(a[..n], a[n..], b);
      assert a == a[..n] + a[n..];
    }
  }

  lemma ScansBehind(c: seq<Byte>, rest: seq<Byte>)
    requires Char(c) && Scans(rest)
    ensures Scans(c + rest)
  {
    CharPrefix(c, rest);
  }

  lemma {:induction false} AsciiScans(s: seq<Byte>)
    requires forall i | 0 <= i < |s| :: s[i] <= 0x7F
    ensures Scans(s)
  {
    if s != [] {
      CharPrefix([s[0]], s[1..]);
      assert s == [s[0]] + s[1..];
      AsciiScans(s[1..]);
    }
  }

  lemma HexDigitAscii(v: Byte)
    requires v < 16
    ensures HexDigit(v) <= 0x7F
  {
  }

  lemma UnitScans(s: seq<Byte>)
    requires s != []
    ensures Scans(Unit(s))
  {
    var n := CharLength(s);
    if n > 1 {
      CharPrefix(s[..n], []);
      assert s[..n] + [] == s[..n];
    } else if n == 1 {
      HexDigitAscii(s[0] >> 4);
      HexDigitAscii(s[0] & 0x0F);
      AsciiScans(Unit(s));
    } else {
      AsciiScans(Unit(s));
    }
  }

  lemma {:induction false} EscapeScans(s: seq<Byte>)
    ensures Scans(Escape(s))
    decreases |s|
  {
    if s != [] {
      EscapeScans(s[Taken(s)..]);
      UnitScans(s);
      ScansConcat(Unit(s), Escape(s[Taken(s)..]));
    }
  }

  /** Repairing yields valid UTF-8 and leaves valid UTF-8 alone. */
  lemma {:induction false} RepairedScans(s: seq<Byte>)
    ensures Scans(Repaired(s)) && (Scans(s) ==> Repaired(s) == s)
    decreases |s|
  {
    if s != [] {
      var n := Taken(s);
      RepairedScans(s[n..]);
      if CharLength(s) == 0 {
        CharPrefix(REPLACEMENT, Repaired(s[n..]));
      } else {
        CharPrefix(s[..n], Repaired(s[n..]));
        assert s == s[..n] + s[n..];
      }
    }
  }

  /** The text the writer produces for a string. */
  function Quoted(s: seq<Byte>): seq<Byte> {
    [QUOTE] + Escape(s) + [QUOTE]
  }

  /** Well-formed JSON, valid UTF-8, and decoding inverts it up to the repair of malformed bytes. */
  lemma QuotedMeans(s: seq<Byte>)
    ensures JsonText(Quoted(s)) && ValidUtf8(Quoted(s))
    ensures Decode(Quoted(s)) == Some(Repaired(s)) && ValidUtf8(Repaired(s))
    ensures ValidUtf8(s) ==> Decode(Quoted(s)) == Some(s)
  {
    var chars := EscapeChars(s);
    EscapeDecodes(s);
    assert Quoted(s)[1..|Quoted(s)| - 1] == Escape(s);
    QuotedScans(s);
    RepairedScans(s);
    ScansIffUtf8(s);
    ScansIffUtf8(Quoted(s));
    ScansIffUtf8(Repaired(s));
  }

  lemma QuotedScans(s: seq<Byte>)
    ensures Scans(Quoted(s))
  {
    EscapeScans(s);
    AsciiScans([QUOTE]);
    ScansConcat([QUOTE], Escape(s));
    ScansConcat([QUOTE] + Escape(s), [QUOTE]);
  }

  // ---------------------------------------------------------------- append_json_string

  /** The range-table check: the multi-byte character at `index`, or 0. */
  method TableLength(value: seq<Byte>, index: nat) returns (length: nat)
    requires index < |value| && value[index] >= 0x80
    ensures length == CharLength(value[index..])
  {
    ghost var s := value[index..];
    var character := value[index];
    var n, validSecond := 0, true;
    if 0xC2 <= character <= 0xDF {
      n := 2;
    } else if 0xE0 <= character <= 0xEF {
      n := 3;
      if index + 1 < |value| {
        var second := value[index + 1];
        validSecond := if character == 0xE0 then 0xA0 <= second <= 0xBF
                       else if character == 0xED then 0x80 <= second <= 0x9F
                       else 0x80 <= second <= 0xBF;
      }
    } else if 0xF0 <= character <= 0xF4 {
      n := 4;
      if index + 1 < |value| {
        var second := value[index + 1];
        validSecond := if character == 0xF0 then 0x90 <= second <= 0xBF
                       else if character == 0xF4 then 0x80 <= second <= 0x8F
                       else 0x80 <= second <= 0xBF;
      }
    }
    var valid := n != 0 && index + n <= |value| && validSecond;
    var continuation := 1;
    while valid && continuation < n
      invariant 1 <= continuation && (valid ==> continuation <= n || n == 0)
      invariant valid ==> n != 0 && index + n <= |value| && validSecond
      invariant valid ==> Tails(s[..continuation])
      invariant !valid ==> CharLength(s) == 0
      decreases n - continuation, valid
    {
      valid := 0x80 <= value[index + continuation] <= 0xBF;
      if valid { TailsSnoc(0, s, continuation); } else { MissingTail(s, n, continuation); }
      continuation := continuation + 1;
    }
    if !valid { return 0; }
    assert forall i | 1 <= i < n :: s[i] == s[..n][i];
    return n;
  }

  lemma MissingTail(s: seq<Byte>, n: nat, i: nat)
    requires s != [] && n == LeadLength(s[0]) && 1 <= i < n <= |s| && !Tail(s[i])
    ensures CharLength(s) == 0
  {
    if CharLength(s) > 0 { CharTails(s[..n], i); }
  }

  /** The writing loop. */
  method Write(value: seq<Byte>) returns (output: seq<Byte>)
    ensures output == Quoted(value)
  {
    output := [QUOTE];
    var index := 0;
    assert value[0..] == value;
    while index < |value|
      invariant 0 <= index <= |value| && output + Escape(value[index..]) == [QUOTE] + Escape(value)
      decreases |value| - index
    {
      ghost var s := value[index..];
      var unit, taken := WriteUnit(value, index);
      assert s[taken..] == value[index + taken..];
      Associate(output, unit, Escape(s[taken..]));
      output := output + unit;
      index := index + taken;
    }
    assert output + [] == output;
    output := output + [QUOTE];
  }

  method AppendJsonString(value: seq<Byte>) returns (output: seq<Byte>)
    ensures JsonText(output) && ValidUtf8(output) && Decode(output) == Some(Repaired(value))
    ensures ValidUtf8(value) ==> Decode(output) == Some(value)
  {
    output := Write(value);
    QuotedMeans(value);
  }

  /** The bytes written for the character or malformed byte at `index`, and how many were consumed. */
  method WriteUnit(value: seq<Byte>, index: nat) returns (unit: seq<Byte>, taken: nat)
    requires index < |value|
    ensures unit == Unit(value[index..]) && taken == Taken(value[index..])
  {
    var character := value[index];
    if character >= 0x80 {
      var length := TableLength(value, index);
      if length == 0 { return REPLACEMENT_ESCAPE, 1; }
      return value[index..index + length], length;
    }
    CharPrefix([character], value[index + 1..]);
    assert value[index..] == [character] + value[index + 1..];
    return EscapeAscii(character), 1;
  }
}
